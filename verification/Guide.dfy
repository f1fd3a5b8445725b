/**
 * The guide document and its flattening into tagged snippets
 * (netlify/functions/concierge.js, lines 29-52).
 *
 * The guide arrives already parsed from JSON. A section's content array is
 * `None` when it is absent or falsy (`(arr || [])` then iterates nothing), and
 * each array entry is either a string or some other JSON value.
 */
module Guide {
  import opened Wrappers
  import opened Text

  /** One entry of a content array: `typeof t === "string"` or anything else. */
  datatype Entry = Str(s: string) | NonString

  /** A content array, or `None` when the property is missing or falsy. */
  type Items = Option<seq<Entry>>

  /** `L.sections`: the content arrays the handler reads, one per tag. */
  datatype Sections = Sections(
    rules: Items,         // sections.rules.content
    info: Items,          // sections.info.content
    useful: Items,        // sections.useful.content
    arrival313: Items,    // sections.arrival.suite313
    arrival413: Items,    // sections.arrival.suite413
    appliances313: Items, // sections.appliances.suite313
    appliances413: Items  // sections.appliances.suite413
  )

  /**
   * The value stored under one language code: falsy (missing, `null`, `""`, ...),
   * or a truthy value whose `sections` may be missing.
   */
  datatype Localized = Falsy | Present(sections: Option<Sections>)

  /** `content`: language code to localized guide. A missing `content` is the empty map. */
  type Document = map<string, Localized>

  /** The two suites of the property, as the guide's `suite313` / `suite413` keys name them. */
  datatype Suite = S313 | S413

  /** Where a snippet comes from: its section and, for the suite-split sections, the suite. */
  datatype Tag = Rules | Info | Useful | Arrival(suite: Suite) | Appliances(suite: Suite)

  function SuiteName(s: Suite): string {
    match s
    case S313 => "313"
    case S413 => "413"
  }

  /** The tag as the handler spells it: "rules", "arrival-313", "appliances-413", ... */
  function TagName(tag: Tag): (r: string)
    ensures r != [] && '\n' !in r
  {
    match tag
    case Rules => "rules"
    case Info => "info"
    case Useful => "useful"
    case Arrival(s) => "arrival-" + SuiteName(s)
    case Appliances(s) => "appliances-" + SuiteName(s)
  }

  /** `{ tag, text }` as pushed by `add`. */
  datatype Snippet = Snippet(tag: Tag, text: string)

  const DefaultLang := "he"

  // ---------------------------------------------------------------- choosing the guide

  /**
   * `(data[lang] || data.he)?.sections`: the requested language when its value is truthy,
   * otherwise the default language when that one is truthy, otherwise nothing. A truthy
   * guide without `sections` is used as it is: there is no fallback for it.
   */
  function SelectSections(doc: Document, lang: string): (r: Option<Sections>)
    ensures lang in doc && doc[lang].Present? ==> r == doc[lang].sections
    ensures (lang !in doc || doc[lang].Falsy?) && DefaultLang in doc && doc[DefaultLang].Present? ==>
              r == doc[DefaultLang].sections
    ensures r.Some? ==> (lang in doc && doc[lang] == Present(r)) || (DefaultLang in doc && doc[DefaultLang] == Present(r))
  {
    if lang in doc && doc[lang].Present? then doc[lang].sections
    else if DefaultLang in doc && doc[DefaultLang].Present? then doc[DefaultLang].sections
    else None
  }

  // ---------------------------------------------------------------- the specification of `add`

  /** What `add` pushes for one entry: the trimmed string, when it is a non-blank string. */
  function KeepOne(e: Entry, tag: Tag): seq<Snippet> {
    if e.Str? && Trim(e.s) != [] then [Snippet(tag, Trim(e.s))] else []
  }

  /** What `add(arr, tag)` pushes for the entries of an array, in order. */
  function KeptFrom(xs: seq<Entry>, tag: Tag): (r: seq<Snippet>)
    ensures |r| <= |xs|
  {
    if xs == [] then [] else KeptFrom(xs[..|xs| - 1], tag) + KeepOne(xs[|xs| - 1], tag)
  }


  /** What `add(arr, tag)` pushes: nothing for a missing array, and only snippets tagged `tag`. */
  function Kept(items: Items, tag: Tag): (r: seq<Snippet>)
    ensures items.None? ==> r == []
    ensures forall k :: 0 <= k < |r| ==> r[k].tag == tag
  {
    match items
    case None => []
    case Some(xs) => KeptFromTags(xs, tag); KeptFrom(xs, tag)
  }

  /** Entry `i` of `xs` is a non-blank string that trims to `text`. */
  ghost predicate TrimsTo(xs: seq<Entry>, i: int, text: string) {
    0 <= i < |xs| && xs[i].Str? && Trim(xs[i].s) != [] && text == Trim(xs[i].s)
  }

  /** Every snippet `add` pushes carries its tag and the trimmed text of a non-blank string entry. */
  lemma {:induction false} KeptFromSound(xs: seq<Entry>, tag: Tag, sn: Snippet)
    requires sn in KeptFrom(xs, tag)
    ensures sn.tag == tag && exists i :: TrimsTo(xs, i, sn.text)
    decreases |xs|
  {
    var init := xs[..|xs| - 1];
    if sn in KeptFrom(init, tag) {
      KeptFromSound(init, tag, sn);
      var i :| TrimsTo(init, i, sn.text);
      assert TrimsTo(xs, i, sn.text);
    } else {
      assert TrimsTo(xs, |xs| - 1, sn.text);
    }
  }

  /** Every non-blank string entry is pushed, trimmed, under the tag. */
  lemma {:induction false} KeptFromComplete(xs: seq<Entry>, tag: Tag, i: int)
    requires 0 <= i < |xs| && xs[i].Str? && Trim(xs[i].s) != []
    ensures Snippet(tag, Trim(xs[i].s)) in KeptFrom(xs, tag)
    decreases |xs|
  {
    var init := xs[..|xs| - 1];
    if i < |xs| - 1 {
      assert init[i] == xs[i];
      KeptFromComplete(init, tag, i);
    }
  }

  /** The keep-one step taken at the end of the array, as the loop of `add` takes it. */
  lemma KeptFromSnoc(xs: seq<Entry>, i: nat, tag: Tag)
    requires i < |xs|
    ensures KeptFrom(xs[..i + 1], tag) == KeptFrom(xs[..i], tag) + KeepOne(xs[i], tag)
  {
    assert xs[..i + 1][..i] == xs[..i];
  }

  // ---------------------------------------------------------------- the specification of the collection

  /**
   * The arrival snippets: only the chosen suite's for "313" or "413", both suites' otherwise.
   * All carry an arrival tag, and a suite value of "313" or "413" admits only that suite's.
   */
  function ArrivalSnippets(sec: Sections, suite: Option<string>): (r: seq<Snippet>)
    ensures forall k :: 0 <= k < |r| ==> r[k].tag.Arrival?
    ensures suite == Some("313") ==> forall k :: 0 <= k < |r| ==> r[k].tag == Arrival(S313)
    ensures suite == Some("413") ==> forall k :: 0 <= k < |r| ==> r[k].tag == Arrival(S413)
  {
    if suite == Some("313") then Kept(sec.arrival313, Arrival(S313))
    else if suite == Some("413") then Kept(sec.arrival413, Arrival(S413))
    else Kept(sec.arrival313, Arrival(S313)) + Kept(sec.arrival413, Arrival(S413))
  }

  /**
   * Everything `add` pushes once the guide's sections are known, in the order of the calls.
   * No snippet carries an arrival tag that the suite value leaves out.
   */
  function FlattenSections(sec: Sections, suite: Option<string>): (r: seq<Snippet>)
    ensures Admits(suite, r)
  {
    var rules, info, useful := Kept(sec.rules, Rules), Kept(sec.info, Info), Kept(sec.useful, Useful);
    var arrival := ArrivalSnippets(sec, suite);
    var appliances313 := Kept(sec.appliances313, Appliances(S313));
    var appliances413 := Kept(sec.appliances413, Appliances(S413));
    AdmitsAppend(suite, rules, info);
    AdmitsAppend(suite, rules + info, useful);
    AdmitsAppend(suite, rules + info + useful, arrival);
    AdmitsAppend(suite, rules + info + useful + arrival, appliances313);
    AdmitsAppend(suite, rules + info + useful + arrival + appliances313, appliances413);
    rules + info + useful + arrival + appliances313 + appliances413
  }

  /** No snippet of `ss` carries an arrival tag that the suite value leaves out. */
  ghost predicate Admits(suite: Option<string>, ss: seq<Snippet>) {
    forall k :: 0 <= k < |ss| ==> !Dropped(suite, ss[k].tag)
  }

  lemma AdmitsAppend(suite: Option<string>, a: seq<Snippet>, b: seq<Snippet>)
    requires Admits(suite, a) && Admits(suite, b)
    ensures Admits(suite, a + b)
  {
    var ab := a + b;
    forall k | 0 <= k < |ab|
      ensures !Dropped(suite, ab[k].tag)
    {
      if k < |a| {
        assert ab[k] == a[k];
      } else {
        assert ab[k] == b[k - |a|];
      }
    }
  }

  /**
   * The snippet list of a request: empty when no guide with sections was found, and free of
   * the arrival tag the suite value leaves out.
   */
  function Flatten(doc: Document, lang: string, suite: Option<string>): (r: seq<Snippet>)
    ensures SelectSections(doc, lang).None? ==> r == []
    ensures Admits(suite, r)
  {
    match SelectSections(doc, lang)
    case None => []
    case Some(sec) => FlattenSections(sec, suite)
  }

  // ---------------------------------------------------------------- the collection, imperatively

  lemma AppendAssoc(a: seq<Snippet>, b: seq<Snippet>, c: seq<Snippet>)
    ensures a + b + c == a + (b + c)
  {
  }

  /** The `snippets` array and the `add` closure that pushes into it. */
  class SnippetCollector {
    var snippets: seq<Snippet>

    constructor ()
      ensures snippets == []
    {
      snippets := [];
    }

    /** `add(arr, tag)`: push `{ tag, text: t.trim() }` for every non-blank string `t` of `arr`. */
    method Add(items: Items, tag: Tag)
      modifies this
      ensures snippets == old(snippets) + Kept(items, tag)
    {
      if items.Some? {
        var xs := items.value;
        for i := 0 to |xs|
          invariant snippets == old(snippets) + KeptFrom(xs[..i], tag)
        {
          KeptFromSnoc(xs, i, tag);
          ghost var before := KeptFrom(xs[..i], tag);
          if xs[i].Str? && Trim(xs[i].s) != [] {
            var text := Trim(xs[i].s);
            assert KeptFrom(xs[..i + 1], tag) == before + [Snippet(tag, text)];
            AppendAssoc(old(snippets), before, [Snippet(tag, text)]);
            snippets := snippets + [Snippet(tag, text)];
          } else {
            assert KeptFrom(xs[..i + 1], tag) == before;
          }
        }
        assert xs[..|xs|] == xs;
      }
    }
  }

  /** Lines 29-52: choose the guide and run the sequence of `add` calls. */
  method CollectSnippets(doc: Document, lang: string, suite: Option<string>) returns (snippets: seq<Snippet>)
    ensures snippets == Flatten(doc, lang, suite)
  {
    var sections := SelectSections(doc, lang);
    var c := new SnippetCollector();
    if sections.Some? {
      var sec := sections.value;
      ghost var rules, info, useful := Kept(sec.rules, Rules), Kept(sec.info, Info), Kept(sec.useful, Useful);
      ghost var arrival313, arrival413 := Kept(sec.arrival313, Arrival(S313)), Kept(sec.arrival413, Arrival(S413));
      ghost var appliances313 := Kept(sec.appliances313, Appliances(S313));
      ghost var appliances413 := Kept(sec.appliances413, Appliances(S413));
      c.Add(sec.rules, Rules);
      assert c.snippets == rules by { assert [] + rules == rules; }
      c.Add(sec.info, Info);
      c.Add(sec.useful, Useful);
      ghost var common := c.snippets;
      if suite == Some("313") {
        c.Add(sec.arrival313, Arrival(S313));
      } else if suite == Some("413") {
        c.Add(sec.arrival413, Arrival(S413));
      } else {
        c.Add(sec.arrival313, Arrival(S313));
        c.Add(sec.arrival413, Arrival(S413));
        AppendAssoc(common, arrival313, arrival413);
      }
      ghost var arrival := ArrivalSnippets(sec, suite);
      assert c.snippets == common + arrival;
      c.Add(sec.appliances313, Appliances(S313));
      c.Add(sec.appliances413, Appliances(S413));
      assert c.snippets == rules + info + useful + arrival + appliances313 + appliances413;
    }
    snippets := c.snippets;
  }

  // ---------------------------------------------------------------- properties of the collection

  lemma {:induction false} KeptFromTags(xs: seq<Entry>, tag: Tag)
    ensures forall i :: 0 <= i < |KeptFrom(xs, tag)| ==> KeptFrom(xs, tag)[i].tag == tag
    decreases |xs|
  {
    if xs != [] {
      KeptFromTags(xs[..|xs| - 1], tag);
    }
  }

  /** A snippet pushed by `add(arr, tag)` carries `tag`. */
  lemma KeptTagged(items: Items, tag: Tag, sn: Snippet)
    requires sn in Kept(items, tag)
    ensures sn.tag == tag
  {
    KeptFromTags(items.value, tag);
  }

  /** The content array a tag is read from. */
  function ItemsOf(sec: Sections, tag: Tag): Items {
    match tag
    case Rules => sec.rules
    case Info => sec.info
    case Useful => sec.useful
    case Arrival(S313) => sec.arrival313
    case Arrival(S413) => sec.arrival413
    case Appliances(S313) => sec.appliances313
    case Appliances(S413) => sec.appliances413
  }

  /** The suite leaves out this arrival tag: "313" leaves out arrival-413 and "413" arrival-313. */
  predicate Dropped(suite: Option<string>, tag: Tag) {
    || (tag == Arrival(S413) && suite == Some("313"))
    || (tag == Arrival(S313) && suite == Some("413"))
  }

  /** The arrival snippets are the kept arrival entries of the suites the suite value does not leave out. */
  lemma ArrivalMembers(sec: Sections, suite: Option<string>, sn: Snippet)
    ensures sn in ArrivalSnippets(sec, suite) <==>
      sn.tag.Arrival? && !Dropped(suite, sn.tag) && sn in Kept(ItemsOf(sec, sn.tag), sn.tag)
  {
    var k313, k413 := Kept(sec.arrival313, Arrival(S313)), Kept(sec.arrival413, Arrival(S413));
    if sn in k313 {
      KeptTagged(sec.arrival313, Arrival(S313), sn);
    }
    if sn in k413 {
      KeptTagged(sec.arrival413, Arrival(S413), sn);
    }
    if suite == Some("313") {
      assert ArrivalSnippets(sec, suite) == k313;
    } else if suite == Some("413") {
      assert ArrivalSnippets(sec, suite) == k413;
    } else {
      assert ArrivalSnippets(sec, suite) == k313 + k413;
    }
    match sn.tag
    case Arrival(S313) => assert ItemsOf(sec, sn.tag) == sec.arrival313;
    case Arrival(S413) => assert ItemsOf(sec, sn.tag) == sec.arrival413;
    case _ =>
  }

  /** Every snippet pushed by `add(arr, tag)` carries `tag`. */
  lemma KeptAllTagged(items: Items, tag: Tag)
    ensures forall sn :: sn in Kept(items, tag) ==> sn.tag == tag
  {
    forall sn | sn in Kept(items, tag) {
      KeptTagged(items, tag, sn);
    }
  }

  /**
   * Membership in six consecutive parts, when each part other than the fourth carries one
   * fixed tag and the fourth only arrival tags: a snippet can only be in the part of its tag.
   */
  lemma MembersOfParts(p0: seq<Snippet>, p1: seq<Snippet>, p2: seq<Snippet>, p3: seq<Snippet>,
                       p4: seq<Snippet>, p5: seq<Snippet>, sn: Snippet)
    requires forall x :: x in p0 ==> x.tag == Rules
    requires forall x :: x in p1 ==> x.tag == Info
    requires forall x :: x in p2 ==> x.tag == Useful
    requires forall x :: x in p3 ==> x.tag.Arrival?
    requires forall x :: x in p4 ==> x.tag == Appliances(S313)
    requires forall x :: x in p5 ==> x.tag == Appliances(S413)
    ensures sn in p0 + p1 + p2 + p3 + p4 + p5 <==>
      match sn.tag
      case Rules => sn in p0
      case Info => sn in p1
      case Useful => sn in p2
      case Arrival(_) => sn in p3
      case Appliances(S313) => sn in p4
      case Appliances(S413) => sn in p5
  {
  }

  /**
   * Which snippets are collected: exactly those `add` keeps from the content array their tag
   * names, except that suite "313" leaves out arrival-413 and suite "413" leaves out
   * arrival-313. Any other suite value keeps both, and both suites' appliances are always kept.
   */
  lemma FlattenMembers(sec: Sections, suite: Option<string>, sn: Snippet)
    ensures sn in FlattenSections(sec, suite) <==>
      !Dropped(suite, sn.tag) && sn in Kept(ItemsOf(sec, sn.tag), sn.tag)
  {
    ghost var p0, p1, p2 := Kept(sec.rules, Rules), Kept(sec.info, Info), Kept(sec.useful, Useful);
    ghost var p3 := ArrivalSnippets(sec, suite);
    ghost var p4, p5 := Kept(sec.appliances313, Appliances(S313)), Kept(sec.appliances413, Appliances(S413));
    KeptAllTagged(sec.rules, Rules);
    KeptAllTagged(sec.info, Info);
    KeptAllTagged(sec.useful, Useful);
    KeptAllTagged(sec.appliances313, Appliances(S313));
    KeptAllTagged(sec.appliances413, Appliances(S413));
    forall x | x in p3
      ensures x.tag.Arrival?
    {
      ArrivalMembers(sec, suite, x);
    }
    MembersOfParts(p0, p1, p2, p3, p4, p5, sn);
    ArrivalMembers(sec, suite, sn);
    assert FlattenSections(sec, suite) == p0 + p1 + p2 + p3 + p4 + p5;
    match sn.tag
    case Rules => assert ItemsOf(sec, sn.tag) == sec.rules && !Dropped(suite, sn.tag);
    case Info => assert ItemsOf(sec, sn.tag) == sec.info && !Dropped(suite, sn.tag);
    case Useful => assert ItemsOf(sec, sn.tag) == sec.useful && !Dropped(suite, sn.tag);
    case Arrival(_) =>
    case Appliances(S313) => assert ItemsOf(sec, sn.tag) == sec.appliances313 && !Dropped(suite, sn.tag);
    case Appliances(S413) => assert ItemsOf(sec, sn.tag) == sec.appliances413 && !Dropped(suite, sn.tag);
  }

  /**
   * Every collected snippet is the trimmed, non-blank text of a string entry of the content
   * array its tag names, and its text is already trimmed.
   */
  lemma FlattenSound(sec: Sections, suite: Option<string>, sn: Snippet)
    requires sn in FlattenSections(sec, suite)
    ensures ItemsOf(sec, sn.tag).Some?
    ensures exists i :: TrimsTo(ItemsOf(sec, sn.tag).value, i, sn.text)
    ensures sn.text != [] && Trim(sn.text) == sn.text
  {
    var t := sn.tag;
    FlattenMembers(sec, suite, sn);
    assert sn in Kept(ItemsOf(sec, t), t);
    var xs := ItemsOf(sec, t).value;
    KeptFromSound(xs, sn.tag, sn);
    var i :| TrimsTo(xs, i, sn.text);
    TrimIdempotent(xs[i].s);
  }

  /** Position of a tag in the order the handler visits the sections. */
  function TagRank(tag: Tag): nat {
    match tag
    case Rules => 0
    case Info => 1
    case Useful => 2
    case Arrival(S313) => 3
    case Arrival(S413) => 4
    case Appliances(S313) => 5
    case Appliances(S413) => 6
  }

  ghost predicate TagsOrdered(ss: seq<Snippet>) {
    forall i, j :: 0 <= i < j < |ss| ==> TagRank(ss[i].tag) <= TagRank(ss[j].tag)
  }

  ghost predicate RanksWithin(ss: seq<Snippet>, lo: nat, hi: nat) {
    forall i :: 0 <= i < |ss| ==> lo <= TagRank(ss[i].tag) <= hi
  }

  lemma KeptOrdered(items: Items, tag: Tag)
    ensures TagsOrdered(Kept(items, tag))
    ensures RanksWithin(Kept(items, tag), TagRank(tag), TagRank(tag))
  {
    var ss := Kept(items, tag);
    if items.Some? {
      KeptFromTags(items.value, tag);
      assert ss == KeptFrom(items.value, tag);
    }
    assert forall i :: 0 <= i < |ss| ==> ss[i].tag == tag;
  }

  lemma ConcatOrdered(a: seq<Snippet>, b: seq<Snippet>, lo: nat, mid: nat, hi: nat)
    requires lo <= mid <= hi
    requires TagsOrdered(a) && RanksWithin(a, lo, mid)
    requires TagsOrdered(b) && RanksWithin(b, mid, hi)
    ensures TagsOrdered(a + b) && RanksWithin(a + b, lo, hi)
  {
    var ab := a + b;
    forall i | 0 <= i < |ab|
      ensures lo <= TagRank(ab[i].tag) <= hi
    {
      if i < |a| {
        assert ab[i] == a[i];
      } else {
        assert ab[i] == b[i - |a|];
      }
    }
    forall i, j | 0 <= i < j < |ab|
      ensures TagRank(ab[i].tag) <= TagRank(ab[j].tag)
    {
      if j < |a| {
        assert ab[i] == a[i] && ab[j] == a[j];
      } else if i >= |a| {
        assert ab[i] == b[i - |a|] && ab[j] == b[j - |a|];
      } else {
        assert ab[i] == a[i] && ab[j] == b[j - |a|];
      }
    }
  }

  /**
   * The collected snippets follow the order of the `add` calls: rules, info, useful,
   * arrival-313, arrival-413, appliances-313, appliances-413. In particular, when both
   * suites' arrival entries are collected, those of 313 come first.
   */
  lemma FlattenOrdered(sec: Sections, suite: Option<string>)
    ensures TagsOrdered(FlattenSections(sec, suite))
  {
    var p0, p1, p2 := Kept(sec.rules, Rules), Kept(sec.info, Info), Kept(sec.useful, Useful);
    var a3, a4 := Kept(sec.arrival313, Arrival(S313)), Kept(sec.arrival413, Arrival(S413));
    var p5, p6 := Kept(sec.appliances313, Appliances(S313)), Kept(sec.appliances413, Appliances(S413));
    KeptOrdered(sec.rules, Rules);
    KeptOrdered(sec.info, Info);
    KeptOrdered(sec.useful, Useful);
    KeptOrdered(sec.arrival313, Arrival(S313));
    KeptOrdered(sec.arrival413, Arrival(S413));
    KeptOrdered(sec.appliances313, Appliances(S313));
    KeptOrdered(sec.appliances413, Appliances(S413));
    var arrival := ArrivalSnippets(sec, suite);
    if suite != Some("313") && suite != Some("413") {
      ConcatOrdered(a3, a4, 3, 3, 4);
    }
    assert TagsOrdered(arrival) && RanksWithin(arrival, 3, 4);
    ConcatOrdered(p0, p1, 0, 0, 1);
    ConcatOrdered(p0 + p1, p2, 0, 1, 2);
    ConcatOrdered(p0 + p1 + p2, arrival, 0, 2, 4);
    ConcatOrdered(p0 + p1 + p2 + arrival, p5, 0, 4, 5);
    ConcatOrdered(p0 + p1 + p2 + arrival + p5, p6, 0, 5, 6);
  }
}
