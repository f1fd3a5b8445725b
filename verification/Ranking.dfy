/**
 * Keyword scoring and ranking of the collected snippets
 * (netlify/functions/concierge.js, lines 54-68).
 */
module Ranking {
  import opened Text
  import opened Guide

  /** At most this many question words are used. */
  const MaxWords := 24
  /** At most this many snippets are kept. */
  const MaxRanked := 18

  /** `{ ...s, score }`: a snippet with its weighted score. */
  datatype Scored = Scored(tag: Tag, text: string, score: nat)

  // ---------------------------------------------------------------- the question's words

  /** `q.toLowerCase().split(/\s+/).filter(Boolean).slice(0, 24)`. */
  function QueryWords(q: string): (ws: seq<string>)
    ensures |ws| <= MaxWords
    ensures forall i :: 0 <= i < |ws| ==> ws[i] != [] && NoSpace(ws[i])
    ensures forall i :: 0 <= i < |ws| ==> forall k :: 0 <= k < |ws[i]| ==> !('A' <= ws[i][k] <= 'Z')
    ensures ws == [] <==> AllSpace(q)
  {
    var lower := Lower(q);
    var all := Words(lower);
    assert AllSpace(lower) <==> AllSpace(q);
    forall i | 0 <= i < |all|
      ensures forall k :: 0 <= k < |all[i]| ==> !('A' <= all[i][k] <= 'Z')
    {
      WordsUpperFree(lower);
    }
    Prefix(all, MaxWords)
  }

  lemma {:induction false} WordsUpperFree(s: string)
    requires forall k :: 0 <= k < |s| ==> !('A' <= s[k] <= 'Z')
    ensures forall i :: 0 <= i < |Words(s)| ==> forall k :: 0 <= k < |Words(s)[i]| ==> !('A' <= Words(s)[i][k] <= 'Z')
    decreases |s|
  {
    if s != [] {
      if IsSpace(s[0]) {
        WordsUpperFree(s[1..]);
      } else {
        WordsUpperFree(s[TokenLen(s)..]);
      }
    }
  }

  // ---------------------------------------------------------------- the raw count

  /** One question position counts: its word has at least two characters and occurs in the text. */
  predicate Hit(w: string, t: string) {
    |w| >= 2 && Includes(t, w)
  }

  /** How many positions of `ws` count against the (lower-cased) text `t`; repeats count again. */
  function RawCount(ws: seq<string>, t: string): (n: nat)
    ensures n <= |ws|
  {
    if ws == [] then 0 else RawCount(ws[..|ws| - 1], t) + (if Hit(ws[|ws| - 1], t) then 1 else 0)
  }

  /** The count is additive over the question: every position contributes on its own. */
  lemma {:induction false} RawCountAppend(a: seq<string>, b: seq<string>, t: string)
    ensures RawCount(a + b, t) == RawCount(a, t) + RawCount(b, t)
    decreases |b|
  {
    if b == [] {
      assert a + b == a;
    } else {
      assert (a + b)[..|a + b| - 1] == a + b[..|b| - 1];
      RawCountAppend(a, b[..|b| - 1], t);
    }
  }

  /** A single position counts 1 exactly when it hits; so a repeated word is counted each time. */
  lemma RawCountOne(w: string, t: string)
    ensures RawCount([w], t) == if Hit(w, t) then 1 else 0
  {
    assert [w][..0] == [];
  }

  /** A text that every counting word also hits scores at least as many raw points. */
  lemma {:induction false} RawCountMonotone(ws: seq<string>, t1: string, t2: string)
    requires forall i :: 0 <= i < |ws| && Hit(ws[i], t1) ==> Hit(ws[i], t2)
    ensures RawCount(ws, t1) <= RawCount(ws, t2)
    decreases |ws|
  {
    if ws != [] {
      var init := ws[..|ws| - 1];
      assert forall i :: 0 <= i < |init| ==> init[i] == ws[i];
      RawCountMonotone(init, t1, t2);
    }
  }

  // ---------------------------------------------------------------- the weight

  /**
   * The multiplier: 3 for tags beginning "info" or "arrival", 2 for tags beginning "rules",
   * 1 for the others.
   */
  function Weight(tag: Tag): (w: nat)
    ensures 1 <= w <= 3
    ensures w == 3 <==> StartsWith(TagName(tag), "info") || StartsWith(TagName(tag), "arrival")
    ensures w == 2 <==> StartsWith(TagName(tag), "rules")
  {
    var name := TagName(tag);
    assert StartsWith(name, "rules") ==> name[0] == 'r';
    assert StartsWith(name, "info") ==> name[0] == 'i';
    assert StartsWith(name, "arrival") ==> name[0] == 'a';
    if StartsWith(name, "info") || StartsWith(name, "arrival") then 3
    else if StartsWith(name, "rules") then 2
    else 1
  }

  /** The multiplier of each of the handler's tags. */
  lemma WeightOfTags(s: Suite)
    ensures Weight(Info) == 3 && Weight(Arrival(s)) == 3
    ensures Weight(Rules) == 2
    ensures Weight(Useful) == 1 && Weight(Appliances(s)) == 1
  {
    assert TagName(Info)[..4] == "info";
    assert TagName(Arrival(s))[..7] == "arrival";
    assert TagName(Rules)[..5] == "rules";
    assert TagName(Useful)[0] == 'u';
    assert TagName(Appliances(s))[0] == 'a' && TagName(Appliances(s))[1] == 'p';
  }

  // ---------------------------------------------------------------- the score

  /**
   * A snippet's score: the raw count against its lower-cased text, times its tag's weight.
   * It is positive exactly when some question word hits the text, and at most three points
   * per question word.
   */
  function Score(words: seq<string>, sn: Snippet): (r: nat)
    ensures r > 0 <==> RawCount(words, Lower(sn.text)) > 0
    ensures r <= 3 * |words|
  {
    var n, w := RawCount(words, Lower(sn.text)), Weight(sn.tag);
    assert n * w == if w == 3 then 3 * n else if w == 2 then 2 * n else n;
    n * w
  }

  /** The callback of `snippets.map`: count the hits in a loop, then rescale by the tag. */
  method ScoreSnippet(words: seq<string>, sn: Snippet) returns (score: nat)
    ensures score == Score(words, sn)
  {
    var t := Lower(sn.text);
    score := 0;
    for i := 0 to |words|
      invariant score == RawCount(words[..i], t)
    {
      var w := words[i];
      assert words[..i + 1][..i] == words[..i];
      if |w| >= 2 && Includes(t, w) {
        score := score + 1;
      }
    }
    assert words[..|words|] == words;
    var name := TagName(sn.tag);
    if StartsWith(name, "info") || StartsWith(name, "arrival") {
      score := score * 3;
    }
    if StartsWith(name, "rules") {
      score := score * 2;
    }
  }

  /**
   * Scoring is monotonic: of two snippets with the same tag, the one whose text every counting
   * question word of the other also hits scores at least as high.
   */
  lemma ScoreMonotone(words: seq<string>, a: Snippet, b: Snippet)
    requires a.tag == b.tag
    requires forall i :: 0 <= i < |words| && Hit(words[i], Lower(a.text)) ==> Hit(words[i], Lower(b.text))
    ensures Score(words, a) <= Score(words, b)
  {
    RawCountMonotone(words, Lower(a.text), Lower(b.text));
    ScaleMonotone(RawCount(words, Lower(a.text)), RawCount(words, Lower(b.text)), Weight(a.tag));
  }

  lemma ScaleMonotone(m: nat, n: nat, w: nat)
    requires m <= n && 1 <= w <= 3
    ensures m * w <= n * w
  {
    assert m * w == if w == 3 then 3 * m else if w == 2 then 2 * m else m;
    assert n * w == if w == 3 then 3 * n else if w == 2 then 2 * n else n;
  }

  /** With the same positive raw count, a heavier tag scores strictly higher. */
  lemma HeavierTagScoresHigher(words: seq<string>, a: Snippet, b: Snippet)
    requires RawCount(words, Lower(a.text)) == RawCount(words, Lower(b.text)) > 0
    requires Weight(a.tag) > Weight(b.tag)
    ensures Score(words, a) > Score(words, b)
  {
    var n := RawCount(words, Lower(a.text));
    var wa, wb := Weight(a.tag), Weight(b.tag);
    MoreTimesMore(n, wa, wb);
  }

  lemma MoreTimesMore(n: nat, wa: nat, wb: nat)
    requires n > 0 && 1 <= wb < wa <= 3
    ensures n * wa > n * wb
  {
    assert n * wa == if wa == 3 then 3 * n else 2 * n;
    assert n * wb == if wb == 2 then 2 * n else n;
  }

  /** No score exceeds three points per question word: at most 72 for a real question. */
  lemma ScoreBound(q: string, sn: Snippet)
    ensures Score(QueryWords(q), sn) <= 3 * MaxWords
  {
  }

  /** `snippets.map(...)`: every snippet with its score, in the same order. */
  function ScoreAll(words: seq<string>, ss: seq<Snippet>): (r: seq<Scored>)
    ensures |r| == |ss|
    ensures forall i :: 0 <= i < |r| ==> r[i].tag == ss[i].tag && r[i].text == ss[i].text
    ensures forall i :: 0 <= i < |r| ==> r[i].score <= 3 * |words|
  {
    seq(|ss|, i requires 0 <= i < |ss| => Scored(ss[i].tag, ss[i].text, Score(words, ss[i])))
  }

  lemma TakeOneMore<T>(s: seq<T>, i: nat)
    requires i < |s|
    ensures s[..i + 1] == s[..i] + [s[i]]
  {
  }

  /** Lines 57-65: apply the scoring callback to every snippet, in order. */
  method ScoreSnippets(words: seq<string>, ss: seq<Snippet>) returns (scored: seq<Scored>)
    ensures scored == ScoreAll(words, ss)
  {
    ghost var all := ScoreAll(words, ss);
    scored := [];
    for i := 0 to |ss|
      invariant scored == all[..i]
    {
      var score := ScoreSnippet(words, ss[i]);
      assert Scored(ss[i].tag, ss[i].text, score) == all[i];
      TakeOneMore(all, i);
      scored := scored + [Scored(ss[i].tag, ss[i].text, score)];
    }
    assert all[..|ss|] == all;
  }

  // ---------------------------------------------------------------- filter(score > 0)

  /** `.filter((x) => x.score > 0)`. */
  function Positives(xs: seq<Scored>): (r: seq<Scored>)
    ensures |r| <= |xs|
    ensures forall i :: 0 <= i < |r| ==> r[i].score > 0
  {
    if xs == [] then []
    else (if xs[0].score > 0 then [xs[0]] else []) + Positives(xs[1..])
  }

  /** The filter keeps exactly the positive-score elements, each as often as it occurs. */
  lemma {:induction false} PositivesCount(xs: seq<Scored>, x: Scored)
    ensures multiset(Positives(xs))[x] == if x.score > 0 then multiset(xs)[x] else 0
    decreases |xs|
  {
    if xs != [] {
      PositivesCount(xs[1..], x);
      assert xs == [xs[0]] + xs[1..];
    }
  }

  // ---------------------------------------------------------------- sort((a, b) => b.score - a.score)

  /** Non-increasing by score. */
  ghost predicate SortedDesc(l: seq<Scored>) {
    forall i, j :: 0 <= i < j < |l| ==> l[i].score >= l[j].score
  }

  /** The elements of `l` with score `k`, in order. */
  function WithScore(l: seq<Scored>, k: nat): seq<Scored> {
    if l == [] then [] else (if l[0].score == k then [l[0]] else []) + WithScore(l[1..], k)
  }

  /** Insert `x` in front of every element that does not score higher: `x` is added, nothing else changes. */
  function Insert(x: Scored, l: seq<Scored>): (r: seq<Scored>)
    ensures multiset(r) == multiset{x} + multiset(l)
  {
    if l == [] then [x]
    else if x.score >= l[0].score then [x] + l
    else
      assert l == [l[0]] + l[1..];
      [l[0]] + Insert(x, l[1..])
  }

  /** A stable sort by descending score (insertion sort from the back); a permutation of its input. */
  function SortDesc(xs: seq<Scored>): (r: seq<Scored>)
    ensures multiset(r) == multiset(xs)
  {
    if xs == [] then []
    else
      assert xs == [xs[0]] + xs[1..];
      Insert(xs[0], SortDesc(xs[1..]))
  }

  lemma ConsSorted(h: Scored, t: seq<Scored>)
    requires SortedDesc(t)
    requires forall e :: e in t ==> e.score <= h.score
    ensures SortedDesc([h] + t)
  {
    var r := [h] + t;
    forall i, j | 0 <= i < j < |r|
      ensures r[i].score >= r[j].score
    {
      assert r[j] == t[j - 1];
      if i > 0 {
        assert r[i] == t[i - 1];
      }
    }
  }

  lemma {:induction false} InsertSorted(x: Scored, l: seq<Scored>)
    requires SortedDesc(l)
    ensures SortedDesc(Insert(x, l))
    decreases |l|
  {
    if l == [] {
    } else if x.score >= l[0].score {
      forall e | e in l
        ensures e.score <= x.score
      {
        var m :| 0 <= m < |l| && l[m] == e;
        assert m == 0 || l[0].score >= l[m].score;
      }
      ConsSorted(x, l);
    } else {
      var rest := l[1..];
      InsertSorted(x, rest);
      forall e | e in Insert(x, rest)
        ensures e.score <= l[0].score
      {
        assert e in multiset(Insert(x, rest));
        if e != x {
          assert e in rest;
          var m :| 0 <= m < |rest| && rest[m] == e;
          assert l[m + 1] == e;
        }
      }
      ConsSorted(l[0], Insert(x, rest));
    }
  }

  lemma {:induction false} InsertStable(x: Scored, l: seq<Scored>, k: nat)
    requires SortedDesc(l)
    ensures WithScore(Insert(x, l), k) == (if x.score == k then [x] else []) + WithScore(l, k)
    decreases |l|
  {
    if l != [] && x.score < l[0].score {
      var rest := l[1..];
      var ins := Insert(x, rest);
      assert SortedDesc(rest) by {
        forall i, j | 0 <= i < j < |rest|
          ensures rest[i].score >= rest[j].score
        {
          assert rest[i] == l[i + 1] && rest[j] == l[j + 1];
        }
      }
      InsertStable(x, rest, k);
      var head := if l[0].score == k then [l[0]] else [];
      assert Insert(x, l) == [l[0]] + ins;
      assert ([l[0]] + ins)[1..] == ins;
      assert WithScore(Insert(x, l), k) == head + WithScore(ins, k);
      assert WithScore(l, k) == head + WithScore(rest, k);
      if x.score == k {
        assert head == [];
      } else {
        assert WithScore(ins, k) == WithScore(rest, k);
      }
    } else if l == [] {
      assert Insert(x, l)[1..] == [];
    } else {
      assert Insert(x, l)[1..] == l;
    }
  }

  /** The sort yields a non-increasing permutation of its input. */
  lemma {:induction false} SortDescFacts(xs: seq<Scored>)
    ensures SortedDesc(SortDesc(xs))
    ensures multiset(SortDesc(xs)) == multiset(xs)
    ensures |SortDesc(xs)| == |xs|
    decreases |xs|
  {
    if xs != [] {
      SortDescFacts(xs[1..]);
      InsertSorted(xs[0], SortDesc(xs[1..]));
      assert |multiset(SortDesc(xs))| == |multiset(xs)|;
    }
  }

  /** The sort is stable: the elements of every score keep their relative order. */
  lemma {:induction false} SortDescStable(xs: seq<Scored>, k: nat)
    ensures WithScore(SortDesc(xs), k) == WithScore(xs, k)
    decreases |xs|
  {
    if xs != [] {
      SortDescFacts(xs[1..]);
      SortDescStable(xs[1..], k);
      InsertStable(xs[0], SortDesc(xs[1..]), k);
    }
  }

  // ---------------------------------------------------------------- slice(0, 18)

  lemma {:induction false} WithScorePrefix(l: seq<Scored>, n: nat, k: nat)
    requires n <= |l|
    ensures WithScore(l[..n], k) <= WithScore(l, k)
    decreases n
  {
    if n > 0 {
      assert l[..n][1..] == l[1..][..n - 1];
      WithScorePrefix(l[1..], n - 1, k);
    }
  }

  lemma {:induction false} WithScorePositives(xs: seq<Scored>, k: nat)
    requires k > 0
    ensures WithScore(Positives(xs), k) == WithScore(xs, k)
    decreases |xs|
  {
    if xs != [] {
      WithScorePositives(xs[1..], k);
      if xs[0].score > 0 {
        assert ([xs[0]] + Positives(xs[1..]))[1..] == Positives(xs[1..]);
      } else {
        assert Positives(xs) == Positives(xs[1..]);
        assert WithScore(xs, k) == WithScore(xs[1..], k);
      }
    }
  }

  lemma PositivesWithin(scored: seq<Scored>)
    ensures multiset(Positives(scored)) <= multiset(scored)
  {
    forall x ensures multiset(Positives(scored))[x] <= multiset(scored)[x] {
      PositivesCount(scored, x);
    }
  }

  lemma PrefixWithin(l: seq<Scored>, n: nat)
    requires SortedDesc(l)
    ensures SortedDesc(Prefix(l, n)) && multiset(Prefix(l, n)) <= multiset(l)
  {
    var r := Prefix(l, n);
    assert l == r + l[|r|..];
  }

  lemma RankFacts(scored: seq<Scored>)
    ensures var r := Prefix(SortDesc(Positives(scored)), MaxRanked);
      && (forall i :: 0 <= i < |r| ==> r[i].score > 0)
      && SortedDesc(r)
      && multiset(r) <= multiset(scored)
  {
    var positives := Positives(scored);
    var sorted := SortDesc(positives);
    SortDescFacts(positives);
    PositivesWithin(scored);
    var r := Prefix(sorted, MaxRanked);
    PrefixWithin(sorted, MaxRanked);
    forall i | 0 <= i < |r|
      ensures r[i].score > 0
    {
      assert r[i] == sorted[i];
      assert r[i] in multiset(positives);
      var j :| 0 <= j < |positives| && positives[j] == r[i];
    }
  }

  /**
   * The ranked list: the positive-score snippets, stable-sorted by descending score, cut to
   * the first 18. It holds only positive scores, in non-increasing order, at most 18 of
   * them, all taken from the input, and exactly 18 unless fewer scored above zero.
   */
  function RankScored(scored: seq<Scored>): (r: seq<Scored>)
    ensures |r| <= MaxRanked
    ensures forall i :: 0 <= i < |r| ==> r[i].score > 0
    ensures SortedDesc(r)
    ensures multiset(r) <= multiset(scored)
    ensures |r| == Min(MaxRanked, |Positives(scored)|)
  {
    RankFacts(scored);
    SortDescFacts(Positives(scored));
    Prefix(SortDesc(Positives(scored)), MaxRanked)
  }

  /**
   * The ranked list of a request: lines 54-68 on the collected snippets. Each entry is one of
   * the snippets, with that snippet's own positive score.
   */
  function Rank(words: seq<string>, snippets: seq<Snippet>): (r: seq<Scored>)
    ensures |r| <= MaxRanked && |r| <= |snippets|
    ensures forall i :: 0 <= i < |r| ==>
      var sn := Snippet(r[i].tag, r[i].text);
      sn in snippets && r[i].score == Score(words, sn) > 0
  {
    var scored := ScoreAll(words, snippets);
    var r := RankScored(scored);
    RankedFromInput(scored, r);
    assert |Positives(scored)| <= |scored|;
    r
  }

  /** An entry of a sub-multiset of the scored list is one of its entries. */
  lemma RankedFromInput(scored: seq<Scored>, r: seq<Scored>)
    requires multiset(r) <= multiset(scored)
    ensures forall i :: 0 <= i < |r| ==> r[i] in scored
  {
    forall i | 0 <= i < |r|
      ensures r[i] in scored
    {
      assert r[i] in multiset(r);
    }
  }

  /** Among equal scores the ranking keeps the flattening order, and keeps the earliest ones. */
  lemma RankStable(scored: seq<Scored>, k: nat)
    requires k > 0
    ensures WithScore(RankScored(scored), k) <= WithScore(scored, k)
  {
    var positives := Positives(scored);
    var sorted := SortDesc(positives);
    var r := RankScored(scored);
    assert r == sorted[..|r|];
    WithScorePrefix(sorted, |r|, k);
    SortDescStable(positives, k);
    WithScorePositives(scored, k);
  }

  /** In a non-increasing list, whatever lies past a cut scores at most what lies before it. */
  lemma CutKeepsBest(sorted: seq<Scored>, n: nat, x: Scored)
    requires SortedDesc(sorted) && n <= |sorted|
    requires multiset(sorted)[x] > multiset(sorted[..n])[x]
    ensures forall i :: 0 <= i < n ==> x.score <= sorted[i].score
  {
    var kept, rest := sorted[..n], sorted[n..];
    assert sorted == kept + rest;
    assert multiset(sorted)[x] == multiset(kept)[x] + multiset(rest)[x];
    assert x in multiset(rest);
    var j :| 0 <= j < |rest| && rest[j] == x;
    assert sorted[n + j] == x;
  }

  /** Nothing that was cut scores higher than anything that was kept. */
  lemma RankKeepsBest(scored: seq<Scored>, x: Scored, y: Scored)
    requires multiset(Positives(scored))[x] > multiset(RankScored(scored))[x]
    requires y in RankScored(scored)
    ensures x.score <= y.score
  {
    var sorted := SortDesc(Positives(scored));
    SortDescFacts(Positives(scored));
    var r := RankScored(scored);
    assert r == sorted[..|r|];
    CutKeepsBest(sorted, |r|, x);
    var i :| 0 <= i < |r| && r[i] == y;
  }

  /** When at most 18 snippets score above zero, all of them are ranked. */
  lemma RankKeepsAllWhenFew(scored: seq<Scored>)
    requires |Positives(scored)| <= MaxRanked
    ensures multiset(RankScored(scored)) == multiset(Positives(scored))
  {
    SortDescFacts(Positives(scored));
  }
}
