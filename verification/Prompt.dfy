/**
 * The context block and the two prompt messages sent to the completion API
 * (netlify/functions/concierge.js, lines 70-94).
 */
module Prompt {
  import opened Text
  import opened Guide
  import opened Ranking

  /** The context used when no snippet scored above zero: one sentence in parentheses. */
  const NoExcerpts := "(" + "No relevant excerpts were found in the guide for this question." + ")"

  /**
   * The line of the snippet at 1-based `rank`: `[rank] (tag) text`. It opens with the bracket,
   * ends with the snippet's text, and holds a line feed only when that text does.
   */
  function Line(rank: nat, s: Scored): (r: string)
    ensures |s.text| < |r| && r[0] == '[' && r[|r| - |s.text|..] == s.text
    ensures '\n' in r <==> '\n' in s.text
  {
    var head := "[" + Decimal(rank) + "] (" + TagName(s.tag) + ") ";
    assert '\n' !in Decimal(rank) && '\n' !in head;
    head + s.text
  }

  /** `scored.map((s, i) => ...)`: one line per ranked snippet, numbered from 1. */
  function Lines(ranked: seq<Scored>): (ls: seq<string>)
    ensures |ls| == |ranked|
  {
    seq(|ranked|, i requires 0 <= i < |ranked| => Line(i + 1, ranked[i]))
  }

  /**
   * `contextText`: the placeholder exactly when nothing was ranked, otherwise the numbered
   * lines joined by line feeds, which begins with the first line's "[".
   */
  function ContextText(ranked: seq<Scored>): (r: string)
    ensures r == NoExcerpts <==> ranked == []
    ensures ranked != [] ==> Line(1, ranked[0]) <= r
  {
    if ranked == [] then NoExcerpts
    else
      var ls := Lines(ranked);
      assert ls[0][0] == '[';
      assert NoExcerpts[0] == '(';
      Join(ls, '\n')
  }

  /**
   * When no snippet text holds a line feed, the context splits back into exactly one line per
   * ranked snippet: line i is `[i] (tag) text`, and the number in its brackets reads back as i.
   */
  lemma ContextLines(ranked: seq<Scored>)
    requires ranked != []
    requires forall i :: 0 <= i < |ranked| ==> '\n' !in ranked[i].text
    ensures Split(ContextText(ranked), '\n') == Lines(ranked)
    ensures forall i :: 0 <= i < |ranked| ==>
      var d := Decimal(i + 1);
      && Lines(ranked)[i] == "[" + d + "] (" + TagName(ranked[i].tag) + ") " + ranked[i].text
      && DecimalValue(d) == i + 1
  {
    var ls := Lines(ranked);
    forall i | 0 <= i < |ls|
      ensures '\n' !in ls[i]
    {
      assert ls[i] == Line(i + 1, ranked[i]);
    }
    SplitJoin(ls, '\n');
    forall i | 0 <= i < |ranked|
      ensures ls[i] == "[" + Decimal(i + 1) + "] (" + TagName(ranked[i].tag) + ") " + ranked[i].text
      ensures DecimalValue(Decimal(i + 1)) == i + 1
    {
      assert ls[i] == Line(i + 1, ranked[i]);
      DecimalRoundTrip(i + 1);
    }
  }

  /**
   * `trim` keeps a line feed inside a guide entry, so such a snippet alone already spans more
   * than one line of the context.
   */
  lemma LineFeedSplitsContext(s: Scored)
    requires '\n' in s.text
    ensures |Split(ContextText([s]), '\n')| >= 2
  {
    assert ContextText([s]) == Line(1, s);
    SplitAtSomeSep(Line(1, s), '\n');
  }

  // ---------------------------------------------------------------- the two messages

  /** The system and user messages. */
  datatype Messages = Messages(system: string, user: string)

  const SystemHe :=
    "את/ה Blue, הקונסיארג' הדיגיטלי של Out of the Blue." + "\n"
    + "ענה/י אך ורק על סמך קטעי המדריך שסופקו. אסור להמציא או לנחש." + "\n"
    + "אם המידע לא נמצא בקטעים — אמור/י שאין מידע במדריך והצע/י ליצור קשר עם המארחים." + "\n"
    + "תשובה קצרה ומעשית."
  const SystemEn :=
    "You are Blue, the digital concierge for Out of the Blue." + "\n"
    + "Answer ONLY using the provided guide excerpts. Do not invent or guess." + "\n"
    + "If the information is not present, say so and suggest contacting the hosts." + "\n"
    + "Keep the answer short and practical."
  const QuestionLabelHe := "שאלת האורח/ת: "
  const ExcerptsLabelHe := "\n\nקטעי המדריך (המקור היחיד למידע):\n"
  const QuestionLabelEn := "Guest question: "
  const ExcerptsLabelEn := "\n\nGuide excerpts (your only source of truth):\n"

  /** The two system prompts differ (they are not even of the same length). */
  lemma SystemsDiffer()
    ensures SystemHe != SystemEn
  {
    assert |SystemHe| == 209;
    assert |SystemEn| == 240;
  }

  function QuestionLabel(lang: string): string {
    if lang == DefaultLang then QuestionLabelHe else QuestionLabelEn
  }

  function ExcerptsLabel(lang: string): string {
    if lang == DefaultLang then ExcerptsLabelHe else ExcerptsLabelEn
  }

  /**
   * The templates of lines 74-94: the Hebrew pair exactly when `lang` is "he". The user
   * message carries the question right after its lead and ends with the context block.
   */
  function BuildPrompt(lang: string, q: string, context: string): (p: Messages)
    ensures p.system == SystemHe <==> lang == DefaultLang
    ensures p.system == SystemEn <==> lang != DefaultLang
    ensures QuestionLabel(lang) + q <= p.user
    ensures |p.user| >= |context| && p.user[|p.user| - |context|..] == context
  {
    SystemsDiffer();
    var lead := QuestionLabel(lang);
    var user := lead + q + ExcerptsLabel(lang) + context;
    assert user == lead + q + (ExcerptsLabel(lang) + context);
    assert user[..|lead + q|] == lead + q;
    Messages(if lang == DefaultLang then SystemHe else SystemEn, user)
  }
}
