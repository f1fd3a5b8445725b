# Concierge retrieval and prompt assembly, in Dafny

This project models the request handler of the "Out of the Blue" digital concierge
(`netlify/functions/concierge.js`). A guest posts a question together with the whole guide
document. The handler:

- checks the request;
- flattens the guide's sections for the requested language into tagged text snippets;
- scores each snippet by how many of the question's words it contains, weighted by its section;
- keeps at most 18 of the best, in a stable order;
- renders them as a numbered context block;
- builds a Hebrew or an English system/user message pair;
- sends that pair to a chat-completion API and returns the trimmed answer.

The model has six modules:

- `Wrappers`: `Option`.
- `Text`: the JavaScript string built-ins the handler uses:
  - `trim`;
  - `toLowerCase`;
  - `split(/\s+/).filter(Boolean)`;
  - `includes` and `startsWith`;
  - `slice(0, n)`;
  - `${n}` for a number;
  - `join("\n")` and its inverse.
- `Guide`: the guide document and snippet flattening.
  - The `add` closure, which pushes snippets into a shared array in place, is the class
    `SnippetCollector`. Its method `Add` appends to the `snippets` field.
  - `CollectSnippets` runs the section-by-section calls of the handler. It is proved equal to
    the value-level specification `Flatten`.
- `Ranking`: scoring, filtering, stable sorting and the cut to 18.
  - The per-snippet counting loop is the method `ScoreSnippet`. It is proved against the
    function `Score`.
  - `Array.prototype.sort` is stable, so it is specified as a stable insertion sort
    (`SortDesc`).
- `Prompt`: the context block and the two message templates, with the exact strings of the
  source.
- `Handler`: the early returns and the whole request, as the method `Handle`.
  - It returns the reply and the call it makes to the completion API (the authorization header
    and the two messages).
  - The API's response is a parameter of the method. It is refused with a status and a raw
    body, accepted with the first choice's message content, or an exception with its message.
  - The API key is a parameter too (`None` when the environment variable is unset).

Four behaviours of the code are worth stating on their own:

- **Language fallback.** The handler falls back to the "he" guide only when `content[lang]` is
  falsy. A truthy `content[lang]` without `sections` gives no snippets and no fallback (see
  `Guide.SelectSections`).
- **Upstream failure.** When the completion API refuses, the handler answers 500 with the
  API's status and body, not 200.
- **Answer extraction.** Only `choices[0].message.content` is read, and it defaults to `""`.
- **Line feeds in the guide.** `trim` keeps a line feed inside a guide entry, so such an entry
  spans several lines of the context block (see `Prompt.LineFeedSplitsContext`).

## Model

| member | source | states |
|---|---|---|
| `Text.Trim` | netlify/functions/concierge.js:34 | The result is empty exactly when the input is all JavaScript white space. Otherwise it is the infix after the leading white space, with a non-space first and last character. Everything removed on either side is white space. |
| `Text.TrimIdempotent` | netlify/functions/concierge.js:25 | Trimming an already trimmed string changes nothing. |
| `Text.Lower` | netlify/functions/concierge.js:54 | Same length. Every ASCII capital becomes the lower-case letter at the same alphabet position, and every other character stays as it is. So no capital is left and white space stays white space. |
| `Text.Words` | netlify/functions/concierge.js:55 | Every word is non-empty and free of white space. There are no words exactly when the string is blank. |
| `Text.WordsSplitAtSpace` | netlify/functions/concierge.js:55 | A white-space character separates words: the words of `a c b` are the words of `a` followed by the words of `b`. |
| `Text.WordsOfWord` | netlify/functions/concierge.js:55 | A non-empty run without white space splits into exactly itself. |
| `Text.Prefix` | netlify/functions/concierge.js:68 | `slice(0, n)` keeps `min(n, length)` elements and is a prefix of its input. |
| `Text.Includes` | netlify/functions/concierge.js:61 | A string can occur in the text only if it is no longer than the text, and the empty string occurs in every text. |
| `Text.StartsWith` | netlify/functions/concierge.js:62-63 | When the prefix test holds, the string is the prefix followed by the rest of the string. |
| `Text.Decimal` | netlify/functions/concierge.js:71 | The numeral is non-empty, all digits, and has no leading zero unless the number is 0. |
| `Text.DecimalRoundTrip` | netlify/functions/concierge.js:71 | Reading the numeral back gives the number it was made from. |
| `Text.Join` | netlify/functions/concierge.js:71 | A non-empty join begins with its first line. |
| `Text.SplitAtSomeSep` | netlify/functions/concierge.js:71 | A string that holds the separator splits into at least two pieces. |
| `Text.SplitJoin` | netlify/functions/concierge.js:71 | Splitting a `join` on the separator gives back the lines, provided no line holds the separator. |
| `Guide.TagName` | netlify/functions/concierge.js:38-51 | Every tag name is non-empty and holds no line feed. |
| `Guide.SelectSections` | netlify/functions/concierge.js:29-37 | The requested language's sections are used when its guide is truthy, even when it has none. Otherwise the "he" guide's sections are used when that guide is truthy. Any sections found come from one of those two guides. |
| `Guide.KeptFrom` | netlify/functions/concierge.js:33-35 | `add` never pushes more snippets than the array has entries. |
| `Guide.KeptFromSound` | netlify/functions/concierge.js:33-35 | Every pushed snippet carries the call's tag and the trimmed text of a non-blank string entry of the array. |
| `Guide.KeptFromComplete` | netlify/functions/concierge.js:33-35 | Every non-blank string entry is pushed, trimmed, under the call's tag. |
| `Guide.Kept` | netlify/functions/concierge.js:33-35 | A missing or falsy array yields nothing. Every snippet kept from an array carries the tag of that `add` call. |
| `Guide.SnippetCollector.constructor` | netlify/functions/concierge.js:32 | The snippet array starts empty. |
| `Guide.SnippetCollector.Add` | netlify/functions/concierge.js:33-35 | One `add` call appends, in place and in array order, exactly the kept snippets of the array. A missing or falsy array appends nothing. |
| `Guide.CollectSnippets` | netlify/functions/concierge.js:29-52 | The snippets collected by the sequence of `add` calls are exactly `Flatten`: nothing when no guide with sections is found, otherwise the sections in the handler's order with the suite choice. |
| `Guide.ArrivalSnippets` | netlify/functions/concierge.js:42-47 | All arrival snippets carry an arrival tag. For suite "313" they all carry arrival-313, and for suite "413" they all carry arrival-413. |
| `Guide.FlattenSections` | netlify/functions/concierge.js:37-51 | No collected snippet carries the arrival tag that the suite value leaves out. |
| `Guide.Flatten` | netlify/functions/concierge.js:29-52 | Nothing is collected when no guide with sections is found. No collected snippet carries the arrival tag that the suite value leaves out. |
| `Guide.KeptTagged` | netlify/functions/concierge.js:33-35 | A snippet pushed by one `add` call carries that call's tag. |
| `Guide.ArrivalMembers` | netlify/functions/concierge.js:42-47 | A snippet is among the arrival snippets exactly when it has an arrival tag that the suite value does not leave out and was kept from that suite's arrival array. |
| `Guide.FlattenMembers` | netlify/functions/concierge.js:37-51 | A snippet is collected exactly when `add` keeps it from the content array its tag names and the suite does not leave its tag out. Suite "313" leaves out arrival-413, and suite "413" leaves out arrival-313. Any other value keeps both. Both suites' appliances are always kept. |
| `Guide.FlattenSound` | netlify/functions/concierge.js:33-51 | Every flattened snippet comes from a non-blank string entry of its own section. Its text is non-empty and already trimmed. |
| `Guide.FlattenOrdered` | netlify/functions/concierge.js:37-51 | The flattened snippets appear in the fixed section order: rules, info, useful, arrival-313, arrival-413, appliances-313, appliances-413. |
| `Ranking.QueryWords` | netlify/functions/concierge.js:54-55 | At most 24 words. Each is non-empty, free of white space and free of upper-case letters. There are none exactly when the question is blank. |
| `Ranking.RawCount` | netlify/functions/concierge.js:61 | The raw count never exceeds the number of question words. |
| `Ranking.RawCountAppend` | netlify/functions/concierge.js:61 | The count is additive over the question's words, so each position counts on its own. |
| `Ranking.RawCountOne` | netlify/functions/concierge.js:61 | One word counts 1 exactly when it has at least two characters and occurs in the text. A word repeated in the question therefore counts at each occurrence. |
| `Ranking.RawCountMonotone` | netlify/functions/concierge.js:61 | A text hit by every word that hits another text has at least its raw count. |
| `Ranking.Weight` | netlify/functions/concierge.js:62-63 | The multiplier is 3 exactly for tags starting with "info" or "arrival". It is 2 exactly for tags starting with "rules". It is 1 otherwise. |
| `Ranking.WeightOfTags` | netlify/functions/concierge.js:62-63 | info and both arrival tags weigh 3, rules weighs 2, useful and both appliances tags weigh 1. |
| `Ranking.Score` | netlify/functions/concierge.js:58-64 | A score is positive exactly when some question word hits the text, whatever the tag. It is at most three points per question word. |
| `Ranking.ScoreSnippet` | netlify/functions/concierge.js:58-64 | The counting loop followed by the two in-place multiplications yields exactly the raw count times the tag's weight. |
| `Ranking.ScoreMonotone` | netlify/functions/concierge.js:58-64 | For the same tag, a snippet whose text is hit by every word that hits another's scores at least as high. |
| `Ranking.HeavierTagScoresHigher` | netlify/functions/concierge.js:62-63 | With equal positive raw counts, the more heavily weighted tag scores strictly higher. |
| `Ranking.ScoreBound` | netlify/functions/concierge.js:55-63 | No score exceeds 3 × 24. |
| `Ranking.ScoreAll` | netlify/functions/concierge.js:57-65 | One entry per snippet, in the same order, with the snippet's own tag and text. No score exceeds three points per question word. |
| `Ranking.ScoreSnippets` | netlify/functions/concierge.js:57-65 | The `map` yields, snippet by snippet and in order, the snippet with its score. |
| `Ranking.Positives` | netlify/functions/concierge.js:66 | The filter keeps only positive scores and never grows the list. |
| `Ranking.PositivesCount` | netlify/functions/concierge.js:66 | Each positive-score element keeps its multiplicity. Each zero-score element is dropped. |
| `Ranking.Insert` | netlify/functions/concierge.js:67 | Inserting adds exactly the new element: the result's multiset is the old one plus that element. |
| `Ranking.SortDesc` | netlify/functions/concierge.js:67 | The sort is a permutation of its input. |
| `Ranking.InsertSorted` | netlify/functions/concierge.js:67 | Inserting into a descending list keeps it descending. |
| `Ranking.InsertStable` | netlify/functions/concierge.js:67 | The inserted element goes before every element of equal score that was already there, which is what makes the sort stable. |
| `Ranking.SortDescFacts` | netlify/functions/concierge.js:67 | The sort yields a non-increasing list that is a permutation of its input. |
| `Ranking.SortDescStable` | netlify/functions/concierge.js:67 | Elements of equal score keep their relative order. |
| `Ranking.RankScored` | netlify/functions/concierge.js:66-68 | The ranked list holds at most 18 entries. All are positive and non-increasing, and all are taken from the input. There are exactly `min(18, number of positive scores)` of them. |
| `Ranking.Rank` | netlify/functions/concierge.js:54-68 | At most 18 entries, and no more than there are snippets. Each entry is one of the collected snippets, carrying that snippet's own score, which is positive. |
| `Ranking.RankStable` | netlify/functions/concierge.js:66-68 | For every positive score, the ranked entries with that score are a prefix of the input's entries with that score: stable, and the earliest survive the cut. |
| `Ranking.CutKeepsBest` | netlify/functions/concierge.js:68 | An element of a descending list that falls outside its first n scores no more than any of them. |
| `Ranking.RankKeepsBest` | netlify/functions/concierge.js:66-68 | A positive-score snippet cut from the ranking scores no more than any snippet that was kept. |
| `Ranking.RankKeepsAllWhenFew` | netlify/functions/concierge.js:66-68 | With at most 18 positive scores, the ranking keeps all of them. |
| `Prompt.Line` | netlify/functions/concierge.js:71 | A line opens with `[` and ends with the snippet's text. It holds a line feed exactly when the text does. |
| `Prompt.Lines` | netlify/functions/concierge.js:71 | One line per ranked snippet. |
| `Prompt.ContextText` | netlify/functions/concierge.js:70-72 | The context is the placeholder sentence exactly when nothing was ranked. Otherwise it begins with the line of the best snippet. |
| `Prompt.ContextLines` | netlify/functions/concierge.js:70-71 | When no snippet text holds a line feed, the context splits on line feeds into exactly one line per ranked snippet. Line i reads `[i] (tag) text`, and its numeral reads back as i. |
| `Prompt.LineFeedSplitsContext` | netlify/functions/concierge.js:70-71 | `trim` keeps inner line feeds. So one ranked snippet whose text holds a line feed already splits the context into at least two lines. |
| `Prompt.SystemsDiffer` | netlify/functions/concierge.js:76-84 | The Hebrew and English system prompts are different texts. |
| `Prompt.BuildPrompt` | netlify/functions/concierge.js:74-94 | The Hebrew system prompt is used exactly when the language is "he", and the English one exactly otherwise. The user message starts with the localized question label followed by the question. It ends with the context block. |
| `Handler.PayloadOf` | netlify/functions/concierge.js:17-22 | Only a body that is not JSON fails to parse. A missing or empty body parses as the empty object. |
| `Handler.HasKey` | netlify/functions/concierge.js:9-10 | The key check fails exactly for the key's two falsy values: unset, or the empty string. |
| `Handler.Lang` | netlify/functions/concierge.js:24 | The language is the one given, or "he" when the field is absent. |
| `Handler.Question` | netlify/functions/concierge.js:24-26 | The question is empty exactly when it is absent or blank. |
| `Handler.Admitted` | netlify/functions/concierge.js:5-26 | A request that passes every check had a JSON body carrying a question that is not blank. |
| `Handler.Handle` | netlify/functions/concierge.js:5-129 | The checks run in source order: 405 for a method other than POST, then 500 for a missing key, then 400 for a body that is not JSON, then 400 for a blank question. The API is called exactly when all four pass, with the bearer key and the messages built from the ranked snippets. The reply is then 500 carrying the API's status and body if it refused, and 500 "Server error" with the exception's message if the exchange threw. Otherwise it is 200 with the trimmed answer and the number of snippets sent (at most 18). |

## Left out

- Sending the HTTP request (lines 96-111). The model name and the sampling temperature are not
  modelled either. The call is returned as a value, and the API's response is a parameter of
  `Handle`.
- Reading `process.env.OPENAI_API_KEY` (line 9). The key is a parameter.
- `JSON.parse` of the request body (line 19) and of the API's reply (line 121).
  - The body arrives already parsed (`Parsed`), missing (`Absent`) or unparseable (`Malformed`).
  - The reply arrives as the optional content of the first choice.
- Exceptions from the API exchange are one case, `Threw`, of the response parameter. This
  covers a `fetch` that rejects (line 97), a body that cannot be read (line 113), a reply that
  is not JSON (line 121) and a truthy message content that is not a string (line 122). `Handle`
  answers each of them with the catch-all 500 "Server error" of lines 128-129. The model does
  not tell these causes apart. The exception's text is a parameter. A falsy message content is
  `Accepted(None)` and gives an empty answer.
- The catch-all is also reached by exceptions that the model's types rule out. These paths are
  not modelled:
  - a truthy question that is not a string (`trim` throws, line 25);
  - a truthy section array that is not an array (`forEach` throws, line 33);
  - a JSON body of `null`.
- Handler.PayloadOf: models only the fields the handler reads, typed as the guide format
  intends. An object without those fields parses to absent fields. A JSON value that is not
  an object is not modelled.
- Text.Lower: lower-cases only ASCII letters. JavaScript's `toLowerCase` also folds non-ASCII
  letters, and can change a string's length for a few characters.
- Lengths and indices are counted in Unicode code points, not UTF-16 code units. This matters
  only for the two-character minimum on question words outside the Basic Multilingual Plane.
- Guide.SelectSections: inherited properties of the guide object (`content["constructor"]`,
  ...) are not modelled. A language code is only looked up among the guide's own keys.
