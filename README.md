# COM-B model handler, modelled in Dafny

`LlamaModelHandler` (`model_handler.py`) codes a piece of interview transcript against the
six categories of the COM-B behaviour-change framework. It does five things:

1. It loads the categories, their positive and negative indicators and their coding examples
   from the database once.
2. It builds a prompt from them (`_create_coding_prompt`).
3. It sends the prompt to a local Llama model and strips the completion text.
4. It recovers the model's `{"categories": [...]}` answer from the completion (`code_text`):
   - every '{' position is tried as a candidate start, from the last one back;
   - the matching '}' is found by a naive depth count;
   - the first candidate that decodes and has a "categories" key is the answer;
   - only categories with a confidence strictly above 60 are kept.
5. It stores one `analysis_results` row per kept category whose name is known, then commits
   (`_store_results`). It returns the kept result with a fresh session id, or one of three error
   dictionaries.

The model follows the code's own structure:

| file | module | contents |
|---|---|---|
| `json.dfy` | `Json` | decoded JSON values; `json.loads` as a `Parser` function |
| `braces.dfy` | `Braces` | brace depth, the brace scan (`FindEnd`) and its specification `MatchingEnd` |
| `extraction.dfy` | `Extraction` | the reverse candidate search (`FindAnswer`) and its specification `Extract` |
| `confidence.dfy` | `Confidence` | the confidence filter, with Python's comparison and iteration rules |
| `metadata.dfy` | `Metadata` | the loaders (`LoadIndicators`, `LoadExamples`) and `category_id_by_name` |
| `prompt.dfy` | `Prompt` | the prompt text, section by section, and what it shows |
| `completion.dfy` | `Completion` | `str.strip()` |
| `store.dfy` | `Store` | the database session as a class, and the records `_store_results` adds |
| `handler.dfy` | `ModelHandler` | the `Handler` class (`CreateCodingPrompt`, `StoreResults`, `CodeText`) and `Analyze`, the outcome of `code_text` as a function |

Some parts of the handler are passed in as parameters:
- The model is a function from prompt to completion text.
- `json.loads` is a `Parser`: a function from text to an optional object. `None` stands for
  `JSONDecodeError`. Every candidate starts with '{', so a candidate that decodes decodes to a
  dict.
- The uuid is a `sessionId` argument.

The database session is the class `Store.Session`. It has two fields:
- `committed`: the records already committed;
- `pending`: the records added since the last commit.

Each method of `Handler` is proved against a specification function:
- `CreateCodingPrompt` returns `PromptText`;
- `StoreResults` has the effect `StoreEffect`;
- `CodeText` returns the outcome given by `Analyze`, and has its effect.

Every error `code_text` can meet on a decoded object ends in the generic `except Exception`. The
model returns `ProcessingError` in each of these cases:
- an entry that is not an object has no `.get`;
- a string, list, object or null confidence cannot be compared with 60;
- a "categories" value that is not a list cannot be iterated as one. A number, boolean, null, or
  a non-empty string or object raises. An empty string or object yields no entries.
- a list or object category name cannot be hashed. This exception is raised inside
  `_store_results`, after some records may already have been added. Those records stay pending
  and are not committed.

The entries the outcome and the lemmas speak about are these:
- The *found* candidate is the one at the greatest '{' position whose text closes, decodes and
  has a "categories" key. Every later candidate was tried and rejected.
- An entry is *accepted* when its confidence compares above 60. A missing confidence counts as 0.
  A JSON boolean counts as 0 or 1, as in Python.

## Model

| member | source | states |
|---|---|---|
| Braces.FindEnd | model_handler.py:192-203 | The scan from a '{' returns a positive end exactly when some prefix of that candidate reaches depth 0. The end is the first such point, given by `MatchingEnd`. Otherwise the result is -1. |
| Braces.MatchingEndSpec | model_handler.py:195-203 | The matching end brings the depth count back to 0. No earlier point does. When there is no match, no point after the start does. |
| Braces.CandidateShape | model_handler.py:195-207 | A candidate slice begins with '{', ends with '}' and has at least two characters. It is balanced overall, and every proper prefix of it is still open. |
| Braces.OpenBracesSpec | model_handler.py:183 | The brace list holds exactly the '{' positions, in strictly increasing order. |
| Extraction.SearchBackFails | model_handler.py:190-211 | The reverse search finds nothing exactly when no start in the list qualifies. |
| Extraction.SearchBackStopsAtLast | model_handler.py:190-211 | A found start is in the list, and no later start in the list qualifies. |
| Extraction.FindAnswer | model_handler.py:183-232 | The outer loop, with its early `NoBrace` exit, returns exactly `Extract`. |
| Extraction.NoBraceIff | model_handler.py:183-187 | The first failure happens exactly when the text has no '{'. |
| Extraction.NoCandidateIff | model_handler.py:189-232 | The second failure happens exactly when the text has some '{' and no '{' position qualifies. |
| Extraction.FoundIsLastQualifying | model_handler.py:190-211 | A found answer is at a '{' that qualifies, ends at its matching brace, and holds the decoded object with a "categories" key. No later '{' qualifies. |
| Extraction.EarlierCandidatesIgnored | model_handler.py:190-228 | Two decoders that agree on the candidates from the found start onwards give the same answer. The search never looks at earlier candidates. |
| Confidence.FilterRaisesIff | model_handler.py:214-217 | The comprehension raises exactly when some entry has no `.get` or has an uncomparable confidence. |
| Confidence.FilterKeepsAccepted | model_handler.py:214-217 | When it does not raise, the kept list is no longer than the input. An entry is kept exactly when it is in the input and accepted. |
| Confidence.FilterAppend | model_handler.py:214-217 | The filter works entry by entry and keeps their order. When neither part raises, filtering a concatenation concatenates the filtered parts. |
| Confidence.FilterAppendRaises | model_handler.py:214-217 | The filter raises on a concatenation exactly when it raises on either part. |
| Confidence.FilterSingle | model_handler.py:216 | An entry the condition does not raise on is kept exactly when it is accepted. |
| Confidence.ThresholdIsStrict | model_handler.py:216 | An object with a numeric confidence is kept exactly when the number is strictly above 60. The same object without a confidence is dropped. |
| Metadata.LoadIndicators | model_handler.py:59-71 | Loading succeeds exactly when every row names a known category and the type 'positive' or 'negative'. The lists are then keyed by exactly the category ids, and each holds that category's texts of that type in row order. |
| Metadata.LoadExamples | model_handler.py:73-85 | Loading succeeds exactly when every row names a known category. The lists are then keyed by exactly the category ids, and hold each category's examples in row order. |
| Metadata.TextsOfMember | model_handler.py:68-69 | A text is listed for a category and a type exactly when some row of that category and type carries it. |
| Metadata.TextsOfAppend | model_handler.py:68-69 | The texts of concatenated rows are the concatenated texts. |
| Metadata.ExamplesOfAppend | model_handler.py:79-83 | The examples of concatenated rows are the concatenated examples, so each list keeps query order. |
| Metadata.ExamplesOfSingle | model_handler.py:79-83 | A single row adds its example to its own category's list only. With `ExamplesOfAppend`, a category's first example is its first row in query order. |
| Metadata.ExamplesOfMember | model_handler.py:79-83 | An example is listed for a category exactly when some row of that category carries its text and explanation. |
| Metadata.IdByNameKeys | model_handler.py:255 | A name is a key of `category_id_by_name` exactly when some category has that name. |
| Metadata.IdByNameSpec | model_handler.py:255 | A name maps to the id of the last category with that name. |
| Metadata.IdByNameDistinct | model_handler.py:255 | When the names are distinct, each category's name maps to its own id. |
| Prompt.FirstThree | model_handler.py:110 | The slice `[:3]` is the leading min(n, 3) elements. |
| Prompt.CategoryLinesContain | model_handler.py:102-103 | Every category's name-and-description line is in the category section. |
| Prompt.IndicatorSectionContains | model_handler.py:106-113 | Every category's indicator block is in the indicator section. |
| Prompt.ExampleSectionContains | model_handler.py:116-120 | Every category's example block is in the example section. |
| Prompt.IndicatorSectionSame | model_handler.py:106-113 | The indicator section depends only on each category's first three positive indicators. |
| Prompt.ExampleSectionSame | model_handler.py:116-120 | The example section depends only on whether each category has examples, and on the first one. |
| Prompt.PromptShowsEveryCategory | model_handler.py:97-144 | The prompt contains every category's line, its indicator block and its example block. |
| Prompt.PromptShowsOnlyLeadingPositives | model_handler.py:106-113 | Indicator lists that agree on their first three positive entries give the same prompt, whatever their negative entries. |
| Prompt.PromptShowsOnlyFirstExample | model_handler.py:115-120 | Example lists that agree on emptiness and on their first example give the same prompt. |
| Prompt.PromptEndsWithQuotedText | model_handler.py:142-144 | The prompt ends with the input text in double quotes and a newline. |
| Completion.StripSpec | model_handler.py:173 | The stripped text is a slice of the input with only whitespace cut on either side. It is empty or begins and ends with a non-space character. |
| Store.Session.Add | model_handler.py:273 | Adding appends one record to the pending ones. Nothing is committed. |
| Store.Session.Commit | model_handler.py:276 | Committing moves every pending record to the committed ones, in order. |
| Store.StoreTraceRecords | model_handler.py:258-273 | Every record added carries the text, the session id and a known category id. The loop completes exactly when no entry raises. A completed loop adds a record exactly when some entry with a known name gives it. |
| Store.StoreTraceSingle | model_handler.py:258-273 | One entry either raises and adds nothing, or adds exactly its own record, or is skipped. With `StoreTraceAppend` this fixes the records of a list: one per entry with a known name, in entry order. |
| Store.StoreSkipsUnknownName | model_handler.py:262-264 | An entry whose name is unknown, missing, or not a string changes nothing. |
| Store.StoreTraceAppend | model_handler.py:258-273 | Storing works entry by entry, in order, and stops at the first entry that raises. |
| ModelHandler.NoJsonFoundIff | model_handler.py:183-187 | `code_text` returns the first error exactly when the stripped completion has no '{'. The error carries the completion verbatim, and nothing is stored. |
| ModelHandler.NoStructuredResultIff | model_handler.py:189-232 | The second error is returned exactly when braces exist but no candidate qualifies. The error keeps the completion verbatim, and nothing is stored. |
| ModelHandler.OpenWithoutClose | model_handler.py:195-203 | Without any '}', the depth count from a '{' never returns to 0. |
| ModelHandler.UnclosedIsNoStructuredResult | model_handler.py:195-205 | A completion with a '{' and no '}' gives the second error, not the first. |
| ModelHandler.CodedSpec | model_handler.py:205-225 | A success comes from the last qualifying candidate. Its "categories" are exactly the accepted entries. "session_id" is the given id, and the other keys are kept as decoded. It commits records that carry the text, the id, a known category and a confidence above 60. |
| ModelHandler.CodedRecordsEveryKnownEntry | model_handler.py:219-225 | On a success, every kept entry with a known name has its record committed. |
| ModelHandler.NothingAcceptedIsCoded | model_handler.py:212-225 | When no entry is accepted, the outcome is still a success with an empty category list, and the commit adds nothing. |
| ModelHandler.SessionIdOnlyDifference | model_handler.py:157 | Two session ids give the same outcome kind, the same result apart from "session_id", and the same records apart from their session id. |
| ModelHandler.TraceIgnoresSessionId | model_handler.py:267-272 | The records added differ only in their session id. |
| ModelHandler.AddIndicatorBlock | model_handler.py:107-113 | One pass of the indicator loop appends exactly the category's `IndicatorBlock`: its name line, its leading positive bullets and a blank line. |
| ModelHandler.AddBullets | model_handler.py:111-112 | The bullet loop appends "- indicator" lines, in order. |
| ModelHandler.Handler.constructor | model_handler.py:43-46 | The handler keeps the loaded categories, indicators and examples, keyed by exactly the category ids. |
| ModelHandler.Handler.Load | model_handler.py:43-46 | The loaders run in order over the query rows. The handler is built exactly when neither raises. Its lists are then those of `GroupsOf` and `ExamplesOf` for every category id. |
| ModelHandler.Handler.ValidCovers | model_handler.py:59-85 | Every category has indicator lists and an example list. |
| ModelHandler.Handler.AddCategoryLines | model_handler.py:101-103 | The first loop appends the category section. |
| ModelHandler.Handler.AddIndicatorSection | model_handler.py:105-113 | The second loop appends the indicator section. |
| ModelHandler.Handler.AddExampleSection | model_handler.py:115-120 | The third loop appends the example section. |
| ModelHandler.Handler.CreateCodingPrompt | model_handler.py:87-144 | The built prompt is exactly `PromptText`, whose contents the `Prompt` lemmas describe. |
| ModelHandler.Handler.StoreResults | model_handler.py:241-276 | Returns normally exactly when `StoreEffect` says it does. The session's new committed and pending records are those `StoreEffect` gives. |
| ModelHandler.Handler.CodeText | model_handler.py:146-239 | The outcome and the change to the session are those `Analyze` gives for the stripped completion of the built prompt. |
| Braces.OpenBraces | model_handler.py:183 | The list of '{' positions. Every entry is an index of the text. `OpenBracesSpec` states its contents and order. |
| Braces.MatchingEnd | model_handler.py:192-203 | The end the scan from a start finds, if any. It lies after the start and within the text. `MatchingEndSpec` and `CandidateShape` state what it is. |
| Extraction.SearchBack | model_handler.py:190-211 | The reverse search over a list of starts. A found start is in the list, its candidate ends at `MatchingEnd`, and it decodes to the found object, which has "categories". `SearchBackFails` and `SearchBackStopsAtLast` describe which start is found. |
| Extraction.Extract | model_handler.py:183-232 | The search's outcome on a completion text: no '{', no candidate, or the found one. `NoBraceIff`, `NoCandidateIff`, `FoundIsLastQualifying` and `EarlierCandidatesIgnored` describe it. |
| Confidence.NumericConfidence | model_handler.py:216 | The number `cat.get("confidence", 0)` compares as, or a raise. `ThresholdIsStrict` states the comparison. |
| Confidence.Iterated | model_handler.py:215 | The entries `for cat in results["categories"]` visits, or a raise. |
| Confidence.FilterEntries | model_handler.py:214-217 | The comprehension over a list. `FilterRaisesIff`, `FilterKeepsAccepted`, `FilterAppend`, `FilterAppendRaises` and `FilterSingle` describe it. |
| Confidence.FilterCategories | model_handler.py:214-217 | The new "categories" value, or a raise. `CodedSpec` states what a success keeps. |
| Completion.Strip | model_handler.py:173 | `str.strip()`. `StripSpec` states it. |
| Metadata.TextsOf | model_handler.py:61-69 | One category's list of one indicator type. `TextsOfMember` and `TextsOfAppend` describe it. |
| Metadata.ExamplesOf | model_handler.py:75-83 | One category's example list. `ExamplesOfMember`, `ExamplesOfAppend` and `ExamplesOfSingle` describe it. |
| Metadata.IdByName | model_handler.py:255 | `category_id_by_name`. `IdByNameKeys`, `IdByNameSpec` and `IdByNameDistinct` describe it. |
| Prompt.PromptText | model_handler.py:87-144 | The whole prompt. `PromptShowsEveryCategory`, `PromptShowsOnlyLeadingPositives`, `PromptShowsOnlyFirstExample` and `PromptEndsWithQuotedText` describe it. |
| Store.LookupName | model_handler.py:259-264 | The lookup of an entry's name: a known id, a skip, or the raise an unhashable name causes. `StoreSkipsUnknownName` states the skip. |
| Store.StoreTrace | model_handler.py:258-273 | The records the loop adds and whether it completes. `StoreTraceRecords`, `StoreTraceSingle` and `StoreTraceAppend` describe it. |
| Store.StoreEffect | model_handler.py:250-276 | What `_store_results` does to the session, given by the records of `StoreTrace` and whether it commits. `Handler.StoreResults` is proved to have this effect. |
| ModelHandler.Analyze | model_handler.py:176-239 | The outcome of `code_text` for a given completion, and its effect on the session. The `ModelHandler` lemmas describe each outcome, and `Handler.CodeText` is proved to have it. |

## Left out

- Loading the Llama model (lines 31-41) and calling it (lines 163-170): the completion is a function of the prompt, passed in. Sampling parameters and stop tokens have no counterpart. `response["choices"][0]["text"]` is the function's result.
- `uuid.uuid4()` (line 157): the session id is an argument.
- The inside of `json.loads`: it is the `Parser` argument. Its non-standard constants (`NaN`, `Infinity`), duplicate keys, and exceptions other than a decode error (such as `RecursionError` on deep nesting) are not modelled. So neither is the floating-point comparison of `NaN` or infinity with 60. Numbers are exact reals.
- `_load_categories` and `__init__`'s database set-up (lines 15-57): the categories are given as a sequence with distinct ids, in query order. SQLAlchemy queries are rows given in query order.
- A failure of `db_session.add` or `commit`, and the conversion of the stored confidence to the `Float` column: a record keeps the JSON value `get` returned.
- ModelHandler.Outcome: the error text of `ProcessingError` (`str(e)`) is not modelled. Only the `raw_response` each error dictionary carries is.
- An exception the model call itself raises is not modelled; it would leave `code_text` unhandled.
- ModelHandler.Handler.CodeText: runs the search to the end and then filters and stores the answer. The source filters and stores inside the loop, at the first qualifying candidate, and leaves the loop from there. The two orders give the same outcome and the same session effect, because after the first qualifying candidate the source returns on every path.
- `test_model`, `app.py`, `run.py`, `db_setup.py` and `populate_comb_data.py` are not part of this model.
