/** `LlamaModelHandler`: builds the prompt, hands it to the model, recovers
    the `{"categories": [...]}` answer from the completion, and stores the
    accepted categories. The model is a function from prompt to completion
    text, `json.loads` a parser, and the uuid a session id, all passed in. */
module ModelHandler {
  import opened Json
  import opened Braces
  import opened Extraction
  import opened Confidence
  import opened Metadata
  import opened Prompt
  import opened Completion
  import opened Store

  /** What `code_text` returns. The three failures carry the stripped
      completion text as `raw_response`:
      - `NoJsonFound`: "Could not extract valid JSON from model response";
      - `NoStructuredResult`: "Could not extract valid JSON with expected
        structure from model response";
      - `ProcessingError`: "Error processing model response: ...", the
        generic exception handler. */
  datatype Outcome =
    | Coded(result: JsonObject)
    | NoJsonFound(raw: string)
    | NoStructuredResult(raw: string)
    | ProcessingError(raw: string)

  /** The outcome of `code_text` once the completion text `generated` is
      known, and what it does to the session. */
  function Analyze(byName: map<string, int>, text: string, sessionId: string,
                   generated: string, parse: Parser): (Outcome, Effect)
  {
    match Extract(generated, parse)
    case NoBrace => (NoJsonFound(generated), NoEffect)
    case NoCandidate => (NoStructuredResult(generated), NoEffect)
    case Found(_, _, obj) =>
      match FilterCategories(obj["categories"])
      case None => (ProcessingError(generated), NoEffect)
      case Some(kept) =>
        var results := obj["categories" := JArr(kept)];
        var (ok, eff) := StoreEffect(byName, text, results, sessionId);
        (if ok then Coded(results["session_id" := JStr(sessionId)]) else ProcessingError(generated), eff)
  }

  /** A completion without any '{' is the first failure, with the text
      verbatim, and nothing is stored. */
  lemma NoJsonFoundIff(byName: map<string, int>, text: string, sessionId: string,
                       generated: string, parse: Parser)
    ensures var (o, eff) := Analyze(byName, text, sessionId, generated, parse);
      (o.NoJsonFound? <==> forall i :: 0 <= i < |generated| ==> generated[i] != '{') &&
      (o.NoJsonFound? ==> o.raw == generated && eff == NoEffect)
  {
    NoBraceIff(generated, parse);
  }

  /** Braces without any candidate that closes, decodes and has a
      "categories" key is the second failure, distinct from the first, with
      the text verbatim, and nothing is stored. */
  lemma NoStructuredResultIff(byName: map<string, int>, text: string, sessionId: string,
                              generated: string, parse: Parser)
    ensures var (o, eff) := Analyze(byName, text, sessionId, generated, parse);
      (o.NoStructuredResult? <==>
        (exists i :: 0 <= i < |generated| && generated[i] == '{') &&
        (forall i :: 0 <= i < |generated| && generated[i] == '{' ==> !Qualifies(generated, i, parse))) &&
      (o.NoStructuredResult? ==> o.raw == generated && eff == NoEffect)
  {
    NoCandidateIff(generated, parse);
  }

  /** A depth count that starts on '{' and never meets '}' stays positive. */
  lemma {:induction false} OpenWithoutClose(s: string, start: nat, j: nat)
    requires start < j <= |s| && s[start] == '{'
    requires forall k :: 0 <= k < |s| ==> s[k] != '}'
    ensures Depth(s[start..j]) > 0
  {
    DepthSnoc(s, start, j - 1);
    if j == start + 1 {
      assert s[start..start] == [];
    } else {
      OpenWithoutClose(s, start, j - 1);
    }
  }

  /** A completion with an opening brace but no closing one, such as a
      truncated `{"categories": [`, ends in the second failure, not the
      first. */
  lemma UnclosedIsNoStructuredResult(byName: map<string, int>, text: string, sessionId: string,
                                     generated: string, parse: Parser)
    requires exists i :: 0 <= i < |generated| && generated[i] == '{'
    requires forall i :: 0 <= i < |generated| ==> generated[i] != '}'
    ensures Analyze(byName, text, sessionId, generated, parse).0 == NoStructuredResult(generated)
  {
    forall i | 0 <= i < |generated| && generated[i] == '{'
      ensures !Qualifies(generated, i, parse)
    {
      MatchingEndSpec(generated, i);
      if MatchingEnd(generated, i).Some? {
        OpenWithoutClose(generated, i, MatchingEnd(generated, i).value);
      }
    }
    NoStructuredResultIff(byName, text, sessionId, generated, parse);
  }

  /** A success comes from the last qualifying candidate: its categories
      are exactly the accepted entries, in order; the session id is
      attached; every other key of the decoded object is kept; and the
      records committed carry the text, the session id and a known
      category id each, with a confidence above 60. */
  lemma CodedSpec(byName: map<string, int>, text: string, sessionId: string,
                  generated: string, parse: Parser)
    requires Analyze(byName, text, sessionId, generated, parse).0.Coded?
    ensures var (o, eff) := Analyze(byName, text, sessionId, generated, parse);
      var f := Extract(generated, parse);
      f.Found? && Qualifies(generated, f.start, parse) &&
      (forall i :: f.start < i < |generated| && generated[i] == '{' ==> !Qualifies(generated, i, parse)) &&
      o.result["session_id"] == JStr(sessionId) &&
      (forall key :: key in f.obj && key != "categories" && key != "session_id" ==>
         key in o.result && o.result[key] == f.obj[key]) &&
      o.result["categories"].JArr? &&
      Iterated(f.obj["categories"]).Some? &&
      (forall e :: e in o.result["categories"].items <==>
         e in Iterated(f.obj["categories"]).value && Accepted(e)) &&
      eff.commits &&
      (forall r :: r in eff.added ==>
         r.textQuote == text && r.sessionId == sessionId && r.categoryId in byName.Values &&
         r.confidence.JNum? && r.confidence.n > Threshold)
  {
    var f := Extract(generated, parse);
    FoundIsLastQualifying(generated, parse);
    var entries := Iterated(f.obj["categories"]).value;
    var kept := FilterEntries(entries).value;
    FilterKeepsAccepted(entries);
    StoreTraceRecords(byName, text, kept, sessionId);
    var (recs, ok) := StoreTrace(byName, text, kept, sessionId);
    forall r | r in recs ensures r.confidence.JNum? && r.confidence.n > Threshold {
      var k :| 0 <= k < |kept| && RecordFor(byName, text, kept[k], sessionId) == Some(r);
      assert kept[k] in kept;
    }
  }

  /** Every accepted entry with a known category name is recorded. */
  lemma CodedRecordsEveryKnownEntry(byName: map<string, int>, text: string, sessionId: string,
                                    generated: string, parse: Parser, e: JsonValue)
    requires Analyze(byName, text, sessionId, generated, parse).0.Coded?
    requires var o := Analyze(byName, text, sessionId, generated, parse).0;
      o.result["categories"].JArr? && e in o.result["categories"].items
    requires RecordFor(byName, text, e, sessionId).Some?
    ensures RecordFor(byName, text, e, sessionId).value in Analyze(byName, text, sessionId, generated, parse).1.added
  {
    var f := Extract(generated, parse);
    var kept := FilterCategories(f.obj["categories"]).value;
    StoreTraceRecords(byName, text, kept, sessionId);
    var k :| 0 <= k < |kept| && kept[k] == e;
  }

  /** No accepted entry at all is still a success, with an empty category
      list and no record. */
  lemma NothingAcceptedIsCoded(byName: map<string, int>, text: string, sessionId: string,
                               generated: string, parse: Parser)
    requires Extract(generated, parse).Found?
    requires FilterCategories(Extract(generated, parse).obj["categories"]) == Some([])
    ensures var (o, eff) := Analyze(byName, text, sessionId, generated, parse);
      o.Coded? && o.result["categories"] == JArr([]) && eff == Effect([], true)
  {
  }

  /** Two runs on the same completion text differ only in the session id:
      the same kind of outcome, the same result apart from "session_id",
      and the same records apart from their session id. */
  lemma {:induction false} SessionIdOnlyDifference(byName: map<string, int>, text: string,
                                                   sid1: string, sid2: string,
                                                   generated: string, parse: Parser)
    ensures var (o1, eff1) := Analyze(byName, text, sid1, generated, parse);
      var (o2, eff2) := Analyze(byName, text, sid2, generated, parse);
      (o1.Coded? <==> o2.Coded?) &&
      (o1.Coded? ==> o1.result - {"session_id"} == o2.result - {"session_id"}) &&
      (!o1.Coded? ==> o1 == o2) &&
      eff1.commits == eff2.commits &&
      |eff1.added| == |eff2.added| &&
      (forall k :: 0 <= k < |eff1.added| ==> eff1.added[k].(sessionId := sid2) == eff2.added[k])
  {
    match Extract(generated, parse)
    case NoBrace =>
    case NoCandidate =>
    case Found(_, _, obj) =>
      match FilterCategories(obj["categories"])
      case None =>
      case Some(kept) =>
        TraceIgnoresSessionId(byName, text, kept, sid1, sid2);
  }

  lemma {:induction false} TraceIgnoresSessionId(byName: map<string, int>, text: string,
                                                 entries: seq<JsonValue>, sid1: string, sid2: string)
    ensures var t1 := StoreTrace(byName, text, entries, sid1);
      var t2 := StoreTrace(byName, text, entries, sid2);
      t1.1 == t2.1 && |t1.0| == |t2.0| &&
      forall k :: 0 <= k < |t1.0| ==> t1.0[k].(sessionId := sid2) == t2.0[k]
  {
    if entries != [] && !StoreRaises(byName, entries[0]) {
      TraceIgnoresSessionId(byName, text, entries[1..], sid1, sid2);
    }
  }

  /** The inner loop over one category's indicators. */
  method AddBullets(prompt0: string, indicators: seq<string>) returns (prompt: string)
    ensures prompt == prompt0 + Bullets(indicators)
  {
    prompt := prompt0;
    var j := 0;
    while j < |indicators|
      invariant 0 <= j <= |indicators|
      invariant prompt == prompt0 + Bullets(indicators[..j])
    {
      assert indicators[..j + 1][..j] == indicators[..j];
      prompt := prompt + ("- " + indicators[j] + "\n");
      j := j + 1;
    }
    assert indicators[..j] == indicators;
  }

  /** One pass of the indicator loop: the category's name line, its first
      three positive indicators as bullets, and a blank line. */
  method AddIndicatorBlock(prompt0: string, category: Category, groups: IndicatorGroups)
    returns (prompt: string)
    ensures prompt == prompt0 + IndicatorBlock(category, groups)
  {
    prompt := prompt0 + (category.name + ":\n");
    var positiveIndicators := FirstThree(groups.positive);
    prompt := AddBullets(prompt, positiveIndicators);
    prompt := prompt + "\n";
  }

  /** The handler, after `__init__` has loaded its metadata. */
  class Handler {
    const categories: seq<Category>
    const indicators: map<int, IndicatorGroups>
    const examples: map<int, seq<Example>>
    const session: Session

    /** The dicts the loaders build: keyed by exactly the category ids. */
    ghost predicate Valid() {
      DistinctIds(categories) &&
      indicators.Keys == Ids(categories) && examples.Keys == Ids(categories)
    }

    constructor (categories: seq<Category>, indicators: map<int, IndicatorGroups>,
                 examples: map<int, seq<Example>>, session: Session)
      requires DistinctIds(categories)
      requires indicators.Keys == Ids(categories) && examples.Keys == Ids(categories)
      ensures Valid()
      ensures this.categories == categories && this.indicators == indicators
      ensures this.examples == examples && this.session == session
    {
      this.categories := categories;
      this.indicators := indicators;
      this.examples := examples;
      this.session := session;
    }

    /** The loading half of `__init__`: `_load_indicators` and then
        `_load_examples` over the query rows, and a handler built from
        their results. `None` is the `KeyError` either loader raises. */
    static method Load(categories: seq<Category>, indicatorRows: seq<IndicatorRow>,
                       exampleRows: seq<ExampleRow>, session: Session)
      returns (h: Option<Handler>)
      requires DistinctIds(categories)
      ensures h.Some? <==>
        (forall k :: 0 <= k < |indicatorRows| ==> IndicatorFits(categories, indicatorRows[k])) &&
        (forall k :: 0 <= k < |exampleRows| ==> exampleRows[k].categoryId in Ids(categories))
      ensures h.Some? ==> fresh(h.value) && h.value.Valid()
      ensures h.Some? ==> h.value.categories == categories && h.value.session == session
      ensures h.Some? ==> forall id :: id in Ids(categories) ==>
        (h.value.indicators[id] == GroupsOf(indicatorRows, id) &&
         h.value.examples[id] == ExamplesOf(exampleRows, id))
    {
      var indicators := LoadIndicators(categories, indicatorRows);
      if indicators.None? {
        return None;
      }
      var examples := LoadExamples(categories, exampleRows);
      if examples.None? {
        return None;
      }
      var handler := new Handler(categories, indicators.value, examples.value, session);
      return Some(handler);
    }

    lemma ValidCovers()
      requires Valid()
      ensures Covers(categories, indicators) && Covers(categories, examples)
    {
      forall k | 0 <= k < |categories| ensures categories[k].id in Ids(categories) {
        assert categories[k] in categories;
      }
    }

    /** `_create_coding_prompt(text)`, one section at a time. */
    method CreateCodingPrompt(text: string) returns (prompt: string)
      requires Valid()
      ensures Covers(categories, indicators) && Covers(categories, examples)
      ensures prompt == PromptText(categories, indicators, examples, text)
    {
      ValidCovers();
      prompt := Opening;
      prompt := prompt + CategoryCount;
      prompt := AddCategoryLines(prompt);
      prompt := prompt + IndicatorsHeading;
      prompt := AddIndicatorSection(prompt);
      prompt := prompt + ExamplesHeading;
      prompt := AddExampleSection(prompt);
      prompt := prompt + Instructions;
      prompt := prompt + ("\"" + text + "\"\n");
    }

    /** The loop over the categories and their descriptions. */
    method AddCategoryLines(prompt0: string) returns (prompt: string)
      ensures prompt == prompt0 + CategoryLines(categories)
    {
      prompt := prompt0;
      var i := 0;
      while i < |categories|
        invariant 0 <= i <= |categories|
        invariant prompt == prompt0 + CategoryLines(categories[..i])
      {
        var category := categories[i];
        assert categories[..i + 1][..i] == categories[..i];
        prompt := prompt + (category.name + ": " + category.description + "\n");
        i := i + 1;
      }
      assert categories[..i] == categories;
    }

    /** The loop over the categories and their leading positive indicators. */
    method AddIndicatorSection(prompt0: string) returns (prompt: string)
      requires Covers(categories, indicators)
      ensures prompt == prompt0 + IndicatorSection(categories, indicators)
    {
      prompt := prompt0;
      var i := 0;
      while i < |categories|
        invariant 0 <= i <= |categories|
        invariant prompt == prompt0 + IndicatorSection(categories[..i], indicators)
      {
        var category := categories[i];
        assert categories[..i + 1][..i] == categories[..i];
        prompt := AddIndicatorBlock(prompt, category, indicators[category.id]);
        i := i + 1;
      }
      assert categories[..i] == categories;
    }

    /** The loop over the categories with an example. */
    method AddExampleSection(prompt0: string) returns (prompt: string)
      requires Covers(categories, examples)
      ensures prompt == prompt0 + ExampleSection(categories, examples)
    {
      prompt := prompt0;
      var i := 0;
      while i < |categories|
        invariant 0 <= i <= |categories|
        invariant prompt == prompt0 + ExampleSection(categories[..i], examples)
      {
        var category := categories[i];
        assert categories[..i + 1][..i] == categories[..i];
        if examples[category.id] != [] {
          var example := examples[category.id][0];
          prompt := prompt + (category.name + " example: \"" + example.text + "\"\n\n");
        }
        i := i + 1;
      }
      assert categories[..i] == categories;
    }

    /** `_store_results(text, results, session_id)`; `ok` is false when it
        raises. */
    method StoreResults(text: string, results: JsonObject, sessionId: string) returns (ok: bool)
      modifies session
      ensures var (ok', eff) := StoreEffect(IdByName(categories), text, results, sessionId);
        ok == ok' &&
        Applied(eff, old(session.committed), old(session.pending), session.committed, session.pending)
    {
      if "categories" !in results {
        return true;
      }
      var entries := Iterated(results["categories"]);
      if entries.None? {
        return false;
      }
      var byName := IdByName(categories);
      ghost var all := entries.value;
      ghost var added: seq<Record> := [];
      assert all[0..] == all;
      assert [] + StoreTrace(byName, text, all, sessionId).0 == StoreTrace(byName, text, all, sessionId).0;
      var i := 0;
      while i < |entries.value|
        invariant 0 <= i <= |entries.value|
        invariant session.committed == old(session.committed)
        invariant session.pending == old(session.pending) + added
        invariant var t := StoreTrace(byName, text, all[i..], sessionId);
          StoreTrace(byName, text, all, sessionId) == (added + t.0, t.1)
      {
        var result := entries.value[i];
        ghost var rest := StoreTrace(byName, text, all[i + 1..], sessionId);
        assert all[i..][0] == result && all[i..][1..] == all[i + 1..];
        if !result.JObj? {
          assert added + [] == added;
          return false;
        }
        var lookup := LookupName(byName, result.fields);
        if lookup.Unhashable? {
          assert added + [] == added;
          return false;
        }
        if lookup.Known? {
          var r := Record(text, lookup.id, StoredConfidence(result.fields), sessionId);
          assert RecordFor(byName, text, result, sessionId) == Some(r);
          assert added + ([r] + rest.0) == (added + [r]) + rest.0;
          session.Add(r);
          added := added + [r];
        }
        i := i + 1;
      }
      assert added + [] == added;
      session.Commit();
      return true;
    }

    /** `code_text(text)`, with the uuid, the model and `json.loads` passed
        in. */
    method CodeText(text: string, sessionId: string, complete: string -> string, parse: Parser)
      returns (r: Outcome)
      requires Valid()
      modifies session
      ensures Covers(categories, indicators) && Covers(categories, examples)
      ensures var generated := Strip(complete(PromptText(categories, indicators, examples, text)));
        var (o, eff) := Analyze(IdByName(categories), text, sessionId, generated, parse);
        r == o &&
        Applied(eff, old(session.committed), old(session.pending), session.committed, session.pending)
    {
      var prompt := CreateCodingPrompt(text);
      var generated := Strip(complete(prompt));
      var found := FindAnswer(generated, parse);
      match found {
        case NoBrace =>
          r := NoJsonFound(generated);
        case NoCandidate =>
          r := NoStructuredResult(generated);
        case Found(_, _, obj) =>
          var kept := FilterCategories(obj["categories"]);
          if kept.None? {
            r := ProcessingError(generated);
          } else {
            var results := obj["categories" := JArr(kept.value)];
            var ok := StoreResults(text, results, sessionId);
            if ok {
              r := Coded(results["session_id" := JStr(sessionId)]);
            } else {
              r := ProcessingError(generated);
            }
          }
      }
    }
  }
}
