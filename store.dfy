/** The results side of `LlamaModelHandler._store_results`: the database
    session it adds records to, and the records it adds. */
module Store {
  import opened Json
  import opened Confidence

  /** A row of `analysis_results`. The confidence is whatever
      `result.get("confidence", 0)` returned. */
  datatype Record = Record(textQuote: string, categoryId: int, confidence: JsonValue, sessionId: string)

  /** The database session: records already committed, and records added
      since the last commit. */
  class Session {
    var committed: seq<Record>
    var pending: seq<Record>

    constructor (stored: seq<Record>)
      ensures committed == stored && pending == []
    {
      committed := stored;
      pending := [];
    }

    /** `db_session.add(record)` */
    method Add(r: Record)
      modifies this
      ensures committed == old(committed) && pending == old(pending) + [r]
    {
      pending := pending + [r];
    }

    /** `db_session.commit()` */
    method Commit()
      modifies this
      ensures committed == old(committed) + old(pending) && pending == []
    {
      committed := committed + pending;
      pending := [];
    }
  }

  /** What looking `result.get("category")` up in `category_id_by_name`
      gives: a category id; a miss, which skips the entry (a missing key is
      `None`, and numbers, booleans and null are never names); or the
      `TypeError` a list or object raises, being unhashable. */
  datatype Lookup = Known(id: int) | Skipped | Unhashable

  function LookupName(byName: map<string, int>, entry: JsonObject): Lookup {
    if "category" !in entry then Skipped
    else
      match entry["category"]
      case JStr(n) => if n in byName then Known(byName[n]) else Skipped
      case JArr(_) => Unhashable
      case JObj(_) => Unhashable
      case _ => Skipped
  }

  /** `result.get("confidence", 0)` */
  function StoredConfidence(entry: JsonObject): JsonValue {
    if "confidence" in entry then entry["confidence"] else JNum(0.0)
  }

  /** The record the loop adds for `entry`, if any. */
  function RecordFor(byName: map<string, int>, text: string, entry: JsonValue, sessionId: string): Option<Record> {
    if entry.JObj? && LookupName(byName, entry.fields).Known? then
      Some(Record(text, LookupName(byName, entry.fields).id, StoredConfidence(entry.fields), sessionId))
    else None
  }

  /** The loop raises on `entry`: it has no `.get`, or its name is unhashable. */
  predicate StoreRaises(byName: map<string, int>, entry: JsonValue) {
    !entry.JObj? || LookupName(byName, entry.fields).Unhashable?
  }

  /** The records `for result in results["categories"]` adds, in order, and
      whether the loop runs to the end; it stops at the first entry it
      raises on. */
  function StoreTrace(byName: map<string, int>, text: string, entries: seq<JsonValue>, sessionId: string)
    : (seq<Record>, bool)
  {
    if entries == [] then ([], true)
    else if StoreRaises(byName, entries[0]) then ([], false)
    else
      var rest := StoreTrace(byName, text, entries[1..], sessionId);
      match RecordFor(byName, text, entries[0], sessionId)
      case Some(r) => ([r] + rest.0, rest.1)
      case None => rest
  }

  /** What one call of `_store_results` does to the session: the records it
      adds, and whether it commits. */
  datatype Effect = Effect(added: seq<Record>, commits: bool)

  /** Nothing happens at all. */
  const NoEffect: Effect := Effect([], false)

  /** The new (committed, pending) contents after `eff`. */
  ghost predicate Applied(eff: Effect, committed0: seq<Record>, pending0: seq<Record>,
                          committed1: seq<Record>, pending1: seq<Record>)
  {
    if eff.commits then committed1 == committed0 + pending0 + eff.added && pending1 == []
    else committed1 == committed0 && pending1 == pending0 + eff.added
  }

  /** `_store_results(text, results, session_id)`: whether it returns
      normally, and what it does to the session. Without a "categories" key
      it returns at once, without committing. */
  function StoreEffect(byName: map<string, int>, text: string, results: JsonObject, sessionId: string)
    : (bool, Effect)
  {
    if "categories" !in results then (true, NoEffect)
    else
      match Iterated(results["categories"])
      case None => (false, NoEffect)
      case Some(entries) =>
        var (recs, ok) := StoreTrace(byName, text, entries, sessionId);
        (ok, Effect(recs, ok))
  }

  /** Storing works entry by entry and in order: the trace of a
      concatenation is the trace of its first part, followed by that of the
      second when the first runs to the end. */
  lemma {:induction false} StoreTraceAppend(byName: map<string, int>, text: string,
                                            a: seq<JsonValue>, b: seq<JsonValue>, sessionId: string)
    ensures var ta := StoreTrace(byName, text, a, sessionId);
      var tb := StoreTrace(byName, text, b, sessionId);
      StoreTrace(byName, text, a + b, sessionId) == if ta.1 then (ta.0 + tb.0, tb.1) else ta
  {
    if a == [] {
      assert a + b == b;
      assert [] + StoreTrace(byName, text, b, sessionId).0 == StoreTrace(byName, text, b, sessionId).0;
    } else {
      assert (a + b)[0] == a[0];
      assert (a + b)[1..] == a[1..] + b;
      StoreTraceAppend(byName, text, a[1..], b, sessionId);
      var ta1 := StoreTrace(byName, text, a[1..], sessionId);
      var tb := StoreTrace(byName, text, b, sessionId);
      match RecordFor(byName, text, a[0], sessionId)
      case Some(r) => assert [r] + (ta1.0 + tb.0) == ([r] + ta1.0) + tb.0;
      case None =>
    }
  }

  /** One entry gives at most one record: the loop raises on it, or adds
      its record, or skips it. With `StoreTraceAppend` this fixes the
      records of a whole list, one per entry with a known name, in order. */
  lemma StoreTraceSingle(byName: map<string, int>, text: string, e: JsonValue, sessionId: string)
    ensures StoreTrace(byName, text, [e], sessionId) ==
      if StoreRaises(byName, e) then ([], false)
      else if RecordFor(byName, text, e, sessionId).Some? then ([RecordFor(byName, text, e, sessionId).value], true)
      else ([], true)
  {
    assert [e][0] == e && [e][1..] == [];
    assert StoreTrace(byName, text, [], sessionId) == ([], true);
    if !StoreRaises(byName, e) && RecordFor(byName, text, e, sessionId).Some? {
      var r := RecordFor(byName, text, e, sessionId).value;
      assert [r] + [] == [r];
    }
  }

  /** An entry whose name is not a known category name is skipped without
      error: it neither adds a record nor stops the loop. */
  lemma StoreSkipsUnknownName(byName: map<string, int>, text: string,
                              a: seq<JsonValue>, e: JsonValue, b: seq<JsonValue>, sessionId: string)
    requires e.JObj? && LookupName(byName, e.fields).Skipped?
    ensures StoreTrace(byName, text, a + [e] + b, sessionId) == StoreTrace(byName, text, a + b, sessionId)
  {
    StoreTraceAppend(byName, text, a, [e] + b, sessionId);
    StoreTraceAppend(byName, text, a, b, sessionId);
    assert ([e] + b)[0] == e && ([e] + b)[1..] == b;
    assert a + [e] + b == a + ([e] + b);
  }

  /** Every record added carries the input text, the session id and a
      known category id; when the loop runs to the end, the records are
      exactly those of the entries with a known name. */
  lemma {:induction false} StoreTraceRecords(byName: map<string, int>, text: string,
                                             entries: seq<JsonValue>, sessionId: string)
    ensures var (recs, ok) := StoreTrace(byName, text, entries, sessionId);
      (forall r :: r in recs ==> r.textQuote == text && r.sessionId == sessionId &&
                                 r.categoryId in byName.Values) &&
      (ok ==> forall r :: r in recs <==>
         exists k :: 0 <= k < |entries| && RecordFor(byName, text, entries[k], sessionId) == Some(r))
      && (ok <==> forall k :: 0 <= k < |entries| ==> !StoreRaises(byName, entries[k]))
  {
    if entries != [] && !StoreRaises(byName, entries[0]) {
      var rest := entries[1..];
      StoreTraceRecords(byName, text, rest, sessionId);
      assert forall k :: 0 <= k < |rest| ==> rest[k] == entries[k + 1];
      var (recs, ok) := StoreTrace(byName, text, entries, sessionId);
      if ok {
        forall r | exists k :: 0 <= k < |entries| && RecordFor(byName, text, entries[k], sessionId) == Some(r)
          ensures r in recs
        {
          var k :| 0 <= k < |entries| && RecordFor(byName, text, entries[k], sessionId) == Some(r);
          if k > 0 {
            assert RecordFor(byName, text, rest[k - 1], sessionId) == Some(r);
          }
        }
      }
      if !ok {
        var t := StoreTrace(byName, text, rest, sessionId);
        assert !t.1;
        var k :| 0 <= k < |rest| && StoreRaises(byName, rest[k]);
        assert StoreRaises(byName, entries[k + 1]);
      }
    }
  }
}
