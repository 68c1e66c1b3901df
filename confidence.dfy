/** The confidence filter of `LlamaModelHandler.code_text`: the list
    comprehension that keeps the entries of "categories" whose
    `cat.get("confidence", 0)` is above 60. */
module Confidence {
  import opened Json

  /** Entries must score strictly above this to be kept. */
  const Threshold: real := 60.0

  /** The number `entry.get("confidence", 0)` compares as: a missing key is
      0 and a JSON boolean is 0 or 1, as in Python; `None` stands for the
      `TypeError` that comparing a string, list, object or null with 60
      raises. */
  function NumericConfidence(m: JsonObject): Option<real> {
    if "confidence" !in m then Some(0.0)
    else
      match m["confidence"]
      case JNum(n) => Some(n)
      case JBool(b) => Some(if b then 1.0 else 0.0)
      case _ => None
  }

  /** Evaluating the filter condition on `entry` raises: it is not an
      object (no `.get`), or its confidence cannot be compared. */
  predicate Raises(entry: JsonValue) {
    !entry.JObj? || NumericConfidence(entry.fields).None?
  }

  /** The filter condition holds of `entry`. */
  predicate Accepted(entry: JsonValue) {
    entry.JObj? && NumericConfidence(entry.fields).Some? &&
    NumericConfidence(entry.fields).value > Threshold
  }

  /** The comprehension over a list of entries; `None` when it raises on
      any of them. */
  function FilterEntries(entries: seq<JsonValue>): Option<seq<JsonValue>> {
    if entries == [] then Some([])
    else if Raises(entries[0]) then None
    else
      match FilterEntries(entries[1..])
      case None => None
      case Some(rest) => Some(if Accepted(entries[0]) then [entries[0]] + rest else rest)
  }

  /** The elements Python's `for cat in results["categories"]` visits, or
      `None` when that iteration itself or the first `.get` raises: a list
      is visited element by element; an empty string or object yields
      nothing; the characters of a non-empty string and the keys of a
      non-empty object are strings, without `.get`; a number, boolean or
      null is not iterable. */
  function Iterated(v: JsonValue): Option<seq<JsonValue>> {
    match v
    case JArr(items) => Some(items)
    case JStr(t) => if t == "" then Some([]) else None
    case JObj(m) => if m == map[] then Some([]) else None
    case _ => None
  }

  /** The new value of `results["categories"]`, or `None` when computing it
      raises. */
  function FilterCategories(v: JsonValue): Option<seq<JsonValue>> {
    match Iterated(v)
    case None => None
    case Some(entries) => FilterEntries(entries)
  }

  /** The filter raises exactly when some entry makes the condition raise. */
  lemma {:induction false} FilterRaisesIff(entries: seq<JsonValue>)
    ensures FilterEntries(entries).None? <==> exists i :: 0 <= i < |entries| && Raises(entries[i])
  {
    if entries != [] && !Raises(entries[0]) {
      FilterRaisesIff(entries[1..]);
      if exists i :: 0 <= i < |entries| && Raises(entries[i]) {
        var i :| 0 <= i < |entries| && Raises(entries[i]);
        assert entries[1..][i - 1] == entries[i];
      }
    }
  }

  /** What the filter keeps: exactly the accepted entries, each one taken
      from the input. */
  lemma {:induction false} FilterKeepsAccepted(entries: seq<JsonValue>)
    requires FilterEntries(entries).Some?
    ensures var kept := FilterEntries(entries).value;
      |kept| <= |entries| &&
      forall e :: e in kept <==> e in entries && Accepted(e)
  {
    if entries != [] {
      FilterKeepsAccepted(entries[1..]);
      assert entries == [entries[0]] + entries[1..];
    }
  }

  /** The filter works entry by entry and keeps the input order: filtering
      a concatenation concatenates the filtered parts. */
  lemma {:induction false} FilterAppend(a: seq<JsonValue>, b: seq<JsonValue>)
    requires FilterEntries(a).Some? && FilterEntries(b).Some?
    ensures FilterEntries(a + b) == Some(FilterEntries(a).value + FilterEntries(b).value)
  {
    if a != [] {
      assert (a + b)[0] == a[0];
      assert (a + b)[1..] == a[1..] + b;
      FilterAppend(a[1..], b);
      var ra, rb := FilterEntries(a[1..]).value, FilterEntries(b).value;
      assert [a[0]] + (ra + rb) == ([a[0]] + ra) + rb;
    } else {
      assert a + b == b;
      assert FilterEntries(a).value + FilterEntries(b).value == FilterEntries(b).value;
    }
  }

  /** The filter over a concatenation raises exactly when it raises over
      either part. */
  lemma FilterAppendRaises(a: seq<JsonValue>, b: seq<JsonValue>)
    ensures FilterEntries(a + b).None? <==> FilterEntries(a).None? || FilterEntries(b).None?
  {
    FilterRaisesIff(a);
    FilterRaisesIff(b);
    FilterRaisesIff(a + b);
    if FilterEntries(a).None? {
      var i :| 0 <= i < |a| && Raises(a[i]);
      assert (a + b)[i] == a[i];
    }
    if FilterEntries(b).None? {
      var i :| 0 <= i < |b| && Raises(b[i]);
      assert (a + b)[|a| + i] == b[i];
    }
    if FilterEntries(a + b).None? {
      var i :| 0 <= i < |a + b| && Raises((a + b)[i]);
      if i < |a| {
        assert a[i] == (a + b)[i];
      } else {
        assert b[i - |a|] == (a + b)[i];
      }
    }
  }

  /** A single entry is kept exactly when it is accepted. */
  lemma FilterSingle(e: JsonValue)
    requires !Raises(e)
    ensures FilterEntries([e]) == Some(if Accepted(e) then [e] else [])
  {
    assert [e][1..] == [];
    assert [e] + [] == [e];
  }

  /** The threshold is strict: a confidence of exactly 60 is dropped, and
      anything above it is kept; a missing confidence counts as 0. */
  lemma ThresholdIsStrict(m: JsonObject, n: real)
    ensures Accepted(JObj(m["confidence" := JNum(n)])) <==> n > 60.0
    ensures !Accepted(JObj(m - {"confidence"}))
  {
  }
}
