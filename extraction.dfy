/** The reverse candidate search of `LlamaModelHandler.code_text`: the
    '{' positions are tried from last to first, and the first candidate that
    closes, decodes and holds a "categories" key is the answer. */
module Extraction {
  import opened Json
  import opened Braces

  /** The candidate starting at `start` closes, decodes, and has a
      "categories" key. */
  predicate Qualifies(s: string, start: nat, parse: Parser)
    requires start <= |s|
  {
    match MatchingEnd(s, start)
    case None => false
    case Some(e) => parse(s[start..e]).Some? && "categories" in parse(s[start..e]).value
  }

  /** What the search settles on. `NoBrace` and `NoCandidate` are the two
      failures the source tells apart. */
  datatype Search =
    | NoBrace
    | NoCandidate
    | Found(start: nat, end: nat, obj: JsonObject)

  /** Tries the last of `starts` first, then the earlier ones. */
  function SearchBack(s: string, starts: seq<nat>, parse: Parser): (r: Search)
    requires forall k :: 0 <= k < |starts| ==> starts[k] <= |s|
    ensures !r.NoBrace?
    ensures r.Found? ==> r.start in starts && r.start <= |s|
    ensures r.Found? ==> MatchingEnd(s, r.start) == Some(r.end)
    ensures r.Found? ==> parse(s[r.start..r.end]) == Some(r.obj) && "categories" in r.obj
  {
    if starts == [] then NoCandidate
    else
      var rest := starts[..|starts| - 1];
      var st := starts[|starts| - 1];
      match MatchingEnd(s, st)
      case None => SearchBack(s, rest, parse)
      case Some(e) =>
        match parse(s[st..e])
        case None => SearchBack(s, rest, parse)
        case Some(obj) =>
          if "categories" in obj then Found(st, e, obj) else SearchBack(s, rest, parse)
  }

  /** The search fails exactly when no start qualifies. */
  lemma {:induction false} SearchBackFails(s: string, starts: seq<nat>, parse: Parser)
    requires forall k :: 0 <= k < |starts| ==> starts[k] <= |s|
    ensures SearchBack(s, starts, parse).NoCandidate? <==>
      forall k :: 0 <= k < |starts| ==> !Qualifies(s, starts[k], parse)
  {
    if starts != [] {
      var n := |starts| - 1;
      SearchBackStep(s, starts, parse);
      if !Qualifies(s, starts[n], parse) {
        SearchBackFails(s, starts[..n], parse);
      }
    }
  }

  /** A found start is one of the starts, and no later start qualifies. */
  lemma {:induction false} SearchBackStopsAtLast(s: string, starts: seq<nat>, parse: Parser)
    requires forall k :: 0 <= k < |starts| ==> starts[k] <= |s|
    requires SearchBack(s, starts, parse).Found?
    ensures exists k ::
      0 <= k < |starts| && starts[k] == SearchBack(s, starts, parse).start &&
      (forall k' :: k < k' < |starts| ==> !Qualifies(s, starts[k'], parse))
  {
    var n := |starts| - 1;
    var rest := starts[..n];
    SearchBackStep(s, starts, parse);
    if Qualifies(s, starts[n], parse) {
      assert starts[n] == SearchBack(s, starts, parse).start;
    } else {
      SearchBackStopsAtLast(s, rest, parse);
      var k :| 0 <= k < |rest| && rest[k] == SearchBack(s, rest, parse).start &&
        (forall k' :: k < k' < |rest| ==> !Qualifies(s, rest[k'], parse));
      assert starts[k] == SearchBack(s, starts, parse).start;
      assert forall k' :: k < k' < |starts| ==> !Qualifies(s, starts[k'], parse);
    }
  }

  /** One step of the search: the last start either qualifies and is the
      answer, or the search goes on with the earlier ones. */
  lemma SearchBackStep(s: string, starts: seq<nat>, parse: Parser)
    requires starts != [] && forall k :: 0 <= k < |starts| ==> starts[k] <= |s|
    ensures var st := starts[|starts| - 1];
      SearchBack(s, starts, parse) ==
        if Qualifies(s, st, parse)
        then Found(st, MatchingEnd(s, st).value, parse(s[st..MatchingEnd(s, st).value]).value)
        else SearchBack(s, starts[..|starts| - 1], parse)
  {
  }

  /** The outcome of the whole search over the completion text `s`. */
  function Extract(s: string, parse: Parser): Search {
    var braces := OpenBraces(s);
    if braces == [] then NoBrace else SearchBack(s, braces, parse)
  }

  /** No '{' at all is exactly the first failure. */
  lemma NoBraceIff(s: string, parse: Parser)
    ensures Extract(s, parse).NoBrace? <==> forall i :: 0 <= i < |s| ==> s[i] != '{'
  {
    var braces := OpenBraces(s);
    OpenBracesSpec(s);
    if braces != [] {
      assert s[braces[0]] == '{';
    }
  }

  /** Braces present but no qualifying candidate is exactly the second
      failure. */
  lemma NoCandidateIff(s: string, parse: Parser)
    ensures Extract(s, parse).NoCandidate? <==>
      (exists i :: 0 <= i < |s| && s[i] == '{') &&
      (forall i :: 0 <= i < |s| && s[i] == '{' ==> !Qualifies(s, i, parse))
  {
    var braces := OpenBraces(s);
    OpenBracesSpec(s);
    if braces != [] {
      SearchBackFails(s, braces, parse);
    }
    if Extract(s, parse).NoCandidate? {
      assert s[braces[0]] == '{';
      forall i | 0 <= i < |s| && s[i] == '{' ensures !Qualifies(s, i, parse) {
        var k :| 0 <= k < |braces| && braces[k] == i;
      }
    }
    if (exists i :: 0 <= i < |s| && s[i] == '{') &&
       (forall i :: 0 <= i < |s| && s[i] == '{' ==> !Qualifies(s, i, parse)) {
      var i :| 0 <= i < |s| && s[i] == '{';
      assert i in braces;
    }
  }

  /** A found answer comes from the greatest '{' position whose candidate
      qualifies: every later start was tried and rejected. */
  lemma FoundIsLastQualifying(s: string, parse: Parser)
    requires Extract(s, parse).Found?
    ensures var f := Extract(s, parse);
      f.start < |s| && s[f.start] == '{' && Qualifies(s, f.start, parse) &&
      MatchingEnd(s, f.start) == Some(f.end) &&
      parse(s[f.start..f.end]) == Some(f.obj) && "categories" in f.obj &&
      forall i :: f.start < i < |s| && s[i] == '{' ==> !Qualifies(s, i, parse)
  {
    var f := Extract(s, parse);
    var braces := OpenBraces(s);
    OpenBracesSpec(s);
    SearchBackStopsAtLast(s, braces, parse);
    var k :| 0 <= k < |braces| && braces[k] == f.start &&
      forall k' :: k < k' < |braces| ==> !Qualifies(s, braces[k'], parse);
    forall i | f.start < i < |s| && s[i] == '{' ensures !Qualifies(s, i, parse) {
      var k' :| 0 <= k' < |braces| && braces[k'] == i;
    }
  }

  /** Candidates before the found one are never examined: a decoder that
      agrees on every candidate from the found start onwards yields the same
      answer, whatever it does on the earlier ones. */
  lemma EarlierCandidatesIgnored(s: string, p1: Parser, p2: Parser)
    requires Extract(s, p1).Found?
    requires forall i, e ::
      (Extract(s, p1).start <= i < e <= |s| && s[i] == '{' && MatchingEnd(s, i) == Some(e))
      ==> p1(s[i..e]) == p2(s[i..e])
    ensures Extract(s, p2) == Extract(s, p1)
  {
    var f := Extract(s, p1);
    FoundIsLastQualifying(s, p1);
    NoBraceIff(s, p2);
    NoCandidateIff(s, p2);
    assert Qualifies(s, f.start, p2);
    var g := Extract(s, p2);
    FoundIsLastQualifying(s, p2);
    assert g.start == f.start;
  }

  /** The outer `for start_index in reversed(open_brace_indices)` loop,
      without the filtering and storing it does on the answer. */
  method FindAnswer(s: string, parse: Parser) returns (r: Search)
    ensures r == Extract(s, parse)
  {
    var openBraces := OpenBraces(s);
    if |openBraces| == 0 {
      return NoBrace;
    }
    var k := |openBraces|;
    assert openBraces[..k] == openBraces;
    while k > 0
      invariant 0 <= k <= |openBraces|
      invariant SearchBack(s, openBraces[..k], parse) == SearchBack(s, openBraces, parse)
    {
      var start := openBraces[k - 1];
      assert openBraces[..k][..k - 1] == openBraces[..k - 1];
      SearchBackStep(s, openBraces[..k], parse);
      var endIndex := FindEnd(s, start);
      if endIndex > 0 {
        var jsonStr := s[start..endIndex];
        var results := parse(jsonStr);
        if results.Some? && "categories" in results.value {
          return Found(start, endIndex, results.value);
        }
      }
      k := k - 1;
    }
    return NoCandidate;
  }
}
