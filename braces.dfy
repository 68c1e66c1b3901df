/** The naive brace matching of `LlamaModelHandler.code_text`: every '{'
    counts one level deeper and every '}' one level shallower, wherever they
    stand, so braces inside JSON strings are counted too. */
module Braces {
  import opened Json

  /** What one character does to the running brace count. */
  function Delta(c: char): int {
    if c == '{' then 1 else if c == '}' then -1 else 0
  }

  /** The running brace count after reading all of `s`. */
  function Depth(s: string): int {
    if s == [] then 0 else Depth(s[..|s| - 1]) + Delta(s[|s| - 1])
  }

  /** Reading one more character changes the count by that character's delta. */
  lemma DepthSnoc(s: string, i: nat, j: nat)
    requires i <= j < |s|
    ensures Depth(s[i..j + 1]) == Depth(s[i..j]) + Delta(s[j])
  {
    assert s[i..j + 1][..j - i] == s[i..j];
  }

  /** The positions of every '{' in `s`, in increasing order. */
  function OpenBraces(s: string): (r: seq<nat>)
    ensures forall k :: 0 <= k < |r| ==> r[k] < |s|
  {
    if s == [] then []
    else
      var r0 := OpenBraces(s[..|s| - 1]);
      if s[|s| - 1] == '{' then r0 + [|s| - 1] else r0
  }

  /** `OpenBraces` lists exactly the '{' positions, each once, in order. */
  lemma {:induction false} OpenBracesSpec(s: string)
    ensures forall k :: 0 <= k < |OpenBraces(s)| ==> s[OpenBraces(s)[k]] == '{'
    ensures forall i :: 0 <= i < |s| && s[i] == '{' ==> i in OpenBraces(s)
    ensures forall j, k :: 0 <= j < k < |OpenBraces(s)| ==> OpenBraces(s)[j] < OpenBraces(s)[k]
  {
    if s != [] {
      var t := s[..|s| - 1];
      OpenBracesSpec(t);
      var r0 := OpenBraces(t);
      forall k | 0 <= k < |OpenBraces(s)| ensures s[OpenBraces(s)[k]] == '{' {
        if k < |r0| {
          assert OpenBraces(s)[k] == r0[k];
          assert t[r0[k]] == s[r0[k]];
        }
      }
    }
  }

  /** The end the inner scan settles on when it has reached index `i`
      without the count returning to zero: the first `j > i` at which the
      count over `s[start..j]` is zero, or `None` if there is none. */
  function ScanFrom(s: string, start: nat, i: nat): (r: Option<nat>)
    requires start <= i <= |s|
    ensures r.Some? ==> i < r.value <= |s|
    decreases |s| - i
  {
    if i == |s| then None
    else if Depth(s[start..i + 1]) == 0 then Some(i + 1)
    else ScanFrom(s, start, i + 1)
  }

  lemma {:induction false} ScanFromSpec(s: string, start: nat, i: nat)
    requires start <= i <= |s|
    ensures var r := ScanFrom(s, start, i);
      (r.Some? ==> Depth(s[start..r.value]) == 0 &&
                   forall j :: i < j < r.value ==> Depth(s[start..j]) != 0) &&
      (r.None? ==> forall j :: i < j <= |s| ==> Depth(s[start..j]) != 0)
    decreases |s| - i
  {
    if i < |s| && Depth(s[start..i + 1]) != 0 {
      ScanFromSpec(s, start, i + 1);
    }
  }

  /** The exclusive end of the candidate that begins at `start`: the first
      position after `start` where the count returns to zero. */
  function MatchingEnd(s: string, start: nat): (r: Option<nat>)
    requires start <= |s|
    ensures r.Some? ==> start < r.value <= |s|
  {
    ScanFrom(s, start, start)
  }

  /** The matching end is the first position after `start` where the count
      is zero; a candidate without one never returns to zero. */
  lemma MatchingEndSpec(s: string, start: nat)
    requires start <= |s|
    ensures var r := MatchingEnd(s, start);
      (r.Some? ==> Depth(s[start..r.value]) == 0 &&
                   forall j :: start < j < r.value ==> Depth(s[start..j]) != 0) &&
      (r.None? ==> forall j :: start < j <= |s| ==> Depth(s[start..j]) != 0)
  {
    ScanFromSpec(s, start, start);
  }

  /** Before the matching end the count stays positive: it starts at one and
      moves by at most one per character without touching zero. */
  lemma {:induction false} PositiveBeforeEnd(s: string, start: nat, j: nat)
    requires start < |s| && s[start] == '{'
    requires start < j <= |s|
    requires forall k :: start < k <= j ==> Depth(s[start..k]) != 0
    ensures Depth(s[start..j]) > 0
  {
    if j == start + 1 {
      DepthSnoc(s, start, start);
      assert s[start..start] == [];
    } else {
      PositiveBeforeEnd(s, start, j - 1);
      DepthSnoc(s, start, j - 1);
    }
  }

  /** A matched candidate begins with '{', ends with '}', and every proper
      non-empty prefix of it is still open. */
  lemma CandidateShape(s: string, start: nat)
    requires start < |s| && s[start] == '{'
    requires MatchingEnd(s, start).Some?
    ensures var c := s[start..MatchingEnd(s, start).value];
      |c| >= 2 && c[0] == '{' && c[|c| - 1] == '}' && Depth(c) == 0 &&
      forall j :: 0 < j < |c| ==> Depth(c[..j]) > 0
  {
    var e := MatchingEnd(s, start).value;
    var c := s[start..e];
    MatchingEndSpec(s, start);
    forall j | 0 < j < |c| ensures Depth(c[..j]) > 0 {
      assert c[..j] == s[start..start + j];
      PositiveBeforeEnd(s, start, start + j);
    }
    DepthSnoc(s, start, start);
    assert s[start..start] == [];
    assert e != start + 1;
    PositiveBeforeEnd(s, start, e - 1);
    DepthSnoc(s, start, e - 1);
  }

  /** The inner `for i in range(start_index, len(generated_text))` loop:
      returns the end index it sets, or -1 when the count never returns to
      zero. */
  method FindEnd(s: string, start: nat) returns (endIndex: int)
    requires start <= |s|
    ensures endIndex > 0 <==> MatchingEnd(s, start).Some?
    ensures endIndex > 0 ==> endIndex == MatchingEnd(s, start).value
    ensures endIndex <= 0 ==> endIndex == -1
  {
    var braceCount := 0;
    endIndex := -1;
    var i := start;
    while i < |s|
      invariant start <= i <= |s|
      invariant braceCount == Depth(s[start..i])
      invariant ScanFrom(s, start, i) == MatchingEnd(s, start)
    {
      if s[i] == '{' {
        braceCount := braceCount + 1;
      } else if s[i] == '}' {
        braceCount := braceCount - 1;
      }
      DepthSnoc(s, start, i);
      if braceCount == 0 {
        endIndex := i + 1;
        break;
      }
      i := i + 1;
    }
  }
}
