// The string utilities of common/utils.cpp on which header parsing rests.
module Text {
  import opened Wrappers

  // ---------------------------------------------------------------- searching

  /** The pattern d stands in s at index i. */
  predicate At(s: string, d: string, i: int) {
    0 <= i && i + |d| <= |s| && forall k :: 0 <= k < |d| ==> s[i + k] == d[k]
  }

  /** std::string::find and std::search: the first occurrence of d at or after from. */
  function Find(s: string, d: string, from: nat): (r: Option<nat>)
    ensures r.Some? ==> from <= r.value <= |s| - |d| && At(s, d, r.value)
    decreases |s| - from
  {
    if from + |d| > |s| then None
    else if At(s, d, from) then Some(from)
    else Find(s, d, from + 1)
  }

  lemma {:induction false} FindLeast(s: string, d: string, from: nat)
    ensures var r := Find(s, d, from);
            forall j :: from <= j && (r.Some? ==> j < r.value) ==> !At(s, d, j)
    decreases |s| - from
  {
    if from + |d| <= |s| && !At(s, d, from) {
      FindLeast(s, d, from + 1);
    }
  }

  lemma AroundMatch(s: string, d: string, from: nat, i: nat)
    requires from <= i && At(s, d, i)
    ensures s[from..] == s[from..i] + d + s[i + |d|..]
  {
  }

  lemma NotAt(s: string, d: string, j: nat)
    requires d != "" && j < |s| && s[j] != d[0]
    ensures !At(s, d, j)
  {
    assert j + |d| <= |s| ==> s[j..j + |d|][0] == s[j];
  }

  lemma FindIs(s: string, d: string, from: nat, i: nat)
    requires from <= i && At(s, d, i)
    requires forall j :: from <= j < i ==> !At(s, d, j)
    ensures Find(s, d, from) == Some(i)
  {
    FindLeast(s, d, from);
  }

  /** A match found in a prefix stays the first match however the text goes on. */
  lemma FindInPrefix(s: string, t: string, d: string, from: nat)
    requires Find(s, d, from).Some?
    ensures Find(s + t, d, from) == Find(s, d, from)
  {
    FindLeast(s, d, from);
    var i := Find(s, d, from).value;
    forall j | from <= j <= i
      ensures At(s + t, d, j) <==> At(s, d, j)
    {
      if j + |d| <= |s| {
        assert (s + t)[j..j + |d|] == s[j..j + |d|];
      }
    }
    FindIs(s + t, d, from, i);
  }

  lemma AtShift(s: string, d: string, k: nat, j: nat)
    requires k <= |s|
    ensures At(s, d, k + j) <==> At(s[k..], d, j)
  {
    if k + j + |d| <= |s| {
      assert s[k..][j..j + |d|] == s[k + j..k + j + |d|];
    }
  }

  lemma {:induction false} FindShift(s: string, d: string, k: nat, from: nat)
    requires k + from <= |s|
    ensures Find(s[k..], d, from).Some? <==> Find(s, d, k + from).Some?
    ensures Find(s, d, k + from).Some? ==> Find(s, d, k + from).value == k + Find(s[k..], d, from).value
    decreases |s| - from
  {
    AtShift(s, d, k, from);
    if from + |d| <= |s[k..]| && !At(s[k..], d, from) {
      FindShift(s, d, k, from + 1);
    }
  }

  /** Text that shares no character with the delimiter cannot hold any part of it. */
  predicate Apart(s: string, d: string) {
    forall i :: 0 <= i < |s| ==> s[i] !in d
  }

  lemma FindAfterApart(part: string, d: string, rest: string)
    requires d != "" && Apart(part, d)
    ensures Find(part + d + rest, d, 0) == Some(|part|)
  {
    var s := part + d + rest;
    assert s[|part|..|part| + |d|] == d;
    forall j | 0 <= j < |part|
      ensures !At(s, d, j)
    {
      assert s[j] == part[j] && d[0] in d;
      NotAt(s, d, j);
    }
    FindIs(s, d, 0, |part|);
  }

  lemma NotFoundApart(s: string, d: string)
    requires d != "" && Apart(s, d)
    ensures Find(s, d, 0).None?
  {
    assert d[0] in d;
  }

  // ----------------------------------------------------------- split and join

  /** What split makes of s from index `from` on: at most `cuts` cuts, or all of them when negative. */
  function Cut(s: string, d: string, from: nat, cuts: int): (r: seq<string>)
    requires from <= |s| && (d != "" || cuts >= 0)
    decreases |s| - from, if cuts >= 0 then cuts else 0
  {
    var i := Find(s, d, from);
    if cuts == 0 || i.None? then [s[from..]]
    else [s[from..i.value]] + Cut(s, d, i.value + |d|, if cuts < 0 then cuts else cuts - 1)
  }

  /** The limit takes effect from two parts upwards; zero, one and negative limits mean "all". */
  function Cuts(maxParts: int): int {
    if maxParts >= 2 then maxParts - 1 else -1
  }

  function Left(maxParts: int, parts: nat): int {
    if maxParts >= 2 then maxParts - 1 - parts else -1
  }

  /** On an empty delimiter the search always succeeds in place, so only a limit ends the loop. */
  method Split(line: string, delimiter: string, maxParts: int) returns (strs: seq<string>)
    requires delimiter != "" || maxParts >= 2
    ensures strs == Cut(line, delimiter, 0, Cuts(maxParts))
  {
    hide Find, At;
    var parts := 0;
    strs := [];
    var prevPos := 0;
    var pos := Find(line, delimiter, prevPos);
    while pos.Some?
      invariant 0 <= prevPos <= |line| && parts >= 0
      invariant pos == Find(line, delimiter, prevPos)
      invariant maxParts >= 2 ==> parts < maxParts - 1
      invariant strs + Cut(line, delimiter, prevPos, Left(maxParts, parts)) == Cut(line, delimiter, 0, Cuts(maxParts))
      decreases |line| - prevPos, if maxParts >= 2 then maxParts - parts else 0
    {
      parts := parts + 1;
      strs := strs + [line[prevPos..pos.value]];
      prevPos := pos.value + |delimiter|;
      if parts == maxParts - 1 {
        break;
      }
      pos := Find(line, delimiter, prevPos);
    }
    strs := strs + [line[prevPos..]];
  }

  /** Where split's loop stands after n rounds: the search position and the parts cut off, None once it is left. */
  function LoopAt(line: string, d: string, maxParts: int, n: nat): (r: Option<(nat, nat)>)
    ensures r.Some? ==> r.value.0 <= |line|
  {
    if n == 0 then Some((0, 0))
    else
      match LoopAt(line, d, maxParts, n - 1)
      case None => None
      case Some((prevPos, parts)) =>
        var pos := Find(line, d, prevPos);
        if pos.None? || parts + 1 == maxParts - 1 then None else Some((pos.value + |d|, parts + 1))
  }

  /** On an empty delimiter the search stands still; on another it moves forward by at least the delimiter. */
  lemma {:induction false} LoopMoves(line: string, d: string, maxParts: int, n: nat)
    ensures var r := LoopAt(line, d, maxParts, n);
            && (r.Some? ==> r.value.1 == n && (d != "" ==> r.value.0 >= n))
            && (d == "" && (maxParts <= 1 || n < maxParts - 1) ==> r == Some((0, n)))
  {
    if n > 0 {
      LoopMoves(line, d, maxParts, n - 1);
      assert d == "" ==> At(line, d, 0);
    }
  }

  /** The loop is left exactly under a non-empty delimiter or a limit of at least two parts. */
  lemma SplitEndsExactly(line: string, d: string, maxParts: int)
    ensures (exists n: nat :: LoopAt(line, d, maxParts, n).None?) <==> d != "" || maxParts >= 2
  {
    if d != "" {
      LoopMoves(line, d, maxParts, |line| + 1);
      assert LoopAt(line, d, maxParts, |line| + 1).None?;
    } else if maxParts >= 2 {
      LoopMoves(line, d, maxParts, maxParts - 2);
      assert LoopAt(line, d, maxParts, maxParts - 1).None?;
    } else {
      forall n: nat ensures LoopAt(line, d, maxParts, n).Some? {
        LoopMoves(line, d, maxParts, n);
      }
    }
  }

  function Joined(parts: seq<string>, connector: string): string {
    if parts == [] then ""
    else if |parts| == 1 then parts[0]
    else parts[0] + connector + Joined(parts[1..], connector)
  }

  lemma {:induction false} JoinedSnoc(parts: seq<string>, last: string, c: string)
    requires parts != []
    ensures Joined(parts + [last], c) == Joined(parts, c) + c + last
  {
    assert (parts + [last])[1..] == parts[1..] + [last];
    if |parts| > 1 {
      JoinedSnoc(parts[1..], last, c);
    }
  }

  method Join(vec: seq<string>, connector: string) returns (ss: string)
    ensures ss == Joined(vec, connector)
  {
    ss := "";
    var first := true;
    for i := 0 to |vec|
      invariant first <==> i == 0
      invariant ss == Joined(vec[..i], connector)
    {
      assert vec[..i + 1] == vec[..i] + [vec[i]];
      if i > 0 {
        JoinedSnoc(vec[..i], vec[i], connector);
      }
      if !first {
        ss := ss + connector;
      }
      ss := ss + vec[i];
      first := false;
    }
    assert vec[..|vec|] == vec;
  }

  /** Splitting loses nothing, whatever the limit and whatever the delimiter. */
  lemma {:induction false} JoinInvertsSplit(s: string, d: string, from: nat, cuts: int)
    requires from <= |s| && (d != "" || cuts >= 0)
    ensures Cut(s, d, from, cuts) != []
    ensures Joined(Cut(s, d, from, cuts), d) == s[from..]
    decreases |s| - from, if cuts >= 0 then cuts else 0
  {
    hide Find, At;
    var i := Find(s, d, from);
    if cuts != 0 && i.Some? {
      JoinInvertsSplit(s, d, i.value + |d|, if cuts < 0 then cuts else cuts - 1);
      AroundMatch(s, d, from, i.value);
    }
  }

  lemma {:induction false} SplitRespectsLimit(s: string, d: string, from: nat, cuts: nat)
    requires from <= |s|
    ensures |Cut(s, d, from, cuts)| <= cuts + 1
    decreases cuts
  {
    hide Find, At;
    var i := Find(s, d, from);
    if cuts != 0 && i.Some? {
      SplitRespectsLimit(s, d, i.value + |d|, if cuts < 0 then cuts else cuts - 1);
    }
  }

  lemma NothingBeforeMatch(s: string, d: string, from: nat, i: nat)
    requires from <= i <= |s| && forall j :: from <= j < i ==> !At(s, d, j)
    requires d != ""
    ensures Find(s[from..i], d, 0).None?
  {
    forall j | At(s[from..i], d, j)
      ensures At(s, d, from + j)
    {
      AtSlice(s, d, from, i, j);
    }
    hide At;
  }

  lemma AtSlice(s: string, d: string, from: nat, i: nat, j: int)
    requires from <= i <= |s| && At(s[from..i], d, j)
    ensures At(s, d, from + j)
  {
    forall k | 0 <= k < |d|
      ensures s[from + j + k] == d[k]
    {
      assert s[from..i][j + k] == d[k];
    }
  }

  /** No part holds the delimiter, except that the last may when the limit ended the cutting. */
  ghost predicate Free(parts: seq<string>, d: string, cuts: int) {
    forall k :: 0 <= k < |parts| && (k < |parts| - 1 || cuts < 0 || |parts| <= cuts) ==> Find(parts[k], d, 0).None?
  }

  lemma FreeMore(first: string, parts: seq<string>, d: string, cuts: int, fewer: int)
    requires Find(first, d, 0).None? && parts != [] && Free(parts, d, fewer)
    requires cuts != 0 && fewer == if cuts < 0 then cuts else cuts - 1
    ensures Free([first] + parts, d, cuts)
  {
    hide Find;
    var all := [first] + parts;
    forall k | 0 <= k < |all| && (k < |all| - 1 || cuts < 0 || |all| <= cuts)
      ensures Find(all[k], d, 0).None?
    {
      if k > 0 {
        assert all[k] == parts[k - 1];
      }
    }
  }

  lemma NothingInRest(s: string, d: string, from: nat)
    requires from <= |s| && d != "" && Find(s, d, from).None?
    ensures Find(s[from..], d, 0).None?
  {
    FindLeast(s, d, from);
    NothingBeforeMatch(s, d, from, |s|);
    assert s[from..|s|] == s[from..];
  }

  lemma NothingInPart(s: string, d: string, from: nat)
    requires from <= |s| && d != "" && Find(s, d, from).Some?
    ensures Find(s[from..Find(s, d, from).value], d, 0).None?
  {
    FindLeast(s, d, from);
    NothingBeforeMatch(s, d, from, Find(s, d, from).value);
  }

  /** What split makes is free of the delimiter in this sense. */
  lemma {:induction false} PartsFree(s: string, d: string, from: nat, cuts: int)
    requires from <= |s| && d != ""
    ensures Free(Cut(s, d, from, cuts), d, cuts)
    decreases |s| - from, if cuts >= 0 then cuts else 0
  {
    hide Find, At;
    var i := Find(s, d, from);
    if cuts != 0 && i.Some? {
      var fewer := if cuts < 0 then cuts else cuts - 1;
      NothingInPart(s, d, from);
      PartsFree(s, d, i.value + |d|, fewer);
      JoinInvertsSplit(s, d, i.value + |d|, fewer);
      FreeMore(s[from..i.value], Cut(s, d, i.value + |d|, fewer), d, cuts, fewer);
    } else if i.None? {
      NothingInRest(s, d, from);
    }
  }

  lemma SliceOfDrop(s: string, k: nat, a: nat, b: nat)
    requires k <= |s| && a <= b <= |s| - k
    ensures s[k..][a..b] == s[k + a..k + b]
    ensures s[k..][a..] == s[k + a..]
  {
  }

  lemma {:induction false} CutShift(s: string, d: string, k: nat, from: nat)
    requires d != "" && k + from <= |s|
    ensures Cut(s, d, k + from, -1) == Cut(s[k..], d, from, -1)
    decreases |s| - from
  {
    hide Find, At;
    var u := s[k..];
    FindShift(s, d, k, from);
    var i := Find(u, d, from);
    if i.Some? {
      SliceOfDrop(s, k, from, i.value);
      CutShift(s, d, k, i.value + |d|);
      calc {
        Cut(s, d, k + from, -1);
        [s[k + from..k + i.value]] + Cut(s, d, k + i.value + |d|, -1);
        [u[from..i.value]] + Cut(u, d, i.value + |d|, -1);
      }
    } else {
      SliceOfDrop(s, k, from, |u|);
    }
  }

  /** A first part that shares nothing with the delimiter is cut off as it stands. */
  lemma CutFirst(part: string, d: string, rest: string)
    requires d != "" && Apart(part, d)
    ensures Cut(part + d + rest, d, 0, -1) == [part] + Cut(rest, d, 0, -1)
  {
    hide Find, At;
    var s := part + d + rest;
    FindAfterApart(part, d, rest);
    assert s[0..|part|] == part && s[|part| + |d|..] == rest;
    CutShift(s, d, |part| + |d|, 0);
  }

  lemma {:induction false} SplitInvertsJoin(parts: seq<string>, d: string)
    requires d != "" && parts != []
    requires forall p :: p in parts ==> Apart(p, d)
    ensures Cut(Joined(parts, d), d, 0, -1) == parts
  {
    assert parts[0] in parts;
    if |parts| == 1 {
      NotFoundApart(parts[0], d);
    } else {
      hide Find, At;
      SplitInvertsJoin(parts[1..], d);
      CutFirst(parts[0], d, Joined(parts[1..], d));
    }
  }

  // ------------------------------------------------------------- characters

  function Lower(c: char): char {
    if 'A' <= c <= 'Z' then (c as int + 32) as char else c
  }

  function Lowercased(s: string): (r: string)
    ensures |r| == |s|
  {
    seq(|s|, i requires 0 <= i < |s| => Lower(s[i]))
  }

  /** std::transform writes one lowered character after another. */
  method ToLower(str: string) returns (ret: string)
    ensures ret == Lowercased(str)
  {
    ret := "";
    for i := 0 to |str|
      invariant ret == Lowercased(str)[..i]
    {
      ret := ret + [Lower(str[i])];
    }
  }

  /** strncmp over the predicate's length; every predicate in use is a literal without NUL. */
  predicate StartsWith(s: string, p: string) {
    |p| <= |s| && s[..|p|] == p
  }

  predicate IsSpace(c: char) {
    c == ' ' || '\t' <= c <= '\r'
  }

  function BlanksEnd(s: string, from: nat): (e: nat)
    requires from <= |s|
    ensures from <= e <= |s|
    ensures forall i :: from <= i < e ==> IsSpace(s[i])
    ensures e < |s| ==> !IsSpace(s[e])
    decreases |s| - from
  {
    if from < |s| && IsSpace(s[from]) then BlanksEnd(s, from + 1) else from
  }
}
