// dequoted of common/utils.cpp, against the quoting it undoes.
module Quoting {
  import opened Text

  /** A backslash before a backslash or a quote stands for that character; any other stands for itself. */
  function Unescaped(s: string): string {
    if s == "" then ""
    else if s[0] == '\\' && |s| > 1 && (s[1] == '\\' || s[1] == '\"') then [s[1]] + Unescaped(s[2..])
    else [s[0]] + Unescaped(s[1..])
  }

  function Dequoted(str: string): string {
    if str == "" || str[0] != '\"' then Unescaped(str)
    else if |str| < 2 || str[|str| - 1] != '\"' then str
    else Unescaped(str[1..|str| - 1])
  }

  function Escaped(s: string): string {
    if s == "" then ""
    else (if s[0] == '\\' || s[0] == '\"' then ['\\', s[0]] else [s[0]]) + Escaped(s[1..])
  }

  lemma {:induction false} UnescapedPlain(a: string, b: string)
    requires forall i :: 0 <= i < |a| ==> a[i] != '\\'
    ensures Unescaped(a + b) == a + Unescaped(b)
  {
    if a == "" {
      assert a + b == b;
    } else {
      assert (a + b)[1..] == a[1..] + b;
      UnescapedPlain(a[1..], b);
    }
  }

  lemma PlainBefore(str: string, beg: nat, i: nat)
    requires beg <= i <= |str| && forall j :: beg <= j < i ==> !At(str, "\\", j)
    ensures forall j :: 0 <= j < i - beg ==> str[beg..i][j] != '\\'
  {
    forall j | 0 <= j < i - beg
      ensures str[beg..i][j] != '\\'
    {
      assert !At(str, "\\", beg + j);
    }
  }

  /** Up to the next backslash the text stands for itself. */
  lemma UpToBackslash(str: string, beg: nat, i: nat, end: nat)
    requires beg <= i <= end <= |str| && forall j :: beg <= j < i ==> !At(str, "\\", j)
    ensures Unescaped(str[beg..end]) == str[beg..i] + Unescaped(str[i..end])
  {
    hide At, Unescaped;
    PlainBefore(str, beg, i);
    assert str[beg..end] == str[beg..i] + str[i..end];
    UnescapedPlain(str[beg..i], str[i..end]);
  }

  lemma UpToNext(str: string, beg: nat, end: nat)
    requires beg <= end <= |str|
    ensures var found := Find(str, "\\", beg);
            var i := if found.None? || found.value > end then end else found.value;
            && Unescaped(str[beg..end]) == str[beg..i] + Unescaped(str[i..end])
            && (found.Some? ==> found.value < |str| && str[found.value] == '\\')
  {
    hide Unescaped;
    var found := Find(str, "\\", beg);
    FindLeast(str, "\\", beg);
    assert found.Some? ==> str[found.value + 0] == "\\"[0];
    UpToBackslash(str, beg, if found.None? || found.value > end then end else found.value, end);
  }

  lemma BackslashRead(str: string, i: nat, end: nat)
    requires i + 1 < end <= |str| && str[i] == '\\'
    ensures Unescaped(str[i..end])
         == if str[i + 1] == '\\' || str[i + 1] == '\"' then [str[i + 1]] + Unescaped(str[i + 2..end])
            else "\\" + Unescaped(str[i + 1..end])
  {
    assert str[i..end][1..] == str[i + 1..end] && str[i..end][2..] == str[i + 2..end];
  }

  lemma LastRead(str: string, i: nat, end: nat)
    requires i <= end <= |str| && i + 1 >= end
    ensures Unescaped(str[i..end]) == str[i..end]
    ensures i == end ==> str[i..end] == ""
  {
  }

  lemma SliceJoin(str: string, a: nat, b: nat, c: nat)
    requires a <= b <= c <= |str|
    ensures str[a..c] == str[a..b] + str[b..c]
  {
  }

  lemma Regroup(s: string, a: string, b: string)
    ensures s + (a + b) == s + a + b
  {
  }

  /** The body of dequoted's loop: what is written and where the reading goes on. */
  method ReadOn(str: string, beg: nat, end: nat) returns (text: string, next: nat)
    requires beg < end <= |str|
    ensures beg < next <= end
    ensures Unescaped(str[beg..end]) == text + Unescaped(str[next..end])
  {
    hide Unescaped, Find, At;
    var found := Find(str, "\\", beg);
    UpToNext(str, beg, end);
    if found.None? || found.value + 1 >= end {
      ghost var i := if found.None? || found.value > end then end else found.value;
      LastRead(str, i, end);
      LastRead(str, end, end);
      SliceJoin(str, beg, i, end);
      return str[beg..end], end;
    }
    var i := found.value;
    BackslashRead(str, i, end);
    text := str[beg..i];
    if str[i + 1] == '\\' {
      Regroup(text, "\\", Unescaped(str[i + 2..end]));
      text, next := text + "\\", i + 2;
    } else if str[i + 1] == '\"' {
      Regroup(text, "\"", Unescaped(str[i + 2..end]));
      text, next := text + "\"", i + 2;
    } else {
      Regroup(text, "\\", Unescaped(str[i + 1..end]));
      text, next := text + "\\", i + 1;
    }
  }

  method Dequote(str: string) returns (s: string)
    ensures s == Dequoted(str)
  {
    if str == "" {
      return str;
    }
    var beg, end := 0, |str|;
    if str[0] == '\"' {
      if end < 2 || str[|str| - 1] != '\"' {
        return str;
      }
      beg, end := beg + 1, end - 1;
    }
    s := "";
    assert str[beg..end] == if str[0] == '\"' then str[1..|str| - 1] else str;
    assert Unescaped(str[beg..end]) == Dequoted(str);
    hide Unescaped, Dequoted;
    while beg < end
      invariant beg <= end <= |str|
      invariant s + Unescaped(str[beg..end]) == Dequoted(str)
    {
      var text, next := ReadOn(str, beg, end);
      Regroup(s, text, Unescaped(str[next..end]));
      s, beg := s + text, next;
    }
    LastRead(str, end, end);
  }

  lemma {:induction false} UnescapedEscaped(s: string)
    ensures Unescaped(Escaped(s)) == s
  {
    if s != "" {
      UnescapedEscaped(s[1..]);
      var rest := Escaped(s[1..]);
      if s[0] == '\\' || s[0] == '\"' {
        assert Escaped(s)[2..] == rest;
      } else {
        assert Escaped(s)[1..] == rest;
      }
    }
  }

  /** Whatever the text, quoting and escaping it is undone, and so is escaping alone. */
  lemma {:induction false} DequotedInverts(s: string)
    ensures Dequoted("\"" + Escaped(s) + "\"") == s
    ensures Dequoted(Escaped(s)) == s
  {
    UnescapedEscaped(s);
    var quoted := "\"" + Escaped(s) + "\"";
    assert quoted[1..|quoted| - 1] == Escaped(s);
  }

  /** No backslash of the text stands before a backslash or a quote. */
  predicate Unquoted(s: string) {
    forall i :: 0 <= i < |s| - 1 && s[i] == '\\' ==> s[i + 1] != '\\' && s[i + 1] != '\"'
  }

  lemma {:induction false} UnquotedStays(s: string)
    requires Unquoted(s)
    ensures Unescaped(s) == s
  {
    if s != "" {
      assert forall i :: 0 <= i < |s| - 1 ==> s[1..][i] == s[i + 1];
      UnquotedStays(s[1..]);
    }
  }

  /** A quote that is not closed stays, and so does every backslash that stands before nothing special. */
  lemma DequotedLeaves(s: string)
    ensures s != "" && s[0] == '\"' && (|s| == 1 || s[|s| - 1] != '\"') ==> Dequoted(s) == s
    ensures Unquoted(s) && (s == "" || s[0] != '\"') ==> Dequoted(s) == s && Dequoted("\"" + s + "\"") == s
  {
    if Unquoted(s) {
      UnquotedStays(s);
      var quoted := "\"" + s + "\"";
      assert quoted[1..|quoted| - 1] == s;
    }
  }
}
