// Which header a name finds among the lines of a message, said of the lines themselves.
module HeaderTexts {
  import opened Wrappers
  import opened Text
  import opened NumberTexts
  import opened Letters
  import opened Http

  /** A C string as strcasecmp sees it. */
  function UpToNul(s: string): string {
    if s == "" || s[0] == '\0' then "" else [s[0]] + UpToNul(s[1..])
  }

  predicate SameName(a: string, b: string) {
    SameButCase(UpToNul(a), UpToNul(b))
  }

  /** The first colon of the line stands behind a name. */
  predicate FirstColon(line: string, p: nat) {
    0 < p < |line| && line[p] == ':' && Apart(line[..p], ":")
  }

  /** The line sets the header of this name. */
  predicate Sets(line: string, name: string) {
    exists p :: 0 < p < |line| && FirstColon(line, p) && SameName(line[..p], name)
  }

  lemma AtOne(s: string, d: string, p: nat)
    requires p < |s| && |d| == 1
    ensures At(s, d, p) <==> s[p] == d[0]
  {
    assert s[p + 0] == s[p];
  }

  lemma {:induction false} NulEnds(s: string, from: nat)
    requires from <= |s|
    ensures UpToNul(s[from..]) == s[from..match Find(s, "\0", from) case None => |s| case Some(i) => i]
    decreases |s| - from
  {
    if from < |s| {
      AtOne(s, "\0", from);
      assert s[from..][1..] == s[from + 1..];
      NulEnds(s, from + 1);
    }
  }

  /** Names are told apart up to their first NUL and by more than the case of their letters. */
  lemma CanonExactly(a: string, b: string)
    ensures Canon(a) == Canon(b) <==> SameName(a, b)
  {
    hide Find, At, Lowercased, UpToNul;
    NulEnds(a, 0);
    NulEnds(b, 0);
    assert a[0..] == a && b[0..] == b;
    assert CString(a) == UpToNul(a) && CString(b) == UpToNul(b);
    SameExactly(UpToNul(a), UpToNul(b));
  }

  lemma ColonFound(line: string, p: nat)
    requires FirstColon(line, p)
    ensures Find(line, ":", 0) == Some(p)
  {
    assert line == line[..p] + ":" + line[p + 1..];
    FindAfterApart(line[..p], ":", line[p + 1..]);
  }

  lemma FoundColon(line: string)
    ensures match Find(line, ":", 0)
            case None => forall p :: 0 <= p < |line| ==> line[p] != ':'
            case Some(p) => p < |line| && line[p] == ':' && Apart(line[..p], ":")
  {
    FindLeast(line, ":", 0);
    forall p | 0 <= p < |line|
      ensures line[p] == ':' <==> At(line, ":", p)
    {
      AtOne(line, ":", p);
    }
  }

  /** The value begins behind the colon and the blanks that follow it. */
  predicate ValueIs(line: string, p: nat, blanks: string, value: string)
    requires p < |line|
  {
    && line[p + 1..] == blanks + value
    && (forall i :: 0 <= i < |blanks| ==> IsBlank(blanks[i])) && (value != "" ==> !IsBlank(value[0]))
  }

  lemma LineSets(parsed: map<string, string>, line: string, p: nat, blanks: string, value: string)
    requires FirstColon(line, p) && ValueIs(line, p, blanks, value)
    ensures WithHeaderLine(parsed, line) == parsed[Canon(line[..p]) := value]
  {
    ColonFound(line, p);
    var e := p + 1 + |blanks|;
    forall i | p < i < e
      ensures IsSpace(line[i])
    {
      assert line[p + 1..][i - p - 1] == blanks[i - p - 1];
      BlankChars(line[i]);
    }
    if e < |line| {
      assert line[p + 1..][|blanks|] == value[0];
      BlankChars(line[e]);
    }
    hide Find, IsSpace, IsBlank, Canon, Apart;
    assert line[p + 1..][|blanks|..] == value && line[p + 1..][|blanks|..] == line[e..];
    BlanksEndAt(line, p + 1, e);
  }

  lemma NotSet(parsed: map<string, string>, line: string, name: string)
    requires !Sets(line, name)
    ensures var h := WithHeaderLine(parsed, line);
            (Canon(name) in h <==> Canon(name) in parsed)
            && (Canon(name) in h ==> h[Canon(name)] == parsed[Canon(name)])
  {
    hide Canon, BlanksEnd, SameName;
    FoundColon(line);
    var at := Find(line, ":", 0);
    if at.Some? && at.value > 0 {
      assert FirstColon(line, at.value);
      CanonExactly(line[..at.value], name);
    }
  }

  /** The last line that sets the name decides. */
  lemma {:induction false} HeaderIs(lines: seq<string>, i: nat, p: nat, blanks: string, value: string, name: string)
    requires i < |lines| && FirstColon(lines[i], p) && ValueIs(lines[i], p, blanks, value)
    requires SameName(lines[i][..p], name)
    requires forall j :: i < j < |lines| ==> !Sets(lines[j], name)
    ensures var reply := NO_REPLY.(parsed := HeaderMap(lines));
            reply.HasHeader(name) && reply.GetHeader(name) == value
    decreases |lines|
  {
    hide Canon, WithHeaderLine, Sets, SameName, ValueIs, Apart;
    var n := |lines| - 1;
    if i == n {
      LineSets(HeaderMap(lines[..n]), lines[n], p, blanks, value);
      CanonExactly(lines[n][..p], name);
    } else {
      HeaderIs(lines[..n], i, p, blanks, value, name);
      NotSet(HeaderMap(lines[..n]), lines[n], name);
    }
  }

  /** And without such a line there is no header of this name. */
  lemma {:induction false} HeaderMissing(lines: seq<string>, name: string)
    requires forall j :: 0 <= j < |lines| ==> !Sets(lines[j], name)
    ensures var reply := NO_REPLY.(parsed := HeaderMap(lines));
            !reply.HasHeader(name) && reply.GetHeader(name) == ""
    decreases |lines|
  {
    hide Canon, WithHeaderLine, Sets;
    if lines != [] {
      var n := |lines| - 1;
      HeaderMissing(lines[..n], name);
      NotSet(HeaderMap(lines[..n]), lines[n], name);
    }
  }
}
