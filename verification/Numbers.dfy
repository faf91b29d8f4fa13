// Number texts as std::to_string writes them and std::stoul / std::stoi read them.
module Numbers {
  import opened Wrappers
  import opened Text

  const TWO_64: int := 0x1_0000_0000_0000_0000
  const TWO_31: int := 0x8000_0000

  // ------------------------------------------------------------------ digits

  function DigitValue(c: char): nat {
    if '0' <= c <= '9' then c as nat - '0' as nat
    else if 'a' <= c <= 'f' then c as nat - 'a' as nat + 10
    else if 'A' <= c <= 'F' then c as nat - 'A' as nat + 10
    else 16
  }

  /** A non-empty run of digits and nothing else. */
  predicate Plain(s: string, base: nat) {
    s != "" && forall i :: 0 <= i < |s| ==> DigitValue(s[i]) < base
  }

  function Value(s: string, base: nat): nat {
    if s == "" then 0 else Value(s[..|s| - 1], base) * base + DigitValue(s[|s| - 1])
  }

  function DigitsEnd(s: string, base: nat, from: nat): (e: nat)
    requires from <= |s|
    ensures from <= e <= |s|
    ensures forall i :: from <= i < e ==> DigitValue(s[i]) < base
    ensures e < |s| ==> DigitValue(s[e]) >= base
    decreases |s| - from
  {
    if from < |s| && DigitValue(s[from]) < base then DigitsEnd(s, base, from + 1) else from
  }

  // ----------------------------------------------------------------- reading

  datatype Magnitude = Magnitude(negative: bool, value: nat, parsed: nat)

  /** strtoul and strtol before their range checks: blanks, a sign, a hexadecimal mark, digits. */
  function Scan(s: string, base: nat): Option<Magnitude> {
    var k := BlanksEnd(s, 0);
    var signed := k < |s| && (s[k] == '+' || s[k] == '-');
    var a := if signed then k + 1 else k;
    var marked := base == 16 && a + 2 < |s| && s[a] == '0' && (s[a + 1] == 'x' || s[a + 1] == 'X')
                  && DigitValue(s[a + 2]) < 16;
    var b := if marked then a + 2 else a;
    var e := DigitsEnd(s, base, b);
    if e == b then None
    else Some(Magnitude(signed && s[k] == '-', Value(s[b..e], base), e))
  }

  /** The value and how many characters it took; None for either exception std::stoul throws. */
  function Stoul(s: string, base: nat): (r: Option<(nat, nat)>)
    ensures r.Some? ==> r.value.0 < TWO_64 && 0 < r.value.1 <= |s|
  {
    match Scan(s, base)
    case None => None
    case Some(m) =>
      if m.value >= TWO_64 then None
      else Some((if m.negative && m.value != 0 then TWO_64 - m.value else m.value, m.parsed))
  }

  function Stoi(s: string): (r: Option<int>)
    ensures r.Some? ==> -TWO_31 <= r.value < TWO_31
  {
    match Scan(s, 10)
    case None => None
    case Some(m) =>
      var v := if m.negative then -(m.value as int) else m.value;
      if -TWO_31 <= v < TWO_31 then Some(v) else None
  }

  lemma ScanPlain(s: string, base: nat)
    requires Plain(s, base) && base <= 16
    ensures Scan(s, base) == Some(Magnitude(false, Value(s, base), |s|))
  {
    hide Value, DigitsEnd, BlanksEnd;
    assert DigitValue(s[0]) < base;
    assert BlanksEnd(s, 0) == 0;
    assert |s| > 1 ==> DigitValue(s[1]) < base;
    assert DigitsEnd(s, base, 0) == |s|;
    assert s[0..|s|] == s;
  }

  // ----------------------------------------------------------------- writing

  function DigitChar(d: nat): char
    requires d < 10
  {
    '0' + d as char
  }

  function ToString(n: nat): string {
    if n < 10 then [DigitChar(n)] else ToString(n / 10) + [DigitChar(n % 10)]
  }

  lemma {:induction false} ReadBack(n: nat)
    ensures Plain(ToString(n), 10) && Value(ToString(n), 10) == n
    ensures Apart(ToString(n), " ") && Apart(ToString(n), "\r\n")
    ensures n > 0 ==> ToString(n)[0] != '0'
  {
    if n >= 10 {
      ReadBack(n / 10);
      var s := ToString(n / 10);
      assert ToString(n)[..|ToString(n)| - 1] == s;
    } else {
      assert ToString(n)[..0] == "";
    }
  }

  lemma StoulReadsToString(n: nat)
    requires n < TWO_64
    ensures Stoul(ToString(n), 10) == Some((n, |ToString(n)|))
  {
    ReadBack(n);
    ScanPlain(ToString(n), 10);
  }

  lemma StoiReadsToString(n: nat)
    requires n < TWO_31
    ensures Stoi(ToString(n)) == Some(n)
  {
    ReadBack(n);
    ScanPlain(ToString(n), 10);
  }
}
