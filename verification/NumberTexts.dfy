// What strtoul and strtol make of a number text, said with the alphabets of the digits and not with their values.
module NumberTexts {
  import opened Wrappers
  import opened Text
  import opened Numbers

  const LOWER_DIGITS := "0123456789abcdef"
  const UPPER_DIGITS := "0123456789ABCDEF"
  const BLANKS := " \t\n\U{000B}\U{000C}\r"

  /** The two bases in use. */
  predicate IsBase(base: nat) {
    base == 10 || base == 16
  }

  /** The digits spell the number; letters in either case, leading zeros allowed. */
  predicate Spells(s: string, n: nat, base: nat)
    requires IsBase(base)
  {
    if s == "" then n == 0
    else (s[|s| - 1] == LOWER_DIGITS[n % base] || s[|s| - 1] == UPPER_DIGITS[n % base])
         && Spells(s[..|s| - 1], n / base, base)
  }

  predicate IsDigit(c: char, base: nat)
    requires IsBase(base)
  {
    c in LOWER_DIGITS[..base] || c in UPPER_DIGITS[..base]
  }

  predicate IsBlank(c: char) {
    c in BLANKS
  }

  /** The hexadecimal writer over one of the alphabets. */
  function ToHex(n: nat, digits: string): string
    requires |digits| == 16
  {
    if n < 16 then [digits[n]] else ToHex(n / 16, digits) + [digits[n % 16]]
  }

  lemma DigitsInOrder(d: nat)
    requires d < 16
    ensures DigitValue(LOWER_DIGITS[d]) == d && DigitValue(UPPER_DIGITS[d]) == d
  {
  }

  lemma DigitChars(c: char, base: nat)
    requires IsBase(base)
    ensures DigitValue(c) < base <==> IsDigit(c, base)
    ensures DigitValue(c) < base ==> c == LOWER_DIGITS[DigitValue(c)] || c == UPPER_DIGITS[DigitValue(c)]
  {
    var d := DigitValue(c);
    if d < base {
      assert c == LOWER_DIGITS[d] || c == UPPER_DIGITS[d];
      assert LOWER_DIGITS[..base][d] == LOWER_DIGITS[d] && UPPER_DIGITS[..base][d] == UPPER_DIGITS[d];
    } else if IsDigit(c, base) {
      if k :| 0 <= k < base && LOWER_DIGITS[..base][k] == c {
        DigitsInOrder(k);
      }
      if k :| 0 <= k < base && UPPER_DIGITS[..base][k] == c {
        DigitsInOrder(k);
      }
    }
  }

  /** Digits that spell a number are a plain run of digits with this value. */
  lemma {:induction false} SpelledValue(s: string, n: nat, base: nat)
    requires IsBase(base) && Spells(s, n, base)
    ensures Value(s, base) == n && (s != "" ==> Plain(s, base))
  {
    if s != "" {
      Digits(n, base);
      DigitsInOrder(n % base);
      hide DigitValue, LOWER_DIGITS, UPPER_DIGITS;
      SpelledValue(s[..|s| - 1], n / base, base);
      assert DigitValue(s[|s| - 1]) == n % base;
      LongerDigits(s, base);
    }
  }

  lemma LongerDigits(s: string, base: nat)
    requires s != "" && DigitValue(s[|s| - 1]) < base && (|s| > 1 ==> Plain(s[..|s| - 1], base))
    ensures Plain(s, base)
  {
    forall i | 0 <= i < |s|
      ensures DigitValue(s[i]) < base
    {
      assert i < |s| - 1 ==> s[i] == s[..|s| - 1][i];
    }
  }

  lemma SpelledOn(s: string, n: nat, base: nat)
    requires IsBase(base) && s != "" && Spells(s[..|s| - 1], n / base, base)
    requires s[|s| - 1] == LOWER_DIGITS[n % base] || s[|s| - 1] == UPPER_DIGITS[n % base]
    ensures Spells(s, n, base)
  {
  }

  lemma SpelledNext(s: string, v: nat, d: nat, base: nat)
    requires IsBase(base) && s != "" && Spells(s[..|s| - 1], v, base) && d < base
    requires s[|s| - 1] == LOWER_DIGITS[d] || s[|s| - 1] == UPPER_DIGITS[d]
    ensures Spells(s, v * base + d, base)
  {
    hide Spells, LOWER_DIGITS, UPPER_DIGITS;
    LastDigit(v, base, d);
    SpelledOn(s, v * base + d, base);
  }

  lemma ValueStep(s: string, base: nat)
    requires s != ""
    ensures Value(s, base) == Value(s[..|s| - 1], base) * base + DigitValue(s[|s| - 1])
  {
    hide DigitValue;
  }

  lemma ShorterDigits(s: string, base: nat)
    requires Plain(s, base)
    ensures s[..|s| - 1] == "" || Plain(s[..|s| - 1], base)
    ensures DigitValue(s[|s| - 1]) < base
  {
    assert forall i :: 0 <= i < |s| - 1 ==> s[..|s| - 1][i] == s[i];
  }

  /** And every run of digits spells its value. */
  lemma {:induction false} ValueSpelled(s: string, base: nat)
    requires IsBase(base) && (s == "" || Plain(s, base))
    ensures Spells(s, Value(s, base), base)
  {
    if s != "" {
      hide DigitValue, LOWER_DIGITS, UPPER_DIGITS, IsDigit, Spells, Plain, Value;
      var d, v := DigitValue(s[|s| - 1]), Value(s[..|s| - 1], base);
      ShorterDigits(s, base);
      DigitChars(s[|s| - 1], base);
      ValueSpelled(s[..|s| - 1], base);
      SpelledNext(s, v, d, base);
      ValueStep(s, base);
    }
  }

  lemma LastDigit(v: nat, base: nat, d: nat)
    requires IsBase(base) && d < base
    ensures (v * base + d) % base == d && (v * base + d) / base == v
  {
    if base == 10 {
      assert (v * 10 + d) % 10 == d && (v * 10 + d) / 10 == v;
    } else {
      assert (v * 16 + d) % 16 == d && (v * 16 + d) / 16 == v;
    }
  }

  lemma Digits(n: nat, base: nat)
    requires IsBase(base)
    ensures n % base < base && n / base * base + n % base == n
  {
    if base == 10 {
      assert n / 10 * 10 + n % 10 == n;
    } else {
      assert n / 16 * 16 + n % 16 == n;
    }
  }

  lemma {:induction false} ToHexSpells(n: nat, digits: string)
    requires digits == LOWER_DIGITS || digits == UPPER_DIGITS
    ensures ToHex(n, digits) != "" && Spells(ToHex(n, digits), n, 16)
  {
    if n >= 16 {
      ToHexSpells(n / 16, digits);
      var s := ToHex(n / 16, digits);
      assert ToHex(n, digits)[..|ToHex(n, digits)| - 1] == s;
    } else {
      assert ToHex(n, digits)[..0] == "";
    }
  }

  /** A hexadecimal number below 2^64 is read back whole, whatever the case of each letter. */
  lemma StoulReadsHex(s: string, n: nat)
    requires s != "" && Spells(s, n, 16) && n < TWO_64
    ensures Stoul(s, 16) == Some((n, |s|))
  {
    hide Scan, Value, Spells, Plain;
    SpelledValue(s, n, 16);
    ScanPlain(s, 16);
  }

  lemma StoulReadsToHex(n: nat)
    requires n < TWO_64
    ensures Stoul(ToHex(n, LOWER_DIGITS), 16) == Some((n, |ToHex(n, LOWER_DIGITS)|))
    ensures Stoul(ToHex(n, UPPER_DIGITS), 16) == Some((n, |ToHex(n, UPPER_DIGITS)|))
  {
    hide Stoul, ToHex, Spells;
    ToHexSpells(n, LOWER_DIGITS);
    ToHexSpells(n, UPPER_DIGITS);
    StoulReadsHex(ToHex(n, LOWER_DIGITS), n);
    StoulReadsHex(ToHex(n, UPPER_DIGITS), n);
  }

  // -------------------------------------------------------- whatever stands around

  /** White space, a sign, a hexadecimal mark, the digits of a number, and what does not belong to it. */
  datatype NumberText = NumberText(blanks: string, sign: string, mark: string, digits: string, tail: string) {
    function Text(): string {
      blanks + sign + mark + digits + tail
    }

    predicate Prefixed(base: nat) {
      && (forall i :: 0 <= i < |blanks| ==> IsBlank(blanks[i]))
      && (sign == "" || sign == "+" || sign == "-")
      && (mark == "" || (base == 16 && (mark == "0x" || mark == "0X")))
    }

    /** Where the digits end: no digit follows, and a zero before an x is not the number but its mark. */
    predicate Closed(base: nat)
      requires IsBase(base)
    {
      && (tail != "" ==> !IsDigit(tail[0], base))
      && !(base == 16 && mark == "" && digits == "0" && |tail| > 1 && (tail[0] == 'x' || tail[0] == 'X')
           && IsDigit(tail[1], 16))
    }

    predicate Numeral(n: nat, base: nat) {
      IsBase(base) && Prefixed(base) && Closed(base) && digits != "" && Spells(digits, n, base)
    }

    /** No number at all. */
    predicate NoNumeral(base: nat) {
      && IsBase(base) && Prefixed(base) && Closed(base) && digits == "" && mark == ""
      && (sign == "" && tail != "" ==> !IsBlank(tail[0]) && tail[0] != '+' && tail[0] != '-')
    }

    function Length(): nat {
      |blanks| + |sign| + |mark| + |digits|
    }
  }

  lemma BlankChars(c: char)
    ensures IsSpace(c) <==> IsBlank(c)
  {
    assert BLANKS[0] == ' ' && BLANKS[1] == '\t' && BLANKS[2] == '\n' && BLANKS[5] == '\r';
    assert BLANKS[3] as int == 11 && BLANKS[4] as int == 12;
    if '\t' <= c <= '\r' {
      assert c as int in {9, 10, 11, 12, 13};
    }
  }

  lemma {:induction false} BlanksEndAt(s: string, from: nat, e: nat)
    requires from <= e <= |s| && (forall i :: from <= i < e ==> IsSpace(s[i])) && (e < |s| ==> !IsSpace(s[e]))
    ensures BlanksEnd(s, from) == e
    decreases e - from
  {
    hide IsSpace;
    if from < e {
      BlanksEndAt(s, from + 1, e);
    }
  }

  lemma {:induction false} DigitsEndAt(s: string, base: nat, from: nat, e: nat)
    requires from <= e <= |s| && (forall i :: from <= i < e ==> DigitValue(s[i]) < base)
    requires e < |s| ==> DigitValue(s[e]) >= base
    ensures DigitsEnd(s, base, from) == e
    decreases e - from
  {
    hide DigitValue;
    if from < e {
      DigitsEndAt(s, base, from + 1, e);
    }
  }

  lemma NotBlank(c: char, base: nat)
    requires IsBase(base) && (c == '+' || c == '-' || IsDigit(c, base))
    ensures !IsSpace(c) && (IsDigit(c, base) ==> c != '+' && c != '-')
  {
    DigitChars(c, base);
  }

  lemma FirstDigit(s: string, n: nat, base: nat)
    requires s != "" && IsBase(base) && Spells(s, n, base)
    ensures IsDigit(s[0], base) && forall i :: 0 <= i < |s| ==> DigitValue(s[i]) < base
  {
    SpelledValue(s, n, base);
    DigitChars(s[0], base);
  }

  /** Where the parts of the text stand. */
  lemma Parts(x: NumberText)
    ensures var (s, k) := (x.Text(), |x.blanks|);
            && (forall i :: 0 <= i < k ==> s[i] == x.blanks[i])
            && (forall i :: 0 <= i < |x.sign| ==> s[k + i] == x.sign[i])
            && (forall i :: 0 <= i < |x.mark| ==> s[k + |x.sign| + i] == x.mark[i])
            && (forall i :: 0 <= i < |x.digits| ==> s[k + |x.sign| + |x.mark| + i] == x.digits[i])
            && (forall i :: 0 <= i < |x.tail| ==> s[x.Length() + i] == x.tail[i])
            && |s| == x.Length() + |x.tail|
            && s[x.Length() - |x.digits|..x.Length()] == x.digits
  {
  }

  /** White space ends where the sign, the mark or the number begins. */
  lemma BlanksRead(x: NumberText, base: nat)
    requires IsBase(base) && x.Prefixed(base)
    requires x.sign == "" && x.mark == "" ==>
               if x.digits != "" then IsDigit(x.digits[0], base) else x.tail == "" || !IsBlank(x.tail[0])
    ensures BlanksEnd(x.Text(), 0) == |x.blanks|
  {
    Parts(x);
    var s, k := x.Text(), |x.blanks|;
    forall i | 0 <= i < k
      ensures IsSpace(s[i])
    {
      BlankChars(x.blanks[i]);
    }
    if k < |s| {
      BlankChars(s[k]);
      if x.sign == "" && x.mark == "" && x.digits != "" {
        NotBlank(s[k], base);
      }
    }
    hide IsSpace, IsBlank;
    BlanksEndAt(s, 0, k);
  }

  lemma NumeralStarts(x: NumberText, n: nat, base: nat)
    requires x.Numeral(n, base)
    ensures IsBase(base) && x.digits != "" && IsDigit(x.digits[0], base) && x.digits[0] != '+' && x.digits[0] != '-'
    ensures forall i :: 0 <= i < |x.digits| ==> DigitValue(x.digits[i]) < base
    ensures x.tail != "" ==> DigitValue(x.tail[0]) >= base
    ensures Value(x.digits, base) == n
    ensures x.Prefixed(base)
    ensures base == 16 && x.mark == "" && x.digits == "0" && |x.tail| > 1 && (x.tail[0] == 'x' || x.tail[0] == 'X') ==>
              DigitValue(x.tail[1]) >= 16
  {
    FirstDigit(x.digits, n, base);
    NotBlank(x.digits[0], base);
    SpelledValue(x.digits, n, base);
    if x.tail != "" {
      DigitChars(x.tail[0], base);
    }
    if |x.tail| > 1 {
      DigitChars(x.tail[1], 16);
    }
  }

  predicate Marks(s: string, a: nat) {
    a + 2 < |s| && s[a] == '0' && (s[a + 1] == 'x' || s[a + 1] == 'X') && DigitValue(s[a + 2]) < 16
  }

  predicate Signs(s: string, k: nat) {
    k < |s| && (s[k] == '+' || s[k] == '-')
  }

  lemma ScanAt(s: string, base: nat, k: nat, a: nat, b: nat, e: nat)
    requires k == BlanksEnd(s, 0) && a == (if Signs(s, k) then k + 1 else k)
    requires b == (if base == 16 && Marks(s, a) then a + 2 else a) && b <= |s| && e == DigitsEnd(s, base, b)
    ensures Scan(s, base)
         == if e == b then None else Some(Magnitude(Signs(s, k) && s[k] == '-', Value(s[b..e], base), e))
  {
    hide BlanksEnd, DigitsEnd, Value, DigitValue;
  }

  /** A hexadecimal mark is seen exactly when it is one. */
  lemma MarkSeen(x: NumberText, n: nat)
    requires x.Numeral(n, 16)
    ensures Marks(x.Text(), |x.blanks| + |x.sign|) <==> x.mark != ""
  {
    hide DigitValue, IsDigit, Value, Spells, IsBlank, NumberText.Numeral, NumberText.Text;
    Parts(x);
    NumeralStarts(x, n, 16);
    var s, a := x.Text(), |x.blanks| + |x.sign|;
    if x.mark != "" {
      assert s[a] == x.mark[0] && s[a + 1] == x.mark[1] && s[a + 2] == x.digits[0];
    } else if |x.digits| > 1 {
      assert s[a + 1] == x.digits[1];
      LettersAreNoDigits(s[a + 1]);
    } else if a + 2 < |s| {
      assert s[a] == x.digits[0] && s[a + 1] == x.tail[0] && s[a + 2] == x.tail[1];
      assert s[a] == '0' ==> x.digits == "0";
    }
  }

  lemma LettersAreNoDigits(c: char)
    requires DigitValue(c) < 16
    ensures c != 'x' && c != 'X'
  {
  }

  lemma SignSeen(x: NumberText, n: nat, base: nat)
    requires x.Numeral(n, base)
    ensures Signs(x.Text(), |x.blanks|) <==> x.sign != ""
    ensures x.sign != "" ==> (x.Text()[|x.blanks|] == '-' <==> x.sign == "-")
  {
    hide DigitValue, IsDigit, Value, Spells, IsBlank, NumberText.Numeral, NumberText.Text;
    Parts(x);
    NumeralStarts(x, n, base);
    var s, k := x.Text(), |x.blanks|;
    if x.sign == "" && x.mark == "" {
      assert s[k] == x.digits[0];
    } else if x.sign == "" {
      assert s[k] == x.mark[0];
    } else {
      assert s[k] == x.sign[0];
    }
  }

  lemma DigitsSeen(x: NumberText, n: nat, base: nat)
    requires x.Numeral(n, base)
    ensures DigitsEnd(x.Text(), base, x.Length() - |x.digits|) == x.Length()
    ensures x.Text()[x.Length() - |x.digits|..x.Length()] == x.digits && Value(x.digits, base) == n
  {
    hide DigitValue, IsBlank, IsDigit, Value, Spells, NumberText.Numeral, NumberText.Text, NumberText.Closed;
    hide NumberText.Prefixed;
    Parts(x);
    NumeralStarts(x, n, base);
    var s, b, e := x.Text(), x.Length() - |x.digits|, x.Length();
    forall i | b <= i < e
      ensures DigitValue(s[i]) < base
    {
      assert s[b + (i - b)] == x.digits[i - b];
    }
    assert e < |s| ==> s[e + 0] == x.tail[0];
    DigitsEndAt(s, base, b, e);
  }

  lemma Lengths(x: NumberText, base: nat)
    requires x.Prefixed(base)
    ensures |x.sign| == (if x.sign == "" then 0 else 1) && |x.mark| == (if x.mark == "" then 0 else 2)
    ensures x.mark != "" ==> base == 16
    ensures |x.Text()| >= x.Length()
  {
    hide IsBlank;
  }

  /** A number is read with all that may stand before it, up to where its digits end. */
  lemma ScanNumeral(x: NumberText, n: nat, base: nat)
    requires x.Numeral(n, base)
    ensures Scan(x.Text(), base) == Some(Magnitude(x.sign == "-", n, x.Length()))
  {
    hide DigitValue, IsBlank, BlanksEnd, IsDigit, Value, Spells, Scan, Marks, Signs, DigitsEnd;
    hide NumberText.Numeral, NumberText.Text, NumberText.Closed, NumberText.Prefixed;
    NumeralStarts(x, n, base);
    BlanksRead(x, base);
    SignSeen(x, n, base);
    DigitsSeen(x, n, base);
    Lengths(x, base);
    if base == 16 {
      MarkSeen(x, n);
    }
    ScanAt(x.Text(), base, |x.blanks|, |x.blanks| + |x.sign|, x.Length() - |x.digits|, x.Length());
  }

  lemma NothingRead(x: NumberText, base: nat)
    requires x.NoNumeral(base)
    ensures var (s, k) := (x.Text(), |x.blanks|);
            && (Signs(s, k) <==> x.sign != "") && !Marks(s, k + |x.sign|)
            && (x.tail != "" ==> DigitValue(s[k + |x.sign|]) >= base)
            && |s| == k + |x.sign| + |x.tail|
  {
    Parts(x);
    var s, a := x.Text(), |x.blanks| + |x.sign|;
    if x.tail != "" {
      assert s[a] == x.tail[0];
      DigitChars(s[a], base);
    }
    hide NumberText.Text, IsBlank, IsDigit;
    if x.sign != "" {
      assert s[|x.blanks|] == x.sign[0];
    }
  }

  lemma ScanNoNumeral(x: NumberText, base: nat)
    requires x.NoNumeral(base)
    ensures Scan(x.Text(), base).None?
  {
    hide IsBlank, BlanksEnd, DigitValue, IsDigit, Scan, Marks, Signs, NumberText.Text;
    BlanksRead(x, base);
    NothingRead(x, base);
    var a := |x.blanks| + |x.sign|;
    DigitsEndAt(x.Text(), base, a, a);
    ScanAt(x.Text(), base, |x.blanks|, a, a, a);
  }

  /** stoul: the number, or what is missing to 2^64 behind a minus sign; and how many characters it took. */
  lemma StoulReads(x: NumberText, n: nat, base: nat)
    requires x.Numeral(n, base)
    ensures Stoul(x.Text(), base)
         == if n >= TWO_64 then None
            else Some((if x.sign == "-" && n > 0 then TWO_64 - n else n, x.Length()))
  {
    hide NumberText.Numeral, NumberText.Text, NumberText.Length, Scan;
    ScanNumeral(x, n, base);
  }

  lemma StoulRefuses(x: NumberText, base: nat)
    requires x.NoNumeral(base)
    ensures Stoul(x.Text(), base).None?
  {
    ScanNoNumeral(x, base);
  }

  /** stoi: the signed number, where 32 bits hold it. */
  lemma StoiReads(x: NumberText, n: nat)
    requires x.Numeral(n, 10)
    ensures var v: int := if x.sign == "-" then -(n as int) else n;
            Stoi(x.Text()) == if -TWO_31 <= v < TWO_31 then Some(v) else None
  {
    hide NumberText.Numeral, NumberText.Text, NumberText.Length, Scan;
    ScanNumeral(x, n, 10);
  }

  lemma StoiRefuses(x: NumberText)
    requires x.NoNumeral(10)
    ensures Stoi(x.Text()).None?
  {
    ScanNoNumeral(x, 10);
  }

  lemma CharKinds(s: string, base: nat)
    requires IsBase(base)
    ensures forall i :: 0 <= i < |s| ==> (IsSpace(s[i]) <==> IsBlank(s[i]))
    ensures forall i :: 0 <= i < |s| ==> (DigitValue(s[i]) < base <==> IsDigit(s[i], base))
  {
    forall i | 0 <= i < |s|
      ensures (IsSpace(s[i]) <==> IsBlank(s[i])) && (DigitValue(s[i]) < base <==> IsDigit(s[i], base))
    {
      BlankChars(s[i]);
      DigitChars(s[i], base);
    }
  }

  lemma BlanksSlice(s: string, k: nat)
    requires k == BlanksEnd(s, 0)
    ensures forall i :: 0 <= i < k ==> IsBlank(s[..k][i])
    ensures k < |s| ==> !IsBlank(s[k])
  {
    CharKinds(s, 10);
    hide IsSpace, IsBlank;
  }

  lemma DigitsSlice(s: string, base: nat, b: nat, e: nat)
    requires IsBase(base) && b <= |s| && e == DigitsEnd(s, base, b)
    ensures Spells(s[b..e], Value(s[b..e], base), base)
    ensures e < |s| ==> !IsDigit(s[e], base)
  {
    CharKinds(s, base);
    assert forall i :: 0 <= i < e - b ==> s[b..e][i] == s[b + i];
    hide DigitValue, Value, Spells;
    ValueSpelled(s[b..e], base);
  }

  lemma OfAKind(x: NumberText, n: nat, base: nat)
    requires IsBase(base) && x.Prefixed(base) && Spells(x.digits, n, base) && (x.mark != "" ==> x.digits != "")
    requires x.tail != "" ==> !IsDigit(x.tail[0], base)
    requires base == 16 && x.mark == "" && x.digits == "0" && |x.tail| > 1 && (x.tail[0] == 'x' || x.tail[0] == 'X')
             ==> !IsDigit(x.tail[1], 16)
    requires x.digits == "" && x.sign == "" && x.tail != "" ==>
               !IsBlank(x.tail[0]) && x.tail[0] != '+' && x.tail[0] != '-'
    ensures x.Numeral(n, base) || x.NoNumeral(base)
  {
    hide Spells, IsDigit, IsBlank, NumberText.Prefixed;
  }

  lemma HeadOfDrop(s: string, e: nat)
    requires e <= |s|
    ensures |s[e..]| == |s| - e && (e < |s| ==> s[e..][0] == s[e]) && (e + 1 < |s| ==> s[e..][1] == s[e + 1])
  {
  }

  /** And every text is of one of these two kinds, so nothing else can happen. */
  lemma EveryText(s: string, base: nat) returns (x: NumberText, n: nat)
    requires IsBase(base)
    ensures x.Text() == s && (x.Numeral(n, base) || x.NoNumeral(base))
  {
    hide DigitValue, Value, Spells, DigitsEnd, BlanksEnd, Marks, Signs, IsBlank, IsDigit;
    hide NumberText.Numeral, NumberText.NoNumeral;
    var k := BlanksEnd(s, 0);
    BlanksSlice(s, k);
    var a := if Signs(s, k) then k + 1 else k;
    var b := if base == 16 && Marks(s, a) then a + 2 else a;
    MarkText(s, k, a, b, base);
    var e := DigitsEnd(s, base, b);
    DigitsSlice(s, base, b, e);
    MarkFollowed(s, base, a, b, e);
    NotASign(s, k, a);
    x := NumberText(s[..k], s[k..a], s[a..b], s[b..e], s[e..]);
    n := Value(s[b..e], base);
    SlicesJoin(s, k, a, b, e);
    HeadOfDrop(s, e);
    OfAKind(x, n, base);
  }

  lemma NotASign(s: string, k: nat, a: nat)
    requires k <= |s| && a == (if Signs(s, k) then k + 1 else k)
    ensures a == k && k < |s| ==> s[k] != '+' && s[k] != '-'
  {
  }

  lemma MarkFollowed(s: string, base: nat, a: nat, b: nat, e: nat)
    requires IsBase(base) && b == (if base == 16 && Marks(s, a) then a + 2 else a) && b <= |s|
    requires e == DigitsEnd(s, base, b)
    ensures b > a ==> s[b..e] != ""
    ensures base == 16 && b == a && s[b..e] == "0" && |s[e..]| > 1 && (s[e..][0] == 'x' || s[e..][0] == 'X') ==>
              !IsDigit(s[e..][1], 16)
  {
    CharKinds(s, base);
    hide IsDigit, DigitValue;
    if b == a && s[b..e] == "0" {
      assert s[b] == '0' && e == b + 1;
    }
  }

  lemma SlicesJoin(s: string, k: nat, a: nat, b: nat, e: nat)
    requires k <= a <= b <= e <= |s|
    ensures s[..k] + s[k..a] + s[a..b] + s[b..e] + s[e..] == s
  {
  }

  lemma MarkText(s: string, k: nat, a: nat, b: nat, base: nat)
    requires k <= |s| && a == (if Signs(s, k) then k + 1 else k)
    requires b == (if base == 16 && Marks(s, a) then a + 2 else a)
    ensures a <= b <= |s| && (s[k..a] == "" || s[k..a] == "+" || s[k..a] == "-")
    ensures s[a..b] == "" || (base == 16 && (s[a..b] == "0x" || s[a..b] == "0X"))
  {
    hide DigitValue;
    if a > k {
      assert s[k..a] == [s[k]];
    }
    if b > a {
      assert s[a..b] == [s[a], s[a + 1]];
    }
  }
}
