// Texts that differ in the case of their letters only, said with the alphabet.
module Letters {
  import opened Text

  const UPPER := "ABCDEFGHIJKLMNOPQRSTUVWXYZ"
  const LOWER := "abcdefghijklmnopqrstuvwxyz"

  predicate PairAt(a: char, b: char, k: nat) {
    k < 26 && a == UPPER[k] && b == LOWER[k]
  }

  predicate SameLetter(a: char, b: char) {
    a == b || exists k :: 0 <= k < 26 && (PairAt(a, b, k) || PairAt(b, a, k))
  }

  predicate SameButCase(s: string, t: string) {
    |s| == |t| && forall i :: 0 <= i < |s| ==> SameLetter(s[i], t[i])
  }

  lemma LowerOfUpper(k: nat)
    requires k < 26
    ensures Lower(UPPER[k]) == LOWER[k] && Lower(LOWER[k]) == LOWER[k]
  {
  }

  lemma LowerOf(c: char)
    ensures Lower(c) == c || exists k :: 0 <= k < 26 && PairAt(c, Lower(c), k)
    ensures Lower(Lower(c)) == Lower(c)
  {
    if 'A' <= c <= 'Z' {
      assert PairAt(c, Lower(c), c as int - 'A' as int);
    }
  }

  lemma SameLetterExactly(a: char, b: char)
    ensures Lower(a) == Lower(b) <==> SameLetter(a, b)
  {
    LowerOf(a);
    LowerOf(b);
    if SameLetter(a, b) && a != b {
      var k :| 0 <= k < 26 && (PairAt(a, b, k) || PairAt(b, a, k));
      LowerOfUpper(k);
    }
  }

  /** Lowered texts are equal exactly when the texts differ in case only. */
  lemma SameExactly(s: string, t: string)
    ensures Lowercased(s) == Lowercased(t) <==> SameButCase(s, t)
  {
    forall i | 0 <= i < |s| && 0 <= i < |t|
      ensures Lowercased(s)[i] == Lowercased(t)[i] <==> SameLetter(s[i], t[i])
    {
      SameLetterExactly(s[i], t[i]);
    }
    hide SameLetter, Lower;
    if Lowercased(s) == Lowercased(t) {
      assert |s| == |t|;
      assert forall i :: 0 <= i < |s| ==> Lowercased(s)[i] == Lowercased(t)[i];
    }
  }
}
