/** Character and string helpers: decimal digits, zero-padded numbers and
    ASCII case folding. */
module Text {

  predicate IsDigit(c: char) {
    '0' <= c <= '9'
  }

  predicate AllDigits(s: string) {
    forall i :: 0 <= i < |s| ==> IsDigit(s[i])
  }

  function DigitChar(d: nat): (c: char)
    requires d < 10
    ensures IsDigit(c)
  {
    (48 + d) as char
  }

  function DigitValue(c: char): (d: nat)
    requires IsDigit(c)
    ensures d < 10 && DigitChar(d) == c
  {
    c as int - 48
  }

  function Pow10(w: nat): (r: nat)
    ensures r >= 1
  {
    if w == 0 then 1 else 10 * Pow10(w - 1)
  }

  /** The last `w` decimal digits of `n`, zero-padded on the left: the
      rendering of a custom format field such as `yyyy` or `MM`. */
  function Pad(n: nat, w: nat): (r: string)
    ensures |r| == w && AllDigits(r)
  {
    if w == 0 then "" else Pad(n / 10, w - 1) + [DigitChar(n % 10)]
  }

  /** The number that a string of decimal digits denotes. */
  function DigitsValue(s: string): (v: nat)
    requires AllDigits(s)
    ensures v < Pow10(|s|)
  {
    if s == [] then 0 else DigitsValue(s[..|s| - 1]) * 10 + DigitValue(s[|s| - 1])
  }

  /** Reading back a padded number gives the number, when it fits the width. */
  lemma {:induction false} ValueOfPad(n: nat, w: nat)
    requires n < Pow10(w)
    ensures DigitsValue(Pad(n, w)) == n
  {
    if w > 0 {
      var s := Pad(n, w);
      assert s[..|s| - 1] == Pad(n / 10, w - 1);
      ValueOfPad(n / 10, w - 1);
    }
  }

  /** Padding the value of a digit string to its own length gives it back. */
  lemma {:induction false} PadOfValue(s: string)
    requires AllDigits(s)
    ensures Pad(DigitsValue(s), |s|) == s
  {
    if s != [] {
      var front := s[..|s| - 1];
      var v := DigitsValue(s);
      assert v / 10 == DigitsValue(front) && v % 10 == DigitValue(s[|s| - 1]);
      PadOfValue(front);
      assert s == front + [s[|s| - 1]];
    }
  }

  /** `int.ToString()` of a non-negative number: its decimal digits without
      leading zeros. */
  function Decimal(n: nat): (r: string)
    ensures |r| >= 1 && AllDigits(r) && DigitsValue(r) == n
    ensures n < 10 ==> |r| == 1
    ensures n >= 10 ==> r[0] != '0'
  {
    if n < 10 then [DigitChar(n)]
    else
      var front := Decimal(n / 10);
      var r := front + [DigitChar(n % 10)];
      assert r[..|r| - 1] == front;
      r
  }

  /** ASCII lower-casing; every other character is left as it is. */
  function LowerChar(c: char): char {
    if 'A' <= c <= 'Z' then (c as int + 32) as char else c
  }

  function Lower(s: string): (r: string)
    ensures |r| == |s|
    ensures forall i :: 0 <= i < |s| ==> r[i] == LowerChar(s[i])
  {
    if s == [] then [] else [LowerChar(s[0])] + Lower(s[1..])
  }

  /** Ordinal comparison that ignores the case of ASCII letters. */
  predicate EqualsIgnoreCase(a: string, b: string) {
    Lower(a) == Lower(b)
  }

  predicate IsLetter(c: char) {
    'A' <= c <= 'Z' || 'a' <= c <= 'z'
  }

  /** A character that is not a letter is equal ignoring case only to itself. */
  lemma LowerFixesNonLetter(c: char, x: char)
    requires !IsLetter(c) && LowerChar(x) == LowerChar(c)
    ensures x == c
  {
  }

  lemma {:induction false} LowerConcat(a: string, b: string)
    ensures Lower(a + b) == Lower(a) + Lower(b)
  {
    assert forall i :: 0 <= i < |a + b| ==> Lower(a + b)[i] == (Lower(a) + Lower(b))[i];
  }

  /** Two digit strings that are equal ignoring case are equal. */
  lemma {:induction false} DigitsIgnoreCase(a: string, b: string)
    requires AllDigits(a) && EqualsIgnoreCase(a, b)
    ensures a == b
  {
    assert |a| == |Lower(a)| == |Lower(b)| == |b|;
    forall i | 0 <= i < |a| ensures a[i] == b[i] {
      assert Lower(a)[i] == Lower(b)[i];
      LowerFixesNonLetter(a[i], b[i]);
    }
  }

  /** Equality ignoring case is kept by concatenation. */
  lemma IgnoreCaseConcat(a1: string, a2: string, b1: string, b2: string)
    requires EqualsIgnoreCase(a1, b1) && EqualsIgnoreCase(a2, b2)
    ensures EqualsIgnoreCase(a1 + a2, b1 + b2)
  {
    LowerConcat(a1, a2);
    LowerConcat(b1, b2);
  }

  lemma AppendAssoc<T>(x: seq<T>, y: seq<T>, z: seq<T>)
    ensures x + (y + z) == (x + y) + z
  {
  }

  /** The head and tail of a concatenation whose first part is not empty. */
  lemma AppendTail<T>(x: seq<T>, y: seq<T>)
    requires x != []
    ensures (x + y)[0] == x[0] && (x + y)[1..] == x[1..] + y
  {
  }

  /** The middle part of a three-part concatenation. */
  lemma MiddleOf<T>(x: seq<T>, y: seq<T>, z: seq<T>)
    ensures (x + y + z)[|x|..|x| + |y|] == y
  {
  }

  lemma SplitAt<T>(x: seq<T>, w: nat)
    requires w <= |x|
    ensures x == x[..w] + x[w..]
  {
  }

  lemma HeadTail<T>(x: seq<T>)
    requires x != []
    ensures x == [x[0]] + x[1..]
  {
  }
}
