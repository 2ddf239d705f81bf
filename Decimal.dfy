/** Decimal digit strings: what `\d+` matches, what `strconv.Atoi` reads and what `%d` prints. */
module Decimal {

  predicate IsDigit(c: char) {
    '0' <= c <= '9'
  }

  predicate AllDigits(s: string) {
    forall i :: 0 <= i < |s| ==> IsDigit(s[i])
  }

  function DigitValue(c: char): (d: nat)
    requires IsDigit(c)
    ensures d < 10
  {
    (c as int) - ('0' as int)
  }

  function DigitChar(d: nat): (c: char)
    requires d < 10
    ensures IsDigit(c) && DigitValue(c) == d
  {
    ('0' as int + d) as char
  }

  /** The number a string of decimal digits denotes (most significant digit first). */
  function Value(s: string): nat
    requires AllDigits(s)
    decreases |s|
  {
    if |s| == 0 then 0 else Value(s[..|s| - 1]) * 10 + DigitValue(s[|s| - 1])
  }

  /** The shortest decimal representation of `n`, as Go's `%d` and `strconv.FormatUint` print it. */
  function Format(n: nat): (s: string)
    ensures |s| >= 1 && AllDigits(s)
    ensures n >= 10 ==> |s| >= 2
    decreases n
  {
    if n < 10 then [DigitChar(n)] else Format(n / 10) + [DigitChar(n % 10)]
  }

  /** Reading back what `Format` printed gives the number again. */
  lemma {:induction false} ValueOfFormat(n: nat)
    ensures Value(Format(n)) == n
    decreases n
  {
    if n >= 10 {
      var s := Format(n);
      assert s[..|s| - 1] == Format(n / 10);
      ValueOfFormat(n / 10);
    }
  }

  /** Distinct numbers print differently. */
  lemma FormatInjective(a: nat, b: nat)
    ensures Format(a) == Format(b) ==> a == b
  {
    ValueOfFormat(a);
    ValueOfFormat(b);
  }
}
