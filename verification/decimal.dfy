/**
  Decimal rendering of a non-negative integer, the model of
  `Date.now().toString()` and of a template literal `${Date.now()}`:
  every id the stores mint is a prefix followed by this rendering.
 */
module Decimal {

  function DigitChar(d: nat): (c: char)
    requires d < 10
    ensures '0' <= c <= '9'
  {
    "0123456789"[d]
  }

  predicate IsDigit(c: char) {
    '0' <= c <= '9'
  }

  /** The shortest decimal numeral for `n`, with no sign and no leading zero. */
  function NatToString(n: nat): (s: string)
    ensures |s| >= 1
    ensures n >= 10 ==> |s| >= 2
    ensures forall i :: 0 <= i < |s| ==> IsDigit(s[i])
    ensures s[|s| - 1] == DigitChar(n % 10)
    decreases n
  {
    if n < 10 then [DigitChar(n)]
    else NatToString(n / 10) + [DigitChar(n % 10)]
  }

  lemma DigitCharInjective(a: nat, b: nat)
    requires a < 10 && b < 10
    requires DigitChar(a) == DigitChar(b)
    ensures a == b
  {
  }

  /** Two different clock readings never render to the same numeral. */
  lemma {:induction false} NatToStringInjective(a: nat, b: nat)
    requires NatToString(a) == NatToString(b)
    ensures a == b
    decreases a
  {
    var sa, sb := NatToString(a), NatToString(b);
    DigitCharInjective(a % 10, b % 10);
    if a >= 10 && b >= 10 {
      assert sa[..|sa| - 1] == NatToString(a / 10);
      assert sb[..|sb| - 1] == NatToString(b / 10);
      NatToStringInjective(a / 10, b / 10);
    }
  }

  /** A prefix followed by a numeral: the shape of every minted id. */
  function Stamped(prefix: string, n: nat): (s: string)
    ensures |s| > |prefix| && s[..|prefix|] == prefix
  {
    prefix + NatToString(n)
  }

  /** Ids minted with the same prefix at different instants differ. */
  lemma StampedInjective(prefix: string, a: nat, b: nat)
    requires Stamped(prefix, a) == Stamped(prefix, b)
    ensures a == b
  {
    var sa, sb := Stamped(prefix, a), Stamped(prefix, b);
    assert sa[|prefix|..] == NatToString(a);
    assert sb[|prefix|..] == NatToString(b);
    NatToStringInjective(a, b);
  }
}
