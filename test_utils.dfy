/**
  The `address(n)` helper of the contract tests: a test address made from a
  number, "0x" followed by `n.toString(16).padStart(40, "0")`.
 */
module TestUtils {
  import opened Numerals

  /** `address(n)`. Nothing is truncated: a number with more than 40 hex
      digits gives a longer string. */
  function Address(n: nat): string {
    PaddedHex(n, 40)
  }

  /** The result starts with "0x" and the rest are lower-case hex digits that
      parse back to n. */
  lemma AddressRoundTrip(n: nat)
    ensures Address(n)[..2] == "0x"
    ensures AllHexDigits(Address(n)[2..])
    ensures FromRadix(Address(n)[2..], 16) == n
  {
    PaddedHexFacts(n, 40);
  }

  /** Exactly 42 characters when n < 16^40, and longer otherwise. */
  lemma AddressLength(n: nat)
    ensures n < Pow(16, 40) <==> |Address(n)| == 42
    ensures n >= Pow(16, 40) ==> |Address(n)| > 42
  {
    PaddedHexFacts(n, 40);
  }

  /** `address(0)` is "0x" and forty zeros. */
  lemma AddressZero()
    ensures Address(0) == "0x" + Repeat('0', 40)
  {
    var h := ToRadix(0, 16);
    assert h == "0";
    assert PadStart(h, 40, '0') == Repeat('0', 39) + "0";
    assert Repeat('0', 39) + "0" == Repeat('0', 40);
  }

  /** Distinct numbers give distinct addresses. */
  lemma AddressInjective(a: nat, b: nat)
    requires Address(a) == Address(b)
    ensures a == b
  {
    PaddedHexInjective(a, b, 40);
  }
}
