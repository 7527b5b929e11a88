/**
  Positional notation as JavaScript and ethers print it: the digits of
  `Number.prototype.toString(radix)` / `BigInt.toString(radix)` for a
  non-negative integer (lower-case letters, no leading zeros), left padding
  with a fill character (`String.prototype.padStart`), and the `0x`-prefixed,
  zero-padded hexadecimal form used for addresses and 32-byte words.
  Several core files print numbers this way; the lemmas here are shared.
 */
module Numerals {

  /** A byte: one digit in base 256. */
  type Byte = b: nat | b < 256

  /** 2^53 - 1, the largest integer a JavaScript number holds exactly.
      ethers' `BigNumber.toNumber()` accepts it; `BigNumber.from(number)`
      refuses it and every larger number. */
  const MaxSafeInteger: nat := 0x1F_FFFF_FFFF_FFFF

  function Pow(b: nat, k: nat): nat {
    if k == 0 then 1 else b * Pow(b, k - 1)
  }

  /** The character `toString(radix)` prints for digit d. */
  function DigitChar(d: nat): char
    requires d < 16
  {
    if d < 10 then ('0' as int + d) as char else ('a' as int + d - 10) as char
  }

  /** A lower-case hexadecimal digit. */
  predicate IsHexDigit(c: char) {
    '0' <= c <= '9' || 'a' <= c <= 'f'
  }

  predicate AllHexDigits(s: string) {
    forall i :: 0 <= i < |s| ==> IsHexDigit(s[i])
  }

  /** The value of a digit character; 0 for any other character. */
  function DigitValue(c: char): nat {
    if '0' <= c <= '9' then c as int - '0' as int
    else if 'a' <= c <= 'f' then c as int - 'a' as int + 10
    else 0
  }

  lemma DigitRoundTrip(d: nat)
    requires d < 16
    ensures DigitValue(DigitChar(d)) == d && IsHexDigit(DigitChar(d))
  {
  }

  lemma DivMod(n: nat, base: nat)
    requires 2 <= base <= n
    ensures n == (n / base) * base + n % base
    ensures 1 <= n / base < n && n % base < base
  {
  }

  /** Reads a digit string back (most significant digit first). */
  function FromRadix(s: string, base: nat): nat
    requires 2 <= base <= 16
  {
    if s == [] then 0 else FromRadix(s[..|s| - 1], base) * base + DigitValue(s[|s| - 1])
  }

  /** `n.toString(base)` for a non-negative integer n. */
  function ToRadix(n: nat, base: nat): (s: string)
    requires 2 <= base <= 16
    ensures |s| >= 1
    decreases n
  {
    if n < base then [DigitChar(n)] else ToRadix(n / base, base) + [DigitChar(n % base)]
  }

  /** The digits of n are lower-case hex digits. */
  lemma {:induction false} ToRadixDigits(n: nat, base: nat)
    requires 2 <= base <= 16
    ensures AllHexDigits(ToRadix(n, base))
    decreases n
  {
    if n < base {
      DigitRoundTrip(n);
    } else {
      DivMod(n, base);
      var s, init := ToRadix(n, base), ToRadix(n / base, base);
      ToRadixDigits(n / base, base);
      DigitRoundTrip(n % base);
      assert s == init + [DigitChar(n % base)];
      forall i | 0 <= i < |s| ensures IsHexDigit(s[i]) {
        if i < |init| { assert s[i] == init[i]; }
      }
    }
  }

  /** The digits of n read back to n. */
  lemma {:induction false} ToRadixRoundTrip(n: nat, base: nat)
    requires 2 <= base <= 16
    ensures FromRadix(ToRadix(n, base), base) == n
    decreases n
  {
    if n < base {
      DigitRoundTrip(n);
    } else {
      var q, d := n / base, n % base;
      DivMod(n, base);
      ToRadixRoundTrip(q, base);
      var s, init := ToRadix(n, base), ToRadix(q, base);
      assert s == init + [DigitChar(d)];
      assert s[..|s| - 1] == init;
      DigitRoundTrip(d);
      calc {
        FromRadix(s, base);
        FromRadix(init, base) * base + DigitValue(DigitChar(d));
        q * base + d;
      }
    }
  }

  /** k copies of c. */
  function Repeat(c: char, k: nat): (s: string)
    ensures |s| == k
    ensures forall i :: 0 <= i < k ==> s[i] == c
  {
    seq(k, _ => c)
  }

  /** `s.padStart(width, fill)` for a one-character fill string. */
  function PadStart(s: string, width: nat, fill: char): (r: string)
    ensures |r| == if |s| >= width then |s| else width
    ensures r[|r| - |s|..] == s
    ensures forall i :: 0 <= i < |r| - |s| ==> r[i] == fill
  {
    if |s| >= width then s else Repeat(fill, width - |s|) + s
  }

  /** "0x" followed by the lower-case hex digits of n, zero-padded on the
      left to at least `width` digits. */
  function PaddedHex(n: nat, width: nat): string {
    "0x" + PadStart(ToRadix(n, 16), width, '0')
  }

  lemma {:induction false} LeadingZerosValue(k: nat, s: string, base: nat)
    requires 2 <= base <= 16
    ensures FromRadix(Repeat('0', k) + s, base) == FromRadix(s, base)
    decreases |s|, k
  {
    var z := Repeat('0', k);
    if s == [] {
      assert z + s == z;
      if k > 0 {
        assert z[..|z| - 1] == Repeat('0', k - 1) + [];
        LeadingZerosValue(k - 1, [], base);
      }
    } else {
      var init := s[..|s| - 1];
      assert (z + s)[..|z + s| - 1] == z + init;
      LeadingZerosValue(k, init, base);
    }
  }

  lemma {:induction false} DivBelow(n: nat, b: nat, m: nat)
    requires b > 0
    ensures n / b < m <==> n < m * b
  {
    var q, r := n / b, n % b;
    assert n == q * b + r && 0 <= r < b;
    if q < m {
      assert q + 1 <= m;
      assert (q + 1) * b <= m * b by { MulMono(q + 1, m, b); }
    } else {
      assert m * b <= q * b by { MulMono(m, q, b); }
    }
  }

  lemma MulMono(x: nat, y: nat, b: nat)
    requires x <= y
    ensures x * b <= y * b
  {
  }

  lemma {:induction false} PowAtLeastBase(b: nat, k: nat)
    requires b >= 2 && k >= 1
    ensures Pow(b, k) >= b
  {
    if k > 1 {
      PowAtLeastBase(b, k - 1);
      MulMono(1, Pow(b, k - 1), b);
    }
  }

  /** The number of digits of n in base b is at most k exactly when n < b^k. */
  lemma {:induction false} DigitCount(n: nat, base: nat, k: nat)
    requires 2 <= base <= 16 && k >= 1
    ensures |ToRadix(n, base)| <= k <==> n < Pow(base, k)
    decreases n
  {
    PowAtLeastBase(base, k);
    if n >= base {
      DivMod(n, base);
      var q := n / base;
      assert |ToRadix(n, base)| == |ToRadix(q, base)| + 1;
      if k > 1 {
        var m := Pow(base, k - 1);
        DigitCount(q, base, k - 1);
        DivBelow(n, base, m);
        PowStep(base, k);
      }
    }
  }

  lemma PowStep(b: nat, k: nat)
    requires k >= 1
    ensures Pow(b, k) == Pow(b, k - 1) * b
  {
  }

  /** The digits of a padded hex form: the digits of n behind enough zeros. */
  lemma PaddedHexDigits(n: nat, width: nat)
    ensures PaddedHex(n, width)[..2] == "0x"
    ensures PaddedHex(n, width)[2..] == PadStart(ToRadix(n, 16), width, '0')
    ensures AllHexDigits(PaddedHex(n, width)[2..])
    ensures FromRadix(PaddedHex(n, width)[2..], 16) == n
  {
    var h := ToRadix(n, 16);
    var p := PadStart(h, width, '0');
    assert PaddedHex(n, width)[2..] == p;
    ToRadixDigits(n, 16);
    ToRadixRoundTrip(n, 16);
    if |h| < width {
      var z := width - |h|;
      assert p == Repeat('0', z) + h;
      LeadingZerosValue(z, h, 16);
      forall i | 0 <= i < |p| ensures IsHexDigit(p[i]) {
        if i >= z {
          assert p[i] == h[i - z];
        }
      }
    }
  }

  /** The padded hex form starts with "0x", has exactly `width` hex digits when
      n fits and reads back to n. */
  lemma PaddedHexFacts(n: nat, width: nat)
    requires width >= 1
    ensures PaddedHex(n, width)[..2] == "0x"
    ensures AllHexDigits(PaddedHex(n, width)[2..])
    ensures FromRadix(PaddedHex(n, width)[2..], 16) == n
    ensures n < Pow(16, width) <==> |PaddedHex(n, width)| == width + 2
    ensures n >= Pow(16, width) ==> |PaddedHex(n, width)| > width + 2
  {
    PaddedHexDigits(n, width);
    DigitCount(n, 16, width);
  }

  /** A number below 16^width has exactly `width` padded hex digits. */
  lemma PaddedHexLength(n: nat, width: nat)
    requires width >= 1 && n < Pow(16, width)
    ensures |PaddedHex(n, width)| == width + 2
  {
    DigitCount(n, 16, width);
  }

  /** Distinct numbers have distinct padded hex forms. */
  lemma PaddedHexInjective(a: nat, b: nat, width: nat)
    requires width >= 1
    requires PaddedHex(a, width) == PaddedHex(b, width)
    ensures a == b
  {
    PaddedHexFacts(a, width);
    PaddedHexFacts(b, width);
  }

  /** Distinct numbers have distinct decimal forms. */
  lemma DecimalInjective(a: nat, b: nat)
    requires ToRadix(a, 10) == ToRadix(b, 10)
    ensures a == b
  {
    ToRadixRoundTrip(a, 10);
    ToRadixRoundTrip(b, 10);
  }
}
