// Bytes and little-endian numbers, as both the socket protocol and the GGUF
// files lay them out.
module LittleEndian {
  import opened IntMath

  type Byte = x: int | 0 <= x < 256
  type Bytes = seq<Byte>

  const U32_LIMIT := 0x1_0000_0000
  const U64_LIMIT := 0x1_0000_0000_0000_0000

  function Pow256(n: nat): (p: nat)
    ensures p > 0
  {
    if n == 0 then 1 else 256 * Pow256(n - 1)
  }

  /** The number that bytes spell, least significant first. */
  function Number(b: Bytes): nat {
    if b == [] then 0 else b[0] as int + 256 * Number(b[1..])
  }

  /** v in n bytes; v's higher digits are cut off. */
  function Digits(v: nat, n: nat): (b: Bytes)
    ensures |b| == n
  {
    if n == 0 then [] else [v % 256] + Digits(v / 256, n - 1)
  }

  /** Digit i is the remainder of v after i bytes: least significant first. */
  lemma {:induction false} DigitAt(v: nat, n: nat, i: nat)
    requires i < n
    ensures Digits(v, n)[i] == v / Pow256(i) % 256
    decreases n
  {
    if i > 0 {
      DigitAt(v / 256, n - 1, i - 1);
      DivDiv(v, 256, Pow256(i - 1));
    }
  }

  lemma DivDiv(v: nat, a: nat, b: nat)
    requires a > 0 && b > 0
    ensures a * b > 0 && v / a / b == v / (a * b)
  {
    var q, r := v / a, v % a;
    var p, t := q / b, q % b;
    MulLe(t + 1, b, a);
    MulLe(1, a, b);
    Regroup(v, a, b, q, r, p, t);
    DivModUnique(v, p, a * b, t * a + r);
  }

  lemma Regroup(v: nat, a: nat, b: nat, q: nat, r: nat, p: nat, t: nat)
    requires v == q * a + r && q == p * b + t
    ensures v == p * (a * b) + (t * a + r) && (t + 1) * a == t * a + a
  {
    assert (p * b + t) * a == p * b * a + t * a;
  }

  lemma {:induction false} NumberBound(b: Bytes)
    ensures Number(b) < Pow256(|b|)
  {
    if b != [] {
      NumberBound(b[1..]);
    }
  }

  lemma {:induction false} DigitsSpell(v: nat, n: nat)
    requires v < Pow256(n)
    ensures Number(Digits(v, n)) == v
  {
    if n > 0 {
      DigitsSpell(v / 256, n - 1);
      assert Digits(v, n)[1..] == Digits(v / 256, n - 1);
    }
  }

  /** Bytes are the digits of the number they spell. */
  lemma {:induction false} SpeltDigits(b: Bytes)
    ensures Digits(Number(b), |b|) == b
    decreases |b|
  {
    if b != [] {
      SpeltDigits(b[1..]);
      var n := Number(b[1..]);
      assert Number(b) == b[0] + 256 * n && (b[0] + 256 * n) % 256 == b[0] && (b[0] + 256 * n) / 256 == n;
    }
  }

  lemma Powers()
    ensures Pow256(1) == 0x100 && Pow256(2) == 0x1_0000 && Pow256(3) == 0x100_0000
    ensures Pow256(4) == U32_LIMIT && Pow256(8) == U64_LIMIT
  {
    assert Pow256(6) == 256 * Pow256(5);
  }

  /** The n-byte number at off. */
  function NumberAt(b: Bytes, off: nat, n: nat): nat
    requires off + n <= |b|
  {
    Number(b[off..off + n])
  }

  lemma NumberAtDigits(v: nat, n: nat, pre: Bytes, post: Bytes)
    requires v < Pow256(n)
    ensures NumberAt(pre + Digits(v, n) + post, |pre|, n) == v
  {
    assert (pre + Digits(v, n) + post)[|pre|..|pre| + n] == Digits(v, n);
    DigitsSpell(v, n);
  }
}
