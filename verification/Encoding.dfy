/** Fixed-width big-endian integers and hexadecimal text. */
module Encoding {
  import opened Spec

  function Pow256(k: nat): nat {
    if k == 0 then 1 else 256 * Pow256(k - 1)
  }

  /** The low `k` bytes of `n`, most significant first. */
  function BeBytes(n: nat, k: nat): (s: seq<Byte>)
    ensures |s| == k
    decreases k, n
  {
    if k == 0 then [] else BeBytes(n / 256, k - 1) + [n % 256]
  }

  function BeValue(s: seq<Byte>): nat {
    if s == [] then 0 else 256 * BeValue(s[..|s| - 1]) + s[|s| - 1]
  }

  /** `u64::to_be_bytes`: eight bytes. A counter past `u64` contributes its low 64 bits. */
  function Be64(n: nat): (s: seq<Byte>)
    ensures |s| == 8
  {
    BeBytes(n, 8)
  }

  lemma {:induction false} BeRoundTrip(n: nat, k: nat)
    requires n < Pow256(k)
    ensures BeValue(BeBytes(n, k)) == n
  {
    if k > 0 {
      BeRoundTrip(n / 256, k - 1);
      var s := BeBytes(n, k);
      assert s[..k - 1] == BeBytes(n / 256, k - 1);
    }
  }

  lemma {:induction false} BeBytesOfValue(s: seq<Byte>)
    ensures BeValue(s) < Pow256(|s|)
    ensures BeBytes(BeValue(s), |s|) == s
  {
    if s != [] {
      var k := |s| - 1;
      BeBytesOfValue(s[..k]);
      assert BeValue(s) / 256 == BeValue(s[..k]);
      assert s == s[..k] + [s[k]];
    }
  }

  /** The i-th of `k` bytes is the digit of weight `256^(k - 1 - i)`. */
  lemma {:induction false} BeByteAt(n: nat, k: nat, i: nat)
    requires i < k
    ensures Pow256(k - 1 - i) > 0 && BeBytes(n, k)[i] == n / Pow256(k - 1 - i) % 256
  {
    PowPositive(k - 1 - i);
    if i < k - 1 {
      BeByteAt(n / 256, k - 1, i);
      PowPositive(k - 2 - i);
      DivideTwice(n, Pow256(k - 2 - i));
    }
  }

  lemma {:induction false} PowPositive(k: nat)
    ensures Pow256(k) > 0
  {
    if k > 0 { PowPositive(k - 1); }
  }

  lemma DivideTwice(n: nat, d: nat)
    requires d > 0
    ensures n / 256 / d == n / (256 * d)
  {
    var q := n / 256 / d;
    var r := n / 256 - q * d;
    assert n == 256 * (q * d + r) + n % 256;
    assert 0 <= r < d;
    assert n == q * (256 * d) + (256 * r + n % 256);
    assert 256 * r + n % 256 < 256 * d;
    QuotientUnique(n, 256 * d, q, 256 * r + n % 256);
  }

  lemma QuotientUnique(n: nat, d: nat, q: nat, r: nat)
    requires d > 0 && n == q * d + r && r < d
    ensures n / d == q
  {
    var e: int, w: int := n / d - q, d;
    assert n == n / d * w + n % d;
    assert e * w == r - n % d;
    assert 0 - w < e * w < w;
  }

  lemma PowEight()
    ensures Pow256(8) == U64_BOUND
  {
  }

  /** Reading back the eight bytes of a `u64` yields it, and eight bytes are always some `u64`. */
  lemma Be64RoundTrip(n: U64)
    ensures BeValue(Be64(n)) == n
  {
    PowEight();
    BeRoundTrip(n, 8);
  }

  lemma Be64OfValue(s: seq<Byte>)
    requires |s| == 8
    ensures BeValue(s) < U64_BOUND
    ensures Be64(BeValue(s)) == s
  {
    PowEight();
    BeBytesOfValue(s);
  }

  function HexDigit(n: nat): char
    requires n < 16
  {
    if n < 10 then '0' + n as char else 'a' + (n - 10) as char
  }

  /** Two lower-case digits per byte: `InstanceId::to_string` and `hex::encode`. */
  function Hex(s: seq<Byte>): (t: string)
    ensures |t| == 2 * |s|
  {
    if s == [] then "" else [HexDigit(s[0] / 16), HexDigit(s[0] % 16)] + Hex(s[1..])
  }

  const HEX_DIGITS: string := "0123456789abcdef"

  /** The text spells each byte by its high and its low digit. */
  lemma {:induction false} HexSpells(s: seq<Byte>, i: nat)
    requires i < |s|
    ensures Hex(s)[2 * i] == HEX_DIGITS[s[i] / 16] && Hex(s)[2 * i + 1] == HEX_DIGITS[s[i] % 16]
  {
    if i > 0 {
      HexSpells(s[1..], i - 1);
    } else {
      HexDigitIs(s[0] / 16);
      HexDigitIs(s[0] % 16);
    }
  }

  lemma HexDigitIs(n: nat)
    requires n < 16
    ensures HexDigit(n) == HEX_DIGITS[n]
  {
  }

  /** Different byte strings, of whatever lengths, have different hexadecimal text. */
  lemma {:induction false} HexInjective(a: seq<Byte>, b: seq<Byte>)
    requires Hex(a) == Hex(b)
    ensures a == b
  {
    if a != [] {
      assert |b| == |a|;
      var s, t := Hex(a), Hex(b);
      assert s[0] == t[0] && s[1] == t[1];
      assert a[0] == 16 * (a[0] / 16) + a[0] % 16;
      assert Hex(a[1..]) == s[2..] && Hex(b[1..]) == t[2..];
      HexInjective(a[1..], b[1..]);
      assert a == [a[0]] + a[1..] && b == [b[0]] + b[1..];
    }
  }
}
