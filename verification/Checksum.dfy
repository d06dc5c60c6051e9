/** The Internet checksum (RFC 1071) of ICMP and TCP probes. */
module Checksum {

  type Byte = x: int | 0 <= x < 256
  type Buffer = seq<Byte>

  /** Which of the two bytes of a 16-bit word is the high one on this machine. */
  datatype Order = LittleEndian | BigEndian

  function Word(o: Order, first: int, second: int): int {
    if o == LittleEndian then first + 256 * second else 256 * first + second
  }

  function FirstByte(o: Order, w: int): Byte
    requires 0 <= w < 65536
  {
    if o == LittleEndian then w % 256 else w / 256
  }

  function SecondByte(o: Order, w: int): Byte
    requires 0 <= w < 65536
  {
    if o == LittleEndian then w / 256 else w % 256
  }

  /** The plain sum of the words; an odd last byte is added as it is. */
  function RawSum(o: Order, s: Buffer): (n: int)
    ensures 0 <= n
  {
    if |s| == 0 then 0 else if |s| == 1 then s[0] else Word(o, s[0], s[1]) + RawSum(o, s[2..])
  }

  const WRAP: int := 0x1_0000_0000

  /** Adding the carries back in until the sum fits into 16 bits. */
  function Fold(n: nat): nat
    decreases n
  {
    if n < 65536 then n else Fold(n % 65536 + n / 65536)
  }

  function SumOf(o: Order, s: Buffer): nat {
    RawSum(o, s) % WRAP
  }

  function ChecksumOf(o: Order, s: Buffer): (c: nat)
    ensures c < 65536
  {
    FoldResidue(SumOf(o, s));
    65535 - Fold(SumOf(o, s))
  }

  /** Folding ends below 2^16 and keeps the residue modulo 65535; only zero folds to zero. */
  lemma {:induction false} FoldResidue(n: nat)
    ensures Fold(n) < 65536 && Fold(n) % 65535 == n % 65535 && (Fold(n) == 0 <==> n == 0)
    decreases n
  {
    if n >= 65536 {
      var m := n % 65536 + n / 65536;
      FoldResidue(m);
      assert n == m + 65535 * (n / 65536);
      AddMultiple(m, n / 65536);
    }
  }

  lemma AddMultiple(m: int, q: int)
    ensures (m + 65535 * q) % 65535 == m % 65535
  {
  }

  method IcmpChecksum(o: Order, data: Buffer) returns (c: nat)
    ensures c == ChecksumOf(o, data)
  {
    var sum := 0;
    var p := 0;
    while |data| - p > 1
      invariant 0 <= p <= |data|
      invariant 0 <= sum < WRAP
      invariant sum == (RawSum(o, data) - RawSum(o, data[p..])) % WRAP
    {
      WrappedAdd(RawSum(o, data) - RawSum(o, data[p..]), Word(o, data[p], data[p + 1]));
      assert data[p..][2..] == data[p + 2..];
      sum := (sum + Word(o, data[p], data[p + 1])) % WRAP;
      p := p + 2;
    }
    if p < |data| {
      WrappedAdd(RawSum(o, data) - RawSum(o, data[p..]), data[p]);
      sum := (sum + data[p]) % WRAP;
    }
    assert sum == SumOf(o, data);
    while sum / 65536 != 0
      invariant 0 <= sum && Fold(sum) == Fold(SumOf(o, data))
      decreases sum
    {
      sum := sum % 65536 + sum / 65536;
    }
    c := 65535 - sum;
  }

  lemma WrappedAdd(a: int, b: int)
    ensures (a % WRAP + b) % WRAP == (a + b) % WRAP
  {
  }

  // ---- writing the checksum into the buffer ------------------------------------------

  /** Stores a word at an even offset in machine order. */
  function SetWord(o: Order, s: Buffer, off: nat, w: int): (t: Buffer)
    requires off + 2 <= |s| && 0 <= w < 65536
    ensures |t| == |s|
  {
    s[off := FirstByte(o, w)][off + 1 := SecondByte(o, w)]
  }

  lemma WordOfBytes(o: Order, w: int)
    requires 0 <= w < 65536
    ensures Word(o, FirstByte(o, w), SecondByte(o, w)) == w
  {
  }

  lemma {:induction false} RawSumSetWord(o: Order, s: Buffer, off: nat, w: int)
    requires off % 2 == 0 && off + 2 <= |s| && 0 <= w < 65536
    ensures RawSum(o, SetWord(o, s, off, w)) == RawSum(o, SetWord(o, s, off, 0)) + w
    decreases off
  {
    var t, z := SetWord(o, s, off, w), SetWord(o, s, off, 0);
    WordOfBytes(o, w);
    WordOfBytes(o, 0);
    if off == 0 {
      assert t[2..] == z[2..];
    } else {
      RawSumSetWord(o, s[2..], off - 2, w);
      assert t[2..] == SetWord(o, s[2..], off - 2, w);
      assert z[2..] == SetWord(o, s[2..], off - 2, 0);
    }
  }

  /** Adding the checksum rounds the sum up to a multiple of 65535 and never leaves 32 bits,
      because 2^32 - 1 is itself such a multiple. */
  lemma CompletedSum(z: nat)
    requires z < WRAP
    ensures Fold(z) <= 65535 && z + 65535 - Fold(z) < WRAP
    ensures Fold(z + 65535 - Fold(z)) == 65535
  {
    FoldResidue(z);
    var d := z + 65535 - Fold(z);
    assert Fold(z) <= z by { FoldBelow(z); }
    assert d % 65535 == 0 by { SameResidue(z, Fold(z)); }
    BelowWrap(d);
    FoldResidue(d);
    ZeroOrOnes(Fold(d));
  }

  lemma BelowWrap(d: nat)
    requires d % 65535 == 0 && d < WRAP + 65535
    ensures d < WRAP || d == WRAP + 65534
  {
    assert d == 65535 * (d / 65535);
  }

  lemma {:induction false} FoldBelow(n: nat)
    ensures Fold(n) <= n
    decreases n
  {
    if n >= 65536 {
      FoldBelow(n % 65536 + n / 65536);
    }
  }

  lemma SameResidue(z: int, f: int)
    requires z % 65535 == f % 65535
    ensures (z + 65535 - f) % 65535 == 0
  {
  }

  lemma ZeroOrOnes(f: int)
    requires 0 < f < 65536 && f % 65535 == 0
    ensures f == 65535
  {
  }

  /** For every buffer, of any length: with the checksum of the zeroed buffer written into its
      field, the checksum of the whole buffer is zero. */
  lemma ChecksumVerifies(o: Order, s: Buffer, off: nat)
    requires off % 2 == 0 && off + 2 <= |s|
    ensures var z := SetWord(o, s, off, 0); ChecksumOf(o, SetWord(o, z, off, ChecksumOf(o, z))) == 0
  {
    hide RawSum, Fold;
    var z := SetWord(o, s, off, 0);
    var c := ChecksumOf(o, z);
    RawSumSetWord(o, z, off, c);
    assert SetWord(o, z, off, 0) == z;
    WrappedAdd(RawSum(o, z), c);
    CompletedSum(SumOf(o, z));
    SmallMod(SumOf(o, z) + c);
  }

  lemma SmallMod(n: nat)
    requires n < WRAP
    ensures n % WRAP == n
  {
  }

  /** What wrapping does change: the result is the checksum of the unbounded sum exactly when
      the number of wraps is zero, or is a multiple of 65535 and the wrapped sum is not zero. */
  lemma UnboundedSumIff(o: Order, s: Buffer)
    ensures var q := RawSum(o, s) / WRAP;
            ChecksumOf(o, s) == 65535 - Fold(RawSum(o, s)) <==> q == 0 || (q % 65535 == 0 && SumOf(o, s) != 0)
  {
    var n := RawSum(o, s);
    var q, m := n / WRAP, n % WRAP;
    FoldResidue(n);
    FoldResidue(m);
    AddMultiple(m + q, 65537 * q);
    assert n == m + q + 65535 * (65537 * q);
    EqualFolds(Fold(n), Fold(m), m, q);
  }

  lemma EqualFolds(a: nat, b: nat, m: nat, q: nat)
    requires a <= 65535 && b <= 65535 && a % 65535 == (m + q) % 65535 && b % 65535 == m % 65535
    requires (a == 0 <==> m == 0 && q == 0) && (b == 0 <==> m == 0)
    ensures a == b <==> q == 0 || (q % 65535 == 0 && m != 0)
  {
    assert (m + q) % 65535 == m % 65535 <==> q % 65535 == 0;
  }

  function Ones(words: nat): Buffer {
    seq(2 * words, _ => 255)
  }

  lemma {:induction false} OnesSum(o: Order, words: nat)
    ensures RawSum(o, Ones(words)) == 65535 * words
  {
    if words > 0 {
      assert Ones(words)[2..] == Ones(words - 1);
      OnesSum(o, words - 1);
    }
  }

  /** A buffer of 131076 bytes, all ones: its checksum is not that of its sum. */
  lemma WrapChangesResult(o: Order)
    ensures ChecksumOf(o, Ones(65538)) != 65535 - Fold(RawSum(o, Ones(65538)))
  {
    OnesSum(o, 65538);
    UnboundedSumIff(o, Ones(65538));
    assert 65535 * 65538 / WRAP == 1;
  }

  /** A TCP probe: the checksum over pseudo-header and header verifies once it is stored in
      the header, whose checksum field is at offset 16. */
  lemma TcpChecksumVerifies(o: Order, pseudo: Buffer, header: Buffer)
    requires |pseudo| == 12 && |header| == 20
    ensures var zeroed := SetWord(o, header, 16, 0);
            var c := ChecksumOf(o, pseudo + zeroed);
            ChecksumOf(o, pseudo + SetWord(o, zeroed, 16, c)) == 0
  {
    var zeroed := SetWord(o, header, 16, 0);
    var c := ChecksumOf(o, pseudo + zeroed);
    ChecksumVerifies(o, pseudo + header, 28);
    assert SetWord(o, pseudo + header, 28, 0) == pseudo + zeroed;
    assert SetWord(o, pseudo + zeroed, 28, c) == pseudo + SetWord(o, zeroed, 16, c);
  }

  // ---- byte order and odd lengths ---------------------------------------------------------

  lemma {:induction false} RawSumBound(o: Order, s: Buffer)
    ensures RawSum(o, s) <= 65535 * ((|s| + 1) / 2)
  {
    if |s| > 1 {
      RawSumBound(o, s[2..]);
      assert |s[2..]| == |s| - 2;
    }
  }

  /** Up to this length the sum does not leave 32 bits. */
  lemma NoWrap(o: Order, s: Buffer)
    requires |s| <= 131072
    ensures SumOf(o, s) == RawSum(o, s)
  {
    RawSumBound(o, s);
    SmallMod(RawSum(o, s));
  }

  /** The sums of the two byte orders are each other's, multiplied by 256, modulo 65535. */
  lemma {:induction false} SwappedSum(s: Buffer) returns (q: int)
    requires |s| % 2 == 0
    ensures 256 * RawSum(BigEndian, s) == RawSum(LittleEndian, s) + 65535 * q
    ensures RawSum(BigEndian, s) == 0 <==> RawSum(LittleEndian, s) == 0
  {
    if s == [] {
      q := 0;
    } else {
      q := SwappedSum(s[2..]);
      q := q + s[0];
    }
  }

  function Swap(w: nat): nat
    requires w < 65536
  {
    w % 256 * 256 + w / 256
  }

  lemma SwapIsTimes256(w: nat)
    requires w < 65536
    ensures Swap(w) < 65536 && 256 * w == Swap(w) + 65535 * (w / 256) && (Swap(w) == 0 <==> w == 0)
  {
  }

  lemma SameWord(a: nat, b: nat)
    requires a < 65536 && b < 65536 && a % 65535 == b % 65535 && (a == 0 <==> b == 0)
    ensures a == b
  {
  }

  lemma TimesResidue(a: int, b: int, k: int)
    requires a % 65535 == b % 65535
    ensures k * a % 65535 == k * b % 65535
  {
    var d := a / 65535 - b / 65535;
    assert a == b + 65535 * d;
    assert k * a == k * b + 65535 * (k * d);
    AddMultiple(k * b, k * d);
  }

  lemma SwappedFold(s: Buffer)
    requires |s| % 2 == 0
    ensures Fold(RawSum(BigEndian, s)) < 65536
    ensures Fold(RawSum(LittleEndian, s)) == Swap(Fold(RawSum(BigEndian, s)))
  {
    var le, be := RawSum(LittleEndian, s), RawSum(BigEndian, s);
    var q := SwappedSum(s);
    FoldResidue(le);
    FoldResidue(be);
    var g := Fold(be);
    hide Fold, RawSum;
    SwapIsTimes256(g);
    AddMultiple(le, q);
    AddMultiple(Swap(g), g / 256);
    TimesResidue(be, g, 256);
    hide Swap;
    SameWord(Fold(le), Swap(g));
  }

  /** The two bytes that are stored do not depend on the byte order of the machine
      (section 2(B) of RFC 1071). */
  lemma BytesIndependentOfOrder(s: Buffer)
    requires |s| % 2 == 0 && |s| <= 131072
    ensures FirstByte(LittleEndian, ChecksumOf(LittleEndian, s)) == FirstByte(BigEndian, ChecksumOf(BigEndian, s))
    ensures SecondByte(LittleEndian, ChecksumOf(LittleEndian, s)) == SecondByte(BigEndian, ChecksumOf(BigEndian, s))
  {
    NoWrap(LittleEndian, s);
    NoWrap(BigEndian, s);
    SwappedFold(s);
    hide RawSum, Fold;
    ComplementSwap(Fold(RawSum(BigEndian, s)));
  }

  lemma ComplementSwap(g: nat)
    requires g < 65536
    ensures Swap(g) <= 65535
    ensures (65535 - Swap(g)) % 256 == (65535 - g) / 256 && (65535 - Swap(g)) / 256 == (65535 - g) % 256
  {
    assert g == g / 256 * 256 + g % 256;
  }

  lemma {:induction false} PaddedSum(o: Order, s: Buffer)
    requires |s| % 2 == 1
    ensures var last: int := s[|s| - 1];
            RawSum(o, s + [0]) == RawSum(o, s) + if o == LittleEndian then 0 else 255 * last
  {
    if |s| == 1 {
      assert (s + [0])[2..] == [];
    } else {
      PaddedSum(o, s[2..]);
      assert (s + [0])[2..] == s[2..] + [0];
    }
  }

  /** An odd last byte counts as if a zero byte followed it, which is what RFC 1071 asks for, on
      a little-endian machine; on a big-endian one only if that byte is zero. */
  lemma OddLengthIff(o: Order, s: Buffer)
    requires |s| % 2 == 1 && |s| < 131072
    ensures ChecksumOf(o, s) == ChecksumOf(o, s + [0]) <==> o == LittleEndian || s[|s| - 1] == 0
  {
    hide RawSum, Fold;
    PaddedSum(o, s);
    NoWrap(o, s);
    NoWrap(o, s + [0]);
    if o == BigEndian && s[|s| - 1] != 0 {
      var n, b: int := RawSum(o, s), s[|s| - 1];
      FoldResidue(n);
      FoldResidue(n + 255 * b);
      DifferentResidue(n, 255 * b);
    }
  }

  lemma DifferentResidue(n: nat, d: nat)
    requires 0 < d < 65535
    ensures n % 65535 != (n + d) % 65535
  {
  }
}
