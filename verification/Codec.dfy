// The binary codec on its own: machine-word arithmetic, zigzag, base-128 varints
// and fixed-width integers in either byte order.

module Bits {
  import opened Common

  function Pow2(k: nat): (r: nat)
    ensures r > 0
  {
    if k == 0 then 1 else 2 * Pow2(k - 1)
  }

  // The bitwise operators of an unsigned word of any width.

  function BitAnd(a: nat, b: nat): nat {
    if a == 0 || b == 0 then 0
    else (if a % 2 == 1 && b % 2 == 1 then 1 else 0) + 2 * BitAnd(a / 2, b / 2)
  }

  function BitOr(a: nat, b: nat): nat
    decreases a + b
  {
    if a == 0 && b == 0 then 0
    else (if a % 2 == 1 || b % 2 == 1 then 1 else 0) + 2 * BitOr(a / 2, b / 2)
  }

  function BitXor(a: nat, b: nat): nat
    decreases a + b
  {
    if a == 0 && b == 0 then 0
    else (if a % 2 != b % 2 then 1 else 0) + 2 * BitXor(a / 2, b / 2)
  }

  /** The low `k` bits. */
  lemma {:induction false} AndMask(x: nat, k: nat)
    ensures BitAnd(x, Pow2(k) - 1) == x % Pow2(k)
  {
    if k > 0 {
      var m := Pow2(k - 1);
      MaskHalf(m);
      ModDouble(x, m);
      AndMask(x / 2, k - 1);
      hide Pow2;
      AndStep(x, 2 * m - 1);
    }
  }

  lemma MaskHalf(m: nat)
    requires m > 0
    ensures (2 * m - 1) / 2 == m - 1 && (2 * m - 1) % 2 == 1
  {
  }

  lemma AndStep(a: nat, b: nat)
    ensures BitAnd(a, b) == (if a % 2 == 1 && b % 2 == 1 then 1 else 0) + 2 * BitAnd(a / 2, b / 2)
  {
  }

  lemma ModDouble(x: nat, m: nat)
    requires m > 0
    ensures x % (2 * m) == x % 2 + 2 * ((x / 2) % m)
  {
    var q, r := (x / 2) / m, (x / 2) % m;
    assert x / 2 == q * m + r;
    assert q * (2 * m) == 2 * (q * m);
    DivModUnique(x, 2 * m, q, x % 2 + 2 * r);
  }

  /** Or of two numbers with no bit in common is their sum. */
  lemma {:induction false} OrDisjoint(a: nat, b: nat, k: nat)
    requires a < Pow2(k)
    ensures BitOr(a, b * Pow2(k)) == a + b * Pow2(k)
  {
    var c := b * Pow2(k);
    if k == 0 {
      OrZero(b);
    } else if a > 0 || c > 0 {
      var m := Pow2(k - 1);
      assert c == 2 * (b * m);
      OrDisjoint(a / 2, b, k - 1);
    }
  }

  lemma {:induction false} OrZero(b: nat)
    ensures BitOr(0, b) == b
  {
    if b > 0 {
      OrZero(b / 2);
    }
  }

  /** Xor with all ones complements. */
  lemma {:induction false} XorOnes(a: nat, k: nat)
    requires a < Pow2(k)
    ensures BitXor(a, Pow2(k) - 1) == Pow2(k) - 1 - a
  {
    if k > 0 {
      var m := Pow2(k - 1);
      assert (2 * m - 1) / 2 == m - 1 && (2 * m - 1) % 2 == 1;
      XorOnes(a / 2, k - 1);
    }
  }

  lemma {:induction false} XorZero(a: nat)
    ensures BitXor(a, 0) == a
  {
    if a > 0 {
      XorZero(a / 2);
    }
  }

  lemma {:induction false} Pow2Add(i: nat, j: nat)
    ensures Pow2(i + j) == Pow2(i) * Pow2(j)
  {
    if j > 0 {
      Pow2Add(i, j - 1);
      assert i + (j - 1) == i + j - 1;
    }
  }

  lemma {:induction false} Pow2Monotone(i: nat, j: nat)
    requires i <= j
    ensures Pow2(i) <= Pow2(j)
  {
    if i < j {
      Pow2Monotone(i, j - 1);
    }
  }

  lemma Pow2Square(k: nat)
    ensures Pow2(k + k) == Pow2(k) * Pow2(k)
  {
    Pow2Add(k, k);
  }

  lemma Pow2Bytes()
    ensures Pow2(1) == 2 && Pow2(4) == 16 && Pow2(7) == 128 && Pow2(8) == 256
  {
    assert Pow2(4) == 16;
  }

  lemma Pow2Words()
    ensures Pow2(16) == 0x1_0000
    ensures Pow2(31) == 0x8000_0000 && Pow2(32) == 0x1_0000_0000
    ensures Pow2(63) == 0x8000_0000_0000_0000 && Pow2(64) == U64
  {
    Pow2Bytes();
    Pow2Square(8);
    Pow2Square(16);
    Pow2Square(32);
    assert Pow2(32) == 2 * Pow2(31) && Pow2(64) == 2 * Pow2(63);
  }
}

module Codec {
  import opened Common
  import opened Bits

  // ------------------------------------------------------------------ zigzag

  /** Conversion to an unsigned word of `w` bits. */
  function Unsigned(v: int, w: nat): nat {
    v % Pow2(w)
  }

  /** Conversion of an unsigned word to a signed one. */
  function Signed(u: nat, w: nat): int
    requires w > 0
  {
    if u >= Pow2(w - 1) then u - Pow2(w) else u
  }

  predicate IsSigned(v: int, w: nat)
    requires w > 0
  {
    -(Pow2(w - 1) as int) <= v < Pow2(w - 1)
  }

  /** The zigzag encoder on `w`-bit words, with every operation wrapping. */
  function ZigzagEncode(v: int, w: nat): nat
  {
    if v < 0 then Unsigned(Unsigned(-v, w) * 2 - 1, w) else Unsigned(v * 2, w)
  }

  function ZigzagDecode(u: nat, w: nat): int
    requires w > 0
  {
    Signed(BitXor(u / 2, Unsigned(0 - BitAnd(u, 1), w)), w)
  }

  /** The 64-bit encoder: its return type keeps only 32 bits. */
  function ZigzagEncode64(v: int): nat {
    Unsigned(ZigzagEncode(v, 64), 32)
  }

  lemma ZigzagEncodeValue(v: int, w: nat)
    requires w > 0 && IsSigned(v, w)
    ensures ZigzagEncode(v, w) == if v < 0 then -2 * v - 1 else 2 * v
    ensures ZigzagEncode(v, w) < Pow2(w)
  {
    assert Pow2(w) == 2 * Pow2(w - 1);
    hide Pow2;
    WrappedZigzag(v, Pow2(w), Pow2(w - 1));
  }

  lemma WrappedZigzag(v: int, m: nat, half: int)
    requires m == 2 * half && -half <= v < half
    ensures v < 0 ==> ((-v) % m * 2 - 1) % m == -2 * v - 1 < m
    ensures v >= 0 ==> (v * 2) % m == 2 * v < m
  {
    if v < 0 {
      ModSmall(-v, m);
      ModSmall(-2 * v - 1, m);
    } else {
      ModSmall(2 * v, m);
    }
  }

  lemma SignMask(u: nat, w: nat)
    requires w > 0
    ensures Unsigned(0 - BitAnd(u, 1), w) == if u % 2 == 0 then 0 else Pow2(w) - 1
  {
    Pow2Bytes();
    AndMask(u, 1);
    hide BitAnd;
    if u % 2 == 0 {
      ModSmall(0, Pow2(w));
    } else {
      ModMinusOne(Pow2(w));
    }
  }

  lemma ZigzagDecodeValue(u: nat, w: nat)
    requires w > 0 && u < Pow2(w)
    ensures ZigzagDecode(u, w) == if u % 2 == 0 then u / 2 else -(u / 2) - 1
  {
    assert Pow2(w) == 2 * Pow2(w - 1);
    SignMask(u, w);
    XorZero(u / 2);
    XorOnes(u / 2, w);
    hide Pow2, BitXor, BitAnd, Unsigned;
  }

  lemma ModMinusOne(m: nat)
    requires m > 0
    ensures (0 - 1) % m == m - 1
  {
    var q := (0 - 1) / m;
    assert 0 - 1 == q * m + (0 - 1) % m;
  }

  /** Decoding inverts encoding for every signed word, the minimum included. */
  lemma ZigzagRoundTrip(v: int, w: nat)
    requires w > 0 && IsSigned(v, w)
    ensures ZigzagDecode(ZigzagEncode(v, w), w) == v
  {
    ZigzagEncodeValue(v, w);
    ZigzagDecodeValue(ZigzagEncode(v, w), w);
  }

  /** What the 64-bit pair of functions does to a value. */
  function Narrowed(v: int): int {
    ZigzagDecode(ZigzagEncode64(v), 64)
  }

  /** The truncated 64-bit encoder round-trips exactly the 32-bit values. */
  lemma Zigzag64Exact(v: int)
    requires IsSigned(v, 64)
    ensures Narrowed(v) == v <==> IsSigned(v, 32)
  {
    Pow2Words();
    ZigzagEncodeValue(v, 64);
    var e := ZigzagEncode(v, 64);
    ZigzagDecodeValue(e % 0x1_0000_0000, 64);
    hide ZigzagEncode, ZigzagDecode, Pow2;
    NarrowExact(v, e, e / 0x1_0000_0000, e % 0x1_0000_0000);
  }

  lemma NarrowExact(v: int, e: nat, k: nat, x: nat)
    requires e == if v < 0 then -2 * v - 1 else 2 * v
    requires e == k * 0x1_0000_0000 + x && x < 0x1_0000_0000
    ensures v == (if x % 2 == 0 then x / 2 else -(x / 2) - 1) <==> -0x8000_0000 <= v < 0x8000_0000
  {
    assert e % 2 == x % 2;
    if v >= 0 {
      assert x == 2 * (v - k * 0x8000_0000);
    } else {
      assert x == 2 * (-v - 1 - k * 0x8000_0000) + 1;
    }
  }

  /** For instance 2^31 reads back as 0. */
  lemma Zigzag64Loses()
    ensures Narrowed(0x8000_0000) == 0
  {
    Pow2Words();
    ZigzagEncodeValue(0x8000_0000, 64);
    ZigzagDecodeValue(0, 64);
  }

  // ------------------------------------------------------------------ varint

  /** Base-128 digits, least significant first, continuation bit on all but the
      last (unsigned LEB128). */
  function Varint(v: nat): seq<byte> {
    if v < 0x80 then [v] else [VarintByte(v)] + Varint(v / 0x80)
  }

  /** `(value & 0x7f) | 0x80` */
  function VarintByte(v: nat): byte {
    VarintByteValue(v);
    BitOr(BitAnd(v, 0x7f), 0x80)
  }

  lemma VarintByteValue(v: nat)
    ensures BitAnd(v, 0x7f) == v % 0x80
    ensures BitOr(BitAnd(v, 0x7f), 0x80) == v % 0x80 + 0x80
  {
    Pow2Bytes();
    AndMask(v, 7);
    OrDisjoint(v % 0x80, 1, 7);
  }

  lemma {:induction false} VarintLength(v: nat, k: nat)
    requires k >= 1 && v < Pow2(7 * k)
    ensures 1 <= |Varint(v)| <= k
  {
    if v >= 0x80 {
      Pow2Add(7 * (k - 1), 7);
      Pow2Bytes();
      if k > 1 {
        VarintLength(v / 0x80, k - 1);
      }
    }
  }

  /** At most 5 bytes for 32 bits and 10 for 64: the sizes of the scratch arrays. */
  lemma VarintFits(v: nat)
    ensures v < Pow2(32) ==> 1 <= |Varint(v)| <= 5
    ensures v < Pow2(64) ==> 1 <= |Varint(v)| <= 10
  {
    Pow2Monotone(32, 35);
    Pow2Monotone(64, 70);
    if v < Pow2(32) {
      VarintLength(v, 5);
    }
    if v < Pow2(64) {
      VarintLength(v, 10);
    }
  }

  /** One turn of the decoding loop: the digit goes in at bit `i` of a `w`-bit
      word. */
  function Accumulate(acc: nat, b: byte, i: nat, w: nat): nat {
    BitOr(acc, (BitAnd(b, 0x7f) * Pow2(i)) % Pow2(w))
  }

  lemma AccumulateSum(acc: nat, b: byte, i: nat, w: nat)
    requires acc < Pow2(i) && (b % 0x80) * Pow2(i) < Pow2(w)
    ensures Accumulate(acc, b, i, w) == acc + (b % 0x80) * Pow2(i)
  {
    hide Pow2, BitAnd, BitOr;
    VarintByteValue(b);
    ModSmall((b % 0x80) * Pow2(i), Pow2(w));
    OrDisjoint(acc, b % 0x80, i);
  }

  /** The loop from bit `i` on over the bytes `s`: the value and the number of
      bytes taken, or None when the bytes run out. */
  function VarintDecode(s: seq<byte>, w: nat, i: nat, acc: nat): (r: Option<(nat, nat)>)
    ensures r.Some? ==> r.value.1 <= |s|
    decreases |s|
  {
    if i >= w then Some((acc, 0))
    else if s == [] then None
    else
      var next := Accumulate(acc, s[0], i, w);
      if s[0] < 0x80 then Some((next, 1))
      else
        match VarintDecode(s[1..], w, i + 7, next)
        case None => None
        case Some(p) => Some((p.0, p.1 + 1))
  }

  /** From bit `i` on, with `acc` decoded so far, the digits of `u` add
      `u << i` and nothing after them is looked at. */
  lemma {:induction false} VarintDecodes(u: nat, rest: seq<byte>, w: nat, i: nat, acc: nat)
    requires i < w && acc < Pow2(i) && u * Pow2(i) + acc < Pow2(w)
    ensures VarintDecode(Varint(u) + rest, w, i, acc) == Some((acc + u * Pow2(i), |Varint(u)|))
    decreases u
  {
    hide Pow2, BitAnd, BitOr, Accumulate;
    var s := Varint(u) + rest;
    if u < 0x80 {
      AccumulateSum(acc, u, i, w);
    } else {
      VarintByteValue(u);
      DigitNext(u, i, acc, w);
      AccumulateSum(acc, s[0], i, w);
      VarintDecodes(u / 0x80, rest, w, i + 7, acc + (u % 0x80) * Pow2(i));
      assert s[1..] == Varint(u / 0x80) + rest;
    }
  }

  /** Taking the lowest digit off leaves a smaller problem seven bits up. */
  lemma DigitNext(u: nat, i: nat, acc: nat, w: nat)
    requires u >= 0x80 && acc < Pow2(i) && u * Pow2(i) + acc < Pow2(w)
    ensures i + 7 < w && (u % 0x80) * Pow2(i) < Pow2(w)
    ensures acc + (u % 0x80) * Pow2(i) < Pow2(i + 7)
    ensures (u / 0x80) * Pow2(i + 7) + (u % 0x80) * Pow2(i) == u * Pow2(i)
  {
    var m := Pow2(i);
    Pow2Add(i, 7);
    Pow2Bytes();
    hide Pow2;
    DigitSplit(u, m);
    if w <= i + 7 {
      Pow2Monotone(w, i + 7);
      DigitLarge(u, m);
    }
  }

  lemma DigitSplit(u: nat, m: nat)
    requires m > 0
    ensures u * m == (u / 0x80) * (m * 0x80) + (u % 0x80) * m
    ensures (u % 0x80) * m + m <= m * 0x80 && (u % 0x80) * m <= u * m
  {
    var q, d := u / 0x80, u % 0x80;
    assert u == q * 0x80 + d;
    assert (q * 0x80 + d) * m == q * (m * 0x80) + d * m;
    MulMonotone(d + 1, 0x80, m);
    MulMonotone(d, u, m);
    assert (d + 1) * m == d * m + m;
  }

  lemma DigitLarge(u: nat, m: nat)
    requires u >= 0x80
    ensures u * m >= m * 0x80
  {
    MulMonotone(0x80, u, m);
  }

  /** Decoding takes exactly the bytes the encoder emitted and gives the value
      back, for every word of `w` bits. */
  lemma VarintRoundTrip(v: nat, rest: seq<byte>, w: nat)
    requires w > 0 && v < Pow2(w)
    ensures VarintDecode(Varint(v) + rest, w, 0, 0) == Some((v, |Varint(v)|))
  {
    VarintDecodes(v, rest, w, 0, 0);
  }

  // ------------------------------------------------------------- fixed width

  /** `n` base-256 digits, least significant first. */
  function Little(v: nat, n: nat): (r: seq<byte>)
    ensures |r| == n
  {
    if n == 0 then [] else [v % 256] + Little(v / 256, n - 1)
  }

  function FromLittle(s: seq<byte>): nat {
    if s == [] then 0 else s[0] + 256 * FromLittle(s[1..])
  }

  function Reversed<T>(s: seq<T>): (r: seq<T>)
    ensures |r| == |s|
  {
    if s == [] then [] else Reversed(s[1..]) + [s[0]]
  }

  lemma {:induction false} ReversedTwice<T>(s: seq<T>)
    ensures Reversed(Reversed(s)) == s
  {
    if s != [] {
      ReversedTwice(s[1..]);
      ReversedSnoc(Reversed(s[1..]), s[0]);
    }
  }

  lemma {:induction false} ReversedSnoc<T>(s: seq<T>, x: T)
    ensures Reversed(s + [x]) == [x] + Reversed(s)
  {
    if s != [] {
      ReversedSnoc(s[1..], x);
      assert (s + [x])[1..] == s[1..] + [x];
    }
  }

  lemma {:induction false} LittleRoundTrip(v: nat, n: nat)
    requires v < Pow2(8 * n)
    ensures FromLittle(Little(v, n)) == v
  {
    if n > 0 {
      Pow2Add(8 * (n - 1), 8);
      Pow2Bytes();
      LittleRoundTrip(v / 256, n - 1);
    }
  }

  lemma {:induction false} LittleOnto(s: seq<byte>)
    ensures FromLittle(s) < Pow2(8 * |s|) && Little(FromLittle(s), |s|) == s
  {
    if s != [] {
      LittleOnto(s[1..]);
      Pow2Add(8 * (|s| - 1), 8);
      Pow2Bytes();
      hide Pow2;
      assert FromLittle(s) / 256 == FromLittle(s[1..]);
    }
  }

  /** A word of `n` bytes in the memory of a host. */
  function Memory(v: nat, n: nat, little: bool): seq<byte> {
    if little then Little(v, n) else Reversed(Little(v, n))
  }

  function FromMemory(s: seq<byte>, little: bool): nat {
    FromLittle(if little then s else Reversed(s))
  }

  function ByteSwap(v: nat, n: nat): nat {
    FromLittle(Reversed(Little(v, n)))
  }

  /** What a fixed-width write stores on a host of the given byte order: swap
      when the orders differ, then copy the word's memory. */
  function FixedBytes(v: nat, n: nat, little: bool, hostLittle: bool): seq<byte> {
    Memory(if little != hostLittle then ByteSwap(v, n) else v, n, hostLittle)
  }

  function FixedValue(s: seq<byte>, little: bool, hostLittle: bool): nat {
    var v := FromMemory(s, hostLittle);
    if little == hostLittle then v else ByteSwap(v, |s|)
  }

  /** The stored bytes are those of the chosen order on every host. */
  lemma FixedPortable(v: nat, n: nat, little: bool, hostLittle: bool)
    ensures FixedBytes(v, n, little, hostLittle) == Memory(v, n, little)
  {
    if little != hostLittle {
      LittleOnto(Reversed(Little(v, n)));
      ReversedTwice(Little(v, n));
    }
  }

  lemma FixedRoundTrip(v: nat, n: nat, little: bool, hostLittle: bool, readerLittle: bool)
    requires v < Pow2(8 * n)
    ensures FixedValue(FixedBytes(v, n, little, hostLittle), little, readerLittle) == v
  {
    FixedPortable(v, n, little, hostLittle);
    LittleRoundTrip(v, n);
    ReversedTwice(Little(v, n));
    if little != readerLittle {
      LittleOnto(Reversed(Little(v, n)));
    }
  }
}
