// The format on the wire: what the stored bytes of a value are, without the
// functions that produce them.

module Wire {
  import opened Common
  import opened Bits
  import opened Codec
  import opened TypedValues

  /** The number that bytes spell in base 256, most or least significant first. */
  function BigEndian(s: seq<byte>): nat {
    if s == [] then 0 else BigEndian(s[..|s| - 1]) * 256 + s[|s| - 1]
  }

  function LittleEndian(s: seq<byte>): nat {
    if s == [] then 0 else s[0] + 256 * LittleEndian(s[1..])
  }

  function Word(s: seq<byte>, little: bool): nat {
    if little then LittleEndian(s) else BigEndian(s)
  }

  /** The number that the low seven bits of bytes spell, least significant first. */
  function Sevens(s: seq<byte>): nat {
    if s == [] then 0 else s[0] % 128 + 128 * Sevens(s[1..])
  }

  /** All bytes but the last have the high bit, and no last digit is 0 for
      nothing. */
  predicate Groups(s: seq<byte>) {
    && s != [] && s[|s| - 1] < 128
    && (forall i :: 0 <= i < |s| - 1 ==> s[i] >= 128)
    && (|s| > 1 ==> s[|s| - 1] != 0)
  }

  /** A varint of `v`. */
  predicate Spells(s: seq<byte>, v: nat) {
    Groups(s) && Sevens(s) == v
  }

  lemma {:induction false} VarintSpells(v: nat)
    ensures Spells(Varint(v), v)
    decreases v
  {
    if v >= 0x80 {
      hide BitAnd, BitOr, VarintByte;
      VarintSpells(v / 0x80);
      ByteIs(v);
      var s := Varint(v);
      assert s[1..] == Varint(v / 0x80);
      NonzeroSevens(s[1..]);
    } else {
      SevensOne(v);
    }
  }

  lemma SevensOne(b: byte)
    ensures Sevens([b]) == b % 128
  {
    assert [b][1..] == [];
  }

  lemma {:induction false} NonzeroSevens(s: seq<byte>)
    requires Groups(s) && Sevens(s) > 0
    ensures s[|s| - 1] != 0
  {
  }

  /** Such bytes are the encoder's, whoever wrote them: there is one for each
      number. */
  lemma {:induction false} VarintUnique(s: seq<byte>)
    requires Groups(s)
    ensures Varint(Sevens(s)) == s
  {
    hide Varint, Sevens;
    if |s| == 1 {
      assert s == [s[0]];
      SevensOne(s[0]);
      VarintSmall(s[0]);
    } else {
      var rest := s[1..];
      assert Groups(rest) by {
        assert forall i :: 0 <= i < |rest| ==> rest[i] == s[i + 1];
      }
      VarintUnique(rest);
      RestPositive(rest);
      SevensCons(s);
      VarintCons(s[0] - 128, Sevens(rest));
      assert s == [s[0]] + rest;
    }
  }

  lemma VarintSmall(v: nat)
    requires v < 128
    ensures Varint(v) == [v]
  {
  }

  lemma SevensCons(s: seq<byte>)
    requires s != []
    ensures Sevens(s) == s[0] % 128 + 128 * Sevens(s[1..])
  {
  }

  lemma VarintCons(d: nat, u: nat)
    requires d < 128 && u > 0
    ensures Varint(d + 128 * u) == [d + 128] + Varint(u)
  {
    hide BitAnd, BitOr, VarintByte;
    assert (d + 128 * u) / 128 == u && (d + 128 * u) % 128 == d;
    ByteIs(d + 128 * u);
  }

  lemma ByteIs(v: nat)
    ensures VarintByte(v) == v % 128 + 128
  {
    hide BitAnd, BitOr;
    VarintByteValue(v);
  }

  lemma {:induction false} RestPositive(s: seq<byte>)
    requires Groups(s) && s[|s| - 1] != 0
    ensures Sevens(s) > 0
  {
    if |s| > 1 {
      var rest := s[1..];
      assert forall i :: 0 <= i < |rest| ==> rest[i] == s[i + 1];
      RestPositive(rest);
    }
  }

  lemma {:induction false} LittleSpells(v: nat, n: nat)
    requires v < Pow2(8 * n)
    ensures LittleEndian(Little(v, n)) == v
  {
    if n > 0 {
      Pow2Add(8 * (n - 1), 8);
      Pow2Bytes();
      LittleSpells(v / 256, n - 1);
    }
  }

  lemma {:induction false} BigReversed(s: seq<byte>)
    ensures BigEndian(Reversed(s)) == LittleEndian(s)
  {
    if s != [] {
      BigReversed(s[1..]);
      var r := Reversed(s);
      assert r[..|r| - 1] == Reversed(s[1..]);
    }
  }

  lemma MemorySpells(v: nat, n: nat, little: bool)
    requires v < Pow2(8 * n)
    ensures |Memory(v, n, little)| == n && Word(Memory(v, n, little), little) == v
  {
    LittleSpells(v, n);
    BigReversed(Little(v, n));
  }

  /** The zigzag of a value, in 32 bits whatever its own width. */
  function Zigzagged(x: int): nat {
    (if x < 0 then -2 * x - 1 else 2 * x) % 0x1_0000_0000
  }

  /** What each typed value is stored as. */
  predicate Format(v: Value, s: seq<byte>, little: bool) {
    match v
    case Fixed(n, x) => |s| == n && Word(s, little) == x
    case Base128(_, x) => Spells(s, x)
    case Zigzag(_, x) => Spells(s, Zigzagged(x))
    case Text(n, t) => |s| == n + |t| && s[n..] == t && Word(s[..n], little) == |t| % Pow2(8 * n)
    case TextVint(t) => |s| >= |t| && s[|s| - |t|..] == t && Spells(s[..|s| - |t|], |t|)
  }

  /** A write stores: a word of its width in the buffer's byte order; a varint; the
      varint of the zigzag word; a length of the prefix's width, or a varint of it,
      and then the text. */
  lemma EncodeFormat(v: Value, little: bool)
    requires WellTyped(v)
    ensures Format(v, Encode(v, little), little)
  {
    hide Pow2, Memory, Varint, Word, Spells, ZigzagWord;
    match v
    case Fixed(n, x) => MemorySpells(x, n, little);
    case Base128(_, x) => VarintSpells(x);
    case Zigzag(w, x) =>
      ZigzagWordIs(w, x);
      VarintSpells(ZigzagWord(w, x));
    case Text(n, t) =>
      BelowMod(|t|, Pow2(8 * n));
      MemorySpells(|t| % Pow2(8 * n), n, little);
    case TextVint(t) => VarintSpells(|t|);
  }

  lemma BelowMod(x: nat, m: nat)
    requires m > 0
    ensures 0 <= x % m < m
  {
  }

  lemma ZigzagWordIs(w: nat, x: int)
    requires w in {32, 64} && IsSigned(x, w)
    ensures ZigzagWord(w, x) == Zigzagged(x)
  {
    hide ZigzagEncode, Pow2, BitAnd, BitXor;
    Pow2Words();
    ZigzagEncodeValue(x, w);
    if w == 32 {
      ModSmall(ZigzagWord(32, x), 0x1_0000_0000);
    }
  }

  // ------------------------------------------------------------- reading anything

  /** The loop at bit `i` stops behind the first `n` bytes: at the first without the
      high bit, or where the word is full. */
  predicate Stops(s: seq<byte>, n: nat, w: nat, i: nat) {
    && 0 < n <= |s| && i + 7 * (n - 1) < w
    && (forall j :: 0 <= j < n - 1 ==> s[j] >= 128)
    && (s[n - 1] < 128 || i + 7 * n >= w)
  }

  /** Whatever the bytes, decoding takes as many as the loop passes, and gives the
      number that their low seven bits spell, cut to the width of the word. */
  lemma DecodeAny(s: seq<byte>, n: nat, w: nat)
    requires Stops(s, n, w, 0)
    ensures VarintDecode(s, w, 0, 0) == Some((Sevens(s[..n]) % Pow2(w), n))
  {
    DecodeFrom(s, n, w, 0, 0);
  }

  lemma {:induction false} DecodeFrom(s: seq<byte>, n: nat, w: nat, i: nat, acc: nat)
    requires Stops(s, n, w, i) && acc < Pow2(i)
    ensures VarintDecode(s, w, i, acc) == Some(((acc + Pow2(i) * Sevens(s[..n])) % Pow2(w), n))
    decreases n
  {
    hide Pow2, Accumulate, Sevens;
    var b := s[0];
    SevensFirst(s[..n]);
    if n == 1 {
      SevensNone(s[..1]);
      AccumulateAny(acc, b, i, w);
    } else {
      var rest := s[1..];
      NextStops(s, n, w, i);
      AccumulateWhole(acc, b, i, w);
      var next := Accumulate(acc, b, i, w);
      DecodeFrom(rest, n - 1, w, i + 7, next);
      assert s[..n][1..] == rest[..n - 1];
      SevenUp(acc, b, i, Sevens(rest[..n - 1]));
    }
  }

  lemma SevensFirst(s: seq<byte>)
    requires s != []
    ensures Sevens(s) == s[0] % 128 + 128 * Sevens(s[1..])
  {
  }

  lemma SevensNone(s: seq<byte>)
    requires |s| == 1
    ensures Sevens(s) == s[0] % 128
  {
    assert s == [s[0]];
    SevensOne(s[0]);
  }

  lemma NextStops(s: seq<byte>, n: nat, w: nat, i: nat)
    requires Stops(s, n, w, i) && n > 1
    ensures Stops(s[1..], n - 1, w, i + 7) && s[0] >= 128 && i + 7 < w
  {
    assert forall j :: 0 <= j < n - 2 ==> s[1..][j] == s[j + 1];
  }

  /** A digit that fits below the top of the word. */
  lemma AccumulateWhole(acc: nat, b: byte, i: nat, w: nat)
    requires acc < Pow2(i) && i + 7 < w
    ensures Accumulate(acc, b, i, w) == acc + (b % 128) * Pow2(i) < Pow2(i + 7)
  {
    hide Accumulate;
    Pow2Add(i, 7);
    Pow2Bytes();
    Pow2Monotone(i + 7, w);
    hide Pow2;
    DigitFits(b % 128, acc, Pow2(i));
    AccumulateSum(acc, b, i, w);
  }

  lemma DigitFits(d: nat, acc: nat, m: nat)
    requires d < 128 && acc < m
    ensures d * m <= 127 * m && acc + d * m < m * 128
  {
    MulMonotone(d, 127, m);
  }

  /** Any digit, cut at the top of the word. */
  lemma AccumulateAny(acc: nat, b: byte, i: nat, w: nat)
    requires acc < Pow2(i) && i < w
    ensures Accumulate(acc, b, i, w) == (acc + Pow2(i) * (b % 128)) % Pow2(w)
  {
    hide BitAnd, BitOr;
    var d, m, k := b % 128, Pow2(i), Pow2(w - i);
    VarintByteValue(b);
    Pow2Add(i, w - i);
    hide Pow2;
    assert i + (w - i) == w;
    CutDigit(acc, d, m, k);
    OrDisjoint(acc, d % k, i);
  }

  lemma CutDigit(acc: nat, d: nat, m: nat, k: nat)
    requires m > 0 && k > 0 && acc < m
    ensures m * k > 0 && (d * m) % (m * k) == (d % k) * m
    ensures (acc + m * d) % (m * k) == acc + (d % k) * m
  {
    var q, r := d / k, d % k;
    assert d == q * k + r;
    Product(q, k, r, m);
    MulMonotone(r + 1, k, m);
    assert (r + 1) * m == r * m + m;
    assert k * m == m * k;
    MulPositive(m, k);
    MulMonotone(0, r, m);
    DivModUnique(d * m, m * k, q, r * m);
    DivModUnique(acc + m * d, m * k, q, acc + r * m);
  }

  lemma MulPositive(m: nat, k: nat)
    requires m > 0 && k > 0
    ensures m * k > 0
  {
  }

  lemma Product(q: nat, k: nat, r: nat, m: nat)
    ensures (q * k + r) * m == q * (m * k) + r * m && m * (q * k + r) == (q * k + r) * m
  {
  }

  lemma SevenUp(acc: nat, b: byte, i: nat, u: nat)
    ensures acc + (b % 128) * Pow2(i) + Pow2(i + 7) * u == acc + Pow2(i) * (b % 128 + 128 * u)
  {
    Pow2Add(i, 7);
    Pow2Bytes();
    hide Pow2;
    Spread(Pow2(i), b % 128, u);
  }

  lemma Spread(m: nat, d: nat, u: nat)
    ensures d * m + (m * 128) * u == m * (d + 128 * u)
  {
  }

  /** A fixed-width read spells its bytes in the buffer's order, whatever they are. */
  lemma FixedAny(s: seq<byte>, little: bool, hostLittle: bool)
    ensures FromMemory(s, little) == Word(s, little)
    ensures FixedValue(s, little, hostLittle) == Word(s, little)
  {
    LittleSame(s);
    LittleSame(Reversed(s));
    BigReversed(Reversed(s));
    ReversedTwice(s);
    if little != hostLittle {
      LittleOnto(s);
      LittleOnto(Reversed(s));
    }
  }

  lemma {:induction false} LittleSame(s: seq<byte>)
    ensures FromLittle(s) == LittleEndian(s)
  {
    if s != [] {
      LittleSame(s[1..]);
    }
  }
}
