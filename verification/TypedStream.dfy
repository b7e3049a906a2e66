// Typed values on the chunked buffer: what each write stores, what each read
// gives back, and the round trip of whole lists of values.

module TypedValues {
  import opened Common
  import opened Bits
  import opened Codec
  import opened ByteArrays

  /** A value together with the pair of functions it goes through.  Signed
      fixed-width integers and floating-point numbers are written as the word
      with the same bits. */
  datatype Value =
    | Fixed(n: nat, v: nat)
    | Base128(w: nat, v: nat)
    | Zigzag(w: nat, x: int)
    | Text(n: nat, s: seq<byte>)
    | TextVint(s: seq<byte>)

  datatype Tag = FixedT(n: nat) | Base128T(w: nat) | ZigzagT(w: nat) | TextT(n: nat) | TextVintT

  function TagOf(v: Value): Tag {
    match v
    case Fixed(n, _) => FixedT(n)
    case Base128(w, _) => Base128T(w)
    case Zigzag(w, _) => ZigzagT(w)
    case Text(n, _) => TextT(n)
    case TextVint(_) => TextVintT
  }

  function TagsOf(vs: seq<Value>): seq<Tag> {
    if vs == [] then [] else [TagOf(vs[0])] + TagsOf(vs[1..])
  }

  /** The widths that exist, and values that fit them. */
  ghost predicate WellTyped(v: Value) {
    match v
    case Fixed(n, x) => n in {1, 2, 4, 8} && x < Pow2(8 * n)
    case Base128(w, x) => w in {32, 64} && x < Pow2(w)
    case Zigzag(w, x) => w in {32, 64} && IsSigned(x, w)
    case Text(n, s) => n in {2, 4, 8} && |s| < Pow2(64)
    case TextVint(s) => |s| < Pow2(64)
  }

  /** The length of a text fits its prefix. */
  ghost predicate PrefixFits(v: Value) {
    v.Text? ==> |v.s| < Pow2(8 * v.n)
  }

  function ZigzagWord(w: nat, x: int): nat {
    if w == 64 then ZigzagEncode64(x) else ZigzagEncode(x, w)
  }

  /** The bytes a write stores. */
  function Encode(v: Value, little: bool): seq<byte> {
    match v
    case Fixed(n, x) => Memory(x, n, little)
    case Base128(_, x) => Varint(x)
    case Zigzag(w, x) => Varint(ZigzagWord(w, x))
    case Text(n, s) => Memory(|s| % Pow2(8 * n), n, little) + s
    case TextVint(s) => Varint(|s|) + s
  }

  function EncodeAll(vs: seq<Value>, little: bool): seq<byte> {
    if vs == [] then [] else Encode(vs[0], little) + EncodeAll(vs[1..], little)
  }

  // ------------------------------------------------------ reads on the flat view

  /** A result and the buffer after it. */
  datatype Taken<T> = Taken(result: Result<T>, rest: Flat)

  function TakeBytes(f: Flat, n: nat): Taken<seq<byte>>
    requires f.Valid()
  {
    var r := ReadResult(f, n);
    Taken(r, if r.Success? then f.(position := f.position + n) else f)
  }

  function TakeFixed(f: Flat, n: nat, little: bool): Taken<nat>
    requires f.Valid()
  {
    var t := TakeBytes(f, n);
    match t.result
    case Failure(e) => Taken(Failure(e), t.rest)
    case Success(s) => Taken(Success(FromMemory(s, little)), t.rest)
  }

  /** The varint loop from bit `i` on. */
  function TakeVarint(f: Flat, w: nat, i: nat, acc: nat): Taken<nat>
    requires f.Valid()
    decreases w - i
  {
    if i >= w then Taken(Success(acc), f)
    else
      var t := TakeBytes(f, 1);
      match t.result
      case Failure(e) => Taken(Failure(e), t.rest)
      case Success(s) =>
        var next := Accumulate(acc, s[0], i, w);
        if s[0] < 0x80 then Taken(Success(next), t.rest)
        else TakeVarint(t.rest, w, i + 7, next)
  }

  /** A length, then that many bytes. */
  function TakeText(length: Taken<nat>): Taken<seq<byte>>
    requires length.rest.Valid()
  {
    match length.result
    case Failure(e) => Taken(Failure(e), length.rest)
    case Success(n) => TakeBytes(length.rest, n)
  }

  function Wrap<T>(t: Taken<T>, f: T -> Value): Taken<Value> {
    Taken(match t.result case Failure(e) => Failure(e) case Success(x) => Success(f(x)), t.rest)
  }

  lemma TakeVarintValid(f: Flat, w: nat, i: nat, acc: nat)
    requires f.Valid()
    ensures TakeVarint(f, w, i, acc).rest.Valid()
    decreases w - i
  {
  }

  /** One typed read. */
  function Take(f: Flat, tag: Tag, little: bool): (t: Taken<Value>)
    requires f.Valid()
    ensures t.rest.Valid()
  {
    match tag
    case FixedT(n) => Wrap(TakeFixed(f, n, little), x => Fixed(n, x))
    case Base128T(w) =>
      TakeVarintValid(f, w, 0, 0);
      Wrap(TakeVarint(f, w, 0, 0), x => Base128(w, x))
    case ZigzagT(w) =>
      TakeVarintValid(f, w, 0, 0);
      Wrap(TakeVarint(f, w, 0, 0), x => Zigzag(w, if w > 0 then ZigzagDecode(x, w) else 0))
    case TextT(n) => Wrap(TakeText(TakeFixed(f, n, little)), s => Text(n, s))
    case TextVintT =>
      TakeVarintValid(f, 64, 0, 0);
      Wrap(TakeText(TakeVarint(f, 64, 0, 0)), s => TextVint(s))
  }

  function TakeAll(f: Flat, tags: seq<Tag>, little: bool): (t: Taken<seq<Value>>)
    requires f.Valid()
    ensures t.rest.Valid()
    decreases |tags|
  {
    if tags == [] then Taken(Success([]), f)
    else
      var t := Take(f, tags[0], little);
      match t.result
      case Failure(e) => Taken(Failure(e), t.rest)
      case Success(v) =>
        var u := TakeAll(t.rest, tags[1..], little);
        match u.result
        case Failure(e) => Taken(Failure(e), u.rest)
        case Success(vs) => Taken(Success([v] + vs), u.rest)
  }

  // ------------------------------------------------------------- round trips

  /** The unread part of the buffer starts with `s`. */
  ghost predicate Has(f: Flat, s: seq<byte>) {
    f.Valid() && f.position + |s| <= f.size && f.data[f.position..f.position + |s|] == s
  }

  function Moved(f: Flat, n: nat): Flat {
    f.(position := f.position + n)
  }

  lemma HasSplit(f: Flat, a: seq<byte>, b: seq<byte>)
    requires Has(f, a + b)
    ensures Has(f, a) && Has(Moved(f, |a|), b)
  {
    assert a == (a + b)[..|a|] && b == (a + b)[|a|..];
    assert f.data[f.position..f.position + |a|] == f.data[f.position..f.position + |a + b|][..|a|];
    assert f.data[f.position + |a|..f.position + |a + b|] == f.data[f.position..f.position + |a + b|][|a|..];
  }

  lemma TakeFixedBack(f: Flat, v: nat, n: nat, little: bool)
    requires n > 0 && v < Pow2(8 * n) && Has(f, Memory(v, n, little))
    ensures TakeFixed(f, n, little) == Taken(Success(v), Moved(f, n))
  {
    FixedPortable(v, n, little, little);
    FixedRoundTrip(v, n, little, little, little);
  }

  /** The reading loop sees what the decoder sees. */
  lemma {:induction false} TakeVarintDecodes(f: Flat, w: nat, i: nat, acc: nat)
    requires f.Valid()
    ensures var s := f.data[f.position..f.size];
            var d := VarintDecode(s, w, i, acc);
            TakeVarint(f, w, i, acc) ==
              if d.Some? then Taken(Success(d.value.0), Moved(f, d.value.1))
              else Taken(Failure(OutOfRange), f.(position := f.size))
    decreases w - i
  {
    if i < w && f.position < f.size {
      var s := f.data[f.position..f.size];
      var g := Moved(f, 1);
      assert f.data[f.position..f.position + 1] == [s[0]];
      assert s[1..] == g.data[g.position..g.size];
      TakeVarintDecodes(g, w, i + 7, Accumulate(acc, s[0], i, w));
    }
  }

  lemma TakeVarintBack(f: Flat, v: nat, w: nat)
    requires w > 0 && v < Pow2(w) && Has(f, Varint(v))
    ensures TakeVarint(f, w, 0, 0) == Taken(Success(v), Moved(f, |Varint(v)|))
  {
    var k := |Varint(v)|;
    var rest := f.data[f.position + k..f.size];
    assert f.data[f.position..f.size] == Varint(v) + rest;
    VarintRoundTrip(v, rest, w);
    TakeVarintDecodes(f, w, 0, 0);
  }

  /** What is left of a value after its own pair of functions. */
  function Kept(v: Value): Value {
    if v.Zigzag? && v.w == 64 then Zigzag(64, Narrowed(v.x)) else v
  }

  function KeptAll(vs: seq<Value>): seq<Value> {
    if vs == [] then [] else [Kept(vs[0])] + KeptAll(vs[1..])
  }

  predicate EmptyText(v: Value) {
    (v.Text? || v.TextVint?) && v.s == []
  }

  lemma EncodeNonempty(v: Value, little: bool)
    requires WellTyped(v)
    ensures |Encode(v, little)| > 0
  {
  }

  lemma ZigzagWordBack(w: nat, x: int)
    requires w in {32, 64} && IsSigned(x, w)
    ensures ZigzagWord(w, x) < Pow2(w)
    ensures ZigzagDecode(ZigzagWord(w, x), w) == if w == 64 then Narrowed(x) else x
  {
    hide BitXor, BitAnd;
    if w == 64 {
      Pow2Words();
    } else {
      ZigzagEncodeValue(x, w);
      ZigzagRoundTrip(x, w);
    }
  }

  /** Where a typed read of `v` ends up. */
  function TakenBack(f: Flat, v: Value, little: bool): Taken<Value> {
    var after := Moved(f, |Encode(v, little)|);
    if EmptyText(v) && after.position == |f.data| then Taken(Failure(NullBlock), after)
    else Taken(Success(Kept(v)), after)
  }

  lemma TakeTextBack(f: Flat, length: Taken<nat>, s: seq<byte>)
    requires f.Valid() && length == Taken(Success(|s|), f) && Has(f, s)
    ensures TakeText(length) ==
      if s == [] && f.position == |f.data| then Taken(Failure(NullBlock), f)
      else Taken(Success(s), Moved(f, |s|))
  {
  }

  lemma TakeTextPrefixed(f: Flat, n: nat, s: seq<byte>, little: bool)
    requires n in {2, 4, 8} && |s| < Pow2(8 * n) && Has(f, Encode(Text(n, s), little))
    ensures Take(f, TextT(n), little) == TakenBack(f, Text(n, s), little)
  {
    hide Memory;
    ModSmall(|s|, Pow2(8 * n));
    HasSplit(f, Memory(|s|, n, little), s);
    TakeFixedBack(f, |s|, n, little);
    MemoryLength(|s|, n, little);
    hide Pow2, TakeFixed;
    TakeTextBack(Moved(f, n), TakeFixed(f, n, little), s);
  }

  lemma MemoryLength(v: nat, n: nat, little: bool)
    ensures |Memory(v, n, little)| == n
  {
  }

  lemma TakeTextVint(f: Flat, s: seq<byte>, little: bool)
    requires |s| < Pow2(64) && Has(f, Encode(TextVint(s), little))
    ensures Take(f, TextVintT, little) == TakenBack(f, TextVint(s), little)
  {
    hide Pow2, Varint, TakeVarint;
    HasSplit(f, Varint(|s|), s);
    TakeVarintBack(f, |s|, 64);
    TakeTextBack(Moved(f, |Varint(|s|)|), TakeVarint(f, 64, 0, 0), s);
  }

  lemma TakeZigzagBack(f: Flat, w: nat, x: int, little: bool)
    requires w in {32, 64} && IsSigned(x, w) && Has(f, Encode(Zigzag(w, x), little))
    ensures Take(f, ZigzagT(w), little) == TakenBack(f, Zigzag(w, x), little)
  {
    hide Pow2, Varint, TakeVarint, ZigzagWord, ZigzagDecode, Narrowed, Has;
    ZigzagWordBack(w, x);
    TakeVarintBack(f, ZigzagWord(w, x), w);
  }

  /** Reading a stored value gives what its functions keep of it, and takes
      exactly its bytes; except that an empty text whose prefix ends at capacity
      goes through the null block. */
  lemma TakeBack(f: Flat, v: Value, little: bool)
    requires WellTyped(v) && PrefixFits(v) && Has(f, Encode(v, little))
    ensures Take(f, TagOf(v), little) == TakenBack(f, v, little)
  {
    assert f.Valid();
    hide Pow2, Memory, Varint, FromMemory, Has, Take, TakenBack;
    match v
    case Fixed(n, x) =>
      TakeFixedBack(f, x, n, little);
      MemoryLength(x, n, little);
      TakeFixedTag(f, n, x, little);
    case Base128(w, x) =>
      TakeVarintBack(f, x, w);
      TakeBase128Tag(f, w, x, little);
    case Zigzag(w, x) => TakeZigzagBack(f, w, x, little);
    case Text(n, s) => TakeTextPrefixed(f, n, s, little);
    case TextVint(s) => TakeTextVint(f, s, little);
  }

  lemma TakeFixedTag(f: Flat, n: nat, x: nat, little: bool)
    requires f.Valid() && TakeFixed(f, n, little) == Taken(Success(x), Moved(f, n))
    ensures Take(f, FixedT(n), little) == TakenBack(f, Fixed(n, x), little)
  {
    hide TakeFixed, Memory;
    MemoryLength(x, n, little);
  }

  lemma TakeBase128Tag(f: Flat, w: nat, x: nat, little: bool)
    requires f.Valid() && TakeVarint(f, w, 0, 0) == Taken(Success(x), Moved(f, |Varint(x)|))
    ensures Take(f, Base128T(w), little) == TakenBack(f, Base128(w, x), little)
  {
    hide TakeVarint, Varint;
  }

  /** The one way reading a list back can end badly. */
  ghost predicate EndsAtNull(f: Flat, vs: seq<Value>, little: bool) {
    vs != [] && EmptyText(vs[|vs| - 1]) && f.position + |EncodeAll(vs, little)| == |f.data|
  }

  ghost predicate AllWellTyped(vs: seq<Value>) {
    forall v :: v in vs ==> WellTyped(v)
  }

  /** Every text's length fits its prefix. */
  ghost predicate AllFit(vs: seq<Value>) {
    forall v :: v in vs ==> PrefixFits(v)
  }

  lemma TagsStep(vs: seq<Value>)
    requires vs != []
    ensures TagsOf(vs) != [] && TagsOf(vs)[0] == TagOf(vs[0]) && TagsOf(vs)[1..] == TagsOf(vs[1..])
  {
  }

  lemma {:induction false} TakeFitting(f: Flat, vs: seq<Value>, little: bool)
    requires AllWellTyped(vs) && AllFit(vs) && Has(f, EncodeAll(vs, little))
    ensures var after := Moved(f, |EncodeAll(vs, little)|);
            TakeAll(f, TagsOf(vs), little) ==
              if EndsAtNull(f, vs, little) then Taken(Failure(NullBlock), after)
              else Taken(Success(KeptAll(vs)), after)
    decreases |vs|
  {
    hide Encode, Take, WellTyped, PrefixFits, Kept, EmptyText, Has;
    if vs != [] {
      var v, rest := vs[0], vs[1..];
      assert v in vs && forall u :: u in rest ==> u in vs;
      TagsStep(vs);
      HasSplit(f, Encode(v, little), EncodeAll(rest, little));
      var g := Moved(f, |Encode(v, little)|);
      EndsAtNullStep(f, vs, little);
      TakeBack(f, v, little);
      hide EndsAtNull;
      TakeFitting(g, rest, little);
    }
  }

  /** What is read as a text is never longer than its prefix can say. */
  lemma TakeFits(f: Flat, tag: Tag, little: bool)
    requires f.Valid()
    ensures Take(f, tag, little).result.Success? ==> PrefixFits(Take(f, tag, little).result.value)
  {
    hide Pow2, FromMemory, TakeVarint;
    if tag.TextT? {
      var t := TakeBytes(f, tag.n);
      if t.result.Success? {
        FromMemorySmall(t.result.value, little);
      }
    }
  }

  lemma FromMemorySmall(s: seq<byte>, little: bool)
    ensures FromMemory(s, little) < Pow2(8 * |s|)
  {
    LittleOnto(s);
    LittleOnto(Reversed(s));
  }

  lemma {:induction false} TakeAllFits(f: Flat, tags: seq<Tag>, little: bool)
    requires f.Valid()
    ensures TakeAll(f, tags, little).result.Success? ==> AllFit(TakeAll(f, tags, little).result.value)
    decreases |tags|
  {
    hide Take, PrefixFits;
    if tags != [] {
      TakeFits(f, tags[0], little);
      if Take(f, tags[0], little).result.Success? {
        TakeAllFits(Take(f, tags[0], little).rest, tags[1..], little);
      }
    }
  }

  lemma {:induction false} KeptFit(vs: seq<Value>)
    ensures AllFit(KeptAll(vs)) <==> AllFit(vs)
  {
    hide Pow2, Narrowed;
    if vs != [] {
      KeptFit(vs[1..]);
      assert forall v :: v in vs <==> v == vs[0] || v in vs[1..];
      assert KeptAll(vs) == [Kept(vs[0])] + KeptAll(vs[1..]);
    }
  }

  /** From a buffer that has the encodings of a list, the list comes back as it was
      kept, all its bytes taken, exactly when every text fits its prefix and the
      list does not end at the null block. */
  lemma TakeAllBack(f: Flat, vs: seq<Value>, little: bool)
    requires AllWellTyped(vs) && Has(f, EncodeAll(vs, little))
    ensures var t := TakeAll(f, TagsOf(vs), little);
            (t.result == Success(KeptAll(vs)) <==> AllFit(vs) && !EndsAtNull(f, vs, little)) &&
            (AllFit(vs) ==>
               t.rest == Moved(f, |EncodeAll(vs, little)|) &&
               (EndsAtNull(f, vs, little) ==> t.result == Failure(NullBlock)))
  {
    hide TakeAll, EncodeAll, AllWellTyped, AllFit, KeptAll, TagsOf, EndsAtNull;
    if AllFit(vs) {
      TakeFitting(f, vs, little);
    } else {
      TakeAllFits(f, TagsOf(vs), little);
      KeptFit(vs);
    }
  }

  lemma EndsAtNullStep(f: Flat, vs: seq<Value>, little: bool)
    requires AllWellTyped(vs) && vs != [] && Has(f, EncodeAll(vs, little))
    ensures var g := Moved(f, |Encode(vs[0], little)|);
            f.Valid() && g.Valid() &&
            EndsAtNull(f, vs, little) ==
              if vs[1..] == [] then EmptyText(vs[0]) && g.position == |f.data|
              else EndsAtNull(g, vs[1..], little)
    ensures vs[1..] != [] ==> Moved(f, |Encode(vs[0], little)|).position < |f.data|
  {
    hide Encode, WellTyped, PrefixFits, EmptyText;
    var rest := vs[1..];
    if rest != [] {
      NonemptyRest(rest, little);
      assert rest[|rest| - 1] == vs[|vs| - 1];
    }
  }

  lemma NonemptyRest(vs: seq<Value>, little: bool)
    requires AllWellTyped(vs) && vs != []
    ensures |EncodeAll(vs, little)| > 0
  {
    hide Encode, WellTyped, PrefixFits;
    EncodeNonempty(vs[0], little);
  }

  /** Nothing in the list is narrowed by the 64-bit zigzag encoder. */
  ghost predicate NothingNarrowed(vs: seq<Value>) {
    forall v :: v in vs && v.Zigzag? ==> IsSigned(v.x, 32)
  }

  lemma {:induction false} KeptExactly(vs: seq<Value>)
    requires AllWellTyped(vs)
    ensures KeptAll(vs) == vs <==> NothingNarrowed(vs)
  {
    hide Pow2, Narrowed, Kept, WellTyped;
    if vs != [] {
      assert forall v :: v in vs <==> v == vs[0] || v in vs[1..];
      KeptExactly(vs[1..]);
      KeptOne(vs[0]);
      assert vs == [vs[0]] + vs[1..];
    }
  }

  lemma KeptOne(v: Value)
    requires WellTyped(v)
    ensures Kept(v) == v <==> (v.Zigzag? ==> IsSigned(v.x, 32))
  {
    hide Pow2, Narrowed;
    if v.Zigzag? && v.w == 64 {
      Zigzag64Exact(v.x);
    }
  }

  /** A list written on a fresh buffer and read back from the start is the same
      list with nothing left over, exactly when no 64-bit zigzag value is wider
      than 32 bits, every text fits its prefix, and the list does not end in an
      empty text at a multiple of the block size. */
  lemma RoundTrip(empty: Flat, vs: seq<Value>, after: Flat, base: nat, little: bool)
    requires base > 0 && empty.position == 0 && empty.size == 0 && |empty.data| == base
    requires AllWellTyped(vs) && Wrote(empty, EncodeAll(vs, little), after, base)
    ensures var t := TakeAll(after.(position := 0), TagsOf(vs), little);
            (t.result == Success(vs) && t.rest.ReadSize() == 0) <==>
            NothingNarrowed(vs) && AllFit(vs) &&
            !(vs != [] && EmptyText(vs[|vs| - 1]) && |EncodeAll(vs, little)| % base == 0)
  {
    hide TakeAll, EncodeAll, AllWellTyped, AllFit, KeptAll, NothingNarrowed, TagsOf, EmptyText;
    var start := after.(position := 0);
    TakeAllBack(start, vs, little);
    TakeAllFits(start, TagsOf(vs), little);
    KeptExactly(vs);
    if vs != [] {
      NonemptyRest(vs, little);
      CapacityIsSize(|EncodeAll(vs, little)|, |after.data|, base);
    }
  }

  /** A fresh buffer is exactly full when the bytes fill whole blocks. */
  lemma CapacityIsSize(total: nat, capacity: nat, base: nat)
    requires base > 0 && total > 0 && Grown(base, total, base, capacity)
    ensures capacity == total <==> total % base == 0
  {
    if total % base == 0 && total < capacity {
      MultiplesApart(total, capacity, base);
    }
  }

  lemma MultiplesApart(a: nat, b: nat, base: nat)
    requires base > 0 && a % base == 0 && b % base == 0 && a < b
    ensures b >= a + base
  {
    assert a == (a / base) * base && b == (b / base) * base;
    if b / base <= a / base {
      MulMonotone(b / base, a / base, base);
    } else {
      MulMonotone(a / base + 1, b / base, base);
    }
  }

  /** A text longer than its prefix can say does not come back; every other one
      does, unless it is empty and its prefix ends at capacity. */
  lemma TextExact(f: Flat, n: nat, s: seq<byte>, little: bool)
    requires n in {2, 4, 8} && |s| < Pow2(64) && Has(f, Encode(Text(n, s), little))
    ensures Take(f, TextT(n), little).result == Success(Text(n, s)) <==>
              |s| < Pow2(8 * n) && !(s == [] && f.position + n == |f.data|)
  {
    hide Pow2, Memory, FromMemory, BitAnd, TakeFixed, Take;
    if |s| < Pow2(8 * n) {
      TakeBack(f, Text(n, s), little);
      MemoryLength(|s| % Pow2(8 * n), n, little);
    } else {
      LongTextLost(f, n, s, little);
    }
  }

  lemma LongTextLost(f: Flat, n: nat, s: seq<byte>, little: bool)
    requires n in {2, 4, 8} && |s| < Pow2(64) && Has(f, Encode(Text(n, s), little))
    ensures Take(f, TextT(n), little).result == Success(Text(n, s)) ==> |s| < Pow2(8 * n)
  {
    hide Memory, FromMemory, Pow2, TakeFixed;
    TakeFits(f, TextT(n), little);
  }
}

/** The typed writes and reads themselves.  `hostLittle` is the byte order of the
    machine. */
module TypedStream {
  import opened Common
  import opened Bits
  import opened Codec
  import opened ByteArrays
  import opened TypedValues

  method WriteFixed(ba: ByteArray, n: nat, v: nat, hostLittle: bool)
    requires ba.Valid()
    modifies ba.Repr
    ensures ba.Valid() && fresh(ba.Repr - old(ba.Repr)) && ba.littleEndian == old(ba.littleEndian)
    ensures Wrote(old(ba.View()), Memory(v, n, ba.littleEndian), ba.View(), ba.baseSize)
  {
    var value := v;
    if ba.littleEndian != hostLittle {
      value := ByteSwap(value, n);
    }
    FixedPortable(v, n, ba.littleEndian, hostLittle);
    ba.Write(Memory(value, n, hostLittle));
  }

  method WriteVarint(ba: ByteArray, w: nat, v: nat)
    requires ba.Valid() && w in {32, 64} && v < Pow2(w)
    modifies ba.Repr
    ensures ba.Valid() && fresh(ba.Repr - old(ba.Repr)) && ba.littleEndian == old(ba.littleEndian)
    ensures Wrote(old(ba.View()), Varint(v), ba.View(), ba.baseSize)
  {
    hide Wrote, Varint, Pow2, ByteArray.Valid;
    var bytes := VarintScratch(w, v);
    ba.Write(bytes);
  }

  lemma VarintUnfold(v: nat)
    ensures Varint(v) == if v < 0x80 then [v] else [VarintByte(v)] + Varint(v / 0x80)
  {
  }

  /** The encoder's loop over its scratch array. */
  method VarintScratch(w: nat, v: nat) returns (bytes: seq<byte>)
    requires w in {32, 64} && v < Pow2(w)
    ensures bytes == Varint(v)
  {
    hide Pow2, BitAnd, BitOr, Varint;
    var tmp := new byte[if w == 32 then 5 else 10];
    var i := 0;
    var value := v;
    VarintFits(v);
    while value >= 0x80
      invariant 0 <= value && i + |Varint(value)| <= tmp.Length
      invariant tmp[..i] + Varint(value) == Varint(v)
      decreases value
    {
      VarintByteValue(value);
      VarintUnfold(value);
      ghost var done := tmp[..i];
      tmp[i] := BitOr(BitAnd(value, 0x7f), 0x80);
      i := i + 1;
      assert tmp[..i] == done + [VarintByte(value)];
      value := value / 0x80;
    }
    VarintUnfold(value);
    tmp[i] := value;
    i := i + 1;
    bytes := tmp[..i];
  }

  method WriteZigzag(ba: ByteArray, w: nat, x: int)
    requires ba.Valid() && w in {32, 64} && IsSigned(x, w)
    modifies ba.Repr
    ensures ba.Valid() && fresh(ba.Repr - old(ba.Repr)) && ba.littleEndian == old(ba.littleEndian)
    ensures Wrote(old(ba.View()), Varint(ZigzagWord(w, x)), ba.View(), ba.baseSize)
  {
    ZigzagWordBack(w, x);
    WriteVarint(ba, w, ZigzagWord(w, x));
  }

  method WriteText(ba: ByteArray, n: nat, s: seq<byte>, hostLittle: bool)
    requires ba.Valid()
    modifies ba.Repr
    ensures ba.Valid() && fresh(ba.Repr - old(ba.Repr)) && ba.littleEndian == old(ba.littleEndian)
    ensures Wrote(old(ba.View()), Memory(|s| % Pow2(8 * n), n, ba.littleEndian) + s, ba.View(), ba.baseSize)
  {
    hide Wrote, Memory, Pow2;
    WriteFixed(ba, n, |s| % Pow2(8 * n), hostLittle);
    ghost var mid := ba.View();
    ba.Write(s);
    WroteTwice(old(ba.View()), Memory(|s| % Pow2(8 * n), n, ba.littleEndian), mid, s, ba.View(), ba.baseSize);
  }

  method WriteTextVint(ba: ByteArray, s: seq<byte>)
    requires ba.Valid() && |s| < Pow2(64)
    modifies ba.Repr
    ensures ba.Valid() && fresh(ba.Repr - old(ba.Repr)) && ba.littleEndian == old(ba.littleEndian)
    ensures Wrote(old(ba.View()), Varint(|s|) + s, ba.View(), ba.baseSize)
  {
    hide Wrote, Varint, Pow2;
    WriteVarint(ba, 64, |s|);
    ghost var mid := ba.View();
    ba.Write(s);
    WroteTwice(old(ba.View()), Varint(|s|), mid, s, ba.View(), ba.baseSize);
  }

  /** The write that belongs to a value. */
  method WriteValue(ba: ByteArray, v: Value, hostLittle: bool)
    requires ba.Valid() && WellTyped(v)
    modifies ba.Repr
    ensures ba.Valid() && fresh(ba.Repr - old(ba.Repr)) && ba.littleEndian == old(ba.littleEndian)
    ensures Wrote(old(ba.View()), Encode(v, ba.littleEndian), ba.View(), ba.baseSize)
  {
    hide Wrote, Memory, Varint, Pow2, ZigzagWord;
    match v
    case Fixed(n, x) => WriteFixed(ba, n, x, hostLittle);
    case Base128(w, x) => WriteVarint(ba, w, x);
    case Zigzag(w, x) => WriteZigzag(ba, w, x);
    case Text(n, s) => WriteText(ba, n, s, hostLittle);
    case TextVint(s) => WriteTextVint(ba, s);
  }

  method ReadFixed(ba: ByteArray, n: nat, hostLittle: bool) returns (r: Result<nat>)
    requires ba.Valid()
    modifies ba`position, ba`cur
    ensures ba.Valid()
    ensures Taken(r, ba.View()) == TakeFixed(old(ba.View()), n, ba.littleEndian)
  {
    var bytes := ba.Read(n);
    if bytes.Failure? {
      return Failure(bytes.error);
    }
    FixedValuePortable(bytes.value, ba.littleEndian, hostLittle);
    var v := FromMemory(bytes.value, hostLittle);
    if ba.littleEndian == hostLittle {
      return Success(v);
    } else {
      return Success(ByteSwap(v, n));
    }
  }

  lemma FixedValuePortable(s: seq<byte>, little: bool, hostLittle: bool)
    ensures FixedValue(s, little, hostLittle) == FromMemory(s, little)
  {
    if little != hostLittle {
      LittleOnto(s);
      LittleOnto(Reversed(s));
      ReversedTwice(s);
    }
  }

  method ReadVarint(ba: ByteArray, w: nat) returns (r: Result<nat>)
    requires ba.Valid()
    modifies ba`position, ba`cur
    ensures ba.Valid()
    ensures Taken(r, ba.View()) == TakeVarint(old(ba.View()), w, 0, 0)
  {
    hide Accumulate;
    var result := 0;
    var i := 0;
    while i < w
      invariant ba.Valid() && 0 <= i
      invariant ba.data == old(ba.data) && ba.size == old(ba.size)
      invariant TakeVarint(ba.View(), w, i, result) == TakeVarint(old(ba.View()), w, 0, 0)
      decreases w - i
    {
      var bytes := ba.Read(1);
      if bytes.Failure? {
        return Failure(bytes.error);
      }
      var b := bytes.value[0];
      result := Accumulate(result, b, i, w);
      if b < 0x80 {
        return Success(result);
      }
      i := i + 7;
    }
    r := Success(result);
  }

  method ReadText(ba: ByteArray, n: nat, hostLittle: bool) returns (r: Result<seq<byte>>)
    requires ba.Valid()
    modifies ba`position, ba`cur
    ensures ba.Valid()
    ensures Taken(r, ba.View()) == TakeText(TakeFixed(old(ba.View()), n, ba.littleEndian))
  {
    hide TakeFixed;
    var len := ReadFixed(ba, n, hostLittle);
    if len.Failure? {
      return Failure(len.error);
    }
    r := ba.Read(len.value);
  }

  method ReadTextVint(ba: ByteArray) returns (r: Result<seq<byte>>)
    requires ba.Valid()
    modifies ba`position, ba`cur
    ensures ba.Valid()
    ensures TakeVarint(old(ba.View()), 64, 0, 0).rest.Valid()
    ensures Taken(r, ba.View()) == TakeText(TakeVarint(old(ba.View()), 64, 0, 0))
  {
    hide TakeVarint;
    TakeVarintValid(ba.View(), 64, 0, 0);
    var len := ReadVarint(ba, 64);
    if len.Failure? {
      return Failure(len.error);
    }
    r := ba.Read(len.value);
  }

  /** The read that belongs to a tag. */
  method ReadValue(ba: ByteArray, tag: Tag, hostLittle: bool) returns (r: Result<Value>)
    requires ba.Valid()
    modifies ba`position, ba`cur
    ensures ba.Valid()
    ensures Taken(r, ba.View()) == Take(old(ba.View()), tag, ba.littleEndian)
  {
    hide TakeFixed, TakeVarint, TakeText, ZigzagDecode;
    match tag
    case FixedT(n) =>
      var x := ReadFixed(ba, n, hostLittle);
      r := if x.Success? then Success(Fixed(n, x.value)) else Failure(x.error);
    case Base128T(w) =>
      var x := ReadVarint(ba, w);
      r := if x.Success? then Success(Base128(w, x.value)) else Failure(x.error);
    case ZigzagT(w) =>
      var x := ReadVarint(ba, w);
      r := if x.Success? then Success(Zigzag(w, if w > 0 then ZigzagDecode(x.value, w) else 0))
           else Failure(x.error);
    case TextT(n) =>
      var s := ReadText(ba, n, hostLittle);
      r := if s.Success? then Success(Text(n, s.value)) else Failure(s.error);
    case TextVintT =>
      var s := ReadTextVint(ba);
      r := if s.Success? then Success(TextVint(s.value)) else Failure(s.error);
  }

  method WriteAll(ba: ByteArray, vs: seq<Value>, hostLittle: bool)
    requires ba.Valid() && AllWellTyped(vs)
    modifies ba.Repr
    ensures ba.Valid() && fresh(ba.Repr - old(ba.Repr)) && ba.littleEndian == old(ba.littleEndian)
    ensures Wrote(old(ba.View()), EncodeAll(vs, ba.littleEndian), ba.View(), ba.baseSize)
  {
    hide Wrote, Encode, WellTyped;
    WroteNothing(ba);
    for i := 0 to |vs|
      invariant ba.Valid() && ba.littleEndian == old(ba.littleEndian)
      invariant forall o :: o in ba.Repr ==> o in old(ba.Repr) || fresh(o)
      invariant Wrote(old(ba.View()), EncodeAll(vs[..i], ba.littleEndian), ba.View(), ba.baseSize)
    {
      assert vs[i] in vs;
      ghost var mid := ba.View();
      WriteValue(ba, vs[i], hostLittle);
      WroteTwice(old(ba.View()), EncodeAll(vs[..i], ba.littleEndian), mid,
                 Encode(vs[i], ba.littleEndian), ba.View(), ba.baseSize);
      EncodeSnoc(vs[..i], vs[i], ba.littleEndian);
      assert vs[..i + 1] == vs[..i] + [vs[i]];
    }
    assert vs[..|vs|] == vs;
  }

  lemma {:induction false} EncodeSnoc(vs: seq<Value>, v: Value, little: bool)
    ensures EncodeAll(vs + [v], little) == EncodeAll(vs, little) + Encode(v, little)
  {
    hide Encode;
    if vs == [] {
      assert [v][1..] == [];
    } else {
      assert (vs + [v])[1..] == vs[1..] + [v];
      EncodeSnoc(vs[1..], v, little);
    }
  }

  method ReadAll(ba: ByteArray, tags: seq<Tag>, hostLittle: bool) returns (r: Result<seq<Value>>)
    requires ba.Valid()
    modifies ba`position, ba`cur
    ensures ba.Valid()
    ensures Taken(r, ba.View()) == TakeAll(old(ba.View()), tags, ba.littleEndian)
  {
    hide Take;
    if tags == [] {
      return Success([]);
    }
    var v := ReadValue(ba, tags[0], hostLittle);
    if v.Failure? {
      return Failure(v.error);
    }
    var vs := ReadAll(ba, tags[1..], hostLittle);
    if vs.Failure? {
      return Failure(vs.error);
    }
    r := Success([v.value] + vs.value);
  }

  lemma WroteNothing(ba: ByteArray)
    requires ba.Valid()
    ensures Wrote(ba.View(), [], ba.View(), ba.baseSize)
  {
    ba.CapacityBlocks();
  }

  /** Two writes in a row are one write of both, capacity included. */
  lemma WroteTwice(a: Flat, x: seq<byte>, b: Flat, y: seq<byte>, c: Flat, base: nat)
    requires Wrote(a, x, b, base) && Wrote(b, y, c, base)
    ensures Wrote(a, x + y, c, base)
  {
    StoredTwice(a, x, b, y, c);
    hide Stored;
  }

  /** The program's own exercise: write a list on a new buffer, rewind, read it
      back and look at what is left. */
  method WriteThenRead(base: nat, vs: seq<Value>, little: bool, hostLittle: bool)
    returns (r: Result<seq<Value>>, left: nat)
    requires base > 0 && AllWellTyped(vs)
    ensures (r == Success(vs) && left == 0) <==>
      NothingNarrowed(vs) && AllFit(vs) &&
      !(vs != [] && EmptyText(vs[|vs| - 1]) && |EncodeAll(vs, little)| % base == 0)
  {
    hide Wrote, TakeAll, EncodeAll, AllWellTyped, AllFit, NothingNarrowed, TagsOf;
    var ba := new ByteArray(base);
    ba.SetIsLittleEndian(little);
    ghost var empty := ba.View();
    WriteAll(ba, vs, hostLittle);
    ghost var after := ba.View();
    var _ := ba.SetPosition(0);
    r := ReadAll(ba, TagsOf(vs), hostLittle);
    left := ba.size - ba.position;
    RoundTrip(empty, vs, after, base, little);
  }
}
