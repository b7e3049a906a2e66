// Definitions shared by every component: results, bytes, and the algebra of
// overwriting a stretch of a sequence.

module Common {

  datatype Option<+T> = None | Some(value: T)

  /** How a call can end.  `OutOfRange` is the thrown std::out_of_range;
      `NullBlock` is an access through a null block pointer, which the program
      does not guard against. */
  datatype Error = OutOfRange | NullBlock

  datatype Result<+T> = Success(value: T) | Failure(error: Error)

  type byte = x: int | 0 <= x < 256

  const U64: nat := 0x1_0000_0000_0000_0000

  function Min(a: int, b: int): int {
    if a < b then a else b
  }

  function Max(a: int, b: int): int {
    if a < b then b else a
  }

  /** `data` with the stretch that starts at `at` replaced by `chunk`. */
  function Splice<T>(data: seq<T>, at: nat, chunk: seq<T>): (r: seq<T>)
    requires at + |chunk| <= |data|
    ensures |r| == |data|
  {
    data[..at] + chunk + data[at + |chunk|..]
  }

  lemma SpliceIndex<T>(data: seq<T>, at: nat, chunk: seq<T>)
    requires at + |chunk| <= |data|
    ensures var r := Splice(data, at, chunk);
            forall k :: 0 <= k < |r| ==> r[k] == if at <= k < at + |chunk| then chunk[k - at] else data[k]
  {
  }

  lemma SpliceAdjacent<T>(data: seq<T>, at: nat, a: seq<T>, b: seq<T>)
    requires at + |a| + |b| <= |data|
    ensures Splice(Splice(data, at, a), at + |a|, b) == Splice(data, at, a + b)
  {
  }

  lemma SpliceEmpty<T>(data: seq<T>, at: nat)
    requires at <= |data|
    ensures Splice(data, at, []) == data
  {
  }

  lemma SameStretch<T>(x: seq<T>, y: seq<T>, lo: nat, mid: nat, hi: nat)
    requires lo <= mid <= hi <= |x| && hi <= |y| && x[lo..hi] == y[lo..hi]
    ensures x[lo..mid] == y[lo..mid]
  {
    assert x[lo..mid] == x[lo..hi][..mid - lo];
    assert y[lo..mid] == y[lo..hi][..mid - lo];
  }

  lemma ConcatAssociates<T>(a: seq<T>, b: seq<T>, c: seq<T>)
    ensures (a + b) + c == a + (b + c)
  {
  }

  lemma PrefixExtend<T>(s: seq<T>, k: nat, n: nat)
    requires k + n <= |s|
    ensures s[..k] + s[k..][..n] == s[..k + n] && s[k..][n..] == s[k + n..]
  {
  }

  lemma SliceJoin<T>(data: seq<T>, lo: nat, mid: nat, hi: nat)
    requires lo <= mid <= hi <= |data|
    ensures data[lo..mid] + data[mid..hi] == data[lo..hi]
  {
  }

  /** `i * base`, by repeated addition: keeps products out of the other proofs. */
  function Offset(base: nat, i: nat): nat {
    if i == 0 then 0 else Offset(base, i - 1) + base
  }

  /** `p / base`, by repeated subtraction. */
  function BlockOf(base: nat, p: nat): nat
    requires base > 0
  {
    if p < base then 0 else 1 + BlockOf(base, p - base)
  }

  lemma {:induction false} OffsetIsProduct(base: nat, i: nat)
    ensures Offset(base, i) == i * base
  {
    if i > 0 {
      OffsetIsProduct(base, i - 1);
      assert i * base == (i - 1) * base + base;
    }
  }

  lemma {:induction false} OffsetMonotone(base: nat, i: nat, j: nat)
    requires i <= j
    ensures Offset(base, i) <= Offset(base, j)
    decreases j - i
  {
    if i < j {
      OffsetMonotone(base, i, j - 1);
    }
  }

  lemma BlocksApart(base: nat, i: nat, j: nat)
    requires i != j
    ensures Offset(base, i) + base <= Offset(base, j) || Offset(base, j) + base <= Offset(base, i)
  {
    if i < j {
      OffsetMonotone(base, i + 1, j);
    } else {
      OffsetMonotone(base, j + 1, i);
    }
  }

  lemma {:induction false} OffsetAdd(base: nat, i: nat, j: nat)
    ensures Offset(base, i + j) == Offset(base, i) + Offset(base, j)
  {
    if j > 0 {
      OffsetAdd(base, i, j - 1);
      assert i + (j - 1) == i + j - 1;
    }
  }

  /** Where position `p` lies. */
  lemma {:induction false} BlockOfBounds(base: nat, p: nat)
    requires base > 0
    ensures Offset(base, BlockOf(base, p)) <= p < Offset(base, BlockOf(base, p)) + base
    ensures BlockOf(base, p) == p / base
    ensures p % base == p - Offset(base, BlockOf(base, p))
  {
    var q := BlockOf(base, p);
    if p >= base {
      BlockOfBounds(base, p - base);
    }
    OffsetIsProduct(base, q);
    DivModUnique(p, base, q, p - q * base);
  }

  lemma BlockOfUnique(base: nat, p: nat, i: nat)
    requires base > 0 && Offset(base, i) <= p < Offset(base, i) + base
    ensures BlockOf(base, p) == i
  {
    var q := BlockOf(base, p);
    BlockOfBounds(base, p);
    if q < i {
      OffsetMonotone(base, q + 1, i);
    } else if i < q {
      OffsetMonotone(base, i + 1, q);
    }
  }

  lemma DivModUnique(p: nat, base: nat, i: nat, r: nat)
    requires r < base && p == i * base + r
    ensures p / base == i && p % base == r
  {
    var q := p / base;
    assert p == q * base + p % base;
    if q < i {
      MulMonotone(q + 1, i, base);
    } else if i < q {
      MulMonotone(i + 1, q, base);
    }
  }

  lemma ModSmall(x: nat, m: nat)
    requires x < m
    ensures x % m == x
  {
  }

  lemma MulMonotone(i: nat, j: nat, base: nat)
    requires i <= j
    ensures i * base <= j * base
  {
  }
}
