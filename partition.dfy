/** The partitioner: how `n` items are split into `size` contiguous shards,
    one per rank, with the remainder going to the lowest ranks. */
module Partition {

  /** The validation shared by `offset` and `dimension`: anything else yields 0. */
  predicate ValidArgs(rank: int, size: int, n: int) {
    0 < size && 0 <= rank < size && 0 < n
  }

  /** Number of items held by `rank`; 0 for invalid arguments.
      `floor((double)n / size)` equals `n / size` for the positive operands
      that pass validation. */
  function Dimension(rank: int, size: int, n: int): (d: int)
    ensures 0 <= d
    ensures !ValidArgs(rank, size, n) ==> d == 0
  {
    if !ValidArgs(rank, size, n) then 0
    else n / size + (if rank < n % size then 1 else 0)
  }

  /** Index of the first item held by `rank`; 0 for invalid arguments. */
  function Offset(rank: int, size: int, n: int): (o: int)
    ensures 0 <= o
    ensures !ValidArgs(rank, size, n) ==> o == 0
  {
    if !ValidArgs(rank, size, n) then 0
    else
      assert 0 <= rank * (n / size) by { NonNegativeProduct(rank, n / size); }
      rank * (n / size) + (if rank < n % size then rank else n % size)
  }

  lemma NonNegativeProduct(a: int, b: int)
    requires 0 <= a && 0 <= b
    ensures 0 <= a * b
  {
  }

  /** Reference definition of where a shard starts: the sum of the sizes of
      the shards of all lower ranks. */
  function ShardStart(rank: nat, size: int, n: int): (start: int)
    ensures 0 <= start
  {
    if rank == 0 then 0 else ShardStart(rank - 1, size, n) + Dimension(rank - 1, size, n)
  }

  /** Rank `rank` holds global index `i`. */
  predicate Holds(rank: int, size: int, n: int, i: int) {
    Offset(rank, size, n) <= i < Offset(rank, size, n) + Dimension(rank, size, n)
  }

  /** Shard sizes: each is `n / size` or one more, the extra item goes to exactly
      the first `n % size` ranks, and any two sizes differ by at most one. */
  lemma ShardSizesBalanced(a: int, b: int, size: int, n: int)
    requires ValidArgs(a, size, n) && ValidArgs(b, size, n)
    ensures Dimension(a, size, n) == n / size + 1 <==> a < n % size
    ensures Dimension(a, size, n) == n / size <==> n % size <= a
    ensures -1 <= Dimension(a, size, n) - Dimension(b, size, n) <= 1
  {
  }

  /** A rank gets a non-empty shard exactly when the arguments are valid and
      there are more items than lower ranks. */
  lemma DimensionPositiveIff(rank: int, size: int, n: int)
    ensures 0 < Dimension(rank, size, n) <==> ValidArgs(rank, size, n) && rank < n
  {
    if ValidArgs(rank, size, n) && rank < n {
      if n / size == 0 {
        assert n % size == n;
      }
    }
  }

  /** Rank 0 starts at index 0. */
  lemma FirstShardStartsAtZero(size: int, n: int)
    requires 0 < size && 0 < n
    ensures Offset(0, size, n) == 0
  {
  }

  /** Consecutive shards are adjacent: rank r+1 starts where rank r ends. */
  lemma OffsetStep(rank: int, size: int, n: int)
    requires ValidArgs(rank, size, n) && rank + 1 < size
    ensures Offset(rank + 1, size, n) == Offset(rank, size, n) + Dimension(rank, size, n)
  {
    var q := n / size;
    assert (rank + 1) * q == rank * q + q;
  }

  /** The last shard ends at `n`. */
  lemma LastShardEndsAtN(size: int, n: int)
    requires 0 < size && 0 < n
    ensures Offset(size - 1, size, n) + Dimension(size - 1, size, n) == n
  {
    var q := n / size;
    assert (size - 1) * q + q == size * q;
    assert size * q + n % size == n;
  }

  /** The closed form of `offset` agrees with the reference definition. */
  lemma {:induction false} OffsetIsShardStart(rank: nat, size: int, n: int)
    requires ValidArgs(rank, size, n)
    ensures Offset(rank, size, n) == ShardStart(rank, size, n)
  {
    if rank > 0 {
      OffsetIsShardStart(rank - 1, size, n);
      OffsetStep(rank - 1, size, n);
    }
  }

  /** The shard sizes of all ranks add up to `n`. */
  lemma SizesSumToN(size: nat, n: int)
    requires 0 < size && 0 < n
    ensures ShardStart(size, size, n) == n
  {
    OffsetIsShardStart(size - 1, size, n);
    LastShardEndsAtN(size, n);
  }

  /** A shard lies inside `[0, n)`. */
  lemma ShardInRange(rank: int, size: int, n: int)
    requires ValidArgs(rank, size, n)
    ensures Offset(rank, size, n) + Dimension(rank, size, n) <= n
  {
    ShardsOrdered(rank, size - 1, size, n);
    LastShardEndsAtN(size, n);
  }

  /** Lower ranks' shards end before higher ranks' shards start (no overlap). */
  lemma {:induction false} ShardsOrdered(a: int, b: int, size: int, n: int)
    requires ValidArgs(a, size, n) && ValidArgs(b, size, n) && a <= b
    ensures Offset(a, size, n) + Dimension(a, size, n) <= Offset(b, size, n) + Dimension(b, size, n)
    ensures a < b ==> Offset(a, size, n) + Dimension(a, size, n) <= Offset(b, size, n)
    decreases b - a
  {
    if a < b {
      OffsetStep(a, size, n);
      ShardsOrdered(a + 1, b, size, n);
    }
  }

  /** The rank holding index `i`, found by scanning from rank `from`. */
  function OwnerFrom(i: int, from: int, size: int, n: int): (r: int)
    requires ValidArgs(from, size, n) && Offset(from, size, n) <= i < n
    ensures ValidArgs(r, size, n) && Holds(r, size, n, i)
    decreases size - from
  {
    if i < Offset(from, size, n) + Dimension(from, size, n) then from
    else
      assert from + 1 < size by {
        if from + 1 == size { LastShardEndsAtN(size, n); }
      }
      OffsetStep(from, size, n);
      OwnerFrom(i, from + 1, size, n)
  }

  /** Every index of `[0, n)` is held by some rank (no gap). */
  function Owner(i: int, size: int, n: int): (r: int)
    requires 0 < size && 0 <= i < n
    ensures ValidArgs(r, size, n) && Holds(r, size, n, i)
  {
    OwnerFrom(i, 0, size, n)
  }

  /** Every index of `[0, n)` is held by exactly one rank: shards tile `[0, n)`. */
  lemma ShardsTile(i: int, r: int, size: int, n: int)
    requires 0 < size && 0 <= i < n
    ensures ValidArgs(r, size, n) && Holds(r, size, n, i) <==> r == Owner(i, size, n)
  {
    var o := Owner(i, size, n);
    if ValidArgs(r, size, n) && Holds(r, size, n, i) && r != o {
      if r < o { ShardsOrdered(r, o, size, n); } else { ShardsOrdered(o, r, size, n); }
    }
  }

  /** The part of the global sequence `g` held by `rank` out of `size` ranks. */
  function Slice<T>(g: seq<T>, rank: int, size: int): (s: seq<T>)
    requires ValidArgs(rank, size, |g|)
    ensures |s| == Dimension(rank, size, |g|)
  {
    ShardInRange(rank, size, |g|);
    g[Offset(rank, size, |g|)..Offset(rank, size, |g|) + Dimension(rank, size, |g|)]
  }

  /** The shards of all ranks, in rank order. */
  function Shards<T>(g: seq<T>, size: int): (ss: seq<seq<T>>)
    requires 0 < size && 0 < |g|
    ensures |ss| == size
  {
    seq(size, r requires 0 <= r < size => Slice(g, r, size))
  }

  /** Concatenation of a sequence of sequences. */
  function Flatten<T>(ss: seq<seq<T>>): seq<T>
  {
    if ss == [] then [] else Flatten(ss[..|ss| - 1]) + ss[|ss| - 1]
  }

  /** Laying the shards of ranks 0..k-1 end to end gives the prefix of `g`
      that ends where rank k starts. */
  lemma {:induction false} FlattenShardsPrefix<T>(g: seq<T>, size: int, k: nat)
    requires 0 < size && 0 < |g| && k <= size
    ensures ShardStart(k, size, |g|) <= |g|
    ensures Flatten(Shards(g, size)[..k]) == g[..ShardStart(k, size, |g|)]
  {
    var ss := Shards(g, size);
    if k == 0 {
      assert ss[..0] == [];
    } else {
      FlattenShardsPrefix(g, size, k - 1);
      OffsetIsShardStart(k - 1, size, |g|);
      ShardInRange(k - 1, size, |g|);
      assert ss[..k][..k - 1] == ss[..k - 1];
      var lo := ShardStart(k - 1, size, |g|);
      var hi := ShardStart(k, size, |g|);
      assert ss[..k][k - 1] == g[lo..hi];
      assert g[..lo] + g[lo..hi] == g[..hi];
    }
  }

  /** Concatenating every rank's shard in rank order gives back the whole sequence. */
  lemma FlattenShards<T>(g: seq<T>, size: int)
    requires 0 < size && 0 < |g|
    ensures Flatten(Shards(g, size)) == g
  {
    var ss := Shards(g, size);
    FlattenShardsPrefix(g, size, size);
    SizesSumToN(size, |g|);
    assert ss[..size] == ss;
  }

  /** Concatenation distributes over appending sequences of sequences. */
  lemma {:induction false} FlattenAppend<T>(a: seq<seq<T>>, b: seq<seq<T>>)
    ensures Flatten(a + b) == Flatten(a) + Flatten(b)
    decreases |b|
  {
    if b == [] {
      assert a + b == a;
    } else {
      var b' := b[..|b| - 1];
      assert (a + b)[..|a + b| - 1] == a + b';
      FlattenAppend(a, b');
    }
  }

  /** The concatenation of the first k of a pool's correctly sized shards is
      as long as the start of rank k's shard. */
  lemma {:induction false} FlattenPrefixLength<T>(ss: seq<seq<T>>, size: int, n: int, k: nat)
    requires |ss| == size && k <= size
    requires forall r :: 0 <= r < size ==> |ss[r]| == Dimension(r, size, n)
    ensures |Flatten(ss[..k])| == ShardStart(k, size, n)
  {
    if k > 0 {
      assert ss[..k][..k - 1] == ss[..k - 1];
      FlattenPrefixLength(ss, size, n, k - 1);
    }
  }

  /** Whatever a pool holds, as long as rank r holds `Dimension(r, size, n)`
      items, the pool is the partition of the concatenation of its shards. */
  lemma ShardsOfFlatten<T>(ss: seq<seq<T>>, size: int, n: int)
    requires 0 < size && 0 < n && |ss| == size
    requires forall r :: 0 <= r < size ==> |ss[r]| == Dimension(r, size, n)
    ensures |Flatten(ss)| == n
    ensures Shards(Flatten(ss), size) == ss
  {
    var g := Flatten(ss);
    FlattenPrefixLength(ss, size, n, size);
    assert ss[..size] == ss;
    SizesSumToN(size, n);
    forall r | 0 <= r < size
      ensures Slice(g, r, size) == ss[r]
    {
      FlattenPrefixLength(ss, size, n, r);
      OffsetIsShardStart(r, size, n);
      FlattenAround(ss, r);
      var lo := |Flatten(ss[..r])|;
      assert g[lo..lo + |ss[r]|] == ss[r];
    }
  }

  /** The concatenation seen around one member: what comes before it, the
      member itself, and what comes after it. */
  lemma FlattenAround<T>(ss: seq<seq<T>>, r: nat)
    requires r < |ss|
    ensures Flatten(ss) == Flatten(ss[..r]) + (ss[r] + Flatten(ss[r + 1..]))
  {
    FlattenAppend(ss[..r], ss[r..]);
    assert ss[..r] + ss[r..] == ss;
    FlattenAppend([ss[r]], ss[r + 1..]);
    assert [ss[r]] + ss[r + 1..] == ss[r..];
    var one := [ss[r]];
    assert one[..0] == [];
    assert Flatten(one) == ss[r];
  }

  /** The worked example: 50 items over 3 ranks. */
  lemma FiftyOverThreeRanks()
    ensures Dimension(0, 3, 50) == 17 && Dimension(1, 3, 50) == 17 && Dimension(2, 3, 50) == 16
    ensures Offset(0, 3, 50) == 0 && Offset(1, 3, 50) == 17 && Offset(2, 3, 50) == 34
  {
  }
}
