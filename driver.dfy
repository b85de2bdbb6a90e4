/** The lifecycle of the pool: a worker's start-up, and what the canonical
    snapshot guarantees across a membership change, where every worker of the
    old membership checkpoints and every worker of the new one restores. */
module Driver {
  import opened Faults
  import opened LineFormat
  import opened Partition
  import opened CounterStore
  import opened Snapshot
  import opened Restore

  /** Start-up of a worker (before the resize library takes over): its shard
      size under the starting membership, an abort unless that size is
      positive, otherwise an all-zero shard of that size. */
  method StartWorker(rank: int, size: int) returns (status: Status, counters: array<int>)
    ensures status == Ok <==> 0 <= rank < size && rank < NumCounters
    ensures status != Ok ==> status == Abort(InvalidCount)
    ensures status == Ok ==> counters[..] == ZeroCounters(Dimension(rank, size, NumCounters))
    ensures fresh(counters)
  {
    var count := Dimension(rank, size, NumCounters);
    DimensionPositiveIff(rank, size, NumCounters);
    if count <= 0 {
      return Abort(InvalidCount), new int[0];
    }
    status, counters := InitCounters(rank, count);
  }

  /** Repairing a shard is the shard of the repaired global set. */
  lemma RepairSlice(g: seq<int>, rank: int, size: int)
    requires ValidArgs(rank, size, |g|)
    ensures RepairAll(Slice(g, rank, size)) == Slice(RepairAll(g), rank, size)
  {
    ShardInRange(rank, size, |g|);
    var lo := Offset(rank, size, |g|);
    var k := Dimension(rank, size, |g|);
    var a := RepairAll(Slice(g, rank, size));
    var b := Slice(RepairAll(g), rank, size);
    assert |a| == |b| == k;
    forall i | 0 <= i < k ensures a[i] == b[i] {
      assert Slice(g, rank, size)[i] == g[lo + i];
      assert b[i] == RepairAll(g)[lo + i];
    }
  }

  /** A worker of any new membership that restores after the old membership
      checkpointed the global set `g` gets its own slice of `g`, repaired. */
  lemma RestoreAfterCheckpoint(files: Files, path: string, g: seq<int>, oldSize: int, newRank: int, newSize: int)
    requires |g| == NumCounters && 0 < oldSize
    requires 0 <= newRank < newSize && newRank < NumCounters
    ensures RestoreShard(CheckpointFiles(files, path, Shards(g, oldSize)), path, newRank, newSize)
         == Success(Slice(RepairAll(g), newRank, newSize))
  {
    var cp := CheckpointFiles(files, path, Shards(g, oldSize));
    CheckpointWritesShardsInRankOrder(files, path, Shards(g, oldSize));
    CheckpointOfPartitionIsGlobal(files, path, g, oldSize);
    DimensionPositiveIff(newRank, newSize, NumCounters);
    ShardInRange(newRank, newSize, NumCounters);
    var lo := Offset(newRank, newSize, NumCounters);
    var k := Dimension(newRank, newSize, NumCounters);
    assert RestoreShard(cp, path, newRank, newSize) == RestoreFrom(cp, path, lo, k);
    RestoreFormatted(cp, path, g, lo, k);
    assert g[lo..lo + k] == Slice(g, newRank, newSize);
    RepairSlice(g, newRank, newSize);
  }

  /** Resize round trip: whatever the old and new pool sizes, the new workers'
      shards, in rank order, concatenate to the saved global set (with
      out-of-range values repaired to 0). */
  lemma ResizeRoundTrip(files: Files, path: string, g: seq<int>, oldSize: int, newSize: int)
    requires |g| == NumCounters && 0 < oldSize && 0 < newSize <= NumCounters
    ensures forall r :: 0 <= r < newSize ==>
      RestoreShard(CheckpointFiles(files, path, Shards(g, oldSize)), path, r, newSize)
        == Success(Shards(RepairAll(g), newSize)[r])
    ensures Flatten(Shards(RepairAll(g), newSize)) == RepairAll(g)
    ensures AllInRange(g) ==> Flatten(Shards(RepairAll(g), newSize)) == g
  {
    forall r | 0 <= r < newSize
      ensures RestoreShard(CheckpointFiles(files, path, Shards(g, oldSize)), path, r, newSize)
        == Success(Shards(RepairAll(g), newSize)[r])
    {
      RestoreAfterCheckpoint(files, path, g, oldSize, r, newSize);
    }
    FlattenShards(RepairAll(g), newSize);
  }

  /** Round trip at the same size: a pool of `size` workers whose shards have
      the partition's sizes and hold values in range checkpoints and then
      restores every worker's own shard exactly. */
  lemma SameSizeRoundTrip(files: Files, path: string, shards: seq<seq<int>>)
    requires 0 < |shards| <= NumCounters
    requires forall r :: 0 <= r < |shards| ==> |shards[r]| == Dimension(r, |shards|, NumCounters)
    requires forall r :: 0 <= r < |shards| ==> AllInRange(shards[r])
    ensures forall r :: 0 <= r < |shards| ==>
      RestoreShard(CheckpointFiles(files, path, shards), path, r, |shards|) == Success(shards[r])
  {
    var g := Flatten(shards);
    ShardsOfFlatten(shards, |shards|, NumCounters);
    forall r | 0 <= r < |shards|
      ensures RestoreShard(CheckpointFiles(files, path, shards), path, r, |shards|) == Success(shards[r])
    {
      RestoreAfterCheckpoint(files, path, g, |shards|, r, |shards|);
      RepairSlice(g, r, |shards|);
    }
  }

  /** A pool with more workers than counters cannot restore: every worker
      ranked `NumCounters` or higher has an empty shard and aborts. */
  lemma OversizedPoolAborts(files: Files, path: string, rank: int, size: int)
    requires NumCounters <= rank < size
    ensures RestoreShard(files, path, rank, size) == Failure(InvalidCount)
  {
    DimensionPositiveIff(rank, size, NumCounters);
  }

  /** On the first run, after rank 0 wrote the zero file, every worker of the
      starting membership restores an all-zero shard of its own size. */
  lemma FirstRunRestoresZeros(files: Files, path: string, rank: int, size: int)
    requires 0 <= rank < size && rank < NumCounters
    ensures RestoreShard(files[path := ZeroSnapshot()], path, rank, size)
         == Success(ZeroCounters(Dimension(rank, size, NumCounters)))
  {
    var z := ZeroCounters(NumCounters);
    ZeroSnapshotIsZeroCounters();
    DimensionPositiveIff(rank, size, NumCounters);
    ShardInRange(rank, size, NumCounters);
    var lo := Offset(rank, size, NumCounters);
    var k := Dimension(rank, size, NumCounters);
    RestoreFormatted(files[path := ZeroSnapshot()], path, z, lo, k);
    assert RepairAll(z[lo..lo + k]) == ZeroCounters(k);
  }

  /** The worked scenario: one worker of 50 counters takes 3 steps from zero
      and checkpoints, the file then holds 50 lines of "3", and after growing
      to 2 workers each restores 25 counters of value 3. */
  lemma OneWorkerThenTwo(files: Files, path: string)
    ensures var g := AdvanceN(ZeroCounters(NumCounters), 3);
      var cp := CheckpointFiles(files, path, [g]);
      cp[path] == seq(NumCounters, i => "3") &&
      RestoreShard(cp, path, 0, 2) == Success(seq(25, i => 3)) &&
      RestoreShard(cp, path, 1, 2) == Success(seq(25, i => 3))
  {
    var g := AdvanceN(ZeroCounters(NumCounters), 3);
    ZeroStartAfter(NumCounters, 3);
    var cp := CheckpointFiles(files, path, [g]);
    assert cp[path] == seq(NumCounters, i => "3") by {
      var one: seq<seq<int>> := [g];
      assert one[..0] == [];
      CheckpointWritesShardsInRankOrder(files, path, one);
      assert FormatInt(3) == "3";
    }
    assert Shards(g, 1) == [g] by {
      assert Offset(0, 1, NumCounters) == 0 && Dimension(0, 1, NumCounters) == NumCounters;
      assert g[0..NumCounters] == g;
      assert Shards(g, 1)[0] == g;
    }
    RestoreAfterCheckpoint(files, path, g, 1, 0, 2);
    RestoreAfterCheckpoint(files, path, g, 1, 1, 2);
    assert Offset(1, 2, NumCounters) == 25 && Dimension(1, 2, NumCounters) == 25;
    assert Slice(g, 0, 2) == seq(25, i => 3);
    assert Slice(g, 1, 2) == seq(25, i => 3);
  }
}
