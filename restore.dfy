/** The snapshot reader: after a possible membership change a worker gets a
    shard of the right size, skips the lines of the shards before its own,
    reads its own lines and repairs out-of-range values to 0. */
module Restore {
  import opened Faults
  import opened LineFormat
  import opened Partition
  import opened CounterStore
  import opened Snapshot

  /** The repair rule for one value read back: anything outside
      `[0, MaxCounterValue]` becomes 0. */
  function Repair(v: int): (r: int)
    ensures 0 <= r <= MaxCounterValue
    ensures 0 <= v <= MaxCounterValue ==> r == v
    ensures (v < 0 || MaxCounterValue < v) ==> r == 0
  {
    if v < 0 || v > MaxCounterValue then 0 else v
  }

  /** The counter a snapshot line restores to. */
  function ReadCounter(line: string): (v: int)
    ensures 0 <= v <= MaxCounterValue
  {
    Repair(Atoi(line))
  }

  /** A shard read back: every value is in range, and a shard already in
      range comes back unchanged. */
  function RepairAll(s: seq<int>): (r: seq<int>)
    ensures |r| == |s| && forall i :: 0 <= i < |s| ==> r[i] == Repair(s[i])
    ensures AllInRange(r)
    ensures AllInRange(s) ==> r == s
  {
    seq(|s|, i requires 0 <= i < |s| => Repair(s[i]))
  }

  /** Reference behaviour of the reading part of `restart`: a shard of `k`
      counters read after skipping `skip` lines of the canonical file. It
      aborts for a non-positive `k`, a missing file, a file that ends while
      skipping, and a file that ends while reading. */
  function RestoreFrom(files: Files, path: string, skip: nat, k: int): (r: Result<seq<int>>)
    ensures r.Success? ==> |r.value| == k && AllInRange(r.value)
    ensures r.Failure? <==> k <= 0 || path !in files || |files[path]| < skip + k
  {
    if k <= 0 then Failure(InvalidCount)
    else if path !in files then Failure(OpenFailed)
    else if |files[path]| < skip then Failure(SkipFailed)
    else if |files[path]| < skip + k then Failure(ReadFailed)
    else
      var vals := seq(k, i requires 0 <= i < k => ReadCounter(files[path][skip + i]));
      assert forall i :: 0 <= i < k ==> vals[i] == ReadCounter(files[path][skip + i]);
      Success(vals)
  }

  /** The number of lines a worker must skip: the start of its shard under
      the membership it now belongs to, over all `NumCounters` counters. */
  function IntendedSkip(newRank: int, newSize: int): (k: nat)
    ensures ValidArgs(newRank, newSize, NumCounters) ==> k == ShardStart(newRank, newSize, NumCounters)
    ensures ValidArgs(newRank, newSize, NumCounters) ==> k + Dimension(newRank, newSize, NumCounters) <= NumCounters
  {
    var k := Offset(newRank, newSize, NumCounters);
    assert ValidArgs(newRank, newSize, NumCounters) ==>
      k == ShardStart(newRank, newSize, NumCounters) && k + Dimension(newRank, newSize, NumCounters) <= NumCounters
    by {
      if ValidArgs(newRank, newSize, NumCounters) {
        OffsetIsShardStart(newRank, newSize, NumCounters);
        ShardInRange(newRank, newSize, NumCounters);
      }
    }
    k
  }

  /** The skip count as the source computes it: from the rank and size the
      caller passed and the worker's own shard size. */
  function SkipAsWritten(rank: int, size: int, numCounters: int): (k: nat)
    ensures rank == 0 ==> k == 0
    ensures ValidArgs(rank, size, numCounters) ==> k + Dimension(rank, size, numCounters) <= numCounters
  {
    var k := Offset(rank, size, numCounters);
    assert ValidArgs(rank, size, numCounters) ==> k + Dimension(rank, size, numCounters) <= numCounters by {
      if ValidArgs(rank, size, numCounters) {
        ShardInRange(rank, size, numCounters);
      }
    }
    k
  }

  /** What a worker restores under the membership `(rank, size)`. */
  function RestoreShard(files: Files, path: string, rank: int, size: int): (r: Result<seq<int>>)
    ensures r.Success? ==> |r.value| == Dimension(rank, size, NumCounters) && AllInRange(r.value)
    ensures r.Failure? <==>
      !(0 <= rank < size && rank < NumCounters) || path !in files ||
      |files[path]| < IntendedSkip(rank, size) + Dimension(rank, size, NumCounters)
  {
    DimensionPositiveIff(rank, size, NumCounters);
    RestoreFrom(files, path, IntendedSkip(rank, size), Dimension(rank, size, NumCounters))
  }

  /** Corrupted lines never make a restore fail: whatever text stands on one of
      the shard's lines, the restore still succeeds and that counter reads as
      the repaired value, 0 when it is out of range. `text` is the content of
      one line without its newline, of a length `fgets` reads as one line. */
  lemma CorruptLineIsRepaired(files: Files, path: string, skip: nat, k: int, i: nat, text: string)
    requires RestoreFrom(files, path, skip, k).Success? && i < k
    ensures var damaged := files[path := files[path][skip + i := text]];
      RestoreFrom(damaged, path, skip, k).Success? &&
      RestoreFrom(damaged, path, skip, k).value[i] == Repair(Atoi(text)) &&
      (forall j :: 0 <= j < k && j != i ==> RestoreFrom(damaged, path, skip, k).value[j] == RestoreFrom(files, path, skip, k).value[j])
  {
    var damaged := files[path := files[path][skip + i := text]];
    assert damaged[path][skip + i] == text;
    assert RestoreFrom(damaged, path, skip, k).value[i] == ReadCounter(damaged[path][skip + i]);
  }

  /** Reading back a file written by `%d`: out-of-range values come back as 0,
      all others exactly. */
  lemma {:induction false} RestoreFormatted(files: Files, path: string, g: seq<int>, skip: nat, k: int)
    requires path in files && files[path] == FormatLines(g)
    requires 0 < k && skip + k <= |g|
    ensures RestoreFrom(files, path, skip, k) == Success(RepairAll(g[skip..skip + k]))
  {
    var vals := RepairAll(g[skip..skip + k]);
    forall j | 0 <= j < k
      ensures vals[j] == ReadCounter(files[path][skip + j])
    {
      assert g[skip..skip + k][j] == g[skip + j];
      assert files[path][skip + j] == FormatInt(g[skip + j]);
      ReadFormatted(g[skip + j]);
    }
    ReadAll(files, path, skip, vals);
  }

  /** A line written by `%d` restores to the repaired value. */
  lemma ReadFormatted(v: int)
    ensures ReadCounter(FormatInt(v)) == Repair(v)
  {
    AtoiFormatInt(v);
  }

  /** Lines 117-122 of `restart`: when the membership query disagrees with the
      caller's rank or size, the old shard is dropped and a zeroed shard of the
      new membership's size is allocated (aborting if that size is not
      positive); otherwise the caller's shard and count are kept. */
  method Reallocate(rank: int, size: int, newRank: int, newSize: int, counters: array<int>, numCounters: int)
    returns (status: Status, shard: array<int>, count: int)
    ensures count == if newRank != rank || newSize != size then Dimension(newRank, newSize, NumCounters) else numCounters
    ensures newRank != rank || newSize != size ==>
      fresh(shard) && status == (if count <= 0 then Abort(InvalidCount) else Ok) &&
      (status == Ok ==> shard[..] == ZeroCounters(count))
    ensures newRank == rank && newSize == size ==> shard == counters && status == Ok
  {
    if newRank != rank || newSize != size {
      count := Dimension(newRank, newSize, NumCounters);
      status, shard := InitCounters(rank, count);
    } else {
      status, shard, count := Ok, counters, numCounters;
    }
  }

  /** Lines 124-171 of `restart`: validate the count, open the canonical file,
      skip `skip` lines, then read `shard.Length` lines into the shard,
      repairing each value; any of these failing aborts. */
  method ReadShard(shard: array<int>, fs: Storage, path: string, skip: nat) returns (status: Status)
    modifies shard
    ensures status == RestoreFrom(fs.files, path, skip, shard.Length).ToStatus()
    ensures status == Ok ==> RestoreFrom(fs.files, path, skip, shard.Length) == Success(shard[..])
  {
    var count := shard.Length;
    if count <= 0 {
      return Abort(InvalidCount);
    }
    if path !in fs.files {
      return Abort(OpenFailed);
    }
    var files := fs.files;
    var lines := files[path];
    for i := 0 to skip
      invariant i <= |lines|
    {
      if i >= |lines| {
        return Abort(SkipFailed);
      }
    }
    status := ReadInto(shard, lines, skip);
    if status == Ok {
      ReadAll(files, path, skip, shard[..]);
    }
  }

  /** The read loop of `restart`: after the skipped lines, each of the next
      `shard.Length` lines is read with `atoi` and repaired into the shard;
      running out of lines aborts. */
  method ReadInto(shard: array<int>, lines: seq<string>, skip: nat) returns (status: Status)
    requires skip <= |lines|
    modifies shard
    ensures status == (if |lines| < skip + shard.Length then Abort(ReadFailed) else Ok)
    ensures status == Ok ==> forall j :: 0 <= j < shard.Length ==> shard[..][j] == ReadCounter(lines[skip + j])
  {
    ghost var n := if |lines| - skip < shard.Length then |lines| - skip else shard.Length;
    ghost var want := seq(n, j requires 0 <= j < n => ReadCounter(lines[skip + j]));
    for i := 0 to shard.Length
      invariant i <= n
      invariant forall j :: 0 <= j < i ==> shard[j] == want[j]
    {
      if skip + i >= |lines| {
        return Abort(ReadFailed);
      }
      var v := ReadOne(lines[skip + i]);
      shard[i] := v;
    }
    status := Ok;
  }

  /** One line of the read loop: `atoi`, then a value outside
      `[0, MaxCounterValue]` is reset to 0. */
  method ReadOne(line: string) returns (v: int)
    ensures v == ReadCounter(line)
    ensures 0 <= v <= MaxCounterValue
  {
    v := Atoi(line);
    if v < 0 || v > MaxCounterValue {
      v := 0;
    }
  }

  /** A shard holding the repaired value of each of its lines is exactly what
      `RestoreFrom` reads. */
  lemma ReadAll(files: Files, path: string, skip: nat, vals: seq<int>)
    requires path in files && 0 < |vals| && skip + |vals| <= |files[path]|
    requires forall j :: 0 <= j < |vals| ==> vals[j] == ReadCounter(files[path][skip + j])
    ensures RestoreFrom(files, path, skip, |vals|) == Success(vals)
  {
    var k := |vals|;
    var expected := seq(k, i requires 0 <= i < k => ReadCounter(files[path][skip + i]));
    assert expected == vals;
  }

  /** `restart` with the skip count of the worker's current membership, and
      handing the (possibly new) shard back to the caller. On success the
      shard holds exactly what `RestoreFrom` reads for that membership. */
  method Restart(rank: int, size: int, newRank: int, newSize: int, counters: array<int>, numCounters: int,
                 fs: Storage, path: string)
    returns (status: Status, shard: array<int>, count: int)
    requires numCounters == counters.Length
    modifies counters
    ensures count == if newRank != rank || newSize != size then Dimension(newRank, newSize, NumCounters) else numCounters
    ensures status == RestoreFrom(fs.files, path, IntendedSkip(newRank, newSize), count).ToStatus()
    ensures status == Ok ==> shard.Length == count && shard[..] == RestoreFrom(fs.files, path, IntendedSkip(newRank, newSize), count).value
    ensures newRank != rank || newSize != size ==> fresh(shard) && unchanged(counters)
    ensures newRank == rank && newSize == size ==> shard == counters
  {
    status, shard, count := Reallocate(rank, size, newRank, newSize, counters, numCounters);
    if status != Ok {
      return;
    }
    status := ReadShard(shard, fs, path, IntendedSkip(newRank, newSize));
  }

  /** `restart` as the source writes it: the skip count comes from the
      caller's rank and size and the local count, and a shard allocated for a
      new membership is lost, since it is stored only in the by-value
      parameter. The caller keeps its old array but receives the new count. */
  method RestartAsWritten(rank: int, size: int, newRank: int, newSize: int, counters: array<int>, numCounters: int,
                          fs: Storage, path: string)
    returns (status: Status, count: int)
    requires numCounters == counters.Length
    modifies counters
    ensures count == if newRank != rank || newSize != size then Dimension(newRank, newSize, NumCounters) else numCounters
    ensures status == RestoreFrom(fs.files, path, SkipAsWritten(rank, size, count), count).ToStatus()
    ensures newRank != rank || newSize != size ==> unchanged(counters)
    ensures newRank == rank && newSize == size && status == Ok ==>
      counters[..] == RestoreFrom(fs.files, path, SkipAsWritten(rank, size, count), count).value
  {
    var shard;
    status, shard, count := Reallocate(rank, size, newRank, newSize, counters, numCounters);
    if status != Ok {
      return;
    }
    status := ReadShard(shard, fs, path, SkipAsWritten(rank, size, count));
  }

  /** The global counter set used by the counterexamples below: 25 ones then 25 twos. */
  function OnesThenTwos(): (g: seq<int>)
    ensures |g| == NumCounters
  {
    seq(NumCounters, i => if i < 25 then 1 else 2)
  }

  /** The skip counts disagree for every rank but 0: rank 1 of 2, holding 25
      counters, skips 13 lines where its shard starts at line 25. */
  lemma SkipAsWrittenDiffers()
    ensures SkipAsWritten(1, 2, Dimension(1, 2, NumCounters)) == 13
    ensures IntendedSkip(1, 2) == 25
    ensures forall size :: 0 < size ==> SkipAsWritten(0, size, Dimension(0, size, NumCounters)) == IntendedSkip(0, size) == 0
  {
  }

  /** With the as-written skip, rank 1 of 2 restores lines 13..37 of the
      canonical file: its first counter comes back as 1 where the snapshot holds 2. */
  lemma SkipAsWrittenMisreads(files: Files, path: string)
    requires path in files && files[path] == FormatLines(OnesThenTwos())
    ensures RestoreFrom(files, path, SkipAsWritten(1, 2, 25), 25).Success?
    ensures RestoreFrom(files, path, SkipAsWritten(1, 2, 25), 25).value[0] == 1
    ensures Slice(OnesThenTwos(), 1, 2)[0] == 2
    ensures RestoreFrom(files, path, IntendedSkip(1, 2), 25) == Success(Slice(OnesThenTwos(), 1, 2))
  {
    var g := OnesThenTwos();
    assert SkipAsWritten(1, 2, 25) == 13 && IntendedSkip(1, 2) == 25;
    assert Offset(1, 2, 50) == 25 && Dimension(1, 2, 50) == 25;
    var wrong := RestoreFrom(files, path, 13, 25);
    assert wrong.value[0] == ReadCounter(files[path][13]);
    assert files[path][13] == FormatInt(1);
    AtoiFormatInt(1);
    RestoreFormatted(files, path, g, 25, 25);
    assert forall i :: 25 <= i < 50 ==> g[i] == 2;
    assert RepairAll(g[25..50]) == g[25..50];
  }

  /** With the as-written `restart`, a worker that was rank 0 of 2 and finds
      itself rank 0 of 1 is told to manage 50 counters but keeps its 25-slot
      array, so the main loop would index past its end. */
  method StaleShardAfterShrink() returns (slots: int, count: int)
    ensures slots == 25 && count == 50
  {
    var fs := new Storage(map["counters" := ZeroSnapshot()]);
    var counters := new int[25];
    var status;
    status, count := RestartAsWritten(0, 2, 0, 1, counters, 25, fs, "counters");
    slots := counters.Length;
  }
}
