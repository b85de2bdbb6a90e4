/** The snapshot writer: the zero file of the first run, and the two-phase
    checkpoint (every rank stages its shard, then rank 0 merges the staging
    files in rank order into the canonical file). The file system is a map
    from path to the file's lines; a barrier is the boundary between two
    sequential phases. */
module Snapshot {
  import opened Faults
  import opened LineFormat
  import opened Partition
  import opened CounterStore

  /** Path to the lines of the file stored there. */
  type Files = map<string, seq<string>>

  /** The lines a shard is written as: one `%d` line per counter, in order. */
  function FormatLines(vals: seq<int>): (lines: seq<string>)
    ensures |lines| == |vals|
  {
    seq(|vals|, i requires 0 <= i < |vals| => FormatInt(vals[i]))
  }

  /** Writing two runs of counters one after the other gives the two runs of lines. */
  lemma FormatLinesAppend(a: seq<int>, b: seq<int>)
    ensures FormatLines(a + b) == FormatLines(a) + FormatLines(b)
  {
  }

  /** The canonical file of the first run: `NumCounters` lines of "0". */
  function ZeroSnapshot(): seq<string> {
    seq(NumCounters, i => "0")
  }

  /** The zero file is the text of the all-zero global counter set. */
  lemma ZeroSnapshotIsZeroCounters()
    ensures ZeroSnapshot() == FormatLines(ZeroCounters(NumCounters))
  {
  }

  /** Phase 1 for one rank: its staging file holds exactly its shard. */
  function Stage(files: Files, path: string, rank: nat, shard: seq<int>): Files {
    files[StagingPath(path, rank) := FormatLines(shard)]
  }

  /** Phase 1 for ranks 0..|shards|-1, in rank order. */
  function StageAll(files: Files, path: string, shards: seq<seq<int>>): Files {
    if shards == [] then files
    else Stage(StageAll(files, path, shards[..|shards| - 1]), path, |shards| - 1, shards[|shards| - 1])
  }

  /** What the merge of phase 2 produces: whether it completed, and the lines
      written to the canonical file so far. */
  datatype Merged = Merged(status: Status, lines: seq<string>)

  /** The merge of the staging files of ranks 0..size-1 in ascending order: it
      stops at the first missing one, leaving the lines copied before it. */
  function Gather(files: Files, path: string, size: int): (m: Merged)
    ensures m.status.Abort? ==>
      m.status.fault.MissingStaging? && 0 <= m.status.fault.rank < size &&
      StagingPath(path, m.status.fault.rank) !in files
    decreases size
  {
    if size <= 0 then Merged(Ok, [])
    else
      var before := Gather(files, path, size - 1);
      if before.status.Abort? then before
      else if StagingPath(path, size - 1) !in files then Merged(Abort(MissingStaging(size - 1)), before.lines)
      else Merged(Ok, before.lines + files[StagingPath(path, size - 1)])
  }

  /** The merge completes exactly when the staging files of all ranks exist,
      and when it aborts, the missing file is the first one absent. */
  lemma {:induction false} GatherCompletesIff(files: Files, path: string, size: int)
    ensures Gather(files, path, size).status == Ok <==>
      forall r: nat :: r < size ==> StagingPath(path, r) in files
    ensures Gather(files, path, size).status.Abort? ==>
      forall r: nat :: r < Gather(files, path, size).status.fault.rank ==> StagingPath(path, r) in files
    decreases size
  {
    if size > 0 {
      GatherCompletesIff(files, path, size - 1);
      var before := Gather(files, path, size - 1);
      var last := StagingPath(path, size - 1);
      if before.status.Abort? {
        assert Gather(files, path, size) == before;
        var missing: nat := before.status.fault.rank;
        assert missing < size && StagingPath(path, missing) !in files;
      } else if last !in files {
        assert Gather(files, path, size).status == Abort(MissingStaging(size - 1));
      } else {
        assert Gather(files, path, size).status == Ok;
        forall r: nat | r < size ensures StagingPath(path, r) in files {
          if r == size - 1 { assert StagingPath(path, r) == last; }
        }
      }
    }
  }

  /** The whole checkpoint of a pool whose rank r holds `shards[r]`. */
  function CheckpointFiles(files: Files, path: string, shards: seq<seq<int>>): Files {
    var staged := StageAll(files, path, shards);
    staged[path := Gather(staged, path, |shards|).lines]
  }

  /** After phase 1 of ranks 0..|shards|-1, rank r's staging file holds `shards[r]`. */
  lemma {:induction false} StageAllAt(files: Files, path: string, shards: seq<seq<int>>, r: nat)
    requires r < |shards|
    ensures StagingPath(path, r) in StageAll(files, path, shards)
    ensures StageAll(files, path, shards)[StagingPath(path, r)] == FormatLines(shards[r])
  {
    var last := |shards| - 1;
    var init := shards[..last];
    assert StageAll(files, path, shards) == Stage(StageAll(files, path, init), path, last, shards[last]);
    if r < last {
      assert init[r] == shards[r];
      StageAllAt(files, path, init, r);
      StagingPathsDistinct(path, r, last);
    }
  }

  /** Phase 1 leaves every file that is not one of the ranks' staging files as it was. */
  lemma {:induction false} StageAllElsewhere(files: Files, path: string, shards: seq<seq<int>>, p: string)
    requires forall r: nat :: r < |shards| ==> p != StagingPath(path, r)
    ensures p in StageAll(files, path, shards) <==> p in files
    ensures p in files ==> StageAll(files, path, shards)[p] == files[p]
  {
    if shards != [] {
      assert p != StagingPath(path, |shards| - 1);
      StageAllElsewhere(files, path, shards[..|shards| - 1], p);
    }
  }

  /** With every staging file of ranks 0..k-1 present, the merge completes and
      its lines are those files' lines in ascending rank order. */
  lemma {:induction false} GatherStaged(files: Files, path: string, shards: seq<seq<int>>, k: nat)
    requires k <= |shards|
    requires forall r: nat :: r < |shards| ==>
      StagingPath(path, r) in files && files[StagingPath(path, r)] == FormatLines(shards[r])
    ensures Gather(files, path, k) == Merged(Ok, FormatLines(Flatten(shards[..k])))
  {
    if k == 0 {
      assert shards[..0] == [];
    } else {
      GatherStaged(files, path, shards, k - 1);
      assert shards[..k][..k - 1] == shards[..k - 1];
      FormatLinesAppend(Flatten(shards[..k - 1]), shards[k - 1]);
    }
  }

  /** Key property of the writer: after checkpointing every rank's shard, the
      canonical file holds the shards' counters concatenated in rank order. */
  lemma CheckpointWritesShardsInRankOrder(files: Files, path: string, shards: seq<seq<int>>)
    ensures Gather(StageAll(files, path, shards), path, |shards|).status == Ok
    ensures path in CheckpointFiles(files, path, shards)
    ensures CheckpointFiles(files, path, shards)[path] == FormatLines(Flatten(shards))
  {
    forall r: nat | r < |shards|
      ensures StagingPath(path, r) in StageAll(files, path, shards)
      ensures StageAll(files, path, shards)[StagingPath(path, r)] == FormatLines(shards[r])
    {
      StageAllAt(files, path, shards, r);
    }
    GatherStaged(StageAll(files, path, shards), path, shards, |shards|);
    assert shards[..|shards|] == shards;
  }

  /** With the shards of a partition of `g`, the canonical file is the text of
      `g` in global index order. */
  lemma CheckpointOfPartitionIsGlobal(files: Files, path: string, g: seq<int>, size: int)
    requires 0 < size && 0 < |g|
    ensures CheckpointFiles(files, path, Shards(g, size))[path] == FormatLines(g)
  {
    CheckpointWritesShardsInRankOrder(files, path, Shards(g, size));
    FlattenShards(g, size);
  }

  /** A merge that hits a missing staging file stops there: the canonical file
      keeps only the lines of the ranks before it. */
  lemma {:induction false} GatherStopsAtMissing(files: Files, path: string, size: int, missing: nat)
    requires missing < size
    requires Gather(files, path, missing).status == Ok
    requires StagingPath(path, missing) !in files
    ensures Gather(files, path, size) == Merged(Abort(MissingStaging(missing)), Gather(files, path, missing).lines)
    decreases size
  {
    if size - 1 > missing {
      GatherStopsAtMissing(files, path, size - 1, missing);
    }
  }

  /** Rewriting a file twice leaves only the second contents. */
  lemma RewriteTwice(files: Files, p: string, a: seq<string>, b: seq<string>)
    ensures files[p := a][p := b] == files[p := b]
  {
  }

  /** One more `%d` line written to a file holding the first `i` counters. */
  lemma WriteLine(files: Files, p: string, c: seq<int>, i: nat)
    requires i < |c|
    ensures files[p := FormatLines(c[..i])][p := files[p := FormatLines(c[..i])][p] + [FormatInt(c[i])]]
         == files[p := FormatLines(c[..i + 1])]
  {
    var m := files[p := FormatLines(c[..i])];
    assert c[..i + 1] == c[..i] + [c[i]];
    FormatLinesAppend(c[..i], [c[i]]);
    assert m[p] + [FormatInt(c[i])] == FormatLines(c[..i + 1]);
    RewriteTwice(files, p, FormatLines(c[..i]), FormatLines(c[..i + 1]));
  }

  /** One more line copied to a file holding `done` and the first `j` lines of `lines`. */
  lemma AppendLine(files: Files, p: string, done: seq<string>, lines: seq<string>, j: nat)
    requires j < |lines|
    ensures files[p := done + lines[..j]][p := files[p := done + lines[..j]][p] + [lines[j]]]
         == files[p := done + lines[..j + 1]]
  {
    var m := files[p := done + lines[..j]];
    assert lines[..j + 1] == lines[..j] + [lines[j]];
    assert m[p] + [lines[j]] == done + lines[..j + 1];
    RewriteTwice(files, p, done + lines[..j], done + lines[..j + 1]);
  }

  /** The merge of one more present staging file appends its lines. */
  lemma GatherNext(files: Files, path: string, r: nat)
    requires Gather(files, path, r).status == Ok
    requires StagingPath(path, r) in files
    ensures Gather(files, path, r + 1) == Merged(Ok, Gather(files, path, r).lines + files[StagingPath(path, r)])
  {
  }

  /** Phase 1 of ranks 0..r is phase 1 of ranks 0..r-1 followed by rank r's. */
  lemma StageAllStep(files: Files, path: string, shards: seq<seq<int>>, r: nat)
    requires r < |shards|
    ensures StageAll(files, path, shards[..r + 1]) == Stage(StageAll(files, path, shards[..r]), path, r, shards[r])
  {
    assert shards[..r + 1][..r] == shards[..r];
  }

  /** The counters held in a pool of arrays, rank by rank. */
  function PoolContents(pool: seq<array<int>>): (ss: seq<seq<int>>)
    reads pool
    ensures |ss| == |pool|
    ensures forall r :: 0 <= r < |pool| ==> ss[r] == pool[r][..]
  {
    if pool == [] then [] else PoolContents(pool[..|pool| - 1]) + [pool[|pool| - 1][..]]
  }

  /** The durable store shared by all workers. */
  class Storage {
    var files: Files

    constructor (initial: Files)
      ensures files == initial
    {
      files := initial;
    }

    /** `init_data`: on the first run (`reconfigCount == 0`) rank 0 rewrites the
        canonical file with `NumCounters` zero lines; every other call changes nothing. */
    method InitData(reconfigCount: int, rank: int, path: string)
      modifies this
      ensures files == if reconfigCount == 0 && rank == 0 then old(files)[path := ZeroSnapshot()] else old(files)
    {
      if reconfigCount == 0 && rank == 0 {
        files := files[path := []];
        assert FormatInt(0) == "0";
        assert seq(0, j => "0") == [];
        for i := 0 to NumCounters
          invariant files == old(files)[path := seq(i, j => "0")]
        {
          assert seq(i + 1, j => "0") == seq(i, j => "0") + ["0"];
          RewriteTwice(old(files), path, seq(i, j => "0"), seq(i + 1, j => "0"));
          files := files[path := files[path] + [FormatInt(0)]];
        }
      }
    }

    /** Checkpoint phase 1 for `rank`: its staging file is rewritten with the
        first `numCounters` counters, one per line, in order. */
    method WriteStaging(path: string, rank: nat, counters: array<int>, numCounters: int)
      requires 0 <= numCounters <= counters.Length
      modifies this
      ensures files == Stage(old(files), path, rank, counters[..numCounters])
    {
      var name := StagingPath(path, rank);
      files := files[name := []];
      for i := 0 to numCounters
        invariant files == old(files)[name := FormatLines(counters[..i])]
      {
        WriteLine(old(files), name, counters[..], i);
        files := files[name := files[name] + [FormatInt(counters[i])]];
      }
    }

    /** Checkpoint phase 2 as run by `rank`: only rank 0 acts. It truncates the
        canonical file and appends the staging files of ranks 0..size-1 in
        ascending order, aborting at the first one that is missing. */
    method MergeStaging(path: string, rank: int, size: int) returns (status: Status)
      modifies this
      ensures rank != 0 ==> status == Ok && files == old(files)
      ensures rank == 0 ==> status == Gather(old(files), path, size).status
      ensures rank == 0 ==> files == old(files)[path := Gather(old(files), path, size).lines]
    {
      if rank != 0 {
        return Ok;
      }
      ghost var before := files;
      files := files[path := []];
      var r := 0;
      while r < size
        invariant 0 <= r && (r <= size || r == 0)
        invariant Gather(before, path, r).status == Ok
        invariant files == before[path := Gather(before, path, r).lines]
      {
        var other := StagingPath(path, r);
        StagingPathsDistinct(path, r, r);
        if other !in files {
          GatherStopsAtMissing(before, path, size, r);
          return Abort(MissingStaging(r));
        }
        var lines := files[other];
        assert lines == before[other];
        ghost var done := Gather(before, path, r).lines;
        AppendLines(path, lines);
        RewriteTwice(before, path, done, done + lines);
        GatherNext(before, path, r);
        r := r + 1;
      }
      status := Ok;
    }

    /** The copy loop of phase 2: the lines of one staging file are appended,
        one `fputs` at a time, to the end of the canonical file. */
    method AppendLines(path: string, lines: seq<string>)
      requires path in files
      modifies this
      ensures files == old(files)[path := old(files)[path] + lines]
    {
      ghost var before := files;
      assert before[path] + lines[..0] == before[path];
      assert before[path := before[path]] == before;
      for j := 0 to |lines|
        invariant files == before[path := before[path] + lines[..j]]
      {
        AppendLine(before, path, before[path], lines, j);
        files := files[path := files[path] + [lines[j]]];
      }
      assert lines[..|lines|] == lines;
    }

    /** A whole checkpoint of the pool, rank r holding `pool[r]`: phase 1 on
        every rank, the barrier, phase 2 on every rank, the final barrier. */
    method Checkpoint(path: string, pool: seq<array<int>>) returns (status: Status)
      requires 0 < |pool|
      modifies this
      ensures status == Ok
      ensures files == CheckpointFiles(old(files), path, PoolContents(pool))
    {
      ghost var shards := PoolContents(pool);
      for r := 0 to |pool|
        invariant files == StageAll(old(files), path, shards[..r])
      {
        assert pool[r][..pool[r].Length] == pool[r][..];
        WriteStaging(path, r, pool[r], pool[r].Length);
        StageAllStep(old(files), path, shards, r);
      }
      assert shards[..|pool|] == shards;
      CheckpointWritesShardsInRankOrder(old(files), path, shards);
      ghost var staged := files;
      status := Ok;
      for r := 0 to |pool|
        invariant r == 0 ==> files == staged
        invariant 0 < r ==> files == CheckpointFiles(old(files), path, shards)
        invariant status == Ok
      {
        status := MergeStaging(path, r, |pool|);
      }
    }
  }
}
