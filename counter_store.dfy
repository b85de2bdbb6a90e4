/** One worker's in-memory shard: allocation, the termination test, the
    increment step of the main loop and the resize suggestion drawn from it. */
module CounterStore {
  import opened Faults

  /** Total number of counters across all ranks. */
  const NumCounters: int := 50
  /** The cap every counter stops at. */
  const MaxCounterValue: int := 20

  /** Some counter is still below the cap: the worker has work left. */
  predicate AnyBelowMax(s: seq<int>) {
    exists i :: 0 <= i < |s| && s[i] < MaxCounterValue
  }

  /** Every counter lies in `[0, MaxCounterValue]`. */
  predicate AllInRange(s: seq<int>) {
    forall i :: 0 <= i < |s| ==> 0 <= s[i] <= MaxCounterValue
  }

  function ZeroCounters(k: nat): (z: seq<int>)
    ensures |z| == k && forall i :: 0 <= i < k ==> z[i] == 0
  {
    if k == 0 then [] else [0] + ZeroCounters(k - 1)
  }

  /** `init_counters`: aborts unless `numCounters` is positive, and otherwise
      hands out a fresh shard of exactly `numCounters` zeros. */
  method InitCounters(rank: int, numCounters: int) returns (status: Status, counters: array<int>)
    ensures status == (if numCounters <= 0 then Abort(InvalidCount) else Ok)
    ensures fresh(counters)
    ensures status == Ok ==> counters[..] == ZeroCounters(numCounters)
  {
    if numCounters <= 0 {
      return Abort(InvalidCount), new int[0];
    }
    counters := new int[numCounters];
    for i := 0 to numCounters
      invariant forall j :: 0 <= j < i ==> counters[j] == 0
    {
      counters[i] := 0;
    }
    status := Ok;
  }

  /** `check_counters`: 1 when some counter among the first `numCounters` is
      below the cap; 0 when all have reached it, for a missing array, and for
      a count that is not positive. */
  method CheckCounters(counters: array?<int>, numCounters: int) returns (r: int)
    requires counters != null ==> numCounters <= counters.Length
    ensures r == (if counters != null && 0 < numCounters && AnyBelowMax(counters[..numCounters]) then 1 else 0)
  {
    if counters == null || numCounters <= 0 {
      return 0;
    }
    for i := 0 to numCounters
      invariant forall j :: 0 <= j < i ==> counters[j] >= MaxCounterValue
    {
      if counters[i] < MaxCounterValue {
        assert counters[..numCounters][i] < MaxCounterValue;
        return 1;
      }
    }
    return 0;
  }

  /** One counter after one step: raised by one while below the cap. */
  function Bump(v: int): int {
    if v < MaxCounterValue then v + 1 else v
  }

  /** The shard after one step of the main loop. */
  function Advance(s: seq<int>): (r: seq<int>)
    ensures |r| == |s|
    ensures forall i :: 0 <= i < |s| ==> r[i] == Bump(s[i])
  {
    if s == [] then [] else [Bump(s[0])] + Advance(s[1..])
  }

  /** The shard after `t` steps. */
  function AdvanceN(s: seq<int>, t: nat): (r: seq<int>)
    ensures |r| == |s|
  {
    if t == 0 then s else Advance(AdvanceN(s, t - 1))
  }

  /** A step keeps counters in range, never lowers one, raises each by at most one. */
  lemma AdvanceBoundedAndMonotone(s: seq<int>)
    ensures AllInRange(s) ==> AllInRange(Advance(s))
    ensures forall i :: 0 <= i < |s| ==> s[i] <= Advance(s)[i] <= s[i] + 1
    ensures forall i :: 0 <= i < |s| ==> (Advance(s)[i] == s[i] + 1 <==> s[i] < MaxCounterValue)
  {
  }

  /** Once no counter is below the cap, a step changes nothing. */
  lemma SaturatedIsFixpoint(s: seq<int>)
    requires !AnyBelowMax(s)
    ensures Advance(s) == s
  {
  }

  /** How far one counter is from the cap. */
  function Deficit(v: int): nat {
    if v < MaxCounterValue then MaxCounterValue - v else 0
  }

  /** Total work left: the sum of every counter's distance from the cap. */
  function Remaining(s: seq<int>): nat {
    if s == [] then 0 else Deficit(s[0]) + Remaining(s[1..])
  }

  /** The work left is zero exactly when no counter is below the cap. */
  lemma {:induction false} RemainingZeroIffDone(s: seq<int>)
    ensures Remaining(s) == 0 <==> !AnyBelowMax(s)
  {
    if s != [] {
      RemainingZeroIffDone(s[1..]);
      if !AnyBelowMax(s[1..]) && s[0] >= MaxCounterValue {
        forall i | 0 <= i < |s| ensures s[i] >= MaxCounterValue {
          if i > 0 { assert s[i] == s[1..][i - 1]; }
        }
      }
      if AnyBelowMax(s[1..]) {
        var i :| 0 <= i < |s[1..]| && s[1..][i] < MaxCounterValue;
        assert s[i + 1] < MaxCounterValue;
      }
    }
  }

  /** While some counter is below the cap, a step strictly lowers the work
      left: the main loop terminates. */
  lemma {:induction false} AdvanceReducesRemaining(s: seq<int>)
    ensures Remaining(Advance(s)) <= Remaining(s)
    ensures AnyBelowMax(s) ==> Remaining(Advance(s)) < Remaining(s)
  {
    if s != [] {
      var a := Advance(s);
      assert a[1..] == Advance(s[1..]);
      AdvanceReducesRemaining(s[1..]);
      if AnyBelowMax(s) && s[0] >= MaxCounterValue {
        var i :| 0 <= i < |s| && s[i] < MaxCounterValue;
        assert s[1..][i - 1] < MaxCounterValue;
      }
    }
  }

  /** One counter after `t` steps: it climbs by one per step until the cap. */
  function Saturate(v: int, t: nat): int {
    if v >= MaxCounterValue then v
    else if v + t < MaxCounterValue then v + t
    else MaxCounterValue
  }

  /** After `t` steps each counter is its closed-form value. */
  lemma {:induction false} AdvanceNAt(s: seq<int>, t: nat)
    ensures forall i :: 0 <= i < |s| ==> AdvanceN(s, t)[i] == Saturate(s[i], t)
  {
    if t > 0 {
      AdvanceNAt(s, t - 1);
    }
  }

  /** The largest distance from the cap over the shard. */
  function MaxDeficit(s: seq<int>): nat {
    if s == [] then 0
    else
      var rest := MaxDeficit(s[1..]);
      if Deficit(s[0]) >= rest then Deficit(s[0]) else rest
  }

  /** `MaxDeficit` is the maximum: no counter is further from the cap, and
      some counter of a non-empty shard is exactly that far. */
  lemma {:induction false} MaxDeficitIsMax(s: seq<int>)
    ensures forall i :: 0 <= i < |s| ==> Deficit(s[i]) <= MaxDeficit(s)
    ensures s != [] ==> exists i :: 0 <= i < |s| && Deficit(s[i]) == MaxDeficit(s)
    ensures s == [] ==> MaxDeficit(s) == 0
  {
    if s != [] {
      MaxDeficitIsMax(s[1..]);
      assert forall i :: 1 <= i < |s| ==> s[i] == s[1..][i - 1];
      if Deficit(s[0]) < MaxDeficit(s[1..]) {
        var i :| 0 <= i < |s[1..]| && Deficit(s[1..][i]) == MaxDeficit(s[1..]);
        assert Deficit(s[i + 1]) == MaxDeficit(s);
      }
    }
  }

  /** After `t` steps work is left exactly when `t` is below the largest deficit. */
  lemma StillRunningIff(s: seq<int>, t: nat)
    ensures AnyBelowMax(AdvanceN(s, t)) <==> t < MaxDeficit(s)
  {
    AdvanceNAt(s, t);
    MaxDeficitIsMax(s);
    var a := AdvanceN(s, t);
    if t < MaxDeficit(s) {
      var i :| 0 <= i < |s| && Deficit(s[i]) == MaxDeficit(s);
      assert a[i] < MaxCounterValue;
    }
    if AnyBelowMax(a) {
      var i :| 0 <= i < |a| && a[i] < MaxCounterValue;
      assert t < Deficit(s[i]);
    }
  }

  /** From an all-zero shard, after `t <= MaxCounterValue` steps every counter equals `t`. */
  lemma ZeroStartAfter(k: nat, t: nat)
    requires t <= MaxCounterValue
    ensures AdvanceN(ZeroCounters(k), t) == seq(k, i => t)
  {
    AdvanceNAt(ZeroCounters(k), t);
  }

  /** From an all-zero non-empty shard the work lasts exactly `MaxCounterValue` steps. */
  lemma ZeroStartRunsMaxSteps(k: nat)
    requires 0 < k
    ensures MaxDeficit(ZeroCounters(k)) == MaxCounterValue
  {
    var z := ZeroCounters(k);
    MaxDeficitIsMax(z);
    assert Deficit(z[0]) == MaxCounterValue;
  }

  /** The hint the worker gives the resize engine. */
  datatype Suggestion = ShouldStay | ShouldExpand | ShouldShrink

  /** The suggestion rule, read after a step from the shard's first counter. */
  function SuggestionFor(s: seq<int>): (g: Suggestion)
    requires 0 < |s|
    ensures g == ShouldExpand <==> s[0] == 3
    ensures g == ShouldShrink <==> s[0] == 8
    ensures g == ShouldStay <==> s[0] != 3 && s[0] != 8
  {
    if s[0] == 3 then ShouldExpand
    else if s[0] == 8 then ShouldShrink
    else ShouldStay
  }

  /** From an all-zero shard without resizes, the worker suggests expanding
      after exactly step 3, shrinking after exactly step 8, and staying otherwise. */
  lemma SuggestionScheduleFromZero(k: nat, t: nat)
    requires 0 < k && 1 <= t
    ensures SuggestionFor(AdvanceN(ZeroCounters(k), t)) == ShouldExpand <==> t == 3
    ensures SuggestionFor(AdvanceN(ZeroCounters(k), t)) == ShouldShrink <==> t == 8
  {
    AdvanceNAt(ZeroCounters(k), t);
  }

  /** One pass of the main loop body: every counter below the cap goes up by
      one, then the first counter decides the suggestion. */
  method Step(counters: array<int>) returns (suggestion: Suggestion)
    requires 0 < counters.Length
    modifies counters
    ensures counters[..] == Advance(old(counters[..]))
    ensures suggestion == SuggestionFor(counters[..])
  {
    for i := 0 to counters.Length
      invariant forall j :: 0 <= j < i ==> counters[j] == Bump(old(counters[j]))
      invariant forall j :: i <= j < counters.Length ==> counters[j] == old(counters[j])
    {
      if counters[i] < MaxCounterValue {
        counters[i] := counters[i] + 1;
      }
    }
    suggestion := ShouldStay;
    if counters[0] == 3 {
      suggestion := ShouldExpand;
    } else if counters[0] == 8 {
      suggestion := ShouldShrink;
    }
  }

  /** One more pass while work is left: it stays within the largest deficit
      and strictly lowers the work left. */
  lemma RunStep(start: seq<int>, steps: nat)
    requires AnyBelowMax(AdvanceN(start, steps))
    ensures steps + 1 <= MaxDeficit(start)
    ensures Remaining(AdvanceN(start, steps + 1)) < Remaining(AdvanceN(start, steps))
  {
    StillRunningIff(start, steps);
    AdvanceReducesRemaining(AdvanceN(start, steps));
  }

  /** The main loop of a worker whose membership never changes: it steps until
      `check_counters` reports no work left. It takes exactly as many steps as
      the largest distance from the cap, ends with no counter below the cap,
      and records the suggestion made after each step. */
  method RunWithoutResize(counters: array<int>) returns (steps: nat, suggestions: seq<Suggestion>)
    modifies counters
    ensures counters[..] == AdvanceN(old(counters[..]), steps)
    ensures !AnyBelowMax(counters[..])
    ensures steps == MaxDeficit(old(counters[..]))
    ensures |suggestions| == steps
    ensures forall t :: 0 <= t < steps ==> suggestions[t] == SuggestionFor(AdvanceN(old(counters[..]), t + 1))
  {
    ghost var start := counters[..];
    steps, suggestions := 0, [];
    assert counters[..counters.Length] == counters[..];
    var go := CheckCounters(counters, counters.Length);
    while go == 1
      invariant counters[..] == AdvanceN(start, steps)
      invariant go == 1 <==> AnyBelowMax(counters[..])
      invariant steps <= MaxDeficit(start)
      invariant |suggestions| == steps
      invariant forall t :: 0 <= t < steps ==> suggestions[t] == SuggestionFor(AdvanceN(start, t + 1))
      decreases Remaining(counters[..])
    {
      RunStep(start, steps);
      var suggestion := Step(counters);
      ghost var before := suggestions;
      steps, suggestions := steps + 1, suggestions + [suggestion];
      assert forall t :: 0 <= t < steps - 1 ==> suggestions[t] == before[t];
      assert counters[..counters.Length] == counters[..];
      go := CheckCounters(counters, counters.Length);
    }
    StillRunningIff(start, steps);
  }
}
