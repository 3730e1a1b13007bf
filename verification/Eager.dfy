/** Why proportional shares need a task to be queued again before its CPU takes the next
    one: with the opposite order two tasks alternate whatever their weights are. */
module Eager {
  import opened Wrappers
  import opened Params
  import opened Machine
  import opened Usage
  import opened Share

  /** One CPU, two tasks: `a` runs and `b` waits. */
  ghost predicate Duel(s: State, a: Tid, b: Tid) {
    a != b && s.tasks.Keys == {a, b} && At(s, a, OnCpu(0)) && At(s, b, Shared) && |s.stats| > 0
  }

  /** The CPU takes `b` first; only then is `a`, its slice used up, stopped and queued. */
  function Handover(a: Tid, b: Tid): seq<Label> {
    Takeover(a, b) + [Enqueue(a, 0)] + [Running(b, 0)]
  }

  function Takeover(a: Tid, b: Tid): seq<Label> {
    [] + [Dispatch(b, 0)] + [Countdown(a, 0)] + [Stopping(a, false)]
  }

  /** Between the stop of `a` and the start of `b`. */
  ghost predicate Between(s: State, a: Tid, b: Tid) {
    a != b && s.tasks.Keys == {a, b} && At(s, a, Off) && At(s, b, Local(0)) && |s.stats| > 0
  }

  ghost predicate SameSlices(s: State, s': State, a: Tid, b: Tid) {
    && a in s.tasks && b in s.tasks && a in s'.tasks && b in s'.tasks
    && SliceOf(s', a) == SliceOf(s, a) && SliceOf(s', b) == SliceOf(s, b)
  }

  lemma StopSteps(s: State, a: Tid, b: Tid) returns (s1: State, s2: State, s3: State)
    requires Duel(s, a, b)
    ensures Goes(s, Dispatch(b, 0), s1) && Goes(s1, Countdown(a, 0), s2) && Goes(s2, Stopping(a, false), s3)
    ensures a in s2.tasks && UsedOf(s2, a) == SliceOf(s, a) && Between(s3, a, b) && SameSlices(s, s3, a, b)
  {
    assert First(Exact, s, b);
    s1 := Step(Exact, s, Dispatch(b, 0)).value;
    s2 := Step(Exact, s1, Countdown(a, 0)).value;
    s3 := Step(Exact, s2, Stopping(a, false)).value;
  }

  lemma StartSteps(s: State, a: Tid, b: Tid) returns (s1: State, s2: State)
    requires Between(s, a, b)
    ensures Goes(s, Enqueue(a, 0), s1) && Goes(s1, Running(b, 0), s2)
    ensures Duel(s2, b, a) && SameSlices(s, s2, a, b)
  {
    s1 := Step(Exact, s, Enqueue(a, 0)).value;
    assert CpuFree(s1, 0);
    s2 := Step(Exact, s1, Running(b, 0)).value;
  }

  lemma TakeoverRun(s: State, a: Tid, b: Tid, k: Tid) returns (m: State)
    requires Duel(s, a, b)
    ensures Run(Exact, s, Takeover(a, b)) == Some(m) && Between(m, a, b) && SameSlices(s, m, a, b)
    ensures CpuTime(Exact, s, Takeover(a, b), k) == if k == a then SliceOf(s, a) else 0
  {
    var s1, s2, s3 := StopSteps(s, a, b);
    m := s3;
    NothingYet(s, k);
    ChainTwo(s, [], s, Dispatch(b, 0), s1, Countdown(a, 0), s2, k);
    Chain(s, [] + [Dispatch(b, 0)] + [Countdown(a, 0)], s2, Stopping(a, false), s3, k);
  }

  lemma HandoverRun(s: State, a: Tid, b: Tid, k: Tid) returns (s': State)
    requires Duel(s, a, b)
    ensures Run(Exact, s, Handover(a, b)) == Some(s') && Duel(s', b, a)
    ensures SliceOf(s', a) == SliceOf(s, a) && SliceOf(s', b) == SliceOf(s, b)
    ensures CpuTime(Exact, s, Handover(a, b), k) == if k == a then SliceOf(s, a) else 0
  {
    var m := TakeoverRun(s, a, b, k);
    var s4, s5 := StartSteps(m, a, b);
    s' := s5;
    ChainTwo(s, Takeover(a, b), m, Enqueue(a, 0), s4, Running(b, 0), s5, k);
  }

  function Rounds(a: Tid, b: Tid, n: nat): seq<Label> {
    if n == 0 then [] else Rounds(a, b, n - 1) + Handover(a, b) + Handover(b, a)
  }

  function Repeated(n: nat, x: nat): nat {
    if n == 0 then 0 else Repeated(n - 1, x) + x
  }

  lemma {:induction false} RepeatedIsProduct(n: nat, x: nat)
    ensures Repeated(n, x) == n * x
  {
    if n > 0 {
      RepeatedIsProduct(n - 1, x);
      assert n * x == (n - 1) * x + x;
    }
  }

  /** After `n` rounds from `s` the pair is as before and `k` was charged `total`. */
  ghost predicate Alternated(s: State, a: Tid, b: Tid, n: nat, k: Tid, s': State, total: nat) {
    && Run(Exact, s, Rounds(a, b, n)) == Some(s') && Duel(s', a, b) && SameSlices(s, s', a, b)
    && CpuTime(Exact, s, Rounds(a, b, n), k) == total
  }

  lemma {:induction false} EagerRounds(s: State, a: Tid, b: Tid, n: nat, k: Tid) returns (s': State)
    requires Duel(s, a, b) && k in {a, b}
    ensures Alternated(s, a, b, n, k, s', Repeated(n, SliceOf(s, k)))
  {
    if n == 0 {
      s' := s;
    } else {
      var m := EagerRounds(s, a, b, n - 1, k);
      s' := RoundRun(s, a, b, n, m, k, Repeated(n - 1, SliceOf(s, k)));
    }
  }

  /** Dispatching before the previous task is queued again gives either task a full slice
      per round, for any number of rounds and any pair of weights. */
  lemma EagerAlternation(s: State, a: Tid, b: Tid, n: nat, k: Tid)
    requires Duel(s, a, b) && k in {a, b}
    ensures Run(Exact, s, Rounds(a, b, n)).Some?
    ensures CpuTime(Exact, s, Rounds(a, b, n), k) == n * SliceOf(s, k)
  {
    var _ := EagerRounds(s, a, b, n, k);
    RepeatedIsProduct(n, SliceOf(s, k));
  }

  lemma RoundRun(s: State, a: Tid, b: Tid, n: nat, m: State, k: Tid, total: nat) returns (s': State)
    requires n > 0 && k in {a, b} && Alternated(s, a, b, n - 1, k, m, total)
    ensures Alternated(s, a, b, n, k, s', total + SliceOf(s, k))
  {
    var ls := Rounds(a, b, n - 1);
    var mid := HandoverRun(m, a, b, k);
    RunConcat(Exact, s, ls, m, Handover(a, b));
    CpuTimeConcat(s, ls, m, Handover(a, b), k);
    s' := HandoverRun(mid, b, a, k);
    RunConcat(Exact, s, ls + Handover(a, b), mid, Handover(b, a));
    CpuTimeConcat(s, ls + Handover(a, b), mid, Handover(b, a), k);
  }

  /** By how much the weighted CPU times differ after `n` rounds. */
  ghost function Drift(s: State, a: Tid, b: Tid, n: nat): real
    requires a in s.tasks && b in s.tasks
  {
    Weighted(CpuTime(Exact, s, Rounds(a, b, n), a), ParamsOf(s, a).tp) -
    Weighted(CpuTime(Exact, s, Rounds(a, b, n), b), ParamsOf(s, b).tp)
  }

  ghost predicate DriftsWithin(s: State, a: Tid, b: Tid, bound: nat)
    requires a in s.tasks && b in s.tasks
  {
    forall n: nat :: -(bound as real) <= Drift(s, a, b, n) <= bound as real
  }

  /** The slices are in the ratio of the weights. */
  predicate InRatio(sa: u64, sb: u64, pa: TaskParams, pb: TaskParams) {
    sa * Max(1, pb.weight) == sb * Max(1, pa.weight)
  }

  lemma EqualQuotients(x: real, y: real, d: real, e: real)
    requires d > 0.0 && e > 0.0 && x * e == y * d
    ensures x / d == y / e
  {
    assert x == x / d * d;
    assert (x / d) * (d * e) == y * d;
    assert (y / e) * (d * e) == y * d;
    assert (x / d - y / e) * (d * e) == 0.0;
  }

  lemma Scaled(n: nat, sa: nat, sb: nat, da: nat, db: nat)
    requires sa * db == sb * da
    ensures MAX_PRIO_WEIGHT * (n * sa) * db == MAX_PRIO_WEIGHT * (n * sb) * da
  {
    assert MAX_PRIO_WEIGHT * (n * sa) * db == MAX_PRIO_WEIGHT * n * (sa * db);
    assert MAX_PRIO_WEIGHT * (n * sb) * da == MAX_PRIO_WEIGHT * n * (sb * da);
  }

  lemma RatioEqual(n: nat, sa: u64, sb: u64, pa: TaskParams, pb: TaskParams)
    requires InRatio(sa, sb, pa, pb)
    ensures Weighted(n * sa, pa) == Weighted(n * sb, pb)
  {
    var da: nat, db: nat := Max(1, pa.weight), Max(1, pb.weight);
    Scaled(n, sa, sb, da, db);
    var x, y := MAX_PRIO_WEIGHT * (n * sa), MAX_PRIO_WEIGHT * (n * sb);
    assert (x * db) as real == x as real * db as real;
    assert (y * da) as real == y as real * da as real;
    EqualQuotients(x as real, y as real, da as real, db as real);
  }

  /** A CPU time that is a multiple of the divisor weighs a whole number. */
  lemma WeightedMultiple(x: nat, d: nat, tp: TaskParams)
    requires d == Max(1, tp.weight)
    ensures Weighted(x * d, tp) == (MAX_PRIO_WEIGHT * x) as real
  {
    assert MAX_PRIO_WEIGHT * (x * d) == (MAX_PRIO_WEIGHT * x) * d;
    var r, q := (MAX_PRIO_WEIGHT * x) as real, d as real;
    assert ((MAX_PRIO_WEIGHT * x) * d) as real == r * q;
    QuotientBounds(r * q, q, r, r);
  }

  /** Enough rounds for the drift to pass `bound`. */
  function RoundsBeyond(bound: nat, pa: TaskParams, pb: TaskParams): nat {
    var da: nat, db: nat := Max(1, pa.weight), Max(1, pb.weight);
    (bound + 1) * (da * db)
  }

  lemma Regroup(k: nat, da: nat, db: nat, slice: nat)
    ensures k * (da * db) * slice == k * (slice * db) * da == k * (slice * da) * db
  {
    assert k * (da * db) * slice == k * ((da * db) * slice);
    assert (da * db) * slice == (slice * db) * da == (slice * da) * db;
  }

  lemma GapBeyond(bound: nat, sa: u64, sb: u64, pa: TaskParams, pb: TaskParams)
    requires !InRatio(sa, sb, pa, pb)
    ensures var n := RoundsBeyond(bound, pa, pb);
            var drift := Weighted(n * sa, pa) - Weighted(n * sb, pb);
            drift > bound as real || drift < -(bound as real)
  {
    var da: nat, db: nat := Max(1, pa.weight), Max(1, pb.weight);
    var k: nat := bound + 1;
    var n: nat := RoundsBeyond(bound, pa, pb);
    var x: nat, y: nat := sa * db, sb * da;
    Regroup(k, da, db, sa);
    Regroup(k, da, db, sb);
    WeightedMultiple(k * x, da, pa);
    WeightedMultiple(k * y, db, pb);
    WholeGap(k, x, y);
  }

  lemma WholeGap(k: nat, x: nat, y: nat)
    requires k > 0 && x != y
    ensures MAX_PRIO_WEIGHT * (k * x) - MAX_PRIO_WEIGHT * (k * y) >= k
            || MAX_PRIO_WEIGHT * (k * y) - MAX_PRIO_WEIGHT * (k * x) >= k
  {
    if x > y {
      MulMonotone(1, x - y, k);
      assert (x - y) * k == k * x - k * y;
    } else {
      MulMonotone(1, y - x, k);
      assert (y - x) * k == k * y - k * x;
    }
  }

  lemma DriftAfter(s: State, a: Tid, b: Tid, n: nat)
    requires Duel(s, a, b)
    ensures Drift(s, a, b, n) ==
            Weighted(n * SliceOf(s, a), ParamsOf(s, a).tp) - Weighted(n * SliceOf(s, b), ParamsOf(s, b).tp)
  {
    EagerAlternation(s, a, b, n, a);
    EagerAlternation(s, a, b, n, b);
  }

  /** Exactly when shares stay proportional in that order: some bound on the difference of
      the weighted CPU times holds for all rounds if and only if the slices already are in
      the ratio of the weights. */
  lemma EagerExactness(s: State, a: Tid, b: Tid)
    requires Duel(s, a, b)
    ensures (exists bound: nat :: DriftsWithin(s, a, b, bound)) <==>
            InRatio(SliceOf(s, a), SliceOf(s, b), ParamsOf(s, a).tp, ParamsOf(s, b).tp)
  {
    var sa, sb, pa, pb := SliceOf(s, a), SliceOf(s, b), ParamsOf(s, a).tp, ParamsOf(s, b).tp;
    if InRatio(sa, sb, pa, pb) {
      forall n: nat
        ensures Drift(s, a, b, n) == 0.0
      {
        DriftAfter(s, a, b, n);
        RatioEqual(n, sa, sb, pa, pb);
      }
      assert DriftsWithin(s, a, b, 0);
    } else {
      forall bound: nat
        ensures !DriftsWithin(s, a, b, bound)
      {
        DriftAfter(s, a, b, RoundsBeyond(bound, pa, pb));
        GapBeyond(bound, sa, sb, pa, pb);
      }
    }
  }

  /** The agent writes two parameter records, and two processes start. */
  function Written(pa: TaskParams, pb: TaskParams): seq<Label> {
    [WriteMaps(map[1 := pa, 2 := pb], map[])] + [Enable(0, 1, 0)] + [Enable(1, 2, 0)]
  }

  function Started(pa: TaskParams, pb: TaskParams): seq<Label> {
    Written(pa, pb) + [Enqueue(0, 0)] + [Enqueue(1, 0)] + [Dispatch(0, 0)] + [Running(0, 0)]
  }

  ghost predicate Created(s: State, pa: TaskParams, pb: TaskParams) {
    && s.tasks.Keys == {0, 1} && At(s, 0, Off) && At(s, 1, Off) && |s.stats| == 1
    && s.tasks[0].vtime == s.tasks[1].vtime == s.now
    && ParamsOf(s, 0).tp == pa && ParamsOf(s, 1).tp == pb
  }

  lemma CreateSteps(pa: TaskParams, pb: TaskParams) returns (s: State)
    ensures Run(Exact, Init(1), Written(pa, pb)) == Some(s) && Created(s, pa, pb)
  {
    var w := WriteMaps(map[1 := pa, 2 := pb], map[]);
    var s1 := Step(Exact, Init(1), w).value;
    var s2 := Step(Exact, s1, Enable(0, 1, 0)).value;
    s := Step(Exact, s2, Enable(1, 2, 0)).value;
    RunThen(Init(1), [], Init(1), w, s1);
    assert [] + [w] == [w];
    RunThen(Init(1), [w], s1, Enable(0, 1, 0), s2);
    RunThen(Init(1), [w] + [Enable(0, 1, 0)], s2, Enable(1, 2, 0), s);
  }

  lemma StartDuel(s: State, pa: TaskParams, pb: TaskParams)
    returns (s1: State, s2: State, s3: State, s4: State)
    requires Created(s, pa, pb)
    ensures Goes(s, Enqueue(0, 0), s1) && Goes(s1, Enqueue(1, 0), s2)
    ensures Goes(s2, Dispatch(0, 0), s3) && Goes(s3, Running(0, 0), s4)
    ensures Duel(s4, 0, 1) && ParamsOf(s4, 0).tp == pa && ParamsOf(s4, 1).tp == pb
  {
    s1 := Step(Exact, s, Enqueue(0, 0)).value;
    s2 := Step(Exact, s1, Enqueue(1, 0)).value;
    assert First(Exact, s2, 0);
    s3 := Step(Exact, s2, Dispatch(0, 0)).value;
    assert CpuFree(s3, 0);
    s4 := Step(Exact, s3, Running(0, 0)).value;
  }

  /** Such a pair is reachable from boot, with any two parameter records. */
  lemma DuelReachable(pa: TaskParams, pb: TaskParams) returns (s: State)
    ensures Run(Exact, Init(1), Started(pa, pb)) == Some(s)
    ensures Duel(s, 0, 1) && ParamsOf(s, 0).tp == pa && ParamsOf(s, 1).tp == pb
  {
    var s0 := CreateSteps(pa, pb);
    var ls := Written(pa, pb);
    var s1, s2, s3, s4 := StartDuel(s0, pa, pb);
    s := s4;
    RunThen(Init(1), ls, s0, Enqueue(0, 0), s1);
    RunThen(Init(1), ls + [Enqueue(0, 0)], s1, Enqueue(1, 0), s2);
    RunThen(Init(1), ls + [Enqueue(0, 0)] + [Enqueue(1, 0)], s2, Dispatch(0, 0), s3);
    RunThen(Init(1), ls + [Enqueue(0, 0)] + [Enqueue(1, 0)] + [Dispatch(0, 0)], s3, Running(0, 0), s);
  }

  /** A task of weight 10000 and one of weight 1, both with full slices, drift apart beyond
      every bound. */
  lemma EagerUnfair() returns (s: State)
    ensures Run(Exact, Init(1), Started(TaskParams(10_000, 0), TaskParams(1, 0))) == Some(s) && Duel(s, 0, 1)
    ensures forall bound: nat :: !DriftsWithin(s, 0, 1, bound)
  {
    s := DuelReachable(TaskParams(10_000, 0), TaskParams(1, 0));
    EagerExactness(s, 0, 1);
  }
}
