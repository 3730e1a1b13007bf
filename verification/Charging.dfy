/** CPU time charged against CPU time used, whatever happens to the parameters. A stop
    looks the parameters up again, so it may charge from another slice than the one the
    task was given. */
module Charging {
  import opened Wrappers
  import opened Params
  import opened Machine
  import opened Usage

  predicate Starts(l: Label, k: Tid) {
    l.Running? && l.t == k
  }

  /** How far the kernel raises `k`'s slice while it runs. */
  function RefilledAt(o: Option<State>, l: Label, k: Tid): nat {
    if o.Some? && l.Countdown? && l.t == k && k in o.value.tasks && l.remaining > o.value.tasks[k].slice
    then l.remaining - o.value.tasks[k].slice else 0
  }

  /** By how much `k` was refilled along a run. */
  function Refilled(s: State, ls: seq<Label>, k: Tid): nat {
    if ls == [] then 0
    else
      var most := ls[..|ls| - 1];
      Refilled(s, most, k) + RefilledAt(Run(Exact, s, most), ls[|ls| - 1], k)
  }

  /** What `k` was given since it last started to run: the slice it started with, or has in
      `s` if it did not start since, and every refill after that. */
  function Given(s: State, ls: seq<Label>, k: Tid): nat {
    if ls == [] then if k in s.tasks then s.tasks[k].slice else 0
    else
      var most := ls[..|ls| - 1];
      GivenAfter(Run(Exact, s, most), Given(s, most, k), ls[|ls| - 1], k)
  }

  function GivenAfter(o: Option<State>, given: nat, l: Label, k: Tid): nat {
    if o.Some? && Starts(l, k) && k in o.value.tasks then o.value.tasks[k].slice
    else given + RefilledAt(o, l, k)
  }

  /** What a stop charges beyond what `k` used of the `given` time. */
  function ExcessAt(o: Option<State>, given: nat, l: Label, k: Tid): int {
    if o.Some? && l.Stopping? && l.t == k && k in o.value.tasks
    then UsedOf(o.value, k) - (given - o.value.tasks[k].slice) else 0
  }

  function Excess(s: State, ls: seq<Label>, k: Tid): int {
    if ls == [] then 0
    else
      var most := ls[..|ls| - 1];
      Excess(s, most, k) + ExcessAt(Run(Exact, s, most), Given(s, most, k), ls[|ls| - 1], k)
  }

  /** What `k` has used since it started and was not charged for yet. */
  function Uncharged(s: State, given: nat, k: Tid): int {
    if k in s.tasks && s.tasks[k].place.OnCpu? then given - s.tasks[k].slice else 0
  }

  lemma StepCharge(s: State, l: Label, s': State, k: Tid, given: nat)
    requires Step(Exact, s, l) == Some(s')
    ensures UsedAt(Some(s), l, k) + Uncharged(s', GivenAfter(Some(s), given, l, k), k) ==
            RanAt(Some(s), l, k) + ExcessAt(Some(s), given, l, k) + Uncharged(s, given, k)
  {
  }

  /** The account of every run from every state, with parameters changing and slices being
      refilled at any time: what was charged, and is still open, is the CPU time used plus
      the excess of each stop. */
  lemma {:induction false} ChargeAccount(s: State, ls: seq<Label>, k: Tid)
    requires Run(Exact, s, ls).Some?
    ensures CpuTime(Exact, s, ls, k) + Uncharged(Run(Exact, s, ls).value, Given(s, ls, k), k) ==
            RunTime(s, ls, k) + Excess(s, ls, k)
  {
    if ls != [] {
      var most := ls[..|ls| - 1];
      ChargeAccount(s, most, k);
      StepCharge(Run(Exact, s, most).value, ls[|ls| - 1], Run(Exact, s, ls).value, k, Given(s, most, k));
    }
  }

  /** The given time that makes a stop with `left` remaining exact under a slice of `full`. */
  function ExactlyGiven(full: u64, left: u64): nat {
    if left <= full then full else full + left
  }

  /** The excess of one stop is how far the given time was below the exact one. */
  lemma StopExcess(s: State, k: Tid, given: nat, keep: bool)
    requires k in s.tasks
    ensures ExcessAt(Some(s), given, Stopping(k, keep), k) == ExactlyGiven(SliceOf(s, k), s.tasks[k].slice) - given
  {
  }

  /** `k` runs and is not stopped during the run. */
  ghost predicate Stint(s: State, ls: seq<Label>, k: Tid) {
    && Run(Exact, s, ls).Some? && k in s.tasks && s.tasks[k].place.OnCpu?
    && forall n | 0 <= n < |ls| :: !(ls[n].Stopping? && ls[n].t == k)
  }

  lemma StepStint(s: State, l: Label, s': State, k: Tid)
    requires Step(Exact, s, l) == Some(s') && k in s.tasks && s.tasks[k].place.OnCpu?
    requires !(l.Stopping? && l.t == k)
    ensures k in s'.tasks && s'.tasks[k].place.OnCpu?
    ensures s'.tasks[k].slice == s.tasks[k].slice + RefilledAt(Some(s), l, k) - RanAt(Some(s), l, k)
  {
  }

  /** Over a stint, what was used is what was there at the start and refilled since, less
      what is left. */
  lemma {:induction false} StintRunTime(s: State, ls: seq<Label>, k: Tid)
    requires Stint(s, ls, k)
    ensures var e := Run(Exact, s, ls).value;
            && k in e.tasks && e.tasks[k].place.OnCpu?
            && RunTime(s, ls, k) == s.tasks[k].slice + Refilled(s, ls, k) - e.tasks[k].slice
  {
    if ls != [] {
      var most := ls[..|ls| - 1];
      StintRunTime(s, most, k);
      assert !(ls[|ls| - 1].Stopping? && ls[|ls| - 1].t == k);
      StepStint(Run(Exact, s, most).value, ls[|ls| - 1], Run(Exact, s, ls).value, k);
    }
  }

  /** Exactly when a stop charges the CPU time used since the start, for any changes of
      parameters and any refills in between: if and only if the slice at the start and the
      refills add up to the slice the parameters give at the stop, or, with more than that
      left, to that slice and what is left. With less it charges more, with more it charges
      less. */
  lemma StopExactness(s: State, ls: seq<Label>, k: Tid)
    requires Stint(s, ls, k)
    ensures var e := Run(Exact, s, ls).value;
            && k in e.tasks
            && var given, exact := s.tasks[k].slice + Refilled(s, ls, k),
                                   ExactlyGiven(SliceOf(e, k), e.tasks[k].slice);
            && (UsedOf(e, k) == RunTime(s, ls, k) <==> given == exact)
            && (UsedOf(e, k) > RunTime(s, ls, k) <==> given < exact)
            && (UsedOf(e, k) < RunTime(s, ls, k) <==> given > exact)
  {
    StintRunTime(s, ls, k);
  }

  /** A process starts with the given parameters and is placed on the idle CPU. */
  function Boot(tp: TaskParams): seq<Label> {
    [WriteMaps(map[1 := tp], map[])] + [Enable(0, 1, 0)] + [SelectIdle(0, 0, 0)] + [Running(0, 0)]
  }

  lemma BootSteps(tp: TaskParams) returns (s1: State, s2: State, s3: State, s4: State)
    ensures Goes(Init(1), WriteMaps(map[1 := tp], map[]), s1) && Goes(s1, Enable(0, 1, 0), s2)
    ensures Goes(s2, SelectIdle(0, 0, 0), s3) && Goes(s3, Running(0, 0), s4)
    ensures Fresh(s4, 0, 0) && ParamsOf(s4, 0).tp == tp && s4.tasks[0].tgid == 1 && s4.tasks[0].cgid == 0
  {
    s1 := Step(Exact, Init(1), WriteMaps(map[1 := tp], map[])).value;
    s2 := Step(Exact, s1, Enable(0, 1, 0)).value;
    s3 := Step(Exact, s2, SelectIdle(0, 0, 0)).value;
    assert CpuFree(s3, 0);
    s4 := Step(Exact, s3, Running(0, 0)).value;
  }

  /** A task that just started with its full slice is reachable under any parameters. */
  lemma FreshReachable(tp: TaskParams) returns (s: State)
    ensures Run(Exact, Init(1), Boot(tp)) == Some(s)
    ensures Fresh(s, 0, 0) && ParamsOf(s, 0).tp == tp && s.tasks[0].tgid == 1 && s.tasks[0].cgid == 0
  {
    var w := WriteMaps(map[1 := tp], map[]);
    var s1, s2, s3, s4 := BootSteps(tp);
    s := s4;
    RunThen(Init(1), [], Init(1), w, s1);
    assert [] + [w] == [w];
    RunThen(Init(1), [w], s1, Enable(0, 1, 0), s2);
    RunThen(Init(1), [w] + [Enable(0, 1, 0)], s2, SelectIdle(0, 0, 0), s3);
    RunThen(Init(1), [w] + [Enable(0, 1, 0)] + [SelectIdle(0, 0, 0)], s3, Running(0, 0), s);
  }

  /** The agent rewrites the maps while the task runs, and the task runs on. */
  function Rewritten(byTgid: TgidMap, left: u64): seq<Label> {
    [WriteMaps(byTgid, map[])] + [Countdown(0, left)]
  }

  lemma RewrittenRun(s: State, byTgid: TgidMap, left: u64) returns (e: State)
    requires Fresh(s, 0, 0)
    ensures Run(Exact, s, Rewritten(byTgid, left)) == Some(e) && Stint(s, Rewritten(byTgid, left), 0)
    ensures 0 in e.tasks && e.tasks[0].place.OnCpu? && e.tasks[0].slice == left
    ensures ParamsOf(e, 0) == Lookup(byTgid, map[], s.tasks[0].tgid, s.tasks[0].cgid)
    ensures left <= s.tasks[0].slice ==> Refilled(s, Rewritten(byTgid, left), 0) == 0
  {
    var w := WriteMaps(byTgid, map[]);
    var s1 := Step(Exact, s, w).value;
    e := Step(Exact, s1, Countdown(0, left)).value;
    assert [] + [w] == [w];
    RefilledThen(s, [], s, w, s1);
    RefilledThen(s, [w], s1, Countdown(0, left), e);
  }

  /** A task with a budget of 1 ms whose entry is removed while it runs uses 1 ms and is
      charged for 5 ms. */
  lemma RemovedPaysMore() returns (s: State, e: State)
    ensures Run(Exact, Init(1), Boot(TaskParams(1_000, 1_000_000))) == Some(s) && Fresh(s, 0, 0)
    ensures var ls := Rewritten(map[], 0);
            && Run(Exact, s, ls) == Some(e) && RunTime(s, ls, 0) == 1_000_000
            && Step(Exact, e, Stopping(0, false)).Some? && UsedOf(e, 0) == 5_000_000
  {
    s := FreshReachable(TaskParams(1_000, 1_000_000));
    e := RewrittenRun(s, map[], 0);
    StintRunTime(s, Rewritten(map[], 0), 0);
  }

  /** A task without a budget that is given one of 1 ms while it runs uses 3 ms and is
      charged for 1 ms. */
  lemma LoweredPaysLess() returns (s: State, e: State)
    ensures Run(Exact, Init(1), Boot(TaskParams(1_000, 0))) == Some(s) && Fresh(s, 0, 0)
    ensures var ls := Rewritten(map[1 := TaskParams(1_000, 1_000_000)], 2_000_000);
            && Run(Exact, s, ls) == Some(e) && RunTime(s, ls, 0) == 3_000_000
            && Step(Exact, e, Stopping(0, false)).Some? && UsedOf(e, 0) == 1_000_000
  {
    s := FreshReachable(TaskParams(1_000, 0));
    e := RewrittenRun(s, map[1 := TaskParams(1_000, 1_000_000)], 2_000_000);
    StintRunTime(s, Rewritten(map[1 := TaskParams(1_000, 1_000_000)], 2_000_000), 0);
  }

  /** A task that uses its slice up, is refilled by the kernel and uses that up too. */
  function Refill(): seq<Label> {
    [Countdown(0, 0)] + [Countdown(0, SCX_SLICE_DFL)] + [Countdown(0, 0)]
  }

  lemma RefillRun(s: State) returns (e: State)
    requires Fresh(s, 0, 0)
    ensures Run(Exact, s, Refill()) == Some(e) && Stint(s, Refill(), 0) && ParamsOf(e, 0) == ParamsOf(s, 0)
    ensures Refilled(s, Refill(), 0) == SCX_SLICE_DFL
    ensures 0 in e.tasks && e.tasks[0].place.OnCpu? && e.tasks[0].slice == 0
  {
    var down, up := Countdown(0, 0), Countdown(0, SCX_SLICE_DFL);
    var s1 := Step(Exact, s, down).value;
    var s2 := Step(Exact, s1, up).value;
    e := Step(Exact, s2, down).value;
    assert [] + [down] == [down];
    RefilledThen(s, [], s, down, s1);
    RefilledThen(s, [down], s1, up, s2);
    RefilledThen(s, [down] + [up], s2, down, e);
  }

  lemma RefilledThen(s: State, ls: seq<Label>, m: State, l: Label, m': State)
    requires Run(Exact, s, ls) == Some(m) && Goes(m, l, m')
    ensures Run(Exact, s, ls + [l]) == Some(m')
    ensures Refilled(s, ls + [l], 0) == Refilled(s, ls, 0) + RefilledAt(Some(m), l, 0)
  {
    RunThen(s, ls, m, l, m');
    assert (ls + [l])[..|ls|] == ls;
  }

  /** Under parameters that never change, such a task runs for 25 ms and is charged for 5 ms,
      although it started with its full slice and nothing is left. */
  lemma RefilledPaysLess() returns (s: State, e: State)
    ensures Run(Exact, Init(1), Boot(TaskParams(1_000, 0))) == Some(s) && Fresh(s, 0, 0)
    ensures Run(Exact, s, Refill()) == Some(e) && RunTime(s, Refill(), 0) == 25_000_000
    ensures Step(Exact, e, Stopping(0, false)).Some? && UsedOf(e, 0) == 5_000_000
  {
    s := FreshReachable(TaskParams(1_000, 0));
    e := RefillRun(s);
    StintRunTime(s, Refill(), 0);
  }
}
