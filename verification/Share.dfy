/** Fairness of the shared queue when a CPU runs what it dispatches: the queue window
    for any number of CPUs, and proportional shares on one. */
module Share {
  import opened Wrappers
  import opened Params
  import opened Machine
  import opened Window
  import opened Usage

  /** `Turn` is a dispatch followed at once by the task starting to run. */
  datatype Move = Plain(l: Label) | Turn(t: Tid, cpu: Cpu)

  /** No idle shortcut, and a stopped task goes back through the queue. */
  predicate Allowed(l: Label) {
    !l.SelectIdle? && !l.Dispatch? && !l.Running? && !(l.Stopping? && l.keep)
  }

  function MoveStep(s: State, m: Move): Option<State> {
    match m
    case Plain(l) => if Allowed(l) then Step(Exact, s, l) else None
    case Turn(t, cpu) =>
      match Step(Exact, s, Dispatch(t, cpu))
      case None => None
      case Some(mid) => Step(Exact, mid, Running(t, cpu))
  }

  function MoveRun(s: State, ms: seq<Move>): Option<State> {
    if ms == [] then Some(s)
    else
      match MoveRun(s, ms[..|ms| - 1])
      case None => None
      case Some(mid) => MoveStep(mid, ms[|ms| - 1])
  }

  /** The labels a run of moves consists of. */
  function Labels(ms: seq<Move>): seq<Label> {
    if ms == [] then []
    else
      Labels(ms[..|ms| - 1]) +
      match ms[|ms| - 1]
      case Plain(l) => [l]
      case Turn(t, cpu) => [Dispatch(t, cpu), Running(t, cpu)]
  }

  /** Moves only restrict the machine: a run of moves is a run of its labels, so what
      holds of all runs holds of these. */
  lemma {:induction false} MoveRunIsRun(s: State, ms: seq<Move>)
    requires MoveRun(s, ms).Some?
    ensures Run(Exact, s, Labels(ms)) == MoveRun(s, ms)
  {
    if ms != [] {
      var most := ms[..|ms| - 1];
      MoveRunIsRun(s, most);
      match ms[|ms| - 1]
      case Plain(l) => RunSnoc(Exact, s, Labels(most), l);
      case Turn(t, cpu) =>
        RunSnoc(Exact, s, Labels(most), Dispatch(t, cpu));
        RunSnoc(Exact, s, Labels(most) + [Dispatch(t, cpu)], Running(t, cpu));
        assert Labels(most) + [Dispatch(t, cpu)] + [Running(t, cpu)] == Labels(ms);
    }
  }

  /** What a turn does: the queue's minimum runs and the clock catches up with it. */
  lemma TurnEffect(s: State, t: Tid, cpu: Cpu, s': State)
    requires MoveStep(s, Turn(t, cpu)) == Some(s')
    ensures First(Exact, s, t)
    ensures s' == Put(s, t, s.tasks[t].(place := OnCpu(cpu)))
                  .(now := if s.now < s.tasks[t].vtime then s.tasks[t].vtime else s.now)
  {
    var mid := Step(Exact, s, Dispatch(t, cpu)).value;
    assert mid.tasks[t := mid.tasks[t].(place := OnCpu(cpu))] == s.tasks[t := s.tasks[t].(place := OnCpu(cpu))];
  }

  /** Queue window of one task: a queued key is never more than one default slice behind. */
  ghost predicate Placed(s: State, t: Tid) {
    t in s.tasks ==>
      && !s.tasks[t].place.Local?
      && (s.tasks[t].place.Shared? ==> s.now - DEFAULT_SLICE_NS <= s.tasks[t].vtime)
  }

  lemma MovePlaced(s: State, m: Move, s': State, t: Tid)
    requires MoveStep(s, m) == Some(s') && Placed(s, t)
    ensures Placed(s', t)
  {
    match m
    case Plain(l) => StepClock(s, l, s');
    case Turn(u, cpu) => TurnEffect(s, u, cpu, s');
  }

  ghost predicate MoveChargesAtMost(s: State, m: Move, t: Tid, c: int) {
    m.Plain? ==> ChargesAtMost(s, m.l, t, c)
  }

  lemma MoveWithin(s: State, m: Move, s': State, t: Tid, c: int)
    requires MoveStep(s, m) == Some(s') && 0 <= c
    requires Within(s, t, c) && MoveChargesAtMost(s, m, t, c)
    ensures Within(s', t, c)
  {
    match m
    case Plain(l) => StepWithin(s, l, s', t, c);
    case Turn(u, cpu) => TurnEffect(s, u, cpu, s');
  }

  lemma {:induction false} AlwaysPlaced(cpus: nat, ms: seq<Move>, t: Tid)
    requires MoveRun(Init(cpus), ms).Some?
    ensures Placed(MoveRun(Init(cpus), ms).value, t)
  {
    if ms != [] {
      var most := ms[..|ms| - 1];
      AlwaysPlaced(cpus, most, t);
      MovePlaced(MoveRun(Init(cpus), most).value, ms[|ms| - 1], MoveRun(Init(cpus), ms).value, t);
    }
  }

  /** Queue window, in every reachable state and not only at enqueue time. */
  lemma QueueWindow(cpus: nat, ms: seq<Move>, t: Tid)
    requires MoveRun(Init(cpus), ms).Some? && At(MoveRun(Init(cpus), ms).value, t, Shared)
    ensures var s := MoveRun(Init(cpus), ms).value;
            s.now - DEFAULT_SLICE_NS <= s.tasks[t].vtime <= s.now + MAX_CHARGE
  {
    AlwaysPlaced(cpus, ms, t);
    MoveRunIsRun(Init(cpus), ms);
    GlobalWindow(cpus, Labels(ms));
    assert Within(MoveRun(Init(cpus), ms).value, t, MAX_CHARGE);
  }

  predicate Stops(m: Move, k: Tid) {
    m.Plain? && m.l.Stopping? && m.l.t == k
  }

  function StopCount(ms: seq<Move>, k: Tid): nat {
    if ms == [] then 0 else StopCount(ms[..|ms| - 1], k) + if Stops(ms[|ms| - 1], k) then 1 else 0
  }

  function MoveUsed(o: Option<State>, m: Move, k: Tid): nat {
    if m.Plain? then UsedAt(o, m.l, k) else 0
  }

  function MoveRan(o: Option<State>, m: Move, k: Tid): nat {
    if m.Plain? then RanAt(o, m.l, k) else 0
  }

  function MoveCharged(o: Option<State>, m: Move, k: Tid): int {
    if o.Some? && Stops(m, k) && k in o.value.tasks then ChargeOf(o.value, k) else 0
  }

  /** CPU time charged and used, move by move. */
  lemma MoveTimes(s: State, ms: seq<Move>, k: Tid)
    requires ms != [] && MoveRun(s, ms).Some?
    ensures var most, m := ms[..|ms| - 1], ms[|ms| - 1];
            && CpuTime(Exact, s, Labels(ms), k) == CpuTime(Exact, s, Labels(most), k) + MoveUsed(MoveRun(s, most), m, k)
            && RunTime(s, Labels(ms), k) == RunTime(s, Labels(most), k) + MoveRan(MoveRun(s, most), m, k)
  {
    var most := ms[..|ms| - 1];
    MoveRunIsRun(s, most);
    match ms[|ms| - 1]
    case Plain(l) =>
      CpuTimeSnoc(s, Labels(most), l, k);
      RunTimeSnoc(s, Labels(most), l, k);
    case Turn(t, cpu) =>
      TurnTimes(s, Labels(most), t, cpu, k);
  }

  lemma TurnTimes(s: State, ls: seq<Label>, t: Tid, cpu: Cpu, k: Tid)
    ensures CpuTime(Exact, s, ls + [Dispatch(t, cpu), Running(t, cpu)], k) == CpuTime(Exact, s, ls, k)
    ensures RunTime(s, ls + [Dispatch(t, cpu), Running(t, cpu)], k) == RunTime(s, ls, k)
  {
    CpuTimeSnoc(s, ls, Dispatch(t, cpu), k);
    CpuTimeSnoc(s, ls + [Dispatch(t, cpu)], Running(t, cpu), k);
    RunTimeSnoc(s, ls, Dispatch(t, cpu), k);
    RunTimeSnoc(s, ls + [Dispatch(t, cpu)], Running(t, cpu), k);
    assert ls + [Dispatch(t, cpu)] + [Running(t, cpu)] == ls + [Dispatch(t, cpu), Running(t, cpu)];
  }

  /** Virtual time `k` was charged during the run. */
  function Charged(s: State, ms: seq<Move>, k: Tid): int {
    if ms == [] then 0
    else
      var most := ms[..|ms| - 1];
      Charged(s, most, k) + MoveCharged(MoveRun(s, most), ms[|ms| - 1], k)
  }

  /** One step of a run in which `k` keeps the parameters `tp` whenever it is charged. */
  ghost predicate SteadyStep(s: State, m: Move, k: Tid, tp: TaskParams) {
    Stops(m, k) && k in s.tasks ==> ParamsOf(s, k).tp == tp
  }

  ghost predicate Steady(s: State, ms: seq<Move>, k: Tid, tp: TaskParams) {
    forall n | 0 <= n < |ms| && MoveRun(s, ms[..n]).Some? ::
      SteadyStep(MoveRun(s, ms[..n]).value, ms[n], k, tp)
  }

  /** One CPU, and `k` stays runnable: whenever a task is handed out, none is running
      and `k` is queued. */
  ghost predicate RunnableStep(s: State, m: Move, k: Tid) {
    && m != Plain(Leave(k))
    && (m.Turn? ==> At(s, k, Shared) && forall u | u in s.tasks :: !s.tasks[u].place.OnCpu?)
  }

  ghost predicate Runnable(s: State, ms: seq<Move>, k: Tid) {
    forall n | 0 <= n < |ms| && MoveRun(s, ms[..n]).Some? ::
      RunnableStep(MoveRun(s, ms[..n]).value, ms[n], k)
  }

  lemma SteadyPrefix(s: State, ms: seq<Move>, k: Tid, tp: TaskParams)
    requires ms != [] && Steady(s, ms, k, tp)
    ensures Steady(s, ms[..|ms| - 1], k, tp)
    ensures MoveRun(s, ms[..|ms| - 1]).Some? ==>
              SteadyStep(MoveRun(s, ms[..|ms| - 1]).value, ms[|ms| - 1], k, tp)
  {
    var most := ms[..|ms| - 1];
    assert forall n | 0 <= n < |most| :: most[..n] == ms[..n] && most[n] == ms[n];
  }

  lemma RunnablePrefix(s: State, ms: seq<Move>, k: Tid)
    requires ms != [] && Runnable(s, ms, k)
    ensures Runnable(s, ms[..|ms| - 1], k)
    ensures MoveRun(s, ms[..|ms| - 1]).Some? ==>
              RunnableStep(MoveRun(s, ms[..|ms| - 1]).value, ms[|ms| - 1], k)
  {
    var most := ms[..|ms| - 1];
    assert forall n | 0 <= n < |most| :: most[..n] == ms[..n] && most[n] == ms[n];
  }

  /** What one full slice costs under `tp`. */
  function FullCharge(tp: TaskParams): int {
    Charge(tp.weight, TaskSlice(tp))
  }

  lemma SteadyCharge(s: State, k: Tid, tp: TaskParams)
    requires k in s.tasks && ParamsOf(s, k).tp == tp
    ensures 0 <= ChargeOf(s, k) <= FullCharge(tp)
    ensures ChargeOf(s, k) * Max(1, tp.weight) <= MAX_PRIO_WEIGHT * UsedOf(s, k)
    ensures MAX_PRIO_WEIGHT * UsedOf(s, k) <= (ChargeOf(s, k) + 1) * Max(1, tp.weight)
  {
    ChargeMonotone(tp.weight, UsedOf(s, k), TaskSlice(tp));
    ChargeBounds(tp.weight, UsedOf(s, k));
  }

  lemma {:induction false} SteadyWithin(cpus: nat, ms: seq<Move>, k: Tid, tp: TaskParams)
    requires MoveRun(Init(cpus), ms).Some? && Steady(Init(cpus), ms, k, tp)
    ensures 0 <= FullCharge(tp) && Within(MoveRun(Init(cpus), ms).value, k, FullCharge(tp))
  {
    ChargeBounds(tp.weight, TaskSlice(tp));
    if ms != [] {
      var most, m := ms[..|ms| - 1], ms[|ms| - 1];
      SteadyPrefix(Init(cpus), ms, k, tp);
      SteadyWithin(cpus, most, k, tp);
      var s := MoveRun(Init(cpus), most).value;
      if Stops(m, k) && k in s.tasks {
        SteadyCharge(s, k, tp);
      }
      MoveWithin(s, m, MoveRun(Init(cpus), ms).value, k, FullCharge(tp));
    }
  }

  /** The band a continuously runnable task stays in. */
  ghost predicate InBand(s: State, k: Tid, tp: TaskParams) {
    && k in s.tasks
    && Within(s, k, FullCharge(tp))
    && s.now - DEFAULT_SLICE_NS <= s.tasks[k].vtime
  }

  /** In the band the wakeup clamp never fires: only stops move the task, by their charge. */
  lemma BandStep(s: State, m: Move, s': State, k: Tid, tp: TaskParams)
    requires MoveStep(s, m) == Some(s') && InBand(s, k, tp)
    requires SteadyStep(s, m, k, tp) && RunnableStep(s, m, k)
    ensures InBand(s', k, tp)
    ensures s'.tasks[k].vtime == s.tasks[k].vtime + if Stops(m, k) then ChargeOf(s, k) else 0
  {
    ChargeBounds(tp.weight, TaskSlice(tp));
    if Stops(m, k) {
      SteadyCharge(s, k, tp);
    }
    MoveWithin(s, m, s', k, FullCharge(tp));
    match m
    case Plain(l) => StepClock(s, l, s');
    case Turn(u, cpu) => TurnEffect(s, u, cpu, s');
  }

  /** `gained` is the weighted CPU time rounded down by at most `stops`. */
  ghost predicate Accounts(gained: int, cpuTime: nat, stops: nat, tp: TaskParams) {
    && gained * Max(1, tp.weight) <= MAX_PRIO_WEIGHT * cpuTime
    && MAX_PRIO_WEIGHT * cpuTime <= (gained + stops) * Max(1, tp.weight)
  }

  lemma AccountsStop(gained: int, cpuTime: nat, stops: nat, tp: TaskParams, s: State, k: Tid)
    requires Accounts(gained, cpuTime, stops, tp)
    requires k in s.tasks && ParamsOf(s, k).tp == tp
    ensures Accounts(gained + ChargeOf(s, k), cpuTime + UsedOf(s, k), stops + 1, tp)
  {
    SteadyCharge(s, k, tp);
    var d, charge := Max(1, tp.weight), ChargeOf(s, k);
    assert (gained + charge) * d == gained * d + charge * d;
    assert (gained + charge + (stops + 1)) * d == (gained + stops) * d + (charge + 1) * d;
  }

  /** The sums `gained`, `cpuTime` and `stops` become these by the move. */
  ghost predicate Adds(s: State, m: Move, k: Tid, gained: int, cpuTime: nat, stops: nat,
                       gained': int, cpuTime': nat, stops': nat)
  {
    && gained' == gained + MoveCharged(Some(s), m, k)
    && cpuTime' == cpuTime + MoveUsed(Some(s), m, k)
    && stops' == stops + (if Stops(m, k) then 1 else 0)
    && (Stops(m, k) ==> k in s.tasks)
  }

  /** One move keeps the account. */
  lemma AccountsMove(s: State, m: Move, k: Tid, tp: TaskParams, gained: int, cpuTime: nat, stops: nat,
                     gained': int, cpuTime': nat, stops': nat)
    requires Accounts(gained, cpuTime, stops, tp) && SteadyStep(s, m, k, tp)
    requires Adds(s, m, k, gained, cpuTime, stops, gained', cpuTime', stops')
    ensures Accounts(gained', cpuTime', stops', tp)
  {
    if Stops(m, k) {
      AccountsStop(gained, cpuTime, stops, tp, s, k);
    }
  }

  /** What was charged is the weighted CPU time, rounded down by less than one unit per stop. */
  ghost predicate Accounted(s: State, ms: seq<Move>, k: Tid, tp: TaskParams) {
    Accounts(Charged(s, ms, k), CpuTime(Exact, s, Labels(ms), k), StopCount(ms, k), tp)
  }

  lemma StopsPresent(s: State, m: Move, k: Tid)
    requires MoveStep(s, m).Some? && Stops(m, k)
    ensures k in s.tasks
  {
  }

  lemma MoveSums(s: State, ms: seq<Move>, k: Tid, mid: State)
    requires ms != [] && MoveRun(s, ms).Some? && MoveRun(s, ms[..|ms| - 1]) == Some(mid)
    ensures var most := ms[..|ms| - 1];
            Adds(mid, ms[|ms| - 1], k, Charged(s, most, k), CpuTime(Exact, s, Labels(most), k), StopCount(most, k),
                 Charged(s, ms, k), CpuTime(Exact, s, Labels(ms), k), StopCount(ms, k))
  {
    MoveTimes(s, ms, k);
    if Stops(ms[|ms| - 1], k) {
      StopsPresent(mid, ms[|ms| - 1], k);
    }
  }

  lemma {:induction false} ChargedAccounts(s: State, ms: seq<Move>, k: Tid, tp: TaskParams)
    requires MoveRun(s, ms).Some? && Steady(s, ms, k, tp)
    ensures Accounted(s, ms, k, tp)
  {
    if ms != [] {
      var most := ms[..|ms| - 1];
      SteadyPrefix(s, ms, k, tp);
      ChargedAccounts(s, most, k, tp);
      var mid := MoveRun(s, most).value;
      MoveSums(s, ms, k, mid);
      AccountsMove(mid, ms[|ms| - 1], k, tp,
                   Charged(s, most, k), CpuTime(Exact, s, Labels(most), k), StopCount(most, k),
                   Charged(s, ms, k), CpuTime(Exact, s, Labels(ms), k), StopCount(ms, k));
    }
  }

  /** A runnable task stays in its band, and its virtual time moves by its charges alone. */
  lemma {:induction false} BandRun(s: State, ms: seq<Move>, k: Tid, tp: TaskParams)
    requires MoveRun(s, ms).Some? && InBand(s, k, tp)
    requires Steady(s, ms, k, tp) && Runnable(s, ms, k)
    ensures InBand(MoveRun(s, ms).value, k, tp)
    ensures MoveRun(s, ms).value.tasks[k].vtime == s.tasks[k].vtime + Charged(s, ms, k)
  {
    if ms != [] {
      var most, m := ms[..|ms| - 1], ms[|ms| - 1];
      SteadyPrefix(s, ms, k, tp);
      RunnablePrefix(s, ms, k);
      BandRun(s, most, k, tp);
      BandStep(MoveRun(s, most).value, m, MoveRun(s, ms).value, k, tp);
    }
  }

  /** CPU time over weight, on the scale virtual time uses. */
  function Weighted(cpuTime: nat, tp: TaskParams): real {
    (MAX_PRIO_WEIGHT * cpuTime) as real / Max(1, tp.weight) as real
  }

  lemma QuotientBounds(x: real, d: real, lo: real, hi: real)
    requires d > 0.0 && lo * d <= x <= hi * d
    ensures lo <= x / d <= hi
  {
  }

  lemma WeightedBounds(gained: int, cpuTime: nat, stops: nat, tp: TaskParams)
    requires Accounts(gained, cpuTime, stops, tp)
    ensures gained as real <= Weighted(cpuTime, tp) <= (gained + stops) as real
  {
    QuotientBounds((MAX_PRIO_WEIGHT * cpuTime) as real, Max(1, tp.weight) as real,
                   gained as real, (gained + stops) as real);
  }

  /** One CPU: nothing is handed out while a task runs. */
  ghost predicate OneCpuStep(s: State, m: Move) {
    m.Turn? ==> forall u | u in s.tasks :: !s.tasks[u].place.OnCpu?
  }

  ghost predicate OneCpu(s: State, ms: seq<Move>) {
    forall n | 0 <= n < |ms| && MoveRun(s, ms[..n]).Some? :: OneCpuStep(MoveRun(s, ms[..n]).value, ms[n])
  }

  lemma OneCpuPrefix(s: State, ms: seq<Move>)
    requires ms != [] && OneCpu(s, ms)
    ensures OneCpu(s, ms[..|ms| - 1])
    ensures MoveRun(s, ms[..|ms| - 1]).Some? ==> OneCpuStep(MoveRun(s, ms[..|ms| - 1]).value, ms[|ms| - 1])
  {
    var most := ms[..|ms| - 1];
    assert forall n | 0 <= n < |most| :: most[..n] == ms[..n] && most[n] == ms[n];
  }

  /** A queued or running task is at most one default slice behind the clock. */
  ghost predicate Current(s: State, t: Tid) {
    t in s.tasks && !s.tasks[t].place.Off? ==>
      !s.tasks[t].place.Local? && s.now - DEFAULT_SLICE_NS <= s.tasks[t].vtime
  }

  lemma MoveCurrent(s: State, m: Move, s': State, t: Tid)
    requires MoveStep(s, m) == Some(s') && Current(s, t) && OneCpuStep(s, m)
    ensures Current(s', t)
  {
    match m
    case Plain(l) => StepClock(s, l, s');
    case Turn(u, cpu) => TurnEffect(s, u, cpu, s');
  }

  /** On one CPU this also holds of the task that runs. */
  lemma {:induction false} AlwaysCurrent(cpus: nat, ms: seq<Move>, t: Tid)
    requires MoveRun(Init(cpus), ms).Some? && OneCpu(Init(cpus), ms)
    ensures Current(MoveRun(Init(cpus), ms).value, t)
  {
    if ms != [] {
      var most := ms[..|ms| - 1];
      OneCpuPrefix(Init(cpus), ms);
      AlwaysCurrent(cpus, most, t);
      MoveCurrent(MoveRun(Init(cpus), most).value, ms[|ms| - 1], MoveRun(Init(cpus), ms).value, t);
    }
  }

  /** `k` is queued, or it runs and the machine had one CPU so far. */
  ghost predicate Active(cpus: nat, before: seq<Move>, s: State, k: Tid) {
    At(s, k, Shared) || (k in s.tasks && s.tasks[k].place.OnCpu? && OneCpu(Init(cpus), before))
  }

  /** The hypotheses about one of the two tasks compared. */
  ghost predicate Compared(cpus: nat, before: seq<Move>, ms: seq<Move>, k: Tid, tp: TaskParams) {
    && MoveRun(Init(cpus), before).Some?
    && Steady(Init(cpus), before, k, tp)
    && var s := MoveRun(Init(cpus), before).value;
    && MoveRun(s, ms).Some?
    && Active(cpus, before, s, k)
    && Steady(s, ms, k, tp)
    && Runnable(s, ms, k)
  }

  lemma StartsInBand(cpus: nat, before: seq<Move>, k: Tid, tp: TaskParams)
    requires MoveRun(Init(cpus), before).Some? && Steady(Init(cpus), before, k, tp)
    requires Active(cpus, before, MoveRun(Init(cpus), before).value, k)
    ensures InBand(MoveRun(Init(cpus), before).value, k, tp)
  {
    SteadyWithin(cpus, before, k, tp);
    if At(MoveRun(Init(cpus), before).value, k, Shared) {
      AlwaysPlaced(cpus, before, k);
    } else {
      AlwaysCurrent(cpus, before, k);
    }
  }

  lemma WeightedGain(cpus: nat, before: seq<Move>, ms: seq<Move>, k: Tid, tp: TaskParams)
    requires Compared(cpus, before, ms, k, tp)
    ensures var s := MoveRun(Init(cpus), before).value;
            var e := MoveRun(s, ms).value;
            && InBand(s, k, tp) && InBand(e, k, tp)
            && var gained := e.tasks[k].vtime - s.tasks[k].vtime;
               gained as real <= Weighted(CpuTime(Exact, s, Labels(ms), k), tp) <= (gained + StopCount(ms, k)) as real
  {
    var s := MoveRun(Init(cpus), before).value;
    StartsInBand(cpus, before, k, tp);
    BandRun(s, ms, k, tp);
    ChargedAccounts(s, ms, k, tp);
    WeightedBounds(Charged(s, ms, k), CpuTime(Exact, s, Labels(ms), k), StopCount(ms, k), tp);
  }

  /** Proportional share: on one CPU, over any interval in which `i` and `j` both stay
      runnable, whichever of them runs when it begins, their charged CPU times over weights
      differ by at most two default slices, one full charge of each, and one unit per stop. */
  lemma ProportionalShare(cpus: nat, before: seq<Move>, ms: seq<Move>, i: Tid, j: Tid, pi: TaskParams, pj: TaskParams)
    requires Compared(cpus, before, ms, i, pi) && Compared(cpus, before, ms, j, pj)
    ensures var s := MoveRun(Init(cpus), before).value;
            var gap := Weighted(CpuTime(Exact, s, Labels(ms), i), pi) - Weighted(CpuTime(Exact, s, Labels(ms), j), pj);
            var slack := 2 * DEFAULT_SLICE_NS + FullCharge(pi) + FullCharge(pj);
            -((slack + StopCount(ms, j)) as real) <= gap <= (slack + StopCount(ms, i)) as real
  {
    WeightedGain(cpus, before, ms, i, pi);
    WeightedGain(cpus, before, ms, j, pj);
  }

  ghost predicate RegularMove(s: State, m: Move, k: Tid, tp: TaskParams) {
    m.Plain? ==> Regular(s, m.l, k, tp)
  }

  ghost predicate RegularMoves(s: State, ms: seq<Move>, k: Tid, tp: TaskParams) {
    forall n | 0 <= n < |ms| && MoveRun(s, ms[..n]).Some? ::
      RegularMove(MoveRun(s, ms[..n]).value, ms[n], k, tp)
  }

  lemma RegularMovesPrefix(s: State, ms: seq<Move>, k: Tid, tp: TaskParams)
    requires ms != [] && RegularMoves(s, ms, k, tp)
    ensures RegularMoves(s, ms[..|ms| - 1], k, tp)
    ensures MoveRun(s, ms[..|ms| - 1]).Some? ==>
              RegularMove(MoveRun(s, ms[..|ms| - 1]).value, ms[|ms| - 1], k, tp)
  {
    var most := ms[..|ms| - 1];
    assert forall n | 0 <= n < |most| :: most[..n] == ms[..n] && most[n] == ms[n];
  }

  /** `k` waits with its full slice and runs on what is left of it. */
  ghost predicate Provided(s: State, k: Tid, full: u64) {
    k in s.tasks ==>
      match s.tasks[k].place
      case Off => true
      case Shared => s.tasks[k].slice == full
      case Local(_) => false
      case OnCpu(_) => s.tasks[k].slice <= full
  }

  lemma MoveAccount(s: State, m: Move, s': State, k: Tid, tp: TaskParams)
    requires MoveStep(s, m) == Some(s') && RegularMove(s, m, k, tp) && Provided(s, k, TaskSlice(tp))
    ensures Provided(s', k, TaskSlice(tp))
    ensures MoveUsed(Some(s), m, k) + Open(s', k, TaskSlice(tp)) ==
            MoveRan(Some(s), m, k) + Open(s, k, TaskSlice(tp))
  {
    match m
    case Plain(l) => StepAccount(s, l, s', k, tp);
    case Turn(u, cpu) => TurnEffect(s, u, cpu, s');
  }

  /** In these runs, under fixed parameters, every start is with a full slice, so the CPU
      time charged is the CPU time used, up to what is open at either end of the interval. */
  lemma {:induction false} ShareIsOfUse(s: State, ms: seq<Move>, k: Tid, tp: TaskParams)
    requires MoveRun(s, ms).Some? && RegularMoves(s, ms, k, tp) && Provided(s, k, TaskSlice(tp))
    ensures var s', full := MoveRun(s, ms).value, TaskSlice(tp);
            && Provided(s', k, full)
            && CpuTime(Exact, s, Labels(ms), k) + Open(s', k, full) == RunTime(s, Labels(ms), k) + Open(s, k, full)
  {
    if ms != [] {
      var most := ms[..|ms| - 1];
      RegularMovesPrefix(s, ms, k, tp);
      ShareIsOfUse(s, most, k, tp);
      MoveTimes(s, ms, k);
      MoveAccount(MoveRun(s, most).value, ms[|ms| - 1], MoveRun(s, ms).value, k, tp);
    }
  }
}
