/** The clock update without a lock: the comparison and the store of the running
    callback are separate steps, so CPUs can interleave between them. */
module Racy {
  import opened Wrappers
  import opened Params
  import opened Machine

  /** `high` is the largest virtual time that ever ran; `pending` are the stores decided
      on but not done yet, by CPU. */
  datatype Racing = Racing(s: State, high: int, pending: map<Cpu, int>)

  datatype RaceLabel = Base(l: Label) | Test(t: Tid, cpu: Cpu) | Store(cpu: Cpu)

  function Start(cpus: nat): Racing {
    Racing(Init(cpus), 0, map[])
  }

  /** A CPU still inside its running callback cannot stop the task. */
  predicate InCallback(r: Racing, l: Label) {
    l.Stopping? && l.t in r.s.tasks && r.s.tasks[l.t].place.OnCpu? && r.s.tasks[l.t].place.cpu in r.pending
  }

  function OnTest(r: Racing, t: Tid, cpu: Cpu): Option<Racing> {
    if cpu >= |r.s.stats| || !At(r.s, t, Local(cpu)) || !CpuFree(r.s, cpu) || cpu in r.pending then None
    else
      var v := r.s.tasks[t].vtime;
      Some(Racing(Put(r.s, t, r.s.tasks[t].(place := OnCpu(cpu))), Max(r.high, v),
                  if r.s.now < v then r.pending[cpu := v] else r.pending))
  }

  function OnStore(r: Racing, cpu: Cpu): Option<Racing> {
    if cpu !in r.pending then None
    else Some(r.(s := r.s.(now := r.pending[cpu]), pending := r.pending - {cpu}))
  }

  function RaceStep(r: Racing, l: RaceLabel): Option<Racing> {
    match l
    case Test(t, cpu) => OnTest(r, t, cpu)
    case Store(cpu) => OnStore(r, cpu)
    case Base(b) =>
      if b.Running? || InCallback(r, b) then None
      else
        match Step(Exact, r.s, b)
        case None => None
        case Some(s') => Some(r.(s := s'))
  }

  function RaceRun(r: Racing, ls: seq<RaceLabel>): Option<Racing> {
    if ls == [] then Some(r)
    else
      match RaceRun(r, ls[..|ls| - 1])
      case None => None
      case Some(m) => RaceStep(m, ls[|ls| - 1])
  }

  /** Everything is bounded by the largest virtual time that ever ran. */
  ghost predicate BelowHigh(r: Racing) {
    && r.s.now <= r.high
    && (forall c | c in r.pending :: r.pending[c] <= r.high)
    && (forall t | t in r.s.tasks ::
          && r.s.tasks[t].vtime <= r.high + MAX_CHARGE
          && (r.s.tasks[t].place.OnCpu? ==> r.s.tasks[t].vtime <= r.high))
  }

  lemma RaceStepBelow(r: Racing, l: RaceLabel, r': Racing)
    requires RaceStep(r, l) == Some(r') && BelowHigh(r)
    ensures BelowHigh(r') && r.high <= r'.high
  {
    if l.Base? && l.l.Stopping? {
      ChargeBounds(ParamsOf(r.s, l.l.t).tp.weight, UsedOf(r.s, l.l.t));
    }
  }

  /** Racy clock, over every interleaving: the clock may move back, but it never passes
      the largest virtual time that ran, and no task is further than one charge ahead. */
  lemma {:induction false} RacyClock(cpus: nat, ls: seq<RaceLabel>)
    requires RaceRun(Start(cpus), ls).Some?
    ensures BelowHigh(RaceRun(Start(cpus), ls).value)
  {
    if ls != [] {
      RacyClock(cpus, ls[..|ls| - 1]);
      RaceStepBelow(RaceRun(Start(cpus), ls[..|ls| - 1]).value, ls[|ls| - 1], RaceRun(Start(cpus), ls).value);
    }
  }

  /** Without interference the two halves are the atomic callback. */
  lemma TestThenStore(r: Racing, t: Tid, cpu: Cpu)
    requires cpu !in r.pending
    ensures OnTest(r, t, cpu).Some? <==> OnRunning(Exact, r.s, t, cpu).Some?
    ensures OnTest(r, t, cpu).Some? ==>
              var mid := OnTest(r, t, cpu).value;
              var end := if cpu in mid.pending then OnStore(mid, cpu).value else mid;
              end.s == OnRunning(Exact, r.s, t, cpu).value && end.pending == r.pending
  {
    if OnTest(r, t, cpu).Some? {
      assert r.pending[cpu := r.s.tasks[t].vtime] - {cpu} == r.pending;
    }
  }

  /** The race is real: two CPUs that both compare before either stores leave the clock
      at the later store, which moves it back whenever that one is the smaller. */
  lemma ClockMovesBack(r: Racing, a: Tid, b: Tid, ca: Cpu, cb: Cpu)
    returns (r1: Racing, r2: Racing, r3: Racing, r4: Racing)
    requires ca != cb && ca < |r.s.stats| && cb < |r.s.stats| && At(r.s, a, Local(ca)) && At(r.s, b, Local(cb))
    requires CpuFree(r.s, ca) && CpuFree(r.s, cb) && ca !in r.pending && cb !in r.pending
    requires r.s.now < r.s.tasks[b].vtime < r.s.tasks[a].vtime
    ensures RaceStep(r, Test(a, ca)) == Some(r1) && RaceStep(r1, Test(b, cb)) == Some(r2)
    ensures RaceStep(r2, Store(ca)) == Some(r3) && RaceStep(r3, Store(cb)) == Some(r4)
    ensures r4.s.now < r3.s.now
  {
    r1 := OnTest(r, a, ca).value;
    r2 := OnTest(r1, b, cb).value;
    r3 := OnStore(r2, ca).value;
    r4 := OnStore(r3, cb).value;
  }

  lemma RaceThen(r: Racing, ls: seq<RaceLabel>, m: Racing, l: RaceLabel, m': Racing)
    requires RaceRun(r, ls) == Some(m) && RaceStep(m, l) == Some(m')
    ensures RaceRun(r, ls + [l]) == Some(m')
  {
    assert (ls + [l])[..|ls|] == ls;
  }

  /** `t` is new and `cpu` has nothing to do. */
  ghost predicate Unused(r: Racing, t: Tid, cpu: Cpu) {
    && t !in r.s.tasks && cpu < |r.s.stats| && cpu !in r.pending && r.s.byTgid == map[] && r.s.byCgroup == map[]
    && forall u | u in r.s.tasks :: r.s.tasks[u].place != OnCpu(cpu)
  }

  /** `t` was interrupted on `cpu` after its first run, which cost `v`. */
  ghost predicate Interrupted(r: Racing, r': Racing, t: Tid, cpu: Cpu, v: int) {
    && t in r'.s.tasks && r'.s.tasks == r.s.tasks[t := r'.s.tasks[t]] && At(r'.s, t, Local(cpu))
    && r'.s.tasks[t].vtime == r.s.now + v
    && r'.s.now == r.s.now && r'.pending == r.pending && |r'.s.stats| == |r.s.stats|
    && r'.s.byTgid == map[] && r'.s.byCgroup == map[]
  }

  /** `t` has just started on `cpu` with a full default slice. */
  ghost predicate Started(r: Racing, r': Racing, t: Tid, cpu: Cpu) {
    && t in r'.s.tasks && r'.s.tasks == r.s.tasks[t := r'.s.tasks[t]]
    && r'.s.tasks[t] == Task(0, 0, r.s.now, DEFAULT_SLICE_NS, OnCpu(cpu))
    && r'.s.now == r.s.now && r'.pending == r.pending && |r'.s.stats| == |r.s.stats|
    && r'.s.byTgid == map[] && r'.s.byCgroup == map[] && cpu !in r'.pending
  }

  lemma StartSteps(r: Racing, t: Tid, cpu: Cpu) returns (r1: Racing, r2: Racing, r3: Racing)
    requires Unused(r, t, cpu)
    ensures RaceStep(r, Base(Enable(t, 0, 0))) == Some(r1) && RaceStep(r1, Base(SelectIdle(t, cpu, cpu))) == Some(r2)
    ensures RaceStep(r2, Test(t, cpu)) == Some(r3) && Started(r, r3, t, cpu)
  {
    r1 := RaceStep(r, Base(Enable(t, 0, 0))).value;
    r2 := RaceStep(r1, Base(SelectIdle(t, cpu, cpu))).value;
    assert CpuFree(r2.s, cpu);
    r3 := RaceStep(r2, Test(t, cpu)).value;
    assert r3.s.tasks == r.s.tasks[t := r3.s.tasks[t]];
  }

  lemma StopSteps(r: Racing, m: Racing, t: Tid, cpu: Cpu, left: u64) returns (r1: Racing, r2: Racing)
    requires Started(r, m, t, cpu) && left <= DEFAULT_SLICE_NS
    ensures RaceStep(m, Base(Countdown(t, left))) == Some(r1) && RaceStep(r1, Base(Stopping(t, true))) == Some(r2)
    ensures Interrupted(r, r2, t, cpu, Charge(DEFAULT_WEIGHT, DEFAULT_SLICE_NS - left))
  {
    r1 := RaceStep(m, Base(Countdown(t, left))).value;
    r2 := RaceStep(r1, Base(Stopping(t, true))).value;
    assert r2.s.tasks == r.s.tasks[t := r2.s.tasks[t]];
  }

  lemma Interrupt(s: Racing, ls: seq<RaceLabel>, r: Racing, t: Tid, cpu: Cpu, left: u64)
    returns (ls': seq<RaceLabel>, r': Racing)
    requires RaceRun(s, ls) == Some(r) && Unused(r, t, cpu) && left <= DEFAULT_SLICE_NS
    ensures RaceRun(s, ls') == Some(r')
    ensures Interrupted(r, r', t, cpu, Charge(DEFAULT_WEIGHT, DEFAULT_SLICE_NS - left))
  {
    var r1, r2, r3 := StartSteps(r, t, cpu);
    var r4, r5 := StopSteps(r, r3, t, cpu, left);
    r' := r5;
    RaceThen(s, ls, r, Base(Enable(t, 0, 0)), r1);
    var one := ls + [Base(Enable(t, 0, 0))];
    RaceThen(s, one, r1, Base(SelectIdle(t, cpu, cpu)), r2);
    var two := one + [Base(SelectIdle(t, cpu, cpu))];
    RaceThen(s, two, r2, Test(t, cpu), r3);
    var three := two + [Test(t, cpu)];
    RaceThen(s, three, r3, Base(Countdown(t, left)), r4);
    RaceThen(s, three + [Base(Countdown(t, left))], r4, Base(Stopping(t, true)), r5);
    ls' := three + [Base(Countdown(t, left))] + [Base(Stopping(t, true))];
  }

  /** The two CPUs of the race are reachable from boot: one task has run 4 ms, one 1 ms. */
  lemma RaceReachable() returns (ls: seq<RaceLabel>, r: Racing)
    ensures RaceRun(Start(2), ls) == Some(r) && |r.s.stats| == 2 && r.pending == map[]
    ensures At(r.s, 0, Local(0)) && At(r.s, 1, Local(1)) && CpuFree(r.s, 0) && CpuFree(r.s, 1)
    ensures r.s.now < r.s.tasks[1].vtime < r.s.tasks[0].vtime
  {
    var ls1, r1 := Interrupt(Start(2), [], Start(2), 0, 0, 1_000_000);
    var ls2, r2 := Interrupt(Start(2), ls1, r1, 1, 1, 4_000_000);
    ls, r := ls2, r2;
  }
}
