/** The u64 scheduler is the exact scheduler seen modulo 2^64. */
module Wrap {
  import opened Wrappers
  import opened Params
  import opened Machine
  import opened Window

  function WrapTask(task: Task): Task {
    task.(vtime := task.vtime % TWO64)
  }

  function WrapStats(st: Stats): Stats {
    Stats(st.enqueues % TWO64, st.localDispatches % TWO64, st.budgetCapped % TWO64, st.defaults % TWO64)
  }

  function WrapState(s: State): State {
    State(s.now % TWO64, map t | t in s.tasks :: WrapTask(s.tasks[t]), s.byTgid, s.byCgroup,
          seq(|s.stats|, i requires 0 <= i < |s.stats| => WrapStats(s.stats[i])))
  }

  function WrapResult(r: Option<State>): Option<State> {
    match r
    case None => None
    case Some(s) => Some(WrapState(s))
  }

  /** What the next comparison of `t` with the clock could get wrong: an inactive task is
      compared with the clamp floor, one about to run with the clock itself. */
  ghost predicate NearClock(s: State, t: Tid) {
    t in s.tasks ==>
      && (s.tasks[t].place.Off? ==> s.now - s.tasks[t].vtime <= TWO63 + DEFAULT_SLICE_NS)
      && (s.tasks[t].place.Local? ==> s.now - s.tasks[t].vtime < TWO63)
  }

  ghost predicate NearQueued(s: State, t: Tid, u: Tid) {
    At(s, t, Shared) && At(s, u, Shared) ==> s.tasks[u].vtime - s.tasks[t].vtime < TWO63
  }

  /** No task has fallen 2^63 behind what it is going to be compared with. That nothing is
      too far ahead of the clock needs no assumption: it is the global window. */
  ghost predicate Near(s: State) {
    (forall t :: NearClock(s, t)) && (forall t, u :: NearQueued(s, t, u))
  }

  lemma WrapAdd(x: int, y: int)
    ensures (x % TWO64 + y) % TWO64 == (x + y) % TWO64
  {
  }

  lemma WrapSub(x: int, y: int)
    ensures (x % TWO64 - y % TWO64) % TWO64 == (x - y) % TWO64
  {
  }

  /** The signed difference decides the integer order of two times less than 2^63 apart. */
  lemma WrapBefore(x: int, y: int)
    requires -TWO63 <= x - y < TWO63
    ensures Before(U64, x % TWO64, y % TWO64) <==> Before(Exact, x, y)
  {
    WrapSub(x, y);
  }

  lemma WrapPut(s: State, t: Tid, task: Task)
    ensures WrapState(Put(s, t, task)) == Put(WrapState(s), t, WrapTask(task))
  {
    var l, r := WrapState(Put(s, t, task)), Put(WrapState(s), t, WrapTask(task));
    assert l.tasks == r.tasks;
    assert l.stats == r.stats;
  }

  lemma WrapStatsAt(s: State, i: nat, st: Stats)
    requires i < |s.stats|
    ensures WrapState(s.(stats := s.stats[i := st])) ==
            WrapState(s).(stats := WrapState(s).stats[i := WrapStats(st)])
  {
    var l, r := WrapState(s.(stats := s.stats[i := st])),
                WrapState(s).(stats := WrapState(s).stats[i := WrapStats(st)]);
    assert l.tasks == r.tasks;
    assert l.stats == r.stats;
  }

  lemma WrapCounts(st: Stats, slice: u64, explicit: bool)
    ensures CountEnqueue(U64, WrapStats(st), slice, explicit) == WrapStats(CountEnqueue(Exact, st, slice, explicit))
    ensures CountLocal(U64, WrapStats(st), slice) == WrapStats(CountLocal(Exact, st, slice))
  {
    WrapAdd(st.enqueues, 1);
    WrapAdd(st.localDispatches, 1);
    WrapAdd(st.budgetCapped, Capped(slice));
    WrapAdd(st.defaults, 1);
  }

  lemma WrapKey(vtime: int, now: int)
    requires -TWO63 <= vtime - (now - DEFAULT_SLICE_NS) < TWO63
    ensures QueueKey(U64, vtime % TWO64, now % TWO64) == QueueKey(Exact, vtime, now) % TWO64
  {
    WrapAdd(now, 0 - DEFAULT_SLICE_NS);
    WrapBefore(vtime, now - DEFAULT_SLICE_NS);
  }

  lemma WrapEnqueue(s: State, t: Tid, on: Cpu)
    requires InWindow(s) && Near(s)
    ensures OnEnqueue(U64, WrapState(s), t, on) == WrapResult(OnEnqueue(Exact, s, t, on))
  {
    if At(s, t, Off) && on < |s.stats| {
      assert Within(s, t, MAX_CHARGE) && NearClock(s, t);
      WrapKey(s.tasks[t].vtime, s.now);
      var slice := SliceOf(s, t);
      var task := s.tasks[t].(slice := slice, vtime := QueueKey(Exact, s.tasks[t].vtime, s.now), place := Shared);
      WrapPut(s, t, task);
      WrapCounts(s.stats[on], slice, ParamsOf(s, t).explicit);
      WrapStatsAt(Put(s, t, task), on, CountEnqueue(Exact, s.stats[on], slice, ParamsOf(s, t).explicit));
    }
  }

  lemma WrapSelectIdle(s: State, t: Tid, target: Cpu, on: Cpu)
    ensures OnSelectIdle(U64, WrapState(s), t, target, on) == WrapResult(OnSelectIdle(Exact, s, t, target, on))
  {
    if At(s, t, Off) && target < |s.stats| && on < |s.stats| {
      var slice := SliceOf(s, t);
      var task := s.tasks[t].(slice := slice, place := Local(target));
      WrapPut(s, t, task);
      WrapCounts(s.stats[on], slice, true);
      WrapStatsAt(Put(s, t, task), on, CountLocal(Exact, s.stats[on], slice));
    }
  }

  lemma WrapFirst(s: State, t: Tid)
    requires InWindow(s) && Near(s)
    ensures First(U64, WrapState(s), t) <==> First(Exact, s, t)
  {
    if At(s, t, Shared) {
      forall u | At(s, u, Shared)
        ensures Before(U64, s.tasks[u].vtime % TWO64, s.tasks[t].vtime % TWO64) <==>
                Before(Exact, s.tasks[u].vtime, s.tasks[t].vtime)
      {
        assert NearQueued(s, t, u) && NearQueued(s, u, t);
        WrapBefore(s.tasks[u].vtime, s.tasks[t].vtime);
      }
      var w := WrapState(s);
      assert forall u | u in s.tasks ::
               w.tasks[u].place == s.tasks[u].place && w.tasks[u].vtime == s.tasks[u].vtime % TWO64;
      assert First(U64, w, t) ==> First(Exact, s, t);
    }
  }

  lemma WrapRunning(s: State, t: Tid, cpu: Cpu)
    requires InWindow(s) && Near(s)
    ensures OnRunning(U64, WrapState(s), t, cpu) == WrapResult(OnRunning(Exact, s, t, cpu))
  {
    var w := WrapState(s);
    assert forall u | u in s.tasks :: w.tasks[u].place == s.tasks[u].place;
    assert CpuFree(w, cpu) <==> CpuFree(s, cpu);
    if cpu < |s.stats| && At(s, t, Local(cpu)) && CpuFree(s, cpu) {
      assert Within(s, t, MAX_CHARGE) && NearClock(s, t);
      WrapBefore(s.now, s.tasks[t].vtime);
      WrapPut(s, t, s.tasks[t].(place := OnCpu(cpu)));
    }
  }

  lemma WrapStopping(s: State, t: Tid, keep: bool)
    ensures OnStopping(U64, WrapState(s), t, keep) == WrapResult(OnStopping(Exact, s, t, keep))
  {
    if t in s.tasks && s.tasks[t].place.OnCpu? {
      WrapAdd(s.tasks[t].vtime, ChargeOf(s, t));
      var place := if keep then Local(s.tasks[t].place.cpu) else Off;
      WrapPut(s, t, s.tasks[t].(vtime := s.tasks[t].vtime + ChargeOf(s, t), place := place));
    }
  }

  /** One step of the u64 scheduler is the wrapped step of the exact one; in particular
      the same labels are enabled in both. */
  lemma StepRefines(s: State, l: Label)
    requires InWindow(s) && Near(s)
    ensures Step(U64, WrapState(s), l) == WrapResult(Step(Exact, s, l))
  {
    match l
    case Enable(t, tgid, cgid) =>
      WrapPut(s, t, Task(tgid, cgid, s.now, SCX_SLICE_DFL, Off));
    case Leave(t) =>
      assert WrapState(s).tasks - {t} == WrapState(s.(tasks := s.tasks - {t})).tasks;
    case SelectIdle(t, target, on) => WrapSelectIdle(s, t, target, on);
    case Enqueue(t, on) => WrapEnqueue(s, t, on);
    case Dispatch(t, cpu) =>
      WrapFirst(s, t);
      if First(Exact, s, t) {
        WrapPut(s, t, s.tasks[t].(place := Local(cpu)));
      }
    case Running(t, cpu) => WrapRunning(s, t, cpu);
    case Dequeue(t) =>
      if t in s.tasks {
        WrapPut(s, t, s.tasks[t].(place := Off));
      }
    case Countdown(t, remaining) =>
      if t in s.tasks {
        WrapPut(s, t, s.tasks[t].(slice := remaining));
      }
    case Stopping(t, keep) => WrapStopping(s, t, keep);
    case MoveCgroup(t, cgid) =>
      if t in s.tasks {
        WrapPut(s, t, s.tasks[t].(cgid := cgid));
      }
    case WriteMaps(byTgid, byCgroup) =>
  }

  /** Near before every step of the exact run. */
  ghost predicate AllNear(cpus: nat, ls: seq<Label>) {
    forall k | 0 <= k < |ls| && Run(Exact, Init(cpus), ls[..k]).Some? ::
      Near(Run(Exact, Init(cpus), ls[..k]).value)
  }

  lemma NearPrefix(cpus: nat, ls: seq<Label>)
    requires ls != [] && AllNear(cpus, ls)
    ensures AllNear(cpus, ls[..|ls| - 1])
    ensures Run(Exact, Init(cpus), ls[..|ls| - 1]).Some? ==> Near(Run(Exact, Init(cpus), ls[..|ls| - 1]).value)
  {
    var most := ls[..|ls| - 1];
    assert forall k | 0 <= k < |most| :: most[..k] == ls[..k];
  }

  /** Wraparound refinement over whole runs, from boot (clock 0, so the first clamp
      floor underflows): as long as nothing falls 2^63 behind, the u64 run enables
      exactly the labels the exact run enables and reaches its state modulo 2^64. */
  lemma {:induction false} RunRefines(cpus: nat, ls: seq<Label>)
    requires AllNear(cpus, ls)
    ensures Run(U64, Init(cpus), ls) == WrapResult(Run(Exact, Init(cpus), ls))
  {
    if ls == [] {
      assert WrapState(Init(cpus)) == Init(cpus);
    } else {
      var n := |ls| - 1;
      var most := ls[..n];
      NearPrefix(cpus, ls);
      RunRefines(cpus, most);
      if Run(Exact, Init(cpus), most).Some? {
        GlobalWindow(cpus, most);
        StepRefines(Run(Exact, Init(cpus), most).value, ls[n]);
      }
    }
  }

  /** The exact run behind a u64 run, and its state wherever the u64 run is. */
  lemma ExactRun(cpus: nat, before: seq<Label>, ls: seq<Label>, k: nat)
    requires Run(U64, Init(cpus), before).Some? && k <= |ls|
    requires Run(U64, Run(U64, Init(cpus), before).value, ls).Some? && AllNear(cpus, before + ls)
    ensures Run(Exact, Init(cpus), before).Some?
    ensures Run(U64, Init(cpus), before).value == WrapState(Run(Exact, Init(cpus), before).value)
    ensures var s := Run(Exact, Init(cpus), before).value;
            && Run(Exact, s, ls[..k]).Some?
            && Run(U64, WrapState(s), ls[..k]) == Some(WrapState(Run(Exact, s, ls[..k]).value))
  {
    var w := Run(U64, Init(cpus), before).value;
    NearUpTo(cpus, before + ls, before);
    RunRefines(cpus, before);
    var s := Run(Exact, Init(cpus), before).value;
    RunPrefix(U64, w, ls, k);
    RunConcat(U64, Init(cpus), before, w, ls[..k]);
    assert before + ls[..k] <= before + ls;
    NearUpTo(cpus, before + ls, before + ls[..k]);
    RunRefines(cpus, before + ls[..k]);
    RunConcat(Exact, Init(cpus), before, s, ls[..k]);
  }

  lemma NearUpTo(cpus: nat, ls: seq<Label>, front: seq<Label>)
    requires AllNear(cpus, ls) && front <= ls
    ensures AllNear(cpus, front)
  {
    assert forall k | 0 <= k < |front| :: front[..k] == ls[..k];
  }

  /** By the u64 comparison itself `t` is not more than one maximal charge after the clock,
      and not after it while it runs. */
  ghost predicate SeenInWindow(w: State, t: Tid) {
    t in w.tasks ==>
      && !Before(U64, Norm(U64, w.now + MAX_CHARGE), w.tasks[t].vtime)
      && (w.tasks[t].place.OnCpu? ==> !Before(U64, w.now, w.tasks[t].vtime))
  }

  /** A time at or after another looks so to the comparison exactly up to 2^63. */
  lemma WrapNotBefore(x: int, y: int)
    requires 0 <= x - y < TWO64
    ensures !Before(U64, x % TWO64, y % TWO64) <==> x - y < TWO63
  {
    WrapSub(x, y);
  }

  lemma WrapWindow(s: State, t: Tid)
    requires Within(s, t, MAX_CHARGE) && t in s.tasks && s.now + MAX_CHARGE - s.tasks[t].vtime < TWO64
    ensures SeenInWindow(WrapState(s), t) <==> s.now + MAX_CHARGE - s.tasks[t].vtime < TWO63
  {
    var task := s.tasks[t];
    WrapAdd(s.now, MAX_CHARGE);
    WrapNotBefore(s.now + MAX_CHARGE, task.vtime);
    if task.place.OnCpu? {
      WrapNotBefore(s.now, task.vtime);
    }
    assert WrapState(s).tasks[t] == WrapTask(task);
  }

  /** The global window as the u64 scheduler itself sees it: a task less than 2^64 behind
      looks inside it if and only if it is less than 2^63 behind the window's end. */
  lemma U64Window(cpus: nat, ls: seq<Label>, t: Tid)
    requires AllNear(cpus, ls) && Run(Exact, Init(cpus), ls).Some? && t in Run(Exact, Init(cpus), ls).value.tasks
    ensures Run(U64, Init(cpus), ls).Some?
    ensures var s := Run(Exact, Init(cpus), ls).value;
            s.now + MAX_CHARGE - s.tasks[t].vtime < TWO64 ==>
              (SeenInWindow(Run(U64, Init(cpus), ls).value, t) <==> s.now + MAX_CHARGE - s.tasks[t].vtime < TWO63)
  {
    RunRefines(cpus, ls);
    GlobalWindow(cpus, ls);
    var s := Run(Exact, Init(cpus), ls).value;
    if s.now + MAX_CHARGE - s.tasks[t].vtime < TWO64 {
      assert Within(s, t, MAX_CHARGE);
      WrapWindow(s, t);
    }
  }

  /** Exactly when the u64 wakeup clamp is right, for any vtime and clock: unless the
      backlog modulo 2^64 exceeds 2^63. */
  lemma ClampExactness(vtime: int, now: int)
    requires vtime <= now + MAX_CHARGE
    ensures var backlog := now - DEFAULT_SLICE_NS - vtime;
            QueueKey(U64, vtime % TWO64, now % TWO64) == QueueKey(Exact, vtime, now) % TWO64
            <==> backlog <= 0 || backlog % TWO64 <= TWO63
  {
    WrapAdd(now, 0 - DEFAULT_SLICE_NS);
    WrapSub(vtime, now - DEFAULT_SLICE_NS);
  }

  /** The same for the clock advance: a task running from 2^63 behind pulls it back. */
  lemma AdvanceExactness(vtime: int, now: int)
    requires vtime <= now + MAX_CHARGE
    ensures AdvancedClock(U64, now % TWO64, vtime % TWO64) == AdvancedClock(Exact, now, vtime) % TWO64
            <==> now <= vtime || (now - vtime) % TWO64 < TWO63
  {
    WrapSub(now, vtime);
  }
}
