/** The in-kernel scheduler as a transition system with one label per callback or
    kernel event (a task leaving the class, taken out of a queue, using up its slice,
    changing cgroup; the agent writing the maps). `Arith` chooses how virtual times are
    computed: `U64` is what the BPF program does, `Exact` is the unbounded-integer
    reading of the same code. */
module Machine {
  import opened Wrappers
  import opened Params

  datatype Arith = Exact | U64

  function Norm(a: Arith, x: int): int {
    if a.U64? then x % TWO64 else x
  }

  /** Signed-difference comparison of two virtual times. */
  predicate Before(a: Arith, x: int, y: int) {
    if a.U64? then (x - y) % TWO64 >= TWO63 else x < y
  }

  type Tid = nat
  type Cpu = nat

  /** Where a task is: off the run queues, in the shared vtime queue (keyed by its own
      vtime, which the insertion stores on the task), in a CPU's local queue, or running. */
  datatype Place = Off | Shared | Local(cpu: Cpu) | OnCpu(cpu: Cpu)

  datatype Task = Task(tgid: u32, cgid: u64, vtime: int, slice: u64, place: Place)

  datatype Stats = Stats(enqueues: int, localDispatches: int, budgetCapped: int, defaults: int)

  const ZERO_STATS := Stats(0, 0, 0, 0)

  /** `stats` holds one record per CPU; a label naming a CPU without one is not enabled. */
  datatype State = State(
    now: int,
    tasks: map<Tid, Task>,
    byTgid: TgidMap,
    byCgroup: CgroupMap,
    stats: seq<Stats>)

  datatype Label =
    | Enable(t: Tid, tgid: u32, cgid: u64)
    | Leave(t: Tid)
    | SelectIdle(t: Tid, target: Cpu, on: Cpu)
    | Enqueue(t: Tid, on: Cpu)
    | Dispatch(t: Tid, cpu: Cpu)
    | Running(t: Tid, cpu: Cpu)
    | Dequeue(t: Tid)
    | Countdown(t: Tid, remaining: u64)
    | Stopping(t: Tid, keep: bool)
    | MoveCgroup(t: Tid, cgid: u64)
    | WriteMaps(byTgid: TgidMap, byCgroup: CgroupMap)

  const SCX_SLICE_DFL: u64 := 20_000_000

  function Init(cpus: nat): State {
    State(0, map[], map[], map[], seq(cpus, _ => ZERO_STATS))
  }

  predicate At(s: State, t: Tid, p: Place) {
    t in s.tasks && s.tasks[t].place == p
  }

  function ParamsOf(s: State, t: Tid): Found
    requires t in s.tasks
  {
    Lookup(s.byTgid, s.byCgroup, s.tasks[t].tgid, s.tasks[t].cgid)
  }

  function SliceOf(s: State, t: Tid): u64
    requires t in s.tasks
  {
    TaskSlice(ParamsOf(s, t).tp)
  }

  /** Nanoseconds a stop of `t` charges for. */
  function UsedOf(s: State, t: Tid): (r: u64)
    requires t in s.tasks
    ensures r <= DEFAULT_SLICE_NS
  {
    UsedNs(SliceOf(s, t), s.tasks[t].slice)
  }

  function ChargeOf(s: State, t: Tid): int
    requires t in s.tasks
  {
    Charge(ParamsOf(s, t).tp.weight, UsedOf(s, t))
  }

  /** The key a task is queued under: at most one default slice behind the clock. */
  function QueueKey(a: Arith, vtime: int, now: int): (key: int)
    ensures a.Exact? ==> key == Max(vtime, now - DEFAULT_SLICE_NS)
  {
    var floor := Norm(a, now - DEFAULT_SLICE_NS);
    if Before(a, vtime, floor) then floor else vtime
  }

  function AdvancedClock(a: Arith, now: int, vtime: int): (clock: int)
    ensures a.Exact? ==> clock == Max(now, vtime)
  {
    if Before(a, now, vtime) then vtime else now
  }

  /** `t` is a task the shared queue may hand out: none is before it. */
  predicate First(a: Arith, s: State, t: Tid) {
    && At(s, t, Shared)
    && forall u | u in s.tasks && s.tasks[u].place == Shared ::
         !Before(a, s.tasks[u].vtime, s.tasks[t].vtime)
  }

  predicate CpuFree(s: State, cpu: Cpu) {
    forall u | u in s.tasks :: s.tasks[u].place != OnCpu(cpu)
  }

  function Put(s: State, t: Tid, task: Task): State {
    s.(tasks := s.tasks[t := task])
  }

  function Capped(slice: u64): int {
    if slice < DEFAULT_SLICE_NS then 1 else 0
  }

  function CountEnqueue(a: Arith, st: Stats, slice: u64, explicit: bool): Stats {
    Stats(Norm(a, st.enqueues + 1), st.localDispatches,
          Norm(a, st.budgetCapped + Capped(slice)),
          Norm(a, st.defaults + if explicit then 0 else 1))
  }

  function CountLocal(a: Arith, st: Stats, slice: u64): Stats {
    Stats(st.enqueues, Norm(a, st.localDispatches + 1),
          Norm(a, st.budgetCapped + Capped(slice)), st.defaults)
  }

  function OnSelectIdle(a: Arith, s: State, t: Tid, target: Cpu, on: Cpu): Option<State> {
    if !At(s, t, Off) || target >= |s.stats| || on >= |s.stats| then None
    else
      var slice := SliceOf(s, t);
      Some(Put(s, t, s.tasks[t].(slice := slice, place := Local(target)))
           .(stats := s.stats[on := CountLocal(a, s.stats[on], slice)]))
  }

  function OnEnqueue(a: Arith, s: State, t: Tid, on: Cpu): Option<State> {
    if !At(s, t, Off) || on >= |s.stats| then None
    else
      var slice := SliceOf(s, t);
      var key := QueueKey(a, s.tasks[t].vtime, s.now);
      Some(Put(s, t, s.tasks[t].(slice := slice, vtime := key, place := Shared))
           .(stats := s.stats[on := CountEnqueue(a, s.stats[on], slice, ParamsOf(s, t).explicit)]))
  }

  function OnDispatch(a: Arith, s: State, t: Tid, cpu: Cpu): Option<State> {
    if cpu >= |s.stats| || !First(a, s, t) then None
    else Some(Put(s, t, s.tasks[t].(place := Local(cpu))))
  }

  function OnRunning(a: Arith, s: State, t: Tid, cpu: Cpu): Option<State> {
    if cpu >= |s.stats| || !At(s, t, Local(cpu)) || !CpuFree(s, cpu) then None
    else Some(Put(s, t, s.tasks[t].(place := OnCpu(cpu)))
              .(now := AdvancedClock(a, s.now, s.tasks[t].vtime)))
  }

  /** A stopped task leaves the CPU; with `keep` the kernel puts it back in the
      CPU's local queue because part of its slice remains. */
  function OnStopping(a: Arith, s: State, t: Tid, keep: bool): Option<State> {
    if t !in s.tasks || !s.tasks[t].place.OnCpu? then None
    else
      var place := if keep then Local(s.tasks[t].place.cpu) else Off;
      Some(Put(s, t, s.tasks[t].(vtime := Norm(a, s.tasks[t].vtime + ChargeOf(s, t)), place := place)))
  }

  function Step(a: Arith, s: State, l: Label): Option<State> {
    match l
    case Enable(t, tgid, cgid) =>
      if t in s.tasks then None
      else Some(Put(s, t, Task(tgid, cgid, s.now, SCX_SLICE_DFL, Off)))
    case Leave(t) =>
      if !At(s, t, Off) then None else Some(s.(tasks := s.tasks - {t}))
    case SelectIdle(t, target, on) => OnSelectIdle(a, s, t, target, on)
    case Enqueue(t, on) => OnEnqueue(a, s, t, on)
    case Dispatch(t, cpu) => OnDispatch(a, s, t, cpu)
    case Running(t, cpu) => OnRunning(a, s, t, cpu)
    case Dequeue(t) =>
      if t in s.tasks && (s.tasks[t].place.Shared? || s.tasks[t].place.Local?)
      then Some(Put(s, t, s.tasks[t].(place := Off))) else None
    case Countdown(t, remaining) =>
      if t !in s.tasks || !s.tasks[t].place.OnCpu? then None
      else Some(Put(s, t, s.tasks[t].(slice := remaining)))
    case Stopping(t, keep) => OnStopping(a, s, t, keep)
    case MoveCgroup(t, cgid) =>
      if t !in s.tasks then None else Some(Put(s, t, s.tasks[t].(cgid := cgid)))
    case WriteMaps(byTgid, byCgroup) => Some(s.(byTgid := byTgid, byCgroup := byCgroup))
  }

  /** The state after a sequence of labels, or None once one of them was not enabled. */
  function Run(a: Arith, s: State, ls: seq<Label>): Option<State> {
    if ls == [] then Some(s)
    else
      match Run(a, s, ls[..|ls| - 1])
      case None => None
      case Some(m) => Step(a, m, ls[|ls| - 1])
  }

  lemma RunSnoc(a: Arith, s: State, ls: seq<Label>, l: Label)
    ensures Run(a, s, ls + [l]) == match Run(a, s, ls) case None => None case Some(m) => Step(a, m, l)
  {
    assert (ls + [l])[..|ls|] == ls;
  }

  /** `l` takes `s` to `s'`. */
  ghost predicate Goes(s: State, l: Label, s': State) {
    Step(Exact, s, l) == Some(s')
  }

  lemma RunThen(s: State, ls: seq<Label>, m: State, l: Label, m': State)
    requires Run(Exact, s, ls) == Some(m) && Goes(m, l, m')
    ensures Run(Exact, s, ls + [l]) == Some(m')
  {
    RunSnoc(Exact, s, ls, l);
  }

  lemma {:induction false} RunConcat(a: Arith, s: State, ls: seq<Label>, m: State, more: seq<Label>)
    requires Run(a, s, ls) == Some(m)
    ensures Run(a, s, ls + more) == Run(a, m, more)
  {
    if more == [] {
      assert ls + more == ls;
    } else {
      var n := |more| - 1;
      RunConcat(a, s, ls, m, more[..n]);
      assert ls + more == ls + more[..n] + [more[n]];
      assert more == more[..n] + [more[n]];
      RunSnoc(a, s, ls + more[..n], more[n]);
      RunSnoc(a, m, more[..n], more[n]);
    }
  }

  lemma {:induction false} RunPrefix(a: Arith, s: State, ls: seq<Label>, n: nat)
    requires Run(a, s, ls).Some? && n <= |ls|
    ensures Run(a, s, ls[..n]).Some?
  {
    if n == |ls| {
      assert ls[..n] == ls;
    } else {
      var most := ls[..|ls| - 1];
      assert most[..n] == ls[..n];
      RunPrefix(a, s, most, n);
    }
  }
}
