/** Where each callback puts its task, what it leaves alone, and who runs where. */
module Placement {
  import opened Wrappers
  import opened Params
  import opened Machine

  /** `t` is in the local queue of `cpu` with the given slice and vtime, and can start there
      if nothing runs there. */
  ghost predicate ReadyOn(a: Arith, s: State, t: Tid, cpu: Cpu, slice: u64, vtime: int) {
    && At(s, t, Local(cpu)) && s.tasks[t].slice == slice && s.tasks[t].vtime == vtime
    && (CpuFree(s, cpu) ==> Step(a, s, Running(t, cpu)).Some?)
  }

  /** The idle shortcut: the task is ready on the CPU that was found, whichever CPU the
      callback ran on, with the slice of its parameters and its vtime as it was. */
  lemma IdleLands(a: Arith, s: State, t: Tid, target: Cpu, on: Cpu, s': State)
    requires Step(a, s, SelectIdle(t, target, on)) == Some(s')
    ensures At(s, t, Off) && ReadyOn(a, s', t, target, TaskSlice(ParamsOf(s, t).tp), s.tasks[t].vtime)
    ensures CpuFree(s, target) ==> CpuFree(s', target)
  {
  }

  /** The shared queue: the task is queued with the slice of its parameters, under its vtime
      or one default slice behind the clock, whichever is later. */
  lemma EnqueueLands(s: State, t: Tid, on: Cpu, s': State)
    requires Step(Exact, s, Enqueue(t, on)) == Some(s')
    ensures At(s, t, Off) && At(s', t, Shared) && s'.tasks[t].slice == TaskSlice(ParamsOf(s, t).tp)
    ensures s'.tasks[t].vtime >= s.tasks[t].vtime && s'.tasks[t].vtime >= s.now - 5_000_000
    ensures s'.tasks[t].vtime == s.tasks[t].vtime || s'.tasks[t].vtime == s.now - 5_000_000
  {
  }

  /** Dispatch: a task that no queued one is before is ready on the dispatching CPU, with the
      slice and the key it was queued with. */
  lemma DispatchLands(a: Arith, s: State, t: Tid, cpu: Cpu, s': State)
    requires Step(a, s, Dispatch(t, cpu)) == Some(s')
    ensures At(s, t, Shared) && ReadyOn(a, s', t, cpu, s.tasks[t].slice, s.tasks[t].vtime)
    ensures forall u | At(s, u, Shared) :: !Before(a, s.tasks[u].vtime, s.tasks[t].vtime)
    ensures CpuFree(s, cpu) ==> CpuFree(s', cpu)
  {
  }

  /** Running: the task was ready on that CPU, nothing ran there, and the clock is the later
      of itself and the task's vtime. */
  lemma RunningLands(s: State, t: Tid, cpu: Cpu, s': State)
    requires Step(Exact, s, Running(t, cpu)) == Some(s')
    ensures At(s, t, Local(cpu)) && CpuFree(s, cpu) && At(s', t, OnCpu(cpu))
    ensures s'.tasks[t].vtime == s.tasks[t].vtime && s'.tasks[t].slice == s.tasks[t].slice
    ensures s'.now >= s.now && s'.now >= s.tasks[t].vtime && (s'.now == s.now || s'.now == s.tasks[t].vtime)
  {
  }

  /** Stopping: the task leaves the CPU, or stays ready on the same one, and its vtime grows
      by 10000 times what it used over its weight, rounded down. */
  lemma StoppingLands(s: State, t: Tid, keep: bool, s': State)
    requires Step(Exact, s, Stopping(t, keep)) == Some(s')
    ensures t in s.tasks && t in s'.tasks && s.tasks[t].place.OnCpu?
    ensures s'.tasks[t].place == if keep then Local(s.tasks[t].place.cpu) else Off
    ensures s'.tasks[t].slice == s.tasks[t].slice && s'.now == s.now
    ensures var cost, used, w := s'.tasks[t].vtime - s.tasks[t].vtime, UsedOf(s, t), ParamsOf(s, t).tp.weight;
            && (w > 0 ==> cost * w <= 10_000 * used < (cost + 1) * w)
            && (w == 0 ==> cost == 10_000 * used)
  {
    ChargeBounds(ParamsOf(s, t).tp.weight, UsedOf(s, t));
  }

  /** A new task starts inactive at the clock, under what its process and cgroup look up. */
  lemma EnableStarts(a: Arith, s: State, t: Tid, tgid: u32, cgid: u64, s': State)
    requires Step(a, s, Enable(t, tgid, cgid)) == Some(s')
    ensures t !in s.tasks && At(s', t, Off) && s'.tasks[t].vtime == s.now
    ensures ParamsOf(s', t) == Lookup(s.byTgid, s.byCgroup, tgid, cgid)
  {
  }

  predicate Concerns(l: Label, t: Tid) {
    !l.WriteMaps? && l.t == t
  }

  predicate CountsOn(l: Label, cpu: Cpu) {
    (l.Enqueue? || l.SelectIdle?) && l.on == cpu
  }

  /** A step leaves alone every task but its own, every CPU's counters but those of the CPU
      an insertion runs on, the maps unless it writes them, and the clock unless a task
      starts to run. */
  lemma StepFrame(a: Arith, s: State, l: Label, s': State, u: Tid, cpu: Cpu)
    requires Step(a, s, l) == Some(s')
    ensures !Concerns(l, u) ==> (u in s'.tasks <==> u in s.tasks) && (u in s.tasks ==> s'.tasks[u] == s.tasks[u])
    ensures |s'.stats| == |s.stats| && (cpu < |s.stats| && !CountsOn(l, cpu) ==> s'.stats[cpu] == s.stats[cpu])
    ensures !l.WriteMaps? ==> s'.byTgid == s.byTgid && s'.byCgroup == s.byCgroup
    ensures !l.Running? ==> s'.now == s.now
  {
  }

  /** `t` and `u` do not run on one CPU. */
  ghost predicate Exclusive(s: State, t: Tid, u: Tid) {
    t in s.tasks && u in s.tasks && s.tasks[t].place.OnCpu? && s.tasks[t].place == s.tasks[u].place ==> t == u
  }

  lemma StepExclusive(a: Arith, s: State, l: Label, s': State, t: Tid, u: Tid)
    requires Step(a, s, l) == Some(s') && Exclusive(s, t, u)
    ensures Exclusive(s', t, u)
  {
  }

  /** In every reachable state at most one task runs on each CPU. */
  lemma {:induction false} OneRunner(a: Arith, cpus: nat, ls: seq<Label>, t: Tid, u: Tid)
    requires Run(a, Init(cpus), ls).Some?
    ensures Exclusive(Run(a, Init(cpus), ls).value, t, u)
  {
    if ls != [] {
      var most := ls[..|ls| - 1];
      OneRunner(a, cpus, most, t, u);
      StepExclusive(a, Run(a, Init(cpus), most).value, ls[|ls| - 1], Run(a, Init(cpus), ls).value, t, u);
    }
  }

  predicate Exists(p: Place, cpus: nat) {
    match p
    case Local(cpu) => cpu < cpus
    case OnCpu(cpu) => cpu < cpus
    case _ => true
  }

  /** Tasks are only ever placed on CPUs that exist. */
  lemma {:induction false} PlacesExist(a: Arith, cpus: nat, ls: seq<Label>, t: Tid)
    requires Run(a, Init(cpus), ls).Some?
    ensures var s := Run(a, Init(cpus), ls).value;
            |s.stats| == cpus && (t in s.tasks ==> Exists(s.tasks[t].place, cpus))
  {
    if ls != [] {
      var most := ls[..|ls| - 1];
      PlacesExist(a, cpus, most, t);
      StepExists(a, Run(a, Init(cpus), most).value, ls[|ls| - 1], Run(a, Init(cpus), ls).value, t);
    }
  }

  lemma StepExists(a: Arith, s: State, l: Label, s': State, t: Tid)
    requires Step(a, s, l) == Some(s') && (t in s.tasks ==> Exists(s.tasks[t].place, |s.stats|))
    ensures |s'.stats| == |s.stats| && (t in s'.tasks ==> Exists(s'.tasks[t].place, |s.stats|))
  {
  }
}
