/** The BPF callbacks as they run: fields updated in place with u64 arithmetic. Each
    method is one label of the u64 transition system. */
module Kernel {
  import opened Wrappers
  import opened Params
  import opened Machine

  predicate InRange(x: int) {
    0 <= x < TWO64
  }

  class Scheduler {
    var vtimeNow: u64
    var tasks: map<Tid, Task>
    var byTgid: TgidMap
    var byCgroup: CgroupMap
    var stats: seq<Stats>

    ghost function View(): State
      reads this
    {
      State(vtimeNow, tasks, byTgid, byCgroup, stats)
    }

    /** Every virtual time and every counter is a u64. */
    ghost predicate Valid()
      reads this
    {
      && (forall t | t in tasks :: InRange(tasks[t].vtime))
      && (forall i | 0 <= i < |stats| ::
            && InRange(stats[i].enqueues) && InRange(stats[i].localDispatches)
            && InRange(stats[i].budgetCapped) && InRange(stats[i].defaults))
    }

    /** `vtime_now` is zero-initialised and the per-CPU counters start at zero. */
    constructor (cpus: nat)
      ensures Valid() && View() == Init(cpus)
    {
      vtimeNow, tasks, byTgid, byCgroup := 0, map[], map[], map[];
      stats := seq(cpus, _ => ZERO_STATS);
    }

    method LookupTaskParams(t: Tid) returns (tp: TaskParams, found: bool)
      requires t in tasks
      ensures Found(tp, found) == ParamsOf(View(), t)
    {
      var tgid := tasks[t].tgid;
      if tgid in byTgid {
        return byTgid[tgid], true;
      }
      var cgid := tasks[t].cgid;
      if cgid != 0 {
        if cgid in byCgroup {
          return byCgroup[cgid], true;
        }
      }
      tp := TaskParams(DEFAULT_WEIGHT, 0);
      found := false;
    }

    /** The kernel chose `target`; only an idle one is inserted into directly. */
    method SelectCpu(t: Tid, target: Cpu, isIdle: bool, on: Cpu)
      requires Valid() && At(View(), t, Off) && target < |stats| && on < |stats|
      modifies this
      ensures Valid()
      ensures isIdle ==> Step(U64, old(View()), Label.SelectIdle(t, target, on)) == Some(View())
      ensures !isIdle ==> View() == old(View())
    {
      if isIdle {
        var tp, _ := LookupTaskParams(t);
        var slice := TaskSlice(tp);
        tasks := tasks[t := tasks[t].(slice := slice, place := Local(target))];
        var s := stats[on];
        s := s.(localDispatches := (s.localDispatches + 1) % TWO64);
        if slice < DEFAULT_SLICE_NS {
          s := s.(budgetCapped := (s.budgetCapped + 1) % TWO64);
        }
        stats := stats[on := s];
      }
    }

    method Enqueue(t: Tid, on: Cpu)
      requires Valid() && At(View(), t, Off) && on < |stats|
      modifies this
      ensures Valid()
      ensures Step(U64, old(View()), Label.Enqueue(t, on)) == Some(View())
    {
      var tp, found := LookupTaskParams(t);
      var slice := TaskSlice(tp);
      var vtime := tasks[t].vtime;
      var floor := (vtimeNow - DEFAULT_SLICE_NS) % TWO64;
      if Before(U64, vtime, floor) {
        vtime := floor;
      }
      tasks := tasks[t := tasks[t].(slice := slice, vtime := vtime, place := Shared)];
      var s := stats[on];
      s := s.(enqueues := (s.enqueues + 1) % TWO64);
      if slice < DEFAULT_SLICE_NS {
        s := s.(budgetCapped := (s.budgetCapped + 1) % TWO64);
      }
      if !found {
        s := s.(defaults := (s.defaults + 1) % TWO64);
      }
      stats := stats[on := s];
    }

    /** `lowest` is what the kernel's queue yields: a task none is before, or nothing
        when the queue is empty. */
    method Dispatch(cpu: Cpu, lowest: Option<Tid>)
      requires Valid() && cpu < |stats|
      requires lowest.Some? ==> First(U64, View(), lowest.value)
      modifies this
      ensures Valid()
      ensures lowest.Some? ==> Step(U64, old(View()), Label.Dispatch(lowest.value, cpu)) == Some(View())
      ensures lowest.None? ==> View() == old(View())
    {
      match lowest
      case None =>
      case Some(t) => tasks := tasks[t := tasks[t].(place := Local(cpu))];
    }

    method Running(t: Tid, cpu: Cpu)
      requires Valid() && cpu < |stats| && At(View(), t, Local(cpu)) && CpuFree(View(), cpu)
      modifies this
      ensures Valid()
      ensures Step(U64, old(View()), Label.Running(t, cpu)) == Some(View())
    {
      if Before(U64, vtimeNow, tasks[t].vtime) {
        vtimeNow := tasks[t].vtime;
      }
      tasks := tasks[t := tasks[t].(place := OnCpu(cpu))];
    }

    method Stopping(t: Tid, keep: bool)
      requires Valid() && t in tasks && tasks[t].place.OnCpu?
      modifies this
      ensures Valid()
      ensures Step(U64, old(View()), Label.Stopping(t, keep)) == Some(View())
    {
      var tp, _ := LookupTaskParams(t);
      var slice := TaskSlice(tp);
      var used := UsedNs(slice, tasks[t].slice);
      ChargeBounds(tp.weight, used);
      var scaled := (used * MAX_PRIO_WEIGHT) % TWO64;
      assert scaled == used * MAX_PRIO_WEIGHT;
      var cost := scaled / if tp.weight != 0 then tp.weight else 1;
      assert cost == ChargeOf(View(), t);
      var place := if keep then Local(tasks[t].place.cpu) else Off;
      tasks := tasks[t := tasks[t].(vtime := (tasks[t].vtime + cost) % TWO64, place := place)];
    }

    method Enable(t: Tid, tgid: u32, cgid: u64)
      requires Valid() && t !in tasks
      modifies this
      ensures Valid()
      ensures Step(U64, old(View()), Label.Enable(t, tgid, cgid)) == Some(View())
    {
      tasks := tasks[t := Task(tgid, cgid, vtimeNow, SCX_SLICE_DFL, Off)];
    }
  }
}
