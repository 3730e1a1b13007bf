/** The slice a task is given whenever it gets a CPU. */
module Budget {
  import opened Wrappers
  import opened Params
  import opened Machine

  predicate Inserts(l: Label, t: Tid) {
    (l.Enqueue? || l.SelectIdle?) && l.t == t
  }

  /** The parameters `t` had when it was last inserted into a queue. */
  function LatestInsert(a: Arith, s: State, ls: seq<Label>, t: Tid): Option<TaskParams> {
    if ls == [] then None
    else
      var most := ls[..|ls| - 1];
      if !Inserts(ls[|ls| - 1], t) then LatestInsert(a, s, most, t)
      else
        match Run(a, s, most)
        case None => None
        case Some(m) => if t in m.tasks then Some(ParamsOf(m, t).tp) else None
  }

  ghost predicate QueuedWith(s: State, t: Tid, tp: Option<TaskParams>) {
    At(s, t, Shared) ==> tp.Some? && s.tasks[t].slice == TaskSlice(tp.value)
  }

  lemma StepQueuedWith(a: Arith, s: State, l: Label, s': State, t: Tid, tp: Option<TaskParams>)
    requires Step(a, s, l) == Some(s') && QueuedWith(s, t, tp)
    ensures QueuedWith(s', t, if Inserts(l, t) && t in s.tasks then Some(ParamsOf(s, t).tp) else tp)
  {
  }

  /** A queued task holds the slice of the parameters it was last inserted under. */
  lemma {:induction false} RunQueuedWith(a: Arith, cpus: nat, ls: seq<Label>, t: Tid)
    requires Run(a, Init(cpus), ls).Some?
    ensures QueuedWith(Run(a, Init(cpus), ls).value, t, LatestInsert(a, Init(cpus), ls, t))
  {
    if ls != [] {
      var most, l := ls[..|ls| - 1], ls[|ls| - 1];
      RunQueuedWith(a, cpus, most, t);
      StepQueuedWith(a, Run(a, Init(cpus), most).value, l, Run(a, Init(cpus), ls).value, t,
                     LatestInsert(a, Init(cpus), most, t));
    }
  }

  /** In every run, exact or u64, a task handed out by the shared queue or placed on an
      idle CPU starts with the slice of the parameters it was last inserted under, never
      more than that budget or the default. */
  lemma GrantedSlice(a: Arith, cpus: nat, ls: seq<Label>, l: Label, t: Tid)
    requires Run(a, Init(cpus), ls + [l]).Some? && (l.Dispatch? || l.SelectIdle?) && l.t == t
    ensures var s, tp := Run(a, Init(cpus), ls + [l]).value, LatestInsert(a, Init(cpus), ls + [l], t);
            && t in s.tasks && s.tasks[t].place.Local? && tp.Some?
            && s.tasks[t].slice == TaskSlice(tp.value) <= DEFAULT_SLICE_NS
            && (tp.value.budgetNs > 0 ==> s.tasks[t].slice <= tp.value.budgetNs)
  {
    assert (ls + [l])[..|ls|] == ls && (ls + [l])[|ls|] == l;
    RunQueuedWith(a, cpus, ls, t);
  }
}
