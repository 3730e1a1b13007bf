/** From admitted policies to the kernel's queue: what the agent may write is enough for
    the scheduler's guarantees, in the u64 scheduler as well as in the exact one. */
module EndToEnd {
  import opened Wrappers
  import opened Params
  import opened Machine
  import opened Wrap
  import opened Usage
  import opened Share
  import opened Overtaking
  import opened Tracking
  import PodMaps
  import Agreement

  /** Parameters some pod resolves to under admitted policies. */
  ghost predicate Resolvable(tp: TaskParams) {
    exists policies, matches, pod ::
      Resolver.Resolved(policies, matches, pod, tp) && forall n | n in policies :: Admitted(policies[n])
  }

  predicate Sane(tp: TaskParams) {
    1 <= tp.weight <= MAX_PRIO_WEIGHT
  }

  lemma ResolvableSane(tp: TaskParams)
    requires Resolvable(tp)
    ensures Sane(tp)
  {
    var policies, matches, pod :|
      Resolver.Resolved(policies, matches, pod, tp) && forall n | n in policies :: Admitted(policies[n]);
    ResolvedWeight(policies, matches, pod, tp.weight);
  }

  ghost predicate SaneMaps(byTgid: TgidMap, byCgroup: CgroupMap) {
    (forall g | g in byTgid :: Sane(byTgid[g])) && (forall c | c in byCgroup :: Sane(byCgroup[c]))
  }

  /** The agent's operations only write what was resolved. */
  ghost predicate AllResolvable(ops: seq<Agreement.Op>) {
    forall k | 0 <= k < |ops| && ops[k].Update? :: Resolvable(ops[k].tp)
  }

  lemma ApplySane(b: PodMaps.Books, op: Agreement.Op)
    requires SaneMaps(b.byTgid, b.byCgroup) && (op.Update? ==> Sane(op.tp))
    ensures SaneMaps(Agreement.Apply(b, op).byTgid, Agreement.Apply(b, op).byCgroup)
  {
  }

  lemma {:induction false} BooksSane(ops: seq<Agreement.Op>)
    requires AllResolvable(ops)
    ensures SaneMaps(Agreement.After(ops).byTgid, Agreement.After(ops).byCgroup)
  {
    if ops != [] {
      BooksSane(ops[..|ops| - 1]);
      if ops[|ops| - 1].Update? {
        ResolvableSane(ops[|ops| - 1].tp);
      }
      ApplySane(Agreement.After(ops[..|ops| - 1]), ops[|ops| - 1]);
    }
  }

  /** `l` writes the maps the operations leave. */
  ghost predicate Leaves(ops: seq<Agreement.Op>, l: Label) {
    l.WriteMaps? && l.byTgid == Agreement.After(ops).byTgid && l.byCgroup == Agreement.After(ops).byCgroup
  }

  /** The maps change only to what a run of agent operations leaves. */
  ghost predicate AgentWrites(l: Label) {
    l.WriteMaps? ==> exists ops :: AllResolvable(ops) && Leaves(ops, l)
  }

  ghost predicate AllAgentWrites(ls: seq<Label>) {
    forall k | 0 <= k < |ls| :: AgentWrites(ls[k])
  }

  lemma {:induction false} RunSane(s: State, ls: seq<Label>)
    requires Run(Exact, s, ls).Some? && SaneMaps(s.byTgid, s.byCgroup) && AllAgentWrites(ls)
    ensures SaneMaps(Run(Exact, s, ls).value.byTgid, Run(Exact, s, ls).value.byCgroup)
  {
    if ls != [] {
      var most := ls[..|ls| - 1];
      RunSane(s, most);
      StepSane(Run(Exact, s, most).value, ls[|ls| - 1], Run(Exact, s, ls).value);
    }
  }

  lemma StepSane(s: State, l: Label, s': State)
    requires Step(Exact, s, l) == Some(s') && SaneMaps(s.byTgid, s.byCgroup) && AgentWrites(l)
    ensures SaneMaps(s'.byTgid, s'.byCgroup)
  {
    if l.WriteMaps? {
      var ops :| AllResolvable(ops) && Leaves(ops, l);
      BooksSane(ops);
    }
  }

  /** A task handed out runs for at least one nanosecond before it stops. */
  ghost predicate Uses(s: State, l: Label) {
    && (l.Stopping? && l.t in s.tasks ==> UsedOf(s, l.t) >= 1)
    && (l.Dequeue? && l.t in s.tasks ==> !s.tasks[l.t].place.Local?)
  }

  ghost predicate AllUse(a: Arith, s: State, ls: seq<Label>) {
    forall k | 0 <= k < |ls| && Run(a, s, ls[..k]).Some? :: Uses(Run(a, s, ls[..k]).value, ls[k])
  }

  lemma UseIsCharged(s: State, l: Label)
    requires SaneMaps(s.byTgid, s.byCgroup) && Uses(s, l)
    ensures Overtaking.Charged(s, l)
  {
    if l.Stopping? && l.t in s.tasks {
      ChargeAtLeastUsed(ParamsOf(s, l.t).tp.weight, UsedOf(s, l.t));
    }
  }

  lemma SaneCharged(s: State, ls: seq<Label>)
    requires SaneMaps(s.byTgid, s.byCgroup) && AllUse(Exact, s, ls) && AllAgentWrites(ls)
    ensures AllCharged(s, ls)
  {
    forall k | 0 <= k < |ls| && Run(Exact, s, ls[..k]).Some?
      ensures Overtaking.Charged(Run(Exact, s, ls[..k]).value, ls[k])
    {
      RunSane(s, ls[..k]);
      UseIsCharged(Run(Exact, s, ls[..k]).value, ls[k]);
    }
  }

  /** More tasks were handed out than the measure of `p` in `s` allows. */
  ghost predicate Overdue(a: Arith, s: State, ls: seq<Label>, p: Tid) {
    At(s, p, Shared) && AllDispatches(ls) > TotalTurns(a, s, s.tasks.Keys - {p}, s.tasks[p].vtime)
  }

  /** No starvation, from the policies down: if the agent only ever writes what admitted
      policies and annotations resolve to, then among a fixed set of tasks that use their
      turns, a queued task is handed out within its measure of dispatches. */
  lemma PoliciesNeverStarve(cpus: nat, before: seq<Label>, ls: seq<Label>, p: Tid)
    requires Run(Exact, Init(cpus), before).Some? && AllAgentWrites(before) && AllAgentWrites(ls) && FixedTasks(ls)
    requires var s := Run(Exact, Init(cpus), before).value;
             Run(Exact, s, ls).Some? && AllUse(Exact, s, ls) && Overdue(Exact, s, ls, p)
    requires forall k | 0 <= k < |ls| :: ls[k] != Dequeue(p)
    ensures exists k :: 0 <= k < |ls| && Hands(ls[k], p)
  {
    var s := Run(Exact, Init(cpus), before).value;
    RunSane(Init(cpus), before);
    SaneCharged(s, ls);
    NoStarvation(s, ls, p);
  }

  /** A task whose signed distance from the key `v` is its distance. */
  ghost predicate Comparable(s: State, q: Tid, v: int) {
    q in s.tasks ==> -TWO63 <= v - s.tasks[q].vtime < TWO63
  }

  lemma WrapDiff(x: int, y: int)
    requires -TWO63 <= x - y < TWO63
    ensures Diff(U64, x % TWO64, y % TWO64) == Diff(Exact, x, y)
  {
    WrapSub(x, y);
  }

  lemma WrapTurns(s: State, q: Tid, v: int)
    requires q in s.tasks && Comparable(s, q, v)
    ensures Turns(U64, WrapState(s), q, v % TWO64) == Turns(Exact, s, q, v)
  {
    WrapDiff(v, s.tasks[q].vtime);
  }

  lemma {:induction false} WrapTotal(s: State, qs: set<Tid>, v: int)
    requires qs <= s.tasks.Keys && forall q | q in qs :: Comparable(s, q, v)
    ensures TotalTurns(U64, WrapState(s), qs, v % TWO64) == TotalTurns(Exact, s, qs, v)
  {
    if qs != {} {
      var q := Pick(qs);
      WrapTurns(s, q, v);
      WrapTotal(s, qs - {q}, v);
    }
  }

  lemma ExactUse(cpus: nat, before: seq<Label>, ls: seq<Label>)
    requires Run(U64, Init(cpus), before).Some? && AllNear(cpus, before + ls)
    requires var w := Run(U64, Init(cpus), before).value; Run(U64, w, ls).Some? && AllUse(U64, w, ls)
    ensures Run(Exact, Init(cpus), before).Some? && AllUse(Exact, Run(Exact, Init(cpus), before).value, ls)
  {
    ExactRun(cpus, before, ls, 0);
    var s := Run(Exact, Init(cpus), before).value;
    forall k | 0 <= k < |ls| && Run(Exact, s, ls[..k]).Some?
      ensures Uses(Run(Exact, s, ls[..k]).value, ls[k])
    {
      ExactRun(cpus, before, ls, k);
      SameUse(Run(Exact, s, ls[..k]).value, ls[k]);
    }
  }

  lemma SameUse(s: State, l: Label)
    requires Uses(WrapState(s), l)
    ensures Uses(s, l)
  {
  }

  /** The same for the u64 scheduler, with the measure read off its own state by signed
      differences: as long as nothing falls 2^63 behind, and no task is 2^63 away from the
      waiting one when it is measured. */
  lemma PoliciesNeverStarveU64(cpus: nat, before: seq<Label>, ls: seq<Label>, p: Tid)
    requires Run(U64, Init(cpus), before).Some? && AllAgentWrites(before) && AllAgentWrites(ls) && FixedTasks(ls)
    requires var w := Run(U64, Init(cpus), before).value;
             Run(U64, w, ls).Some? && AllUse(U64, w, ls) && Overdue(U64, w, ls, p)
    requires forall k | 0 <= k < |ls| :: ls[k] != Dequeue(p)
    requires AllNear(cpus, before + ls) && Run(Exact, Init(cpus), before).Some?
    requires var s := Run(Exact, Init(cpus), before).value;
             p in s.tasks ==> forall q :: Comparable(s, q, s.tasks[p].vtime)
    ensures exists k :: 0 <= k < |ls| && Hands(ls[k], p)
  {
    var s := Run(Exact, Init(cpus), before).value;
    ExactRun(cpus, before, ls, |ls|);
    assert ls[..|ls|] == ls;
    ExactUse(cpus, before, ls);
    assert WrapState(s).tasks.Keys == s.tasks.Keys;
    WrapTotal(s, s.tasks.Keys - {p}, s.tasks[p].vtime);
    PoliciesNeverStarve(cpus, before, ls, p);
  }

  lemma SameUsed(s: State, l: Label, k: Tid)
    ensures UsedAt(Some(WrapState(s)), l, k) == UsedAt(Some(s), l, k)
  {
  }

  /** Both runs charge the same CPU time. */
  lemma {:induction false} SameCpuTime(cpus: nat, before: seq<Label>, ls: seq<Label>, k: Tid)
    requires Run(U64, Init(cpus), before).Some? && AllNear(cpus, before + ls)
    requires Run(U64, Run(U64, Init(cpus), before).value, ls).Some?
    ensures Run(Exact, Init(cpus), before).Some?
    ensures CpuTime(U64, Run(U64, Init(cpus), before).value, ls, k) ==
            CpuTime(Exact, Run(Exact, Init(cpus), before).value, ls, k)
  {
    var w := Run(U64, Init(cpus), before).value;
    if ls == [] {
      ExactRun(cpus, before, ls, 0);
    } else {
      var n := |ls| - 1;
      RunPrefix(U64, w, ls, n);
      NearUpTo(cpus, before + ls, before + ls[..n]);
      SameCpuTime(cpus, before, ls[..n], k);
      ExactRun(cpus, before, ls, n);
      SameUsed(Run(Exact, Run(Exact, Init(cpus), before).value, ls[..n]).value, ls[n], k);
    }
  }

  /** The u64 runs behind two stretches of moves. */
  lemma U64Runs(cpus: nat, before: seq<Move>, ms: seq<Move>)
    requires MoveRun(Init(cpus), before).Some? && MoveRun(MoveRun(Init(cpus), before).value, ms).Some?
    requires AllNear(cpus, Labels(before) + Labels(ms))
    ensures Run(U64, Init(cpus), Labels(before)).Some?
    ensures Run(U64, Run(U64, Init(cpus), Labels(before)).value, Labels(ms)).Some?
    ensures Run(Exact, Init(cpus), Labels(before)) == MoveRun(Init(cpus), before)
  {
    var s := MoveRun(Init(cpus), before).value;
    MoveRunIsRun(Init(cpus), before);
    MoveRunIsRun(s, ms);
    NearUpTo(cpus, Labels(before) + Labels(ms), Labels(before));
    RunRefines(cpus, Labels(before));
    RunRefines(cpus, Labels(before) + Labels(ms));
    RunConcat(Exact, Init(cpus), Labels(before), s, Labels(ms));
    RunConcat(U64, Init(cpus), Labels(before), WrapState(s), Labels(ms));
  }

  /** Proportional share of the u64 scheduler, as long as nothing falls 2^63 behind. */
  lemma ProportionalShareU64(cpus: nat, before: seq<Move>, ms: seq<Move>, i: Tid, j: Tid,
                             pi: TaskParams, pj: TaskParams)
    requires Compared(cpus, before, ms, i, pi) && Compared(cpus, before, ms, j, pj)
    requires AllNear(cpus, Labels(before) + Labels(ms))
    ensures Run(U64, Init(cpus), Labels(before)).Some?
    ensures var w := Run(U64, Init(cpus), Labels(before)).value;
            var gap := Weighted(CpuTime(U64, w, Labels(ms), i), pi) - Weighted(CpuTime(U64, w, Labels(ms), j), pj);
            var slack := 2 * DEFAULT_SLICE_NS + FullCharge(pi) + FullCharge(pj);
            -((slack + StopCount(ms, j)) as real) <= gap <= (slack + StopCount(ms, i)) as real
  {
    U64Runs(cpus, before, ms);
    SameCpuTime(cpus, Labels(before), Labels(ms), i);
    SameCpuTime(cpus, Labels(before), Labels(ms), j);
    ProportionalShare(cpus, before, ms, i, j, pi, pj);
  }
}
