/** How often other tasks can be handed out before a queued one. */
module Overtaking {
  import opened Wrappers
  import opened Params
  import opened Machine

  predicate Hands(l: Label, q: Tid) {
    l.Dispatch? && l.t == q
  }

  /** The two ways out of the shared queue. */
  predicate TakesOut(l: Label, p: Tid) {
    Hands(l, p) || l == Dequeue(p)
  }

  /** Number of times the shared queue handed out `q`. */
  function Dispatches(ls: seq<Label>, q: Tid): nat {
    if ls == [] then 0
    else Dispatches(ls[..|ls| - 1], q) + if Hands(ls[|ls| - 1], q) then 1 else 0
  }

  function AllDispatches(ls: seq<Label>): nat {
    if ls == [] then 0
    else AllDispatches(ls[..|ls| - 1]) + if ls[|ls| - 1].Dispatch? then 1 else 0
  }

  function Positive(x: int): nat {
    if x > 0 then x else 0
  }

  ghost predicate Waits(s: State, p: Tid, v: int) {
    At(s, p, Shared) && s.tasks[p].vtime == v
  }

  /** A task that was handed out runs and is charged for it: every stop costs something,
      and no task is taken back unrun. */
  ghost predicate Charged(s: State, l: Label) {
    && (l.Stopping? && l.t in s.tasks ==> ChargeOf(s, l.t) >= 1)
    && (l.Dequeue? && l.t in s.tasks ==> !s.tasks[l.t].place.Local?)
  }

  ghost predicate AllCharged(s: State, ls: seq<Label>) {
    forall k | 0 <= k < |ls| && Run(Exact, s, ls[..k]).Some? ::
      Charged(Run(Exact, s, ls[..k]).value, ls[k])
  }

  /** How far `x` is after `y`; in u64 arithmetic the signed difference. */
  function Diff(a: Arith, x: int, y: int): int {
    if a.Exact? then x - y
    else
      var d := (x - y) % TWO64;
      if d >= TWO63 then d - TWO64 else d
  }

  /** Turns `q` has left while someone waits at `v`; a task not created yet would start
      at the clock. */
  function Turns(a: Arith, s: State, q: Tid, v: int): nat {
    if q !in s.tasks then Positive(Diff(a, v, s.now) + 1)
    else if s.tasks[q].place.Off? || s.tasks[q].place.Shared? then Positive(Diff(a, v, s.tasks[q].vtime) + 1)
    else Positive(Diff(a, v, s.tasks[q].vtime))
  }

  lemma StepTurns(s: State, l: Label, s': State, p: Tid, v: int, q: Tid)
    requires Step(Exact, s, l) == Some(s') && Waits(s, p, v)
    requires q != p && l != Leave(q) && Charged(s, l)
    ensures Turns(Exact, s', q, v) + (if Hands(l, q) then 1 else 0) <= Turns(Exact, s, q, v)
  {
  }

  lemma StepQueued(s: State, l: Label, s': State, p: Tid, v: int)
    requires Step(Exact, s, l) == Some(s') && Waits(s, p, v) && !TakesOut(l, p)
    ensures Waits(s', p, v)
  {
  }

  /** A queued task keeps its place and its key until it is handed out. */
  lemma {:induction false} StaysQueued(s: State, ls: seq<Label>, p: Tid, v: int)
    requires Run(Exact, s, ls).Some? && Waits(s, p, v)
    requires forall k | 0 <= k < |ls| :: !TakesOut(ls[k], p)
    ensures Waits(Run(Exact, s, ls).value, p, v)
  {
    if ls != [] {
      var most, l := ls[..|ls| - 1], ls[|ls| - 1];
      assert !TakesOut(ls[|ls| - 1], p);
      StaysQueued(s, most, p, v);
      StepQueued(Run(Exact, s, most).value, l, Run(Exact, s, ls).value, p, v);
    }
  }

  lemma ChargedPrefix(s: State, ls: seq<Label>)
    requires ls != [] && AllCharged(s, ls)
    ensures AllCharged(s, ls[..|ls| - 1])
  {
    var most := ls[..|ls| - 1];
    assert forall k | 0 <= k < |most| :: most[..k] == ls[..k] && most[k] == ls[k];
  }

  /** Bounded overtaking, for any number of CPUs, with idle shortcuts, changing
      parameters and new tasks: while `p` waits at `v`, another task starting at virtual
      time `w` is handed out at most max(0, v - w + 1) times. */
  lemma {:induction false} BoundedOvertaking(s: State, ls: seq<Label>, p: Tid, v: int, q: Tid)
    requires Run(Exact, s, ls).Some? && Waits(s, p, v) && q != p
    requires forall k | 0 <= k < |ls| :: !TakesOut(ls[k], p) && ls[k] != Leave(q)
    requires AllCharged(s, ls)
    ensures Dispatches(ls, q) + Turns(Exact, Run(Exact, s, ls).value, q, v) <= Turns(Exact, s, q, v)
    ensures Dispatches(ls, q) <= Positive(v - (if q in s.tasks then s.tasks[q].vtime else s.now) + 1)
  {
    if ls != [] {
      var most := ls[..|ls| - 1];
      ChargedPrefix(s, ls);
      BoundedOvertaking(s, most, p, v, q);
      StaysQueued(s, most, p, v);
      assert Run(Exact, s, most).Some?;
      StepTurns(Run(Exact, s, most).value, ls[|ls| - 1], Run(Exact, s, ls).value, p, v, q);
    }
  }

  /** The measure: all turns the tasks `qs` have left before `v`. */
  ghost function TotalTurns(a: Arith, s: State, qs: set<Tid>, v: int): nat {
    if qs == {} then 0
    else Turns(a, s, Pick(qs), v) + TotalTurns(a, s, qs - {Pick(qs)}, v)
  }

  lemma {:induction false} StepTotal(s: State, l: Label, s': State, p: Tid, v: int, qs: set<Tid>)
    requires Step(Exact, s, l) == Some(s') && Waits(s, p, v) && p !in qs
    requires !l.Leave? && Charged(s, l)
    ensures TotalTurns(Exact, s', qs, v) + (if l.Dispatch? && l.t in qs then 1 else 0) <= TotalTurns(Exact, s, qs, v)
  {
    if qs != {} {
      var q := Pick(qs);
      StepTurns(s, l, s', p, v, q);
      StepTotal(s, l, s', p, v, qs - {q});
    }
  }

  ghost predicate FixedTasks(ls: seq<Label>) {
    forall k | 0 <= k < |ls| :: !ls[k].Enable? && !ls[k].Leave?
  }

  lemma StepKeepsTasks(s: State, l: Label, s': State)
    requires Step(Exact, s, l) == Some(s') && !l.Enable? && !l.Leave?
    ensures s'.tasks.Keys == s.tasks.Keys
  {
  }

  lemma {:induction false} KeepsTasks(s: State, ls: seq<Label>)
    requires Run(Exact, s, ls).Some? && FixedTasks(ls)
    ensures Run(Exact, s, ls).value.tasks.Keys == s.tasks.Keys
  {
    if ls != [] {
      var most, l := ls[..|ls| - 1], ls[|ls| - 1];
      assert !ls[|ls| - 1].Enable? && !ls[|ls| - 1].Leave?;
      KeepsTasks(s, most);
      StepKeepsTasks(Run(Exact, s, most).value, l, Run(Exact, s, ls).value);
    }
  }

  /** The measure falls with every task handed out before `p`. */
  lemma {:induction false} TotalBound(s: State, ls: seq<Label>, p: Tid, v: int)
    requires Run(Exact, s, ls).Some? && Waits(s, p, v) && FixedTasks(ls) && AllCharged(s, ls)
    requires forall k | 0 <= k < |ls| :: !TakesOut(ls[k], p)
    ensures AllDispatches(ls) + TotalTurns(Exact, Run(Exact, s, ls).value, s.tasks.Keys - {p}, v)
            <= TotalTurns(Exact, s, s.tasks.Keys - {p}, v)
  {
    if ls != [] {
      var most := ls[..|ls| - 1];
      ChargedPrefix(s, ls);
      TotalBound(s, most, p, v);
      StaysQueued(s, most, p, v);
      KeepsTasks(s, most);
      assert !TakesOut(ls[|ls| - 1], p);
      StepTotal(Run(Exact, s, most).value, ls[|ls| - 1], Run(Exact, s, ls).value, p, v, s.tasks.Keys - {p});
    }
  }

  /** No starvation among a fixed set of tasks: once the shared queue has handed out
      more tasks than the measure allows, the waiting one was among them. */
  lemma NoStarvation(s: State, ls: seq<Label>, p: Tid)
    requires Run(Exact, s, ls).Some? && At(s, p, Shared) && FixedTasks(ls) && AllCharged(s, ls)
    requires AllDispatches(ls) > TotalTurns(Exact, s, s.tasks.Keys - {p}, s.tasks[p].vtime)
    requires forall k | 0 <= k < |ls| :: ls[k] != Dequeue(p)
    ensures exists k :: 0 <= k < |ls| && Hands(ls[k], p)
  {
    if forall k | 0 <= k < |ls| :: !Hands(ls[k], p) {
      TotalBound(s, ls, p, s.tasks[p].vtime);
    }
  }

  /** While anyone is queued, some task can be handed out. */
  lemma {:induction false} SomeoneIsFirst(s: State, qs: set<Tid>)
    requires qs != {} && qs <= s.tasks.Keys
    ensures exists t :: t in qs && forall q | q in qs :: s.tasks[t].vtime <= s.tasks[q].vtime
  {
    var q := Pick(qs);
    if qs == {q} {
      assert q in qs;
    } else {
      SomeoneIsFirst(s, qs - {q});
      var t :| t in qs - {q} && forall u | u in qs - {q} :: s.tasks[t].vtime <= s.tasks[u].vtime;
      var best := if s.tasks[q].vtime < s.tasks[t].vtime then q else t;
      assert best in qs && forall u | u in qs :: s.tasks[best].vtime <= s.tasks[u].vtime;
    }
  }

  lemma DispatchEnabled(s: State, p: Tid, cpu: Cpu)
    requires At(s, p, Shared) && cpu < |s.stats|
    ensures exists t :: Step(Exact, s, Dispatch(t, cpu)).Some?
  {
    var qs := set q | q in s.tasks && s.tasks[q].place == Shared;
    assert p in qs;
    SomeoneIsFirst(s, qs);
    var t :| t in qs && forall q | q in qs :: s.tasks[t].vtime <= s.tasks[q].vtime;
    assert First(Exact, s, t);
    assert Step(Exact, s, Dispatch(t, cpu)).Some?;
  }
}
