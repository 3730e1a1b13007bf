/** How far any task's virtual time can be from the global clock. */
module Window {
  import opened Wrappers
  import opened Params
  import opened Machine

  /** `t` is at most `c` ahead of the clock, and not ahead of it while it runs. */
  ghost predicate Within(s: State, t: Tid, c: int) {
    t in s.tasks ==>
      && s.tasks[t].vtime <= s.now + c
      && (s.tasks[t].place.OnCpu? ==> s.tasks[t].vtime <= s.now)
  }

  /** The step charges `t` at most `c`. */
  ghost predicate ChargesAtMost(s: State, l: Label, t: Tid, c: int) {
    l.Stopping? && l.t == t && t in s.tasks ==> ChargeOf(s, t) <= c
  }

  lemma StepClock(s: State, l: Label, s': State)
    requires Step(Exact, s, l) == Some(s')
    ensures s.now <= s'.now
    ensures s.now < s'.now ==> l.Running? && l.t in s.tasks && s'.now == s.tasks[l.t].vtime
  {
  }

  lemma StepWithin(s: State, l: Label, s': State, t: Tid, c: int)
    requires Step(Exact, s, l) == Some(s') && 0 <= c
    requires Within(s, t, c) && ChargesAtMost(s, l, t, c)
    ensures Within(s', t, c)
  {
  }

  ghost predicate InWindow(s: State) {
    forall t | t in s.tasks :: Within(s, t, MAX_CHARGE)
  }

  lemma AnyCharge(s: State, l: Label, t: Tid)
    ensures ChargesAtMost(s, l, t, MAX_CHARGE)
  {
    if t in s.tasks {
      ChargeBounds(ParamsOf(s, t).tp.weight, UsedOf(s, t));
    }
  }

  lemma StepWindow(s: State, l: Label, s': State)
    requires Step(Exact, s, l) == Some(s') && InWindow(s)
    ensures InWindow(s')
    ensures s.now <= s'.now <= s.now + MAX_CHARGE
  {
    StepClock(s, l, s');
    if s.now < s'.now {
      assert Within(s, l.t, MAX_CHARGE);
    }
    forall t | t in s'.tasks
      ensures Within(s', t, MAX_CHARGE)
    {
      AnyCharge(s, l, t);
      assert Within(s, t, MAX_CHARGE);
      StepWithin(s, l, s', t, MAX_CHARGE);
    }
  }

  /** Global window, over every run: any number of CPUs, any interleaving of callbacks,
      idle shortcuts included, parameters and cgroups changing at any time. */
  lemma {:induction false} GlobalWindow(cpus: nat, ls: seq<Label>)
    requires Run(Exact, Init(cpus), ls).Some?
    ensures InWindow(Run(Exact, Init(cpus), ls).value)
  {
    if ls != [] {
      var most := ls[..|ls| - 1];
      GlobalWindow(cpus, most);
      StepWindow(Run(Exact, Init(cpus), most).value, ls[|ls| - 1], Run(Exact, Init(cpus), ls).value);
    }
  }

  /** The clock never moves back, however long the run. */
  lemma {:induction false} ClockMonotone(cpus: nat, ls: seq<Label>, k: nat)
    requires Run(Exact, Init(cpus), ls).Some? && k <= |ls|
    ensures Run(Exact, Init(cpus), ls[..k]).Some?
    ensures Run(Exact, Init(cpus), ls[..k]).value.now <= Run(Exact, Init(cpus), ls).value.now
  {
    if k == |ls| {
      assert ls[..k] == ls;
    } else {
      var most := ls[..|ls| - 1];
      ClockMonotone(cpus, most, k);
      assert most[..k] == ls[..k];
      StepClock(Run(Exact, Init(cpus), most).value, ls[|ls| - 1], Run(Exact, Init(cpus), ls).value);
    }
  }
}
