/** Task creation and starvation: a new task starts at the clock, and handing it out does
    not move the clock, so exactly the tasks queued at or after the clock can be passed
    over without end. */
module Newcomers {
  import opened Wrappers
  import opened Params
  import opened Machine
  import opened Overtaking

  ghost predicate AheadAt(o: Option<State>, t: Tid, v: int) {
    o.Some? && t in o.value.tasks && o.value.tasks[t].vtime < v
  }

  /** `p` stays queued throughout; with `strict` only tasks before `v` are handed out, so
      no tie is ever decided against `p`. */
  ghost predicate Passing(s: State, ls: seq<Label>, p: Tid, v: int, strict: bool) {
    ls == [] ||
    var most, l := ls[..|ls| - 1], ls[|ls| - 1];
    && Passing(s, most, p, v, strict) && !TakesOut(l, p)
    && (strict && l.Dispatch? ==> AheadAt(Run(Exact, s, most), l.t, v))
  }

  /** A run that passes `p` by, ends in `m` and hands `t` out `n` times. */
  ghost predicate Reaches(s: State, ls: seq<Label>, m: State, p: Tid, t: Tid, v: int, strict: bool, n: nat) {
    Run(Exact, s, ls) == Some(m) && Passing(s, ls, p, v, strict) && Dispatches(ls, t) == n
  }

  lemma Extend(s: State, ls: seq<Label>, m: State, l: Label, m': State, p: Tid, t: Tid, v: int, strict: bool, n: nat)
    requires Reaches(s, ls, m, p, t, v, strict, n) && Goes(m, l, m') && !TakesOut(l, p)
    requires l.Dispatch? && strict ==> AheadAt(Some(m), l.t, v)
    ensures Reaches(s, ls + [l], m', p, t, v, strict, n + if Hands(l, t) then 1 else 0)
  {
    RunThen(s, ls, m, l, m');
    assert (ls + [l])[..|ls|] == ls && (ls + [l])[|ls|] == l;
  }

  /** `p` waits at `v`, nobody queued is before the clock, CPU 0 is free and `t` unused. */
  ghost predicate Overtakable(s: State, p: Tid, t: Tid, v: int) {
    && Waits(s, p, v) && s.now <= v && CpuFree(s, 0) && |s.stats| > 0 && t !in s.tasks
    && forall u | At(s, u, Shared) :: s.now <= s.tasks[u].vtime
  }

  ghost predicate Unmoved(s: State, s': State) {
    s'.tasks == s.tasks && s'.now == s.now && |s'.stats| == |s.stats|
  }

  ghost predicate Arrived(s: State, m: State, t: Tid) {
    && m.now == s.now && |m.stats| == |s.stats| && t in m.tasks
    && m.tasks == s.tasks[t := m.tasks[t]]
    && m.tasks[t].vtime == s.now && m.tasks[t].place == Local(0)
  }

  /** A newcomer is queued at the clock, ahead of everything queued at or after it. */
  lemma ArrivalSteps(s: State, p: Tid, t: Tid, v: int) returns (s1: State, s2: State, m: State)
    requires Overtakable(s, p, t, v)
    ensures Goes(s, Enable(t, 0, 0), s1) && Goes(s1, Enqueue(t, 0), s2) && Goes(s2, Dispatch(t, 0), m)
    ensures Arrived(s, m, t) && t in s2.tasks && s2.tasks[t].vtime == s.now
  {
    s1 := Step(Exact, s, Enable(t, 0, 0)).value;
    s2 := Step(Exact, s1, Enqueue(t, 0)).value;
    assert s2.tasks == s.tasks[t := s2.tasks[t]];
    assert First(Exact, s2, t);
    m := Step(Exact, s2, Dispatch(t, 0)).value;
  }

  /** Running it leaves the clock alone, and its exit leaves the tasks as they were. */
  lemma ExitSteps(s: State, m: State, t: Tid) returns (s1: State, s2: State, s3: State, s': State)
    requires Arrived(s, m, t) && CpuFree(s, 0) && t !in s.tasks && |s.stats| > 0
    ensures Goes(m, Running(t, 0), s1) && Goes(s1, Countdown(t, 0), s2)
    ensures Goes(s2, Stopping(t, false), s3) && Goes(s3, Leave(t), s')
    ensures Unmoved(s, s')
  {
    assert CpuFree(m, 0);
    s1 := Step(Exact, m, Running(t, 0)).value;
    s2 := Step(Exact, s1, Countdown(t, 0)).value;
    s3 := Step(Exact, s2, Stopping(t, false)).value;
    s' := Step(Exact, s3, Leave(t)).value;
    assert s3.tasks == s.tasks[t := s3.tasks[t]];
    assert s'.tasks == s.tasks;
  }

  /** A process that is created, queued, handed out, uses its slice up and exits. */
  lemma OneMore(s: State, ls: seq<Label>, m: State, p: Tid, t: Tid, v: int, strict: bool, n: nat)
    returns (ls': seq<Label>, m': State)
    requires Reaches(s, ls, m, p, t, v, strict, n) && Overtakable(m, p, t, v) && (strict ==> m.now < v)
    ensures Reaches(s, ls', m', p, t, v, strict, n + 1) && Unmoved(m, m')
  {
    var s1, s2, s3 := ArrivalSteps(m, p, t, v);
    var s4, s5, s6, s7 := ExitSteps(m, s3, t);
    Extend(s, ls, m, Enable(t, 0, 0), s1, p, t, v, strict, n);
    var one := ls + [Enable(t, 0, 0)];
    Extend(s, one, s1, Enqueue(t, 0), s2, p, t, v, strict, n);
    var two := one + [Enqueue(t, 0)];
    Extend(s, two, s2, Dispatch(t, 0), s3, p, t, v, strict, n);
    m' := s7;
    ls' := Exits(s, two + [Dispatch(t, 0)], s3, s4, s5, s6, s7, p, t, v, strict, n + 1);
  }

  lemma Exits(s: State, ls: seq<Label>, m: State, s1: State, s2: State, s3: State, s4: State,
              p: Tid, t: Tid, v: int, strict: bool, n: nat)
    returns (ls': seq<Label>)
    requires Reaches(s, ls, m, p, t, v, strict, n) && Goes(m, Running(t, 0), s1) && Goes(s1, Countdown(t, 0), s2)
    requires Goes(s2, Stopping(t, false), s3) && Goes(s3, Leave(t), s4)
    ensures Reaches(s, ls', s4, p, t, v, strict, n)
  {
    Extend(s, ls, m, Running(t, 0), s1, p, t, v, strict, n);
    var one := ls + [Running(t, 0)];
    Extend(s, one, s1, Countdown(t, 0), s2, p, t, v, strict, n);
    var two := one + [Countdown(t, 0)];
    Extend(s, two, s2, Stopping(t, false), s3, p, t, v, strict, n);
    ls' := two + [Stopping(t, false)] + [Leave(t)];
    Extend(s, two + [Stopping(t, false)], s3, Leave(t), s4, p, t, v, strict, n);
  }

  /** Any number of newcomers come and go, and everything is as before. */
  lemma {:induction false} Crowd(s: State, ls: seq<Label>, m: State, p: Tid, t: Tid, v: int, strict: bool,
                                 n: nat, k: nat)
    returns (ls': seq<Label>, m': State)
    requires Reaches(s, ls, m, p, t, v, strict, k) && Overtakable(m, p, t, v) && (strict ==> m.now < v)
    ensures Reaches(s, ls', m', p, t, v, strict, k + n) && Unmoved(m, m')
  {
    if n == 0 {
      ls', m' := ls, m;
    } else {
      var ls1, m1 := Crowd(s, ls, m, p, t, v, strict, n - 1, k);
      assert Overtakable(m1, p, t, v);
      ls', m' := OneMore(s, ls1, m1, p, t, v, strict, k + n - 1);
    }
  }

  /** Who is in a newcomer's way: whoever runs on CPU 0, and who is queued before the clock. */
  function InTheWay(s: State): set<Tid> {
    set u | u in s.tasks && (s.tasks[u].place == OnCpu(0) || (s.tasks[u].place.Shared? && s.tasks[u].vtime < s.now))
  }

  ghost predicate Waiting(s: State, p: Tid, t: Tid, v: int) {
    Waits(s, p, v) && s.now <= v && |s.stats| > 0 && t !in s.tasks
  }

  /** `s'` differs from `s` in `u` only, which is inactive now. */
  ghost predicate PutAside(s: State, s': State, u: Tid) {
    && u in s.tasks && u in s'.tasks && s'.tasks == s.tasks[u := s'.tasks[u]] && s'.tasks[u].place.Off?
    && s'.now == s.now && |s'.stats| == |s.stats|
  }

  lemma AsideShrinks(s: State, s': State, u: Tid, p: Tid, t: Tid, v: int)
    requires PutAside(s, s', u) && u in InTheWay(s) && u != p && Waiting(s, p, t, v)
    ensures InTheWay(s') == InTheWay(s) - {u} && Waiting(s', p, t, v)
  {
  }

  lemma StopAside(s: State, u: Tid) returns (s': State)
    requires At(s, u, OnCpu(0))
    ensures Goes(s, Stopping(u, false), s') && PutAside(s, s', u)
  {
    s' := Step(Exact, s, Stopping(u, false)).value;
  }

  /** A task before the clock is handed out, runs without moving the clock, and stops. */
  lemma RunAside(s: State, u: Tid) returns (s1: State, s2: State, s': State)
    requires First(Exact, s, u) && s.tasks[u].vtime < s.now && CpuFree(s, 0) && |s.stats| > 0
    ensures Goes(s, Dispatch(u, 0), s1) && Goes(s1, Running(u, 0), s2) && Goes(s2, Stopping(u, false), s')
    ensures PutAside(s, s', u)
  {
    s1 := Step(Exact, s, Dispatch(u, 0)).value;
    assert CpuFree(s1, 0);
    s2 := Step(Exact, s1, Running(u, 0)).value;
    s' := Step(Exact, s2, Stopping(u, false)).value;
    assert s'.tasks == s.tasks[u := s'.tasks[u]];
  }

  /** Without a runner on CPU 0, the first in the queue is in the way if anyone is. */
  lemma FirstInTheWay(s: State, p: Tid) returns (u: Tid)
    requires CpuFree(s, 0) && InTheWay(s) != {} && At(s, p, Shared)
    ensures u in InTheWay(s) && First(Exact, s, u)
  {
    var w :| w in InTheWay(s);
    var qs := set q | q in s.tasks && s.tasks[q].place == Shared;
    assert w in qs;
    SomeoneIsFirst(s, qs);
    u :| u in qs && forall q | q in qs :: s.tasks[u].vtime <= s.tasks[q].vtime;
  }

  /** One task less in the way. */
  lemma ClearOne(s: State, ls: seq<Label>, m: State, p: Tid, t: Tid, v: int, strict: bool)
    returns (ls': seq<Label>, m': State)
    requires Reaches(s, ls, m, p, t, v, strict, 0) && Waiting(m, p, t, v) && InTheWay(m) != {}
    ensures Reaches(s, ls', m', p, t, v, strict, 0) && Waiting(m', p, t, v) && m'.now == m.now
    ensures |InTheWay(m')| < |InTheWay(m)|
  {
    if CpuFree(m, 0) {
      var u := FirstInTheWay(m, p);
      var s1, s2, s3 := RunAside(m, u);
      m' := s3;
      Extend(s, ls, m, Dispatch(u, 0), s1, p, t, v, strict, 0);
      var one := ls + [Dispatch(u, 0)];
      Extend(s, one, s1, Running(u, 0), s2, p, t, v, strict, 0);
      Extend(s, one + [Running(u, 0)], s2, Stopping(u, false), m', p, t, v, strict, 0);
      ls' := one + [Running(u, 0)] + [Stopping(u, false)];
      AsideShrinks(m, m', u, p, t, v);
    } else {
      var u :| u in m.tasks && m.tasks[u].place == OnCpu(0);
      m' := StopAside(m, u);
      Extend(s, ls, m, Stopping(u, false), m', p, t, v, strict, 0);
      ls' := ls + [Stopping(u, false)];
      AsideShrinks(m, m', u, p, t, v);
    }
  }

  lemma {:induction false} Clear(s: State, ls: seq<Label>, m: State, p: Tid, t: Tid, v: int, strict: bool)
    returns (ls': seq<Label>, m': State)
    requires Reaches(s, ls, m, p, t, v, strict, 0) && Waiting(m, p, t, v)
    ensures Reaches(s, ls', m', p, t, v, strict, 0) && Overtakable(m', p, t, v) && m'.now == m.now
    decreases |InTheWay(m)|
  {
    if InTheWay(m) == {} {
      ls', m' := ls, m;
      forall u | u in m.tasks
        ensures m.tasks[u].place != OnCpu(0) && (m.tasks[u].place.Shared? ==> m.now <= m.tasks[u].vtime)
      {
        assert u !in InTheWay(m);
      }
    } else {
      var ls1, m1 := ClearOne(s, ls, m, p, t, v, strict);
      ls', m' := Clear(s, ls1, m1, p, t, v, strict);
    }
  }

  /** Everything `t` could be queued at is `w` or later. */
  ghost predicate Later(s: State, t: Tid, w: int) {
    w <= s.now && (t in s.tasks ==> w <= s.tasks[t].vtime)
  }

  lemma StepLater(s: State, l: Label, s': State, t: Tid, w: int)
    requires Step(Exact, s, l) == Some(s') && Later(s, t, w)
    ensures Later(s', t, w)
  {
    if l.Stopping? && l.t == t {
      ChargeBounds(ParamsOf(s, t).tp.weight, UsedOf(s, t));
    }
  }

  /** Nobody who comes once the clock has passed `p` is handed out before it; once the
      clock has reached it, nobody who comes is before it. */
  lemma {:induction false} NewcomersWait(s: State, ls: seq<Label>, p: Tid, t: Tid, v: int, strict: bool)
    requires Run(Exact, s, ls).Some? && Passing(s, ls, p, v, strict)
    requires Waits(s, p, v) && Later(s, t, if strict then v else v + 1)
    ensures var m := Run(Exact, s, ls).value;
            Waits(m, p, v) && Later(m, t, if strict then v else v + 1) && Dispatches(ls, t) == 0
  {
    if ls != [] {
      var most, l := ls[..|ls| - 1], ls[|ls| - 1];
      NewcomersWait(s, most, p, t, v, strict);
      var m, m' := Run(Exact, s, most).value, Run(Exact, s, ls).value;
      StepQueued(m, l, m', p, v);
      StepLater(m, l, m', t, if strict then v else v + 1);
    }
  }

  /** Some run hands `t` out at least `n` times while `p` keeps waiting. */
  ghost predicate PassedBy(s: State, p: Tid, t: Tid, n: nat, strict: bool)
    requires p in s.tasks
  {
    exists ls :: Run(Exact, s, ls).Some? && Dispatches(ls, t) >= n && Passing(s, ls, p, s.tasks[p].vtime, strict)
  }

  lemma Pass(s: State, p: Tid, t: Tid, n: nat, strict: bool)
    requires At(s, p, Shared) && |s.stats| > 0 && t !in s.tasks
    requires if strict then s.now < s.tasks[p].vtime else s.now <= s.tasks[p].vtime
    ensures PassedBy(s, p, t, n, strict)
  {
    var v := s.tasks[p].vtime;
    assert Reaches(s, [], s, p, t, v, strict, 0);
    var ls1, m1 := Clear(s, [], s, p, t, v, strict);
    var ls2, m2 := Crowd(s, ls1, m1, p, t, v, strict, n, 0);
    assert Run(Exact, s, ls2).Some? && Dispatches(ls2, t) >= n && Passing(s, ls2, p, v, strict);
  }

  lemma NoPass(s: State, p: Tid, t: Tid, strict: bool)
    requires At(s, p, Shared) && t !in s.tasks
    requires if strict then s.tasks[p].vtime <= s.now else s.tasks[p].vtime < s.now
    ensures !PassedBy(s, p, t, 1, strict)
  {
    if PassedBy(s, p, t, 1, strict) {
      var v := s.tasks[p].vtime;
      var ls :| Run(Exact, s, ls).Some? && Dispatches(ls, t) >= 1 && Passing(s, ls, p, v, strict);
      NewcomersWait(s, ls, p, t, v, strict);
    }
  }

  /** Exactly when a flow of new tasks can starve a waiting one: if and only if its key is
      not behind the clock; with ties broken in its favour, if and only if its key is after
      the clock. Then no bound on the number passing it holds; otherwise none passes it. */
  lemma NewcomersStarve(s: State, p: Tid, t: Tid)
    requires At(s, p, Shared) && |s.stats| > 0 && t !in s.tasks
    ensures (forall n: nat :: PassedBy(s, p, t, n, false)) <==> s.now <= s.tasks[p].vtime
    ensures PassedBy(s, p, t, 1, false) <==> s.now <= s.tasks[p].vtime
    ensures (forall n: nat :: PassedBy(s, p, t, n, true)) <==> s.now < s.tasks[p].vtime
    ensures PassedBy(s, p, t, 1, true) <==> s.now < s.tasks[p].vtime
  {
    Starve(s, p, t, false);
    Starve(s, p, t, true);
  }

  lemma Starve(s: State, p: Tid, t: Tid, strict: bool)
    requires At(s, p, Shared) && |s.stats| > 0 && t !in s.tasks
    ensures var ahead := if strict then s.now < s.tasks[p].vtime else s.now <= s.tasks[p].vtime;
            && ((forall n: nat :: PassedBy(s, p, t, n, strict)) <==> ahead)
            && (PassedBy(s, p, t, 1, strict) <==> ahead)
  {
    if if strict then s.now < s.tasks[p].vtime else s.now <= s.tasks[p].vtime {
      forall n: nat
        ensures PassedBy(s, p, t, n, strict)
      {
        Pass(s, p, t, n, strict);
      }
    } else {
      NoPass(s, p, t, strict);
    }
  }
}
