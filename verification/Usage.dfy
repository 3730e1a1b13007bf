/** CPU time charged against CPU time used, under fixed parameters. A stop charges from the
    full slice, so a task that starts with less than that pays for the missing part again. */
module Usage {
  import opened Wrappers
  import opened Params
  import opened Machine

  /** CPU time the label charges `k` for in `o`, if it is `k`'s stop. */
  function UsedAt(o: Option<State>, l: Label, k: Tid): nat {
    if o.Some? && l.Stopping? && l.t == k && k in o.value.tasks then UsedOf(o.value, k) else 0
  }

  /** CPU time `k` was charged for along a run. */
  function CpuTime(a: Arith, s: State, ls: seq<Label>, k: Tid): nat {
    if ls == [] then 0
    else
      var most := ls[..|ls| - 1];
      CpuTime(a, s, most, k) + UsedAt(Run(a, s, most), ls[|ls| - 1], k)
  }

  lemma CpuTimeSnoc(s: State, ls: seq<Label>, l: Label, k: Tid)
    ensures CpuTime(Exact, s, ls + [l], k) == CpuTime(Exact, s, ls, k) + UsedAt(Run(Exact, s, ls), l, k)
  {
    assert (ls + [l])[..|ls|] == ls;
  }

  lemma {:induction false} CpuTimeConcat(s: State, ls: seq<Label>, m: State, more: seq<Label>, k: Tid)
    requires Run(Exact, s, ls) == Some(m)
    ensures CpuTime(Exact, s, ls + more, k) == CpuTime(Exact, s, ls, k) + CpuTime(Exact, m, more, k)
  {
    if more == [] {
      assert ls + more == ls;
    } else {
      var n := |more| - 1;
      CpuTimeConcat(s, ls, m, more[..n], k);
      RunConcat(Exact, s, ls, m, more[..n]);
      assert ls + more == ls + more[..n] + [more[n]];
      assert more == more[..n] + [more[n]];
      CpuTimeSnoc(s, ls + more[..n], more[n], k);
      CpuTimeSnoc(m, more[..n], more[n], k);
    }
  }

  /** How far the label counts `k`'s slice down while it runs. */
  function RanAt(o: Option<State>, l: Label, k: Tid): nat {
    if o.Some? && l.Countdown? && l.t == k && k in o.value.tasks && l.remaining <= o.value.tasks[k].slice
    then o.value.tasks[k].slice - l.remaining else 0
  }

  /** CPU time `k` really used along a run. */
  function RunTime(s: State, ls: seq<Label>, k: Tid): nat {
    if ls == [] then 0
    else
      var most := ls[..|ls| - 1];
      RunTime(s, most, k) + RanAt(Run(Exact, s, most), ls[|ls| - 1], k)
  }

  lemma RunTimeSnoc(s: State, ls: seq<Label>, l: Label, k: Tid)
    ensures RunTime(s, ls + [l], k) == RunTime(s, ls, k) + RanAt(Run(Exact, s, ls), l, k)
  {
    assert (ls + [l])[..|ls|] == ls;
  }

  /** What is missing from `k`'s full slice when it starts. */
  function MissingAt(o: Option<State>, l: Label, k: Tid, full: u64): int {
    if o.Some? && l.Running? && l.t == k && k in o.value.tasks then full - o.value.tasks[k].slice else 0
  }

  function Missing(s: State, ls: seq<Label>, k: Tid, full: u64): int {
    if ls == [] then 0
    else
      var most := ls[..|ls| - 1];
      Missing(s, most, k, full) + MissingAt(Run(Exact, s, most), ls[|ls| - 1], k, full)
  }

  /** `k` is inserted and charged under `tp`, and its slice only counts down. */
  ghost predicate Regular(s: State, l: Label, k: Tid, tp: TaskParams) {
    && ((l.Enqueue? || l.SelectIdle? || l.Stopping?) && l.t == k && k in s.tasks ==> ParamsOf(s, k).tp == tp)
    && (l.Countdown? && l.t == k && k in s.tasks ==> l.remaining <= s.tasks[k].slice)
  }

  ghost predicate AllRegular(s: State, ls: seq<Label>, k: Tid, tp: TaskParams) {
    forall n | 0 <= n < |ls| && Run(Exact, s, ls[..n]).Some? ::
      Regular(Run(Exact, s, ls[..n]).value, ls[n], k, tp)
  }

  lemma RegularPrefix(s: State, ls: seq<Label>, k: Tid, tp: TaskParams)
    requires ls != [] && AllRegular(s, ls, k, tp)
    ensures AllRegular(s, ls[..|ls| - 1], k, tp)
    ensures Run(Exact, s, ls[..|ls| - 1]).Some? ==> Regular(Run(Exact, s, ls[..|ls| - 1]).value, ls[|ls| - 1], k, tp)
  {
    var most := ls[..|ls| - 1];
    assert forall n | 0 <= n < |most| :: most[..n] == ls[..n] && most[n] == ls[n];
  }

  /** Once inserted, `k` never has more than its full slice. */
  ghost predicate Granted(s: State, k: Tid, full: u64) {
    k in s.tasks && !s.tasks[k].place.Off? ==> s.tasks[k].slice <= full
  }

  /** What `k` has used up of its full slice while it runs and was not charged for yet. */
  function Open(s: State, k: Tid, full: u64): int {
    if k in s.tasks && s.tasks[k].place.OnCpu? then full - s.tasks[k].slice else 0
  }

  lemma StepAccount(s: State, l: Label, s': State, k: Tid, tp: TaskParams)
    requires Step(Exact, s, l) == Some(s') && Regular(s, l, k, tp) && Granted(s, k, TaskSlice(tp))
    ensures Granted(s', k, TaskSlice(tp)) && MissingAt(Some(s), l, k, TaskSlice(tp)) >= 0
    ensures UsedAt(Some(s), l, k) + Open(s', k, TaskSlice(tp)) ==
            RanAt(Some(s), l, k) + MissingAt(Some(s), l, k, TaskSlice(tp)) + Open(s, k, TaskSlice(tp))
  {
  }

  /** The account of a run under fixed parameters: what was charged, and is still open, is
      what was used plus what was missing from the full slice at each start. */
  lemma {:induction false} SteadyAccount(s: State, ls: seq<Label>, k: Tid, tp: TaskParams)
    requires Run(Exact, s, ls).Some? && AllRegular(s, ls, k, tp) && Granted(s, k, TaskSlice(tp))
    ensures var s', full := Run(Exact, s, ls).value, TaskSlice(tp);
            && Granted(s', k, full) && Missing(s, ls, k, full) >= 0
            && CpuTime(Exact, s, ls, k) + Open(s', k, full) ==
               RunTime(s, ls, k) + Missing(s, ls, k, full) + Open(s, k, full)
  {
    if ls != [] {
      var most := ls[..|ls| - 1];
      RegularPrefix(s, ls, k, tp);
      SteadyAccount(s, most, k, tp);
      StepAccount(Run(Exact, s, most).value, ls[|ls| - 1], Run(Exact, s, ls).value, k, tp);
    }
  }

  /** Every start of `k` is with its full slice. */
  ghost predicate FullStarts(s: State, ls: seq<Label>, k: Tid, full: u64) {
    forall n | 0 <= n < |ls| :: MissingAt(Run(Exact, s, ls[..n]), ls[n], k, full) == 0
  }

  lemma {:induction false} NothingMissing(s: State, ls: seq<Label>, k: Tid, tp: TaskParams)
    requires Run(Exact, s, ls).Some? && AllRegular(s, ls, k, tp) && Granted(s, k, TaskSlice(tp))
    ensures Missing(s, ls, k, TaskSlice(tp)) == 0 <==> FullStarts(s, ls, k, TaskSlice(tp))
  {
    if ls != [] {
      var most, last, full := ls[..|ls| - 1], ls[|ls| - 1], TaskSlice(tp);
      RegularPrefix(s, ls, k, tp);
      NothingMissing(s, most, k, tp);
      SteadyAccount(s, most, k, tp);
      StepAccount(Run(Exact, s, most).value, last, Run(Exact, s, ls).value, k, tp);
      assert forall n | 0 <= n < |most| :: most[..n] == ls[..n] && most[n] == ls[n];
      if FullStarts(s, ls, k, full) {
        assert FullStarts(s, most, k, full);
      } else if FullStarts(s, most, k, full) {
        var n :| 0 <= n < |ls| && MissingAt(Run(Exact, s, ls[..n]), ls[n], k, full) != 0;
        assert n == |ls| - 1;
      }
    }
  }

  /** Exactly when a task whose parameters do not change is charged for its actual usage:
      between two moments at which it does not run, if and only if it never started with
      less than its full slice. */
  lemma ChargedIsUsed(s: State, ls: seq<Label>, k: Tid, tp: TaskParams)
    requires Run(Exact, s, ls).Some? && AllRegular(s, ls, k, tp) && Granted(s, k, TaskSlice(tp))
    requires Open(s, k, TaskSlice(tp)) == 0 && Open(Run(Exact, s, ls).value, k, TaskSlice(tp)) == 0
    ensures RunTime(s, ls, k) <= CpuTime(Exact, s, ls, k)
    ensures CpuTime(Exact, s, ls, k) == RunTime(s, ls, k) <==> FullStarts(s, ls, k, TaskSlice(tp))
  {
    SteadyAccount(s, ls, k, tp);
    NothingMissing(s, ls, k, tp);
  }

  /** One more step of a run whose end is known, with both accounts. */
  lemma Chain(s: State, ls: seq<Label>, m: State, l: Label, m': State, k: Tid)
    requires Run(Exact, s, ls) == Some(m) && Goes(m, l, m')
    ensures Run(Exact, s, ls + [l]) == Some(m')
    ensures CpuTime(Exact, s, ls + [l], k) == CpuTime(Exact, s, ls, k) + UsedAt(Some(m), l, k)
    ensures RunTime(s, ls + [l], k) == RunTime(s, ls, k) + RanAt(Some(m), l, k)
  {
    RunThen(s, ls, m, l, m');
    CpuTimeSnoc(s, ls, l, k);
    RunTimeSnoc(s, ls, l, k);
  }

  lemma ChainTwo(s: State, ls: seq<Label>, m: State, l: Label, m1: State, l1: Label, m2: State, k: Tid)
    requires Run(Exact, s, ls) == Some(m) && Goes(m, l, m1) && Goes(m1, l1, m2)
    ensures Run(Exact, s, ls + [l] + [l1]) == Some(m2)
    ensures CpuTime(Exact, s, ls + [l] + [l1], k) ==
            CpuTime(Exact, s, ls, k) + UsedAt(Some(m), l, k) + UsedAt(Some(m1), l1, k)
    ensures RunTime(s, ls + [l] + [l1], k) == RunTime(s, ls, k) + RanAt(Some(m), l, k) + RanAt(Some(m1), l1, k)
  {
    Chain(s, ls, m, l, m1, k);
    Chain(s, ls + [l], m1, l1, m2, k);
  }

  lemma NothingYet(s: State, k: Tid)
    ensures Run(Exact, s, []) == Some(s) && CpuTime(Exact, s, [], k) == 0 && RunTime(s, [], k) == 0
  {
  }

  /** `k` runs on `cpu` with its full slice ahead of it, alone there. */
  ghost predicate Fresh(s: State, k: Tid, cpu: Cpu) {
    && cpu < |s.stats| && At(s, k, OnCpu(cpu)) && s.tasks[k].slice == SliceOf(s, k)
    && forall u | u in s.tasks && u != k :: s.tasks[u].place != OnCpu(cpu)
  }

  function FirstPart(k: Tid, left: u64): seq<Label> {
    [] + [Countdown(k, left)] + [Stopping(k, true)]
  }

  function Resumed(ls: seq<Label>, k: Tid, cpu: Cpu): seq<Label> {
    ls + [Running(k, cpu)] + [Countdown(k, 0)] + [Stopping(k, false)]
  }

  lemma InterruptedSteps(s: State, k: Tid, cpu: Cpu, left: u64)
    returns (s1: State, s2: State, s3: State, s4: State, s5: State)
    requires Fresh(s, k, cpu) && left <= SliceOf(s, k)
    ensures Goes(s, Countdown(k, left), s1) && Goes(s1, Stopping(k, true), s2) && Goes(s2, Running(k, cpu), s3)
    ensures Goes(s3, Countdown(k, 0), s4) && Goes(s4, Stopping(k, false), s5)
    ensures k in s1.tasks && k in s3.tasks && k in s4.tasks
    ensures UsedOf(s1, k) == SliceOf(s, k) - left && s3.tasks[k].slice == left && UsedOf(s4, k) == SliceOf(s, k)
  {
    s1 := Step(Exact, s, Countdown(k, left)).value;
    s2 := Step(Exact, s1, Stopping(k, true)).value;
    s3 := Step(Exact, s2, Running(k, cpu)).value;
    s4 := Step(Exact, s3, Countdown(k, 0)).value;
    s5 := Step(Exact, s4, Stopping(k, false)).value;
  }

  lemma FirstPays(s: State, s1: State, s2: State, k: Tid, left: u64)
    requires Goes(s, Countdown(k, left), s1) && Goes(s1, Stopping(k, true), s2) && k in s.tasks && k in s1.tasks
    requires left <= s.tasks[k].slice
    ensures var ls := FirstPart(k, left);
            && Run(Exact, s, ls) == Some(s2) && RunTime(s, ls, k) == s.tasks[k].slice - left
            && CpuTime(Exact, s, ls, k) == UsedOf(s1, k)
  {
    NothingYet(s, k);
    ChainTwo(s, [], s, Countdown(k, left), s1, Stopping(k, true), s2, k);
  }

  lemma ResumedPays(s: State, ls: seq<Label>, s2: State, s3: State, s4: State, s5: State, k: Tid, cpu: Cpu)
    requires Run(Exact, s, ls) == Some(s2) && Goes(s2, Running(k, cpu), s3) && Goes(s3, Countdown(k, 0), s4)
    requires Goes(s4, Stopping(k, false), s5) && k in s3.tasks && k in s4.tasks
    ensures var ls' := Resumed(ls, k, cpu);
            && Run(Exact, s, ls') == Some(s5) && RunTime(s, ls', k) == RunTime(s, ls, k) + s3.tasks[k].slice
            && CpuTime(Exact, s, ls', k) == CpuTime(Exact, s, ls, k) + UsedOf(s4, k)
  {
    ChainTwo(s, ls, s2, Running(k, cpu), s3, Countdown(k, 0), s4, k);
    Chain(s, ls + [Running(k, cpu)] + [Countdown(k, 0)], s4, Stopping(k, false), s5, k);
  }

  /** A task interrupted with part of its slice left and resumed pays twice for what it
      used before the interruption. */
  lemma ResumedPaysTwice(s: State, k: Tid, cpu: Cpu, left: u64)
    requires Fresh(s, k, cpu) && left <= SliceOf(s, k)
    ensures var ls := Resumed(FirstPart(k, left), k, cpu);
            && Run(Exact, s, ls).Some? && RunTime(s, ls, k) == SliceOf(s, k)
            && CpuTime(Exact, s, ls, k) == RunTime(s, ls, k) + (SliceOf(s, k) - left)
  {
    var s1, s2, s3, s4, s5 := InterruptedSteps(s, k, cpu, left);
    FirstPays(s, s1, s2, k, left);
    ResumedPays(s, FirstPart(k, left), s2, s3, s4, s5, k, cpu);
  }
}
