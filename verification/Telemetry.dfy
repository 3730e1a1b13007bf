/** The scheduler's counters: what the per-CPU records add up to, and what the agent
    exports from successive samples of their sum. */
module Telemetry {
  import opened Wrappers
  import opened Params
  import opened Machine

  function Add(x: Stats, y: Stats): Stats {
    Stats(x.enqueues + y.enqueues, x.localDispatches + y.localDispatches,
          x.budgetCapped + y.budgetCapped, x.defaults + y.defaults)
  }

  function NormStats(a: Arith, x: Stats): Stats {
    Stats(Norm(a, x.enqueues), Norm(a, x.localDispatches), Norm(a, x.budgetCapped), Norm(a, x.defaults))
  }

  function Sum(perCpu: seq<Stats>): Stats {
    if perCpu == [] then ZERO_STATS
    else Add(Sum(perCpu[..|perCpu| - 1]), perCpu[|perCpu| - 1])
  }

  /** What the agent finds when it looks the counters up: one record per CPU, or the single
      record of an older object. */
  datatype StatsMap = NotOpen | Unreadable | PerCpu(records: seq<Stats>) | Plain(record: Stats)

  /** Userspace sums in u64 arithmetic; nothing is returned on an error. */
  method ReadStats(m: StatsMap) returns (r: Option<Stats>)
    ensures r.None? <==> m.NotOpen? || m.Unreadable?
    ensures m.Plain? ==> r == Some(m.record)
    ensures m.PerCpu? ==> r == Some(NormStats(U64, Sum(m.records)))
  {
    match m
    case NotOpen => r := None;
    case Unreadable => r := None;
    case Plain(record) => r := Some(record);
    case PerCpu(records) =>
      var out := ZERO_STATS;
      for i := 0 to |records|
        invariant out == NormStats(U64, Sum(records[..i]))
      {
        assert records[..i + 1][..i] == records[..i];
        out := NormStats(U64, Add(out, records[i]));
        NormAdd(Sum(records[..i]), records[i]);
      }
      assert records[..|records|] == records;
      r := Some(out);
  }

  lemma NormAdd(x: Stats, y: Stats)
    ensures NormStats(U64, Add(NormStats(U64, x), y)) == NormStats(U64, Add(x, y))
  {
  }

  /** What one enabled label should count as. */
  function Event(s: State, l: Label): Stats {
    match l
    case SelectIdle(t, _, _) =>
      if t in s.tasks then Stats(0, 1, Capped(SliceOf(s, t)), 0) else ZERO_STATS
    case Enqueue(t, _) =>
      if t in s.tasks then Stats(1, 0, Capped(SliceOf(s, t)), if ParamsOf(s, t).explicit then 0 else 1) else ZERO_STATS
    case _ => ZERO_STATS
  }

  /** The events of a whole run. */
  function Events(a: Arith, s: State, ls: seq<Label>): Stats {
    if ls == [] then ZERO_STATS
    else
      var most := ls[..|ls| - 1];
      match Run(a, s, most)
      case None => Events(a, s, most)
      case Some(m) => Add(Events(a, s, most), Event(m, ls[|ls| - 1]))
  }

  lemma {:induction false} SumUpdate(a: Arith, perCpu: seq<Stats>, i: nat, st: Stats, e: Stats)
    requires i < |perCpu| && NormStats(a, st) == NormStats(a, Add(perCpu[i], e))
    ensures NormStats(a, Sum(perCpu[i := st])) == NormStats(a, Add(Sum(perCpu), e))
  {
    var n := |perCpu| - 1;
    var front, last := perCpu[..n], perCpu[n];
    assert Add(Sum(perCpu), e) == Add(Add(Sum(front), e), last) == Add(Add(last, e), Sum(front));
    if i == n {
      assert perCpu[i := st][..n] == front;
      assert Sum(perCpu[i := st]) == Add(st, Sum(front));
      NormShift(a, st, Add(last, e), Sum(front));
    } else {
      assert perCpu[i := st][..n] == front[i := st];
      SumUpdate(a, front, i, st, e);
      NormShift(a, Sum(front[i := st]), Add(Sum(front), e), last);
    }
  }

  lemma NormShift(a: Arith, x: Stats, y: Stats, z: Stats)
    requires NormStats(a, x) == NormStats(a, y)
    ensures NormStats(a, Add(x, z)) == NormStats(a, Add(y, z))
  {
  }

  lemma NormOnce(a: Arith, x: int)
    ensures Norm(a, Norm(a, x)) == Norm(a, x)
  {
  }

  lemma CountedLocal(a: Arith, st: Stats, slice: u64)
    ensures NormStats(a, CountLocal(a, st, slice)) == NormStats(a, Add(st, Stats(0, 1, Capped(slice), 0)))
  {
    NormOnce(a, st.localDispatches + 1);
    NormOnce(a, st.budgetCapped + Capped(slice));
  }

  lemma CountedEnqueue(a: Arith, st: Stats, slice: u64, explicit: bool)
    ensures NormStats(a, CountEnqueue(a, st, slice, explicit)) ==
            NormStats(a, Add(st, Stats(1, 0, Capped(slice), if explicit then 0 else 1)))
  {
    NormOnce(a, st.enqueues + 1);
    NormOnce(a, st.budgetCapped + Capped(slice));
    NormOnce(a, st.defaults + if explicit then 0 else 1);
  }

  /** The counters one enabled label leaves behind. */
  ghost predicate Counts(a: Arith, s: State, l: Label, stats: seq<Stats>) {
    match l
    case SelectIdle(t, _, on) =>
      on < |s.stats| && t in s.tasks && stats == s.stats[on := CountLocal(a, s.stats[on], SliceOf(s, t))]
    case Enqueue(t, on) =>
      on < |s.stats| && t in s.tasks
      && stats == s.stats[on := CountEnqueue(a, s.stats[on], SliceOf(s, t), ParamsOf(s, t).explicit)]
    case _ => stats == s.stats
  }

  lemma StepCounts(a: Arith, s: State, l: Label, s': State)
    requires Step(a, s, l) == Some(s')
    ensures Counts(a, s, l, s'.stats)
  {
  }

  lemma LocalSum(a: Arith, perCpu: seq<Stats>, on: nat, slice: u64, e: Stats)
    requires on < |perCpu| && e == Stats(0, 1, Capped(slice), 0)
    ensures NormStats(a, Sum(perCpu[on := CountLocal(a, perCpu[on], slice)])) == NormStats(a, Add(Sum(perCpu), e))
  {
    CountedLocal(a, perCpu[on], slice);
    SumUpdate(a, perCpu, on, CountLocal(a, perCpu[on], slice), e);
  }

  lemma EnqueueSum(a: Arith, perCpu: seq<Stats>, on: nat, slice: u64, explicit: bool, e: Stats)
    requires on < |perCpu| && e == Stats(1, 0, Capped(slice), if explicit then 0 else 1)
    ensures NormStats(a, Sum(perCpu[on := CountEnqueue(a, perCpu[on], slice, explicit)])) ==
            NormStats(a, Add(Sum(perCpu), e))
  {
    CountedEnqueue(a, perCpu[on], slice, explicit);
    SumUpdate(a, perCpu, on, CountEnqueue(a, perCpu[on], slice, explicit), e);
  }

  lemma AddNothing(x: Stats)
    ensures Add(x, ZERO_STATS) == x
  {
  }

  lemma CountsSum(a: Arith, s: State, l: Label, stats: seq<Stats>)
    requires Counts(a, s, l, stats)
    ensures NormStats(a, Sum(stats)) == NormStats(a, Add(Sum(s.stats), Event(s, l)))
  {
    if l.SelectIdle? {
      LocalSum(a, s.stats, l.on, SliceOf(s, l.t), Event(s, l));
    } else if l.Enqueue? {
      EnqueueSum(a, s.stats, l.on, SliceOf(s, l.t), ParamsOf(s, l.t).explicit, Event(s, l));
    } else {
      AddNothing(Sum(s.stats));
    }
  }

  lemma {:induction false} SumOfZeros(n: nat)
    ensures Sum(seq(n, _ => ZERO_STATS)) == ZERO_STATS
  {
    if n > 0 {
      SumOfZeros(n - 1);
      assert seq(n, _ => ZERO_STATS)[..n - 1] == seq(n - 1, _ => ZERO_STATS);
    }
  }

  /** Conservation over every run and any number of CPUs: the summed counters are the
      event counts, exactly or modulo 2^64 according to the arithmetic. */
  lemma {:induction false} StatsConservation(a: Arith, cpus: nat, ls: seq<Label>)
    requires Run(a, Init(cpus), ls).Some?
    ensures NormStats(a, Sum(Run(a, Init(cpus), ls).value.stats)) == NormStats(a, Events(a, Init(cpus), ls))
  {
    if ls == [] {
      SumOfZeros(cpus);
    } else {
      var most := ls[..|ls| - 1];
      StatsConservation(a, cpus, most);
      var s, s' := Run(a, Init(cpus), most).value, Run(a, Init(cpus), ls).value;
      StepCounts(a, s, ls[|ls| - 1], s');
      CountsSum(a, s, ls[|ls| - 1], s'.stats);
      NormShift(a, Sum(s.stats), Events(a, Init(cpus), most), Event(s, ls[|ls| - 1]));
    }
  }

  function Enqueues(ls: seq<Label>): nat {
    if ls == [] then 0 else Enqueues(ls[..|ls| - 1]) + if ls[|ls| - 1].Enqueue? then 1 else 0
  }

  function IdleInserts(ls: seq<Label>): nat {
    if ls == [] then 0 else IdleInserts(ls[..|ls| - 1]) + if ls[|ls| - 1].SelectIdle? then 1 else 0
  }

  /** The label inserts a task whose budget is set and shorter than 5 ms. */
  predicate InsertsShort(s: State, l: Label) {
    (l.Enqueue? || l.SelectIdle?) && l.t in s.tasks && 0 < ParamsOf(s, l.t).tp.budgetNs < 5_000_000
  }

  /** The label enqueues a task nothing was written for. */
  predicate EnqueuesDefault(s: State, l: Label) {
    && l.Enqueue? && l.t in s.tasks && s.tasks[l.t].tgid !in s.byTgid
    && (s.tasks[l.t].cgid == 0 || s.tasks[l.t].cgid !in s.byCgroup)
  }

  function One(b: bool): nat {
    if b then 1 else 0
  }

  function ShortInserts(a: Arith, s: State, ls: seq<Label>): nat {
    if ls == [] then 0
    else
      var most, m := ls[..|ls| - 1], Run(a, s, ls[..|ls| - 1]);
      ShortInserts(a, s, most) + One(m.Some? && InsertsShort(m.value, ls[|ls| - 1]))
  }

  function DefaultEnqueues(a: Arith, s: State, ls: seq<Label>): nat {
    if ls == [] then 0
    else
      var most, m := ls[..|ls| - 1], Run(a, s, ls[..|ls| - 1]);
      DefaultEnqueues(a, s, most) + One(m.Some? && EnqueuesDefault(m.value, ls[|ls| - 1]))
  }

  /** `n` enqueues, `d` of them with defaults, and `i` idle insertions, `c` of all shortened. */
  ghost predicate Counted(e: Stats, n: nat, i: nat, c: nat, d: nat) {
    e == Stats(n, i, c, d) && d <= n && c <= n + i
  }

  lemma StepEvent(a: Arith, s: State, l: Label)
    requires Step(a, s, l).Some?
    ensures Counted(Event(s, l), One(l.Enqueue?), One(l.SelectIdle?),
                    One(InsertsShort(s, l)), One(EnqueuesDefault(s, l)))
  {
  }

  /** The events of a run are those of all but its last label and the last one's. */
  lemma EventsSnoc(a: Arith, s: State, ls: seq<Label>)
    requires ls != [] && Run(a, s, ls).Some?
    ensures var most, l := ls[..|ls| - 1], ls[|ls| - 1];
            && Run(a, s, most).Some?
            && var m := Run(a, s, most).value;
            && Events(a, s, ls) == Add(Events(a, s, most), Event(m, l))
            && Counted(Event(m, l), One(l.Enqueue?), One(l.SelectIdle?),
                       One(InsertsShort(m, l)), One(EnqueuesDefault(m, l)))
  {
    StepEvent(a, Run(a, s, ls[..|ls| - 1]).value, ls[|ls| - 1]);
  }

  lemma {:induction false} EnqueuesCounted(a: Arith, s: State, ls: seq<Label>)
    requires Run(a, s, ls).Some?
    ensures Events(a, s, ls).enqueues == Enqueues(ls)
  {
    if ls != [] {
      EventsSnoc(a, s, ls);
      EnqueuesCounted(a, s, ls[..|ls| - 1]);
    }
  }

  lemma {:induction false} IdleCounted(a: Arith, s: State, ls: seq<Label>)
    requires Run(a, s, ls).Some?
    ensures Events(a, s, ls).localDispatches == IdleInserts(ls)
  {
    if ls != [] {
      EventsSnoc(a, s, ls);
      IdleCounted(a, s, ls[..|ls| - 1]);
    }
  }

  lemma {:induction false} ShortCounted(a: Arith, s: State, ls: seq<Label>)
    requires Run(a, s, ls).Some?
    ensures Events(a, s, ls).budgetCapped == ShortInserts(a, s, ls)
  {
    if ls != [] {
      EventsSnoc(a, s, ls);
      ShortCounted(a, s, ls[..|ls| - 1]);
    }
  }

  lemma {:induction false} DefaultsCounted(a: Arith, s: State, ls: seq<Label>)
    requires Run(a, s, ls).Some?
    ensures Events(a, s, ls).defaults == DefaultEnqueues(a, s, ls)
  {
    if ls != [] {
      EventsSnoc(a, s, ls);
      DefaultsCounted(a, s, ls[..|ls| - 1]);
    }
  }

  lemma {:induction false} CountsBounded(a: Arith, s: State, ls: seq<Label>)
    requires Run(a, s, ls).Some?
    ensures var e := Events(a, s, ls); e.defaults <= e.enqueues && e.budgetCapped <= e.enqueues + e.localDispatches
  {
    if ls != [] {
      EventsSnoc(a, s, ls);
      CountsBounded(a, s, ls[..|ls| - 1]);
    }
  }

  /** The event counts are the callback counts: enqueues, idle insertions, those of either
      whose budget shortens the slice, and enqueues of tasks nothing was written for. */
  lemma EventCounts(a: Arith, s: State, ls: seq<Label>)
    requires Run(a, s, ls).Some?
    ensures Counted(Events(a, s, ls), Enqueues(ls), IdleInserts(ls), ShortInserts(a, s, ls), DefaultEnqueues(a, s, ls))
  {
    EnqueuesCounted(a, s, ls);
    IdleCounted(a, s, ls);
    ShortCounted(a, s, ls);
    DefaultsCounted(a, s, ls);
    CountsBounded(a, s, ls);
  }

  /** The counters that are exported. */
  datatype Counter = EnqueueCount | LocalCount | CappedCount

  function Count(s: Stats, c: Counter): int {
    match c
    case EnqueueCount => s.enqueues
    case LocalCount => s.localDispatches
    case CappedCount => s.budgetCapped
  }

  function Rise(low: int, high: int): nat {
    if high >= low then high - low else 0
  }

  /** The increments added to one exported counter over successive samples; a reading
      below the previous one adds nothing. */
  function Exported(samples: seq<Stats>, c: Counter): int {
    if samples == [] then 0
    else
      Exported(samples[..|samples| - 1], c) +
      Rise(Latest(samples[..|samples| - 1], c), Count(samples[|samples| - 1], c))
  }

  function Latest(samples: seq<Stats>, c: Counter): int {
    if samples == [] then 0 else Count(samples[|samples| - 1], c)
  }

  /** How much the readings fell in all. */
  function Lost(samples: seq<Stats>, c: Counter): nat {
    if samples == [] then 0
    else
      Lost(samples[..|samples| - 1], c) +
      Rise(Count(samples[|samples| - 1], c), Latest(samples[..|samples| - 1], c))
  }

  /** Telescoping: the exported total exceeds the latest reading by what was lost. */
  lemma {:induction false} ExportTelescopes(samples: seq<Stats>, c: Counter)
    ensures Exported(samples, c) == Latest(samples, c) + Lost(samples, c)
  {
    if samples != [] {
      ExportTelescopes(samples[..|samples| - 1], c);
    }
  }

  ghost predicate NeverFalls(samples: seq<Stats>, c: Counter) {
    && (forall i | 0 <= i < |samples| - 1 :: Count(samples[i], c) <= Count(samples[i + 1], c))
    && (samples != [] ==> 0 <= Count(samples[0], c))
  }

  lemma {:induction false} LostNothing(samples: seq<Stats>, c: Counter)
    ensures Lost(samples, c) == 0 <==> NeverFalls(samples, c)
  {
    if samples != [] {
      var n := |samples| - 1;
      LostNothing(samples[..n], c);
      assert forall i | 0 <= i < n :: samples[..n][i] == samples[i];
      if NeverFalls(samples[..n], c) && n > 0 && Count(samples[n - 1], c) <= Count(samples[n], c) {
        assert NeverFalls(samples, c);
      }
    }
  }

  /** The exported total equals the latest reading exactly when no sample ever fell. */
  lemma ExportIsLatest(samples: seq<Stats>, c: Counter)
    ensures Exported(samples, c) == Latest(samples, c) <==> NeverFalls(samples, c)
  {
    ExportTelescopes(samples, c);
    LostNothing(samples, c);
  }

  function Successful(samples: seq<Option<Stats>>): seq<Stats> {
    if samples == [] then []
    else
      var rest := Successful(samples[..|samples| - 1]);
      match samples[|samples| - 1]
      case None => rest
      case Some(s) => rest + [s]
  }

  /** A failed reading is as if it had not been made, wherever it happens. */
  lemma {:induction false} FailedReadingSkipped(samples: seq<Option<Stats>>, more: seq<Option<Stats>>)
    ensures Successful(samples + [None] + more) == Successful(samples + more)
  {
    if more == [] {
      assert (samples + [None])[..|samples|] == samples;
      assert samples + [None] + more == samples + [None] && samples + more == samples;
    } else {
      var n := |more| - 1;
      FailedReadingSkipped(samples, more[..n]);
      assert (samples + [None] + more)[..|samples| + 1 + n] == samples + [None] + more[..n];
      assert (samples + more)[..|samples| + n] == samples + more[..n];
    }
  }

  /** Readings that succeed all count, in order. */
  lemma {:induction false} AllReadingsCount(samples: seq<Option<Stats>>, i: nat)
    requires (forall j | 0 <= j < |samples| :: samples[j].Some?) && i < |samples|
    ensures |Successful(samples)| == |samples| && Successful(samples)[i] == samples[i].value
  {
    var n := |samples| - 1;
    if i < n {
      AllReadingsCount(samples[..n], i);
    } else if n > 0 {
      AllReadingsCount(samples[..n], 0);
    }
  }

  /** The conversion of an increment to floating point: whole numbers up to 2^53 are exact. */
  ghost predicate Converts(float: nat -> nat) {
    forall x | x <= 0x20_0000_0000_0000 :: float(x) == x
  }

  /** The increments as they are added, each converted to floating point. */
  function Converted(samples: seq<Stats>, c: Counter, float: nat -> nat): nat {
    if samples == [] then 0
    else
      Converted(samples[..|samples| - 1], c, float) +
      float(Rise(Latest(samples[..|samples| - 1], c), Count(samples[|samples| - 1], c)))
  }

  ghost predicate SmallRises(samples: seq<Stats>, c: Counter) {
    forall n | 0 <= n < |samples| :: Rise(Latest(samples[..n], c), Count(samples[n], c)) <= 0x20_0000_0000_0000
  }

  /** Conversion loses nothing as long as no single increment exceeds 2^53. */
  lemma {:induction false} ConversionExact(samples: seq<Stats>, c: Counter, float: nat -> nat)
    requires Converts(float) && SmallRises(samples, c)
    ensures Converted(samples, c, float) == Exported(samples, c)
  {
    if samples != [] {
      var n := |samples| - 1;
      var most := samples[..n];
      assert forall i | 0 <= i < n :: most[..i] == samples[..i] && most[i] == samples[i];
      ConversionExact(most, c, float);
      assert Rise(Latest(samples[..n], c), Count(samples[n], c)) <= 0x20_0000_0000_0000;
    }
  }

  lemma ConvertedSnoc(good: seq<Stats>, s: Stats, c: Counter, float: nat -> nat)
    ensures Converted(good + [s], c, float) == Converted(good, c, float) + float(Rise(Latest(good, c), Count(s, c)))
  {
    assert (good + [s])[..|good|] == good;
  }

  /** A reading below the last one adds nothing. */
  method AddRise(total: nat, low: int, high: int, float: nat -> nat) returns (r: nat)
    requires float(0) == 0
    ensures r == total + float(Rise(low, high))
  {
    r := total;
    if high >= low {
      r := r + float(high - low);
    }
  }

  /** The export loop over the readings of its ticks; a failed reading is skipped. */
  method PeriodicStatsExport(samples: seq<Option<Stats>>, float: nat -> nat)
    returns (enqueues: nat, budgetCapped: nat, localDispatches: nat)
    requires float(0) == 0
    ensures enqueues == Converted(Successful(samples), EnqueueCount, float)
    ensures budgetCapped == Converted(Successful(samples), CappedCount, float)
    ensures localDispatches == Converted(Successful(samples), LocalCount, float)
  {
    var last := ZERO_STATS;
    enqueues, budgetCapped, localDispatches := 0, 0, 0;
    for i := 0 to |samples|
      invariant enqueues == Converted(Successful(samples[..i]), EnqueueCount, float)
      invariant budgetCapped == Converted(Successful(samples[..i]), CappedCount, float)
      invariant localDispatches == Converted(Successful(samples[..i]), LocalCount, float)
      invariant var good := Successful(samples[..i]);
                last == if good == [] then ZERO_STATS else good[|good| - 1]
    {
      assert samples[..i + 1][..i] == samples[..i];
      match samples[i]
      case None =>
      case Some(s) =>
        ghost var good := Successful(samples[..i]);
        ConvertedSnoc(good, s, EnqueueCount, float);
        ConvertedSnoc(good, s, CappedCount, float);
        ConvertedSnoc(good, s, LocalCount, float);
        enqueues := AddRise(enqueues, last.enqueues, s.enqueues, float);
        budgetCapped := AddRise(budgetCapped, last.budgetCapped, s.budgetCapped, float);
        localDispatches := AddRise(localDispatches, last.localDispatches, s.localDispatches, float);
        last := s;
    }
    assert samples[..|samples|] == samples;
  }

  /** What the agent reads after the first `n` labels of the u64 run. */
  function Reading(cpus: nat, ls: seq<Label>, n: nat): Stats
    requires n <= |ls|
  {
    match Run(U64, Init(cpus), ls[..n])
    case None => ZERO_STATS
    case Some(s) => NormStats(U64, Sum(s.stats))
  }

  /** No counter has overflowed. */
  ghost predicate Fits(e: Stats) {
    e.enqueues + e.localDispatches < TWO64
  }

  ghost predicate AtMost(x: Stats, y: Stats) {
    && x.enqueues <= y.enqueues && x.localDispatches <= y.localDispatches
    && x.budgetCapped <= y.budgetCapped && x.defaults <= y.defaults
  }

  /** Events only accumulate. */
  lemma {:induction false} EventsGrow(a: Arith, s: State, ls: seq<Label>, n: nat)
    requires Run(a, s, ls).Some? && n <= |ls|
    ensures AtMost(Events(a, s, ls[..n]), Events(a, s, ls))
  {
    if n == |ls| {
      assert ls[..n] == ls;
    } else {
      var most := ls[..|ls| - 1];
      assert most[..n] == ls[..n];
      EventsSnoc(a, s, ls);
      EventsGrow(a, s, most, n);
    }
  }

  lemma NormFits(e: Stats, n: nat, i: nat, c: nat, d: nat)
    requires Counted(e, n, i, c, d) && Fits(e)
    ensures NormStats(U64, e) == e
  {
  }

  /** Until a counter overflows, a reading is the event count of the run so far. */
  lemma ReadingIsEvents(cpus: nat, ls: seq<Label>, n: nat)
    requires Run(U64, Init(cpus), ls).Some? && Fits(Events(U64, Init(cpus), ls)) && n <= |ls|
    ensures Reading(cpus, ls, n) == Events(U64, Init(cpus), ls[..n])
  {
    RunPrefix(U64, Init(cpus), ls, n);
    EventsGrow(U64, Init(cpus), ls, n);
    StatsConservation(U64, cpus, ls[..n]);
    EventCounts(U64, Init(cpus), ls[..n]);
    var front := ls[..n];
    NormFits(Events(U64, Init(cpus), front), Enqueues(front), IdleInserts(front),
             ShortInserts(U64, Init(cpus), front), DefaultEnqueues(U64, Init(cpus), front));
  }

  /** `samples` are readings taken at successive moments `ns` of the run. */
  ghost predicate Sampled(cpus: nat, ls: seq<Label>, ns: seq<nat>, samples: seq<Stats>) {
    && |samples| == |ns|
    && (forall i | 0 <= i < |ns| :: ns[i] <= |ls| && samples[i] == Reading(cpus, ls, ns[i]))
    && (forall i | 0 <= i < |ns| - 1 :: ns[i] <= ns[i + 1])
  }

  lemma SamplesRise(cpus: nat, ls: seq<Label>, ns: seq<nat>, samples: seq<Stats>, i: nat)
    requires Run(U64, Init(cpus), ls).Some? && Fits(Events(U64, Init(cpus), ls))
    requires Sampled(cpus, ls, ns, samples) && i < |ns| - 1
    ensures AtMost(samples[i], samples[i + 1])
  {
    assert ns[i] <= ns[i + 1];
    assert ls[..ns[i + 1]][..ns[i]] == ls[..ns[i]];
    ReadingIsEvents(cpus, ls, ns[i]);
    ReadingIsEvents(cpus, ls, ns[i + 1]);
    RunPrefix(U64, Init(cpus), ls, ns[i + 1]);
    EventsGrow(U64, Init(cpus), ls[..ns[i + 1]], ns[i]);
  }

  lemma SamplesStart(cpus: nat, ls: seq<Label>, n: nat)
    requires Run(U64, Init(cpus), ls).Some? && Fits(Events(U64, Init(cpus), ls)) && n <= |ls|
    ensures AtMost(ZERO_STATS, Reading(cpus, ls, n))
  {
    ReadingIsEvents(cpus, ls, n);
    RunPrefix(U64, Init(cpus), ls, n);
    EventCounts(U64, Init(cpus), ls[..n]);
  }

  lemma CountMonotone(x: Stats, y: Stats, c: Counter)
    requires AtMost(x, y)
    ensures Count(x, c) <= Count(y, c)
  {
  }

  lemma SamplesNeverFall(cpus: nat, ls: seq<Label>, ns: seq<nat>, samples: seq<Stats>, c: Counter)
    requires Run(U64, Init(cpus), ls).Some? && Fits(Events(U64, Init(cpus), ls))
    requires Sampled(cpus, ls, ns, samples) && ns != []
    ensures NeverFalls(samples, c)
  {
    forall i | 0 <= i < |samples| - 1
      ensures Count(samples[i], c) <= Count(samples[i + 1], c)
    {
      SamplesRise(cpus, ls, ns, samples, i);
      CountMonotone(samples[i], samples[i + 1], c);
    }
    SamplesStart(cpus, ls, ns[0]);
    CountMonotone(ZERO_STATS, samples[0], c);
  }

  lemma ExportedEvents(cpus: nat, ls: seq<Label>, ns: seq<nat>, samples: seq<Stats>, c: Counter)
    requires Run(U64, Init(cpus), ls).Some? && Fits(Events(U64, Init(cpus), ls))
    requires Sampled(cpus, ls, ns, samples) && ns != []
    ensures Exported(samples, c) == Count(Events(U64, Init(cpus), ls[..ns[|ns| - 1]]), c)
  {
    SamplesNeverFall(cpus, ls, ns, samples, c);
    ExportIsLatest(samples, c);
    assert samples[|ns| - 1] == Reading(cpus, ls, ns[|ns| - 1]);
    ReadingIsEvents(cpus, ls, ns[|ns| - 1]);
  }

  /** From callback to dashboard: along any run of the u64 scheduler, as long as no counter
      overflows, the totals exported from any series of readings are the numbers of
      enqueues, idle insertions and shortened slices up to the latest reading. */
  lemma ExportCountsCallbacks(cpus: nat, ls: seq<Label>, ns: seq<nat>, samples: seq<Stats>)
    requires Run(U64, Init(cpus), ls).Some? && Fits(Events(U64, Init(cpus), ls))
    requires Sampled(cpus, ls, ns, samples) && ns != []
    ensures var upTo := ls[..ns[|ns| - 1]];
            && Exported(samples, EnqueueCount) == Enqueues(upTo)
            && Exported(samples, LocalCount) == IdleInserts(upTo)
            && Exported(samples, CappedCount) == ShortInserts(U64, Init(cpus), upTo)
  {
    var n := ns[|ns| - 1];
    RunPrefix(U64, Init(cpus), ls, n);
    EventCounts(U64, Init(cpus), ls[..n]);
    ExportedEvents(cpus, ls, ns, samples, EnqueueCount);
    ExportedEvents(cpus, ls, ns, samples, LocalCount);
    ExportedEvents(cpus, ls, ns, samples, CappedCount);
  }
}
