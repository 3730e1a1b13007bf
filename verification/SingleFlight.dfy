/** The same cache under any number of concurrent callers. Each step is what one
    goroutine does between two lock operations, channel operations or atomics. */
module SingleFlight {
  import opened Wrappers
  import opened CelCache

  type Tid = nat

  /** Where a caller is in its call. `Ticketed` holds the read lock; `Compiling` and
      `Closed` lead the in-flight compile before and after its channel is closed. */
  datatype Pc =
    | Start(e: string)
    | Ticketed(e: string, ticket: nat)
    | Missed(e: string)
    | Waiting(e: string, leader: Tid)
    | Compiling(e: string)
    | Closed(e: string)
    | Done(e: string, r: Outcome)

  /** `calls` holds the shared result of each leader's call, None until it is closed. */
  datatype State = State(
    entries: Entries,
    inflight: map<string, Tid>,
    calls: map<Tid, Option<Outcome>>,
    clock: nat,
    threads: map<Tid, Pc>)

  datatype Label =
    | Spawn(t: Tid, e: string)
    | Probe(t: Tid)
    | StoreClock(t: Tid)
    | Register(t: Tid)
    | Compile(t: Tid)
    | Wake(t: Tid)
    | Finish(t: Tid)
    | Tick

  const INIT := State(map[], map[], map[], 0, map[])

  predicate NoReaders(s: State) {
    forall u | u in s.threads :: !s.threads[u].Ticketed?
  }

  function Go(s: State, t: Tid, pc: Pc): State {
    s.(threads := s.threads[t := pc])
  }

  /** Read-lock probe: a hit takes a ticket and keeps the lock until it is stored. */
  function OnProbe(s: State, t: Tid, e: string): State {
    if e in s.entries then Go(s, t, Ticketed(e, s.clock + 1)).(clock := s.clock + 1)
    else Go(s, t, Missed(e))
  }

  function OnStoreClock(s: State, t: Tid, e: string, ticket: nat): Option<State> {
    if e !in s.entries then None
    else Some(Go(s, t, Done(e, Prog(s.entries[e].program)))
              .(entries := s.entries[e := s.entries[e].(clock := ticket)]))
  }

  /** Under the write lock: wait for the leader, or become it. */
  function OnRegister(s: State, t: Tid, e: string): State {
    if e in s.inflight then Go(s, t, Waiting(e, s.inflight[e]))
    else Go(s, t, Compiling(e)).(inflight := s.inflight[e := t], calls := s.calls[t := None])
  }

  /** Compile with no lock held, publish the result and close the channel. */
  function OnCompile(cfg: Config, s: State, t: Tid, e: string): State {
    Go(s, t, Closed(e)).(calls := s.calls[t := Some(Result(cfg, e))])
  }

  /** A waiter returns once its leader's channel is closed. */
  function OnWake(s: State, t: Tid, e: string, leader: Tid): Option<State> {
    if leader in s.calls && s.calls[leader].Some? then Some(Go(s, t, Done(e, s.calls[leader].value))) else None
  }

  /** Under the write lock: leave the in-flight map, then cache a success. The entry may
      have been inserted meanwhile; then it is kept and its clock renewed. */
  ghost function OnFinish(cfg: Config, s: State, t: Tid, e: string, r: Outcome): State {
    var s' := Go(s, t, Done(e, r)).(inflight := s.inflight - {e});
    match r
    case Failed(_, _) => s'
    case Prog(p) =>
      var clock := s.clock + 1;
      if e in s.entries then
        Go(s', t, Done(e, Prog(s.entries[e].program)))
        .(entries := s.entries[e := s.entries[e].(clock := clock)], clock := clock)
      else
        s'.(entries := Evict(s.entries, cfg.capacity)[e := Entry(clock, p)], clock := clock)
  }

  ghost function Step(cfg: Config, s: State, l: Label): Option<State> {
    match l
    case Spawn(t, e) => if t in s.threads then None else Some(Go(s, t, Start(e)))
    case Tick => Some(s.(clock := s.clock + 1))
    case Probe(t) =>
      if t in s.threads && s.threads[t].Start? then Some(OnProbe(s, t, s.threads[t].e)) else None
    case StoreClock(t) =>
      if t in s.threads && s.threads[t].Ticketed? then OnStoreClock(s, t, s.threads[t].e, s.threads[t].ticket) else None
    case Register(t) =>
      if t in s.threads && s.threads[t].Missed? && NoReaders(s) then Some(OnRegister(s, t, s.threads[t].e)) else None
    case Compile(t) =>
      if t in s.threads && s.threads[t].Compiling? then Some(OnCompile(cfg, s, t, s.threads[t].e)) else None
    case Wake(t) =>
      if t in s.threads && s.threads[t].Waiting? then OnWake(s, t, s.threads[t].e, s.threads[t].leader) else None
    case Finish(t) =>
      if t in s.threads && s.threads[t].Closed? && NoReaders(s) && t in s.calls && s.calls[t].Some?
      then Some(OnFinish(cfg, s, t, s.threads[t].e, s.calls[t].value)) else None
  }

  ghost function Run(cfg: Config, s: State, ls: seq<Label>): Option<State> {
    if ls == [] then Some(s)
    else
      match Run(cfg, s, ls[..|ls| - 1])
      case None => None
      case Some(m) => Step(cfg, m, ls[|ls| - 1])
  }

  predicate Leads(pc: Pc, e: string) {
    (pc.Compiling? || pc.Closed?) && pc.e == e
  }

  /** An in-flight expression has a leader. */
  ghost predicate HasLeader(s: State, e: string) {
    e in s.inflight ==> s.inflight[e] in s.threads && Leads(s.threads[s.inflight[e]], e)
  }

  /** A leader is the one registered for its expression, so there is only one. */
  ghost predicate IsRegistered(s: State, t: Tid) {
    t in s.threads && (s.threads[t].Compiling? || s.threads[t].Closed?) ==>
      s.threads[t].e in s.inflight && s.inflight[s.threads[t].e] == t
  }

  ghost predicate OneLeader(s: State) {
    (forall e :: HasLeader(s, e)) && (forall t :: IsRegistered(s, t))
  }

  /** What each program counter promises about the shared state; a finished caller holds
      exactly the result of its own expression. */
  ghost predicate Agrees(cfg: Config, s: State, t: Tid) {
    t in s.threads ==>
      match s.threads[t]
      case Start(_) => t !in s.calls
      case Missed(_) => t !in s.calls
      case Compiling(e) => t in s.calls && s.calls[t] == None
      case Closed(e) => t in s.calls && s.calls[t] == Some(Result(cfg, e))
      case Waiting(e, leader) =>
        && leader in s.calls
        && (s.calls[leader].Some? ==> s.calls[leader].value == Result(cfg, e))
        && (s.calls[leader].None? ==> leader in s.threads && s.threads[leader] == Compiling(e))
      case Ticketed(e, ticket) => e in s.entries
      case Done(e, r) => r == Result(cfg, e)
  }

  ghost predicate AllAgree(cfg: Config, s: State) {
    && (forall t :: Agrees(cfg, s, t))
    && (forall t | t in s.calls :: t in s.threads)
  }

  /** Where a ticket of the clock can be: stored on an entry, or held by a reader. */
  datatype Holder = OnEntry(e: string) | ByReader(t: Tid)

  function Held(s: State, h: Holder): Option<nat> {
    match h
    case OnEntry(e) => if e in s.entries then Some(s.entries[e].clock) else None
    case ByReader(t) => if t in s.threads && s.threads[t].Ticketed? then Some(s.threads[t].ticket) else None
  }

  ghost predicate Issued(s: State, h: Holder) {
    Held(s, h).Some? ==> Held(s, h).value <= s.clock
  }

  ghost predicate Apart(s: State, g: Holder, h: Holder) {
    Held(s, g).Some? && Held(s, g) == Held(s, h) ==> g == h
  }

  /** Tickets were issued, and no two holders have the same one. */
  ghost predicate Tickets(s: State) {
    (forall h :: Issued(s, h)) && (forall g, h :: Apart(s, g, h))
  }

  ghost predicate Bounded(cfg: Config, s: State) {
    |s.entries| <= if cfg.capacity < 1 then 1 else cfg.capacity
  }

  /** Only successful compiles are cached, each under its own expression. */
  ghost predicate Faithful(cfg: Config, s: State) {
    forall e | e in s.entries :: cfg.compile(e) == Good(s.entries[e].program)
  }

  ghost predicate Inv(cfg: Config, s: State) {
    OneLeader(s) && AllAgree(cfg, s) && Tickets(s) && Faithful(cfg, s) && Bounded(cfg, s)
  }

  lemma {:induction false} EvictSubset(m: Entries, capacity: int, e: string)
    requires e in Evict(m, capacity)
    ensures e in m && Evict(m, capacity)[e] == m[e]
    decreases |m|
  {
    if !(|m| < capacity || m == map[] || Oldest(m) == "") {
      assert (m - {Oldest(m)}).Keys == m.Keys - {Oldest(m)};
      EvictSubset(m - {Oldest(m)}, capacity, e);
    }
  }

  lemma {:induction false} EvictBelow(m: Entries, capacity: int)
    requires "" !in m
    ensures |Evict(m, capacity)| < (if capacity < 1 then 1 else capacity)
    decreases |m|
  {
    if |m| >= capacity && m != map[] {
      assert (m - {Oldest(m)}).Keys == m.Keys - {Oldest(m)};
      EvictBelow(m - {Oldest(m)}, capacity);
    }
  }

  lemma EvictHeld(m: Entries, capacity: int, h: Holder)
    ensures h.OnEntry? && h.e in Evict(m, capacity) ==> h.e in m && Evict(m, capacity)[h.e] == m[h.e]
  {
    if h.OnEntry? && h.e in Evict(m, capacity) {
      EvictSubset(m, capacity, h.e);
    }
  }

  lemma StepHasLeader(cfg: Config, s: State, l: Label, s': State, e: string)
    requires Step(cfg, s, l) == Some(s') && HasLeader(s, e)
    requires !l.Tick? ==> IsRegistered(s, l.t)
    ensures HasLeader(s', e)
  {
  }

  lemma StepIsRegistered(cfg: Config, s: State, l: Label, s': State, t: Tid)
    requires Step(cfg, s, l) == Some(s') && IsRegistered(s, t)
    requires !l.Tick? ==> IsRegistered(s, l.t)
    ensures IsRegistered(s', t)
  {
  }

  /** A caller that does not move keeps its promise: nobody else touches its call, and a
      leader that closes its channel does so with the result its waiters expect. */
  lemma OthersAgree(cfg: Config, s: State, l: Label, s': State, t: Tid)
    requires Step(cfg, s, l) == Some(s') && Agrees(cfg, s, t)
    requires l.Tick? || (l.t != t && Agrees(cfg, s, l.t) && (l.t in s.calls ==> l.t in s.threads))
    ensures Agrees(cfg, s', t)
  {
  }

  lemma MoverAgrees(cfg: Config, s: State, l: Label, s': State)
    requires !l.Tick? && Step(cfg, s, l) == Some(s') && Agrees(cfg, s, l.t) && Faithful(cfg, s)
    requires l.t in s.calls ==> l.t in s.threads
    requires l.Register? && s.threads[l.t].e in s.inflight ==>
               HasLeader(s, s.threads[l.t].e) && Agrees(cfg, s, s.inflight[s.threads[l.t].e])
    ensures Agrees(cfg, s', l.t)
  {
  }

  lemma StepAgrees(cfg: Config, s: State, l: Label, s': State, t: Tid)
    requires Step(cfg, s, l) == Some(s') && AllAgree(cfg, s) && Faithful(cfg, s)
    requires forall e :: HasLeader(s, e)
    ensures Agrees(cfg, s', t)
  {
    assert Agrees(cfg, s, t);
    if !l.Tick? && l.t == t {
      MoverAgrees(cfg, s, l, s');
    } else {
      OthersAgree(cfg, s, l, s', t);
    }
  }

  lemma StepFaithful(cfg: Config, s: State, l: Label, s': State)
    requires Step(cfg, s, l) == Some(s') && Faithful(cfg, s)
    requires !l.Tick? ==> Agrees(cfg, s, l.t)
    ensures Faithful(cfg, s')
  {
    forall e | e in Evict(s.entries, cfg.capacity)
      ensures e in s.entries && Evict(s.entries, cfg.capacity)[e] == s.entries[e]
    {
      EvictSubset(s.entries, cfg.capacity, e);
    }
  }

  /** The holder a step gives a fresh ticket to, or none. */
  function Fresh(s: State, l: Label): Option<Holder> {
    match l
    case Probe(t) => if t in s.threads && s.threads[t].e in s.entries then Some(ByReader(t)) else None
    case Finish(t) => if t in s.threads then Some(OnEntry(s.threads[t].e)) else None
    case _ => None
  }

  /** How a step can change what is held: not at all, dropped, a fresh ticket, or a
      reader's ticket moved onto its entry. */
  ghost predicate HeldStep(s: State, l: Label, s': State, h: Holder) {
    || Held(s', h) == Held(s, h)
    || Held(s', h) == None
    || (Fresh(s, l) == Some(h) && Held(s', h) == Some(s.clock + 1) && s'.clock == s.clock + 1)
    || (l.StoreClock? && h.OnEntry? && l.t in s.threads && h.e == s.threads[l.t].e
        && Held(s', h) == Held(s, ByReader(l.t)))
  }

  lemma FinishHeld(cfg: Config, s: State, t: Tid, s': State, h: Holder)
    requires Step(cfg, s, Finish(t)) == Some(s')
    ensures HeldStep(s, Finish(t), s', h) && s.clock <= s'.clock
  {
    EvictHeld(s.entries, cfg.capacity, h);
  }

  lemma ReaderHeld(cfg: Config, s: State, l: Label, s': State, h: Holder)
    requires Step(cfg, s, l) == Some(s') && (l.Probe? || l.StoreClock?)
    ensures HeldStep(s, l, s', h) && s.clock <= s'.clock
    ensures l.StoreClock? ==> Held(s', ByReader(l.t)) == None
  {
  }

  lemma StepHeld(cfg: Config, s: State, l: Label, s': State, h: Holder)
    requires Step(cfg, s, l) == Some(s')
    ensures HeldStep(s, l, s', h) && s.clock <= s'.clock
    ensures l.StoreClock? ==> Held(s', ByReader(l.t)) == None
  {
    if l.Finish? {
      FinishHeld(cfg, s, l.t, s', h);
    } else if l.Probe? || l.StoreClock? {
      ReaderHeld(cfg, s, l, s', h);
    }
  }

  lemma StepIssued(cfg: Config, s: State, l: Label, s': State, h: Holder)
    requires Step(cfg, s, l) == Some(s') && Issued(s, h)
    requires !l.Tick? ==> Issued(s, ByReader(l.t))
    ensures Issued(s', h)
  {
    StepHeld(cfg, s, l, s', h);
  }

  lemma HeldApart(s: State, l: Label, s': State, g: Holder, h: Holder)
    requires HeldStep(s, l, s', g) && HeldStep(s, l, s', h)
    requires Issued(s, g) && Issued(s, h) && Apart(s, g, h)
    requires l.StoreClock? ==> Held(s', ByReader(l.t)) == None && Issued(s, ByReader(l.t))
    requires l.StoreClock? ==> Apart(s, ByReader(l.t), g) && Apart(s, ByReader(l.t), h)
    ensures Apart(s', g, h)
  {
  }

  lemma StepApart(cfg: Config, s: State, l: Label, s': State, g: Holder, h: Holder)
    requires Step(cfg, s, l) == Some(s') && Tickets(s)
    ensures Apart(s', g, h)
  {
    StepHeld(cfg, s, l, s', g);
    StepHeld(cfg, s, l, s', h);
    assert Apart(s, g, h) && Issued(s, g) && Issued(s, h);
    if l.StoreClock? {
      assert Issued(s, ByReader(l.t)) && Apart(s, ByReader(l.t), g) && Apart(s, ByReader(l.t), h);
    }
    HeldApart(s, l, s', g, h);
  }

  lemma SizeUpdate(m: Entries, e: string, x: Entry)
    ensures |m[e := x]| == |m| + if e in m then 0 else 1
  {
    assert m[e := x].Keys == m.Keys + {e};
  }

  lemma FinishBounded(cfg: Config, s: State, t: Tid, e: string, r: Outcome)
    requires Bounded(cfg, s) && "" !in s.entries
    ensures Bounded(cfg, OnFinish(cfg, s, t, e, r))
  {
    if r.Prog? {
      if e in s.entries {
        SizeUpdate(s.entries, e, s.entries[e].(clock := s.clock + 1));
      } else {
        EvictBelow(s.entries, cfg.capacity);
        SizeUpdate(Evict(s.entries, cfg.capacity), e, Entry(s.clock + 1, r.program));
      }
    }
  }

  lemma StoreBounded(cfg: Config, s: State, t: Tid, e: string, ticket: nat)
    requires Bounded(cfg, s) && e in s.entries
    ensures Bounded(cfg, OnStoreClock(s, t, e, ticket).value)
  {
    SizeUpdate(s.entries, e, s.entries[e].(clock := ticket));
  }

  lemma StepBounded(cfg: Config, s: State, l: Label, s': State)
    requires Step(cfg, s, l) == Some(s') && Bounded(cfg, s) && "" !in s.entries
    ensures Bounded(cfg, s')
  {
    if l.Finish? {
      FinishBounded(cfg, s, l.t, s.threads[l.t].e, s.calls[l.t].value);
    } else if l.StoreClock? {
      StoreBounded(cfg, s, l.t, s.threads[l.t].e, s.threads[l.t].ticket);
    }
  }

  lemma StepInv(cfg: Config, s: State, l: Label, s': State)
    requires Step(cfg, s, l) == Some(s') && Inv(cfg, s) && cfg.compile("").Bad?
    ensures Inv(cfg, s')
  {
    forall e ensures HasLeader(s', e) { StepHasLeader(cfg, s, l, s', e); }
    forall t ensures IsRegistered(s', t) { StepIsRegistered(cfg, s, l, s', t); }
    forall t ensures Agrees(cfg, s', t) { StepAgrees(cfg, s, l, s', t); }
    forall h ensures Issued(s', h) { StepIssued(cfg, s, l, s', h); }
    forall g, h ensures Apart(s', g, h) { StepApart(cfg, s, l, s', g, h); }
    StepFaithful(cfg, s, l, s');
    assert "" !in s.entries;
    StepBounded(cfg, s, l, s');
  }

  /** Safety over every run: any number of callers, any interleaving. */
  lemma {:induction false} Reachable(cfg: Config, ls: seq<Label>)
    requires Run(cfg, INIT, ls).Some? && cfg.compile("").Bad?
    ensures Inv(cfg, Run(cfg, INIT, ls).value)
  {
    if ls != [] {
      Reachable(cfg, ls[..|ls| - 1]);
      StepInv(cfg, Run(cfg, INIT, ls[..|ls| - 1]).value, ls[|ls| - 1], Run(cfg, INIT, ls).value);
    }
  }

  ghost predicate AllDone(s: State) {
    forall t | t in s.threads :: s.threads[t].Done?
  }

  /** What callers and later readers can rely on at any moment of any run. */
  lemma SingleFlightSafety(cfg: Config, ls: seq<Label>)
    requires Run(cfg, INIT, ls).Some? && cfg.compile("").Bad?
    ensures var s := Run(cfg, INIT, ls).value;
            && (forall t | t in s.threads && s.threads[t].Done? :: Answers(cfg, s.threads[t].e, s.threads[t].r))
            && (forall t, u, e | t in s.threads && u in s.threads ::
                  Leads(s.threads[t], e) && Leads(s.threads[u], e) ==> t == u)
            && (forall e | e in s.inflight :: s.inflight[e] in s.threads && Leads(s.threads[s.inflight[e]], e))
            && (forall e | e in s.entries ::
                  cfg.compile(e) == Good(s.entries[e].program) && s.entries[e].clock <= s.clock)
            && Distinct(s.entries)
            && |s.entries| <= (if cfg.capacity < 1 then 1 else cfg.capacity)
            && (AllDone(s) ==> s.inflight == map[])
  {
    Reachable(cfg, ls);
    var s := Run(cfg, INIT, ls).value;
    forall t | t in s.threads && s.threads[t].Done?
      ensures Answers(cfg, s.threads[t].e, s.threads[t].r)
    {
      assert Agrees(cfg, s, t);
    }
    forall t, u, e | t in s.threads && u in s.threads && Leads(s.threads[t], e) && Leads(s.threads[u], e)
      ensures t == u
    {
      assert IsRegistered(s, t) && IsRegistered(s, u);
    }
    forall e | e in s.inflight
      ensures s.inflight[e] in s.threads && Leads(s.threads[s.inflight[e]], e)
    {
      assert HasLeader(s, e);
    }
    forall e | e in s.entries
      ensures s.entries[e].clock <= s.clock
    {
      assert Issued(s, OnEntry(e));
    }
    forall j, k | j in s.entries && k in s.entries && s.entries[j].clock == s.entries[k].clock
      ensures j == k
    {
      assert Apart(s, OnEntry(j), OnEntry(k));
    }
  }

  /** Steps a caller has left. */
  function Rank(pc: Pc): nat {
    match pc
    case Start(_) => 4
    case Missed(_) => 3
    case Compiling(_) => 2
    case Ticketed(_, _) => 1
    case Waiting(_, _) => 1
    case Closed(_) => 1
    case Done(_, _) => 0
  }

  /** The next step of a caller that is not blocked. */
  ghost predicate CanStep(cfg: Config, s: State, t: Tid) {
    exists l :: Moves(l, t) && Step(cfg, s, l).Some?
  }

  predicate Moves(l: Label, t: Tid) {
    !l.Tick? && !l.Spawn? && l.t == t
  }

  lemma Unblocked(cfg: Config, s: State, t: Tid, l: Label)
    requires Moves(l, t) && Step(cfg, s, l).Some?
    ensures CanStep(cfg, s, t)
  {
  }

  /** Progress: while some call is unfinished, some caller can step; a blocked waiter's
      leader in particular can. */
  lemma Progress(cfg: Config, s: State, t: Tid)
    requires Inv(cfg, s) && t in s.threads && !s.threads[t].Done?
    ensures exists u :: CanStep(cfg, s, u)
    ensures s.threads[t].Waiting? ==> CanStep(cfg, s, t) || CanStep(cfg, s, s.threads[t].leader)
  {
    assert Agrees(cfg, s, t);
    var pc := s.threads[t];
    if pc.Start? {
      Unblocked(cfg, s, t, Probe(t));
    } else if pc.Ticketed? {
      Unblocked(cfg, s, t, StoreClock(t));
    } else if pc.Compiling? {
      Unblocked(cfg, s, t, Compile(t));
    } else if pc.Waiting? {
      if s.calls[pc.leader].Some? {
        Unblocked(cfg, s, t, Wake(t));
      } else {
        Unblocked(cfg, s, pc.leader, Compile(pc.leader));
      }
    } else if NoReaders(s) {
      Unblocked(cfg, s, t, if pc.Missed? then Register(t) else Finish(t));
    } else {
      var u :| u in s.threads && s.threads[u].Ticketed?;
      assert Agrees(cfg, s, u);
      Unblocked(cfg, s, u, StoreClock(u));
    }
  }

  /** A state in which no caller can step is one in which every call has returned. */
  lemma StuckIsFinished(cfg: Config, s: State)
    requires Inv(cfg, s) && forall u :: !CanStep(cfg, s, u)
    ensures AllDone(s) && s.inflight == map[]
  {
    forall t | t in s.threads
      ensures s.threads[t].Done?
    {
      if !s.threads[t].Done? {
        Progress(cfg, s, t);
      }
    }
    forall e
      ensures e !in s.inflight
    {
      assert HasLeader(s, e);
    }
  }

  /** All the steps a set of callers has left. */
  ghost function Work(s: State, ts: set<Tid>): nat {
    if ts == {} then 0
    else (if Pick(ts) in s.threads then Rank(s.threads[Pick(ts)]) else 0) + Work(s, ts - {Pick(ts)})
  }

  lemma MoverRank(cfg: Config, s: State, l: Label, s': State)
    requires Step(cfg, s, l) == Some(s') && !l.Spawn? && !l.Tick?
    ensures l.t in s.threads && l.t in s'.threads && Rank(s'.threads[l.t]) < Rank(s.threads[l.t])
  {
  }

  lemma OthersStay(cfg: Config, s: State, l: Label, s': State, t: Tid)
    requires Step(cfg, s, l) == Some(s') && !Moves(l, t) && t in s.threads
    ensures t in s'.threads && s'.threads[t] == s.threads[t]
  {
  }

  lemma StepRank(cfg: Config, s: State, l: Label, s': State, t: Tid)
    requires Step(cfg, s, l) == Some(s') && !l.Spawn? && t in s.threads
    ensures t in s'.threads
    ensures Moves(l, t) ==> Rank(s'.threads[t]) < Rank(s.threads[t])
    ensures !Moves(l, t) ==> s'.threads[t] == s.threads[t]
  {
    if Moves(l, t) {
      MoverRank(cfg, s, l, s');
    } else {
      OthersStay(cfg, s, l, s', t);
    }
  }

  lemma KeepsCallers(cfg: Config, s: State, l: Label, s': State)
    requires Step(cfg, s, l) == Some(s') && !l.Spawn?
    ensures s'.threads.Keys == s.threads.Keys
  {
  }

  lemma {:induction false} StepWork(cfg: Config, s: State, l: Label, s': State, ts: set<Tid>)
    requires Step(cfg, s, l) == Some(s') && !l.Spawn? && ts <= s.threads.Keys
    ensures Work(s', ts) + (if !l.Tick? && l.t in ts then 1 else 0) <= Work(s, ts)
  {
    if ts != {} {
      var t := Pick(ts);
      StepRank(cfg, s, l, s', t);
      StepWork(cfg, s, l, s', ts - {t});
    }
  }

  function CallerSteps(ls: seq<Label>): nat {
    if ls == [] then 0
    else CallerSteps(ls[..|ls| - 1]) + if ls[|ls| - 1].Tick? then 0 else 1
  }

  /** Termination: callers already started take at most their remaining work in steps,
      so with `Progress` every call finishes. */
  lemma {:induction false} WorkBound(cfg: Config, s: State, ls: seq<Label>)
    requires Run(cfg, s, ls).Some? && forall k | 0 <= k < |ls| :: !ls[k].Spawn?
    ensures Run(cfg, s, ls).value.threads.Keys == s.threads.Keys
    ensures CallerSteps(ls) + Work(Run(cfg, s, ls).value, s.threads.Keys) <= Work(s, s.threads.Keys)
  {
    if ls != [] {
      var most, l := ls[..|ls| - 1], ls[|ls| - 1];
      WorkBound(cfg, s, most);
      var m := Run(cfg, s, most).value;
      assert !ls[|ls| - 1].Spawn?;
      KeepsCallers(cfg, m, l, Run(cfg, s, ls).value);
      StepWork(cfg, m, l, Run(cfg, s, ls).value, s.threads.Keys);
    }
  }

  /** A finished compile leaves its expression cached as the most recently used one. */
  lemma FinishCaches(cfg: Config, s: State, t: Tid, s': State)
    requires Inv(cfg, s) && Step(cfg, s, Finish(t)) == Some(s') && cfg.compile(s.threads[t].e).Good?
    ensures var e := s.threads[t].e;
            e in s'.entries && forall k | k in s'.entries && k != e :: s'.entries[k].clock < s'.entries[e].clock
  {
    assert Agrees(cfg, s, t);
    var e := s.threads[t].e;
    forall k | k in s'.entries && k != e
      ensures s'.entries[k].clock < s'.entries[e].clock
    {
      EvictHeld(s.entries, cfg.capacity, OnEntry(k));
      assert Issued(s, OnEntry(k));
    }
  }

  lemma Then(cfg: Config, s: State, ls: seq<Label>, m: State, l: Label, m': State)
    requires Run(cfg, s, ls) == Some(m) && Step(cfg, m, l) == Some(m')
    ensures Run(cfg, s, ls + [l]) == Some(m')
  {
    assert (ls + [l])[..|ls|] == ls;
  }

  /** A caller running alone does to the entries what the sequential cache does, so the
      recency list describes quiet periods of the concurrent one too. */
  lemma SoloCall(cfg: Config, s: State, t: Tid, e: string) returns (ls: seq<Label>, s': State)
    requires Faithful(cfg, s) && AllDone(s) && s.inflight == map[] && t !in s.threads
    ensures Run(cfg, s, ls) == Some(s') && AllDone(s') && s'.inflight == map[]
    ensures s'.threads == s.threads[t := Done(e, Result(cfg, e))]
    ensures s'.entries == CallEntries(cfg, s.entries, s.clock, e)
  {
    var m := SoloProbe(cfg, s, t, e);
    if e in s.entries {
      ls, s' := SoloHit(cfg, s, [] + [Spawn(t, e)] + [Probe(t)], m, t, e);
    } else {
      ls, s' := SoloMiss(cfg, s, [] + [Spawn(t, e)] + [Probe(t)], m, t, e);
    }
    assert s'.threads == s.threads[t := Done(e, Result(cfg, e))];
  }

  lemma SoloProbe(cfg: Config, s: State, t: Tid, e: string) returns (m: State)
    requires AllDone(s) && t !in s.threads
    ensures Run(cfg, s, [] + [Spawn(t, e)] + [Probe(t)]) == Some(m)
    ensures m.entries == s.entries && m.inflight == s.inflight && m.clock == s.clock + if e in s.entries then 1 else 0
    ensures m.threads == s.threads[t := if e in s.entries then Ticketed(e, m.clock) else Missed(e)]
  {
    var s1 := Go(s, t, Start(e));
    Then(cfg, s, [], s, Spawn(t, e), s1);
    m := OnProbe(s1, t, e);
    Then(cfg, s, [] + [Spawn(t, e)], s1, Probe(t), m);
    assert m.threads == s.threads[t := m.threads[t]];
  }

  lemma SoloHit(cfg: Config, s: State, ls: seq<Label>, m: State, t: Tid, e: string)
    returns (ls': seq<Label>, s': State)
    requires Run(cfg, s, ls) == Some(m) && t in m.threads && e in m.entries && m.clock > 0
    requires m.threads[t] == Ticketed(e, m.clock) && Faithful(cfg, m) && m.inflight == map[]
    ensures Run(cfg, s, ls') == Some(s') && s'.inflight == map[]
    ensures s'.threads == m.threads[t := Done(e, Result(cfg, e))]
    ensures s'.entries == CallEntries(cfg, m.entries, m.clock - 1, e)
  {
    s' := OnStoreClock(m, t, e, m.clock).value;
    Then(cfg, s, ls, m, StoreClock(t), s');
    ls' := ls + [StoreClock(t)];
  }

  lemma SoloMiss(cfg: Config, s: State, ls: seq<Label>, m: State, t: Tid, e: string)
    returns (ls': seq<Label>, s': State)
    requires Run(cfg, s, ls) == Some(m) && t in m.threads && m.threads[t] == Missed(e) && e !in m.entries
    requires NoReaders(m) && m.inflight == map[]
    ensures Run(cfg, s, ls') == Some(s') && s'.inflight == map[]
    ensures s'.threads == m.threads[t := Done(e, Result(cfg, e))]
    ensures s'.entries == CallEntries(cfg, m.entries, m.clock, e)
  {
    var m1 := OnRegister(m, t, e);
    Then(cfg, s, ls, m, Register(t), m1);
    var m2 := OnCompile(cfg, m1, t, e);
    Then(cfg, s, ls + [Register(t)], m1, Compile(t), m2);
    s' := OnFinish(cfg, m2, t, e, Result(cfg, e));
    Then(cfg, s, ls + [Register(t)] + [Compile(t)], m2, Finish(t), s');
    ls' := ls + [Register(t)] + [Compile(t)] + [Finish(t)];
    assert s'.threads == m.threads[t := Done(e, Result(cfg, e))];
  }
}
