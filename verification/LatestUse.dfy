/** Whether the clocks of the concurrent cache follow the latest use of each entry. A reader
    takes its ticket and stores it in two steps, so an older ticket can be stored last. */
module LatestUse {
  import opened Wrappers
  import opened CelCache
  import opened SingleFlight

  /** The expression the step takes a ticket for. */
  function TicketFor(s: State, l: Label): Option<string> {
    match l
    case Probe(t) => if t in s.threads && s.threads[t].e in s.entries then Some(s.threads[t].e) else None
    case Finish(t) =>
      if t in s.threads && t in s.calls && s.calls[t].Some? && s.calls[t].value.Prog?
      then Some(s.threads[t].e) else None
    case _ => None
  }

  /** The latest ticket taken for `e` along the run, 0 if there was none. */
  ghost function Latest(cfg: Config, ls: seq<Label>, e: string): nat {
    if ls == [] then 0
    else
      var most := ls[..|ls| - 1];
      match Run(cfg, INIT, most)
      case None => Latest(cfg, most, e)
      case Some(m) => LatestAfter(m, ls[|ls| - 1], e, Latest(cfg, most, e))
  }

  function LatestAfter(s: State, l: Label, e: string, latest: nat): nat {
    if TicketFor(s, l) == Some(e) then s.clock + 1 else latest
  }

  predicate Holds(s: State, t: Tid, e: string, n: nat) {
    t in s.threads && s.threads[t] == Ticketed(e, n)
  }

  /** The latest ticket of a cached expression is on its entry or about to be stored. */
  ghost predicate Follows(s: State, e: string, latest: nat) {
    e in s.entries ==> s.entries[e].clock == latest || exists t :: Holds(s, t, e, latest)
  }

  /** The step stores a ticket over the latest one. */
  predicate Overwrites(s: State, l: Label, e: string, latest: nat) {
    && l.StoreClock? && l.t in s.threads && s.threads[l.t].Ticketed? && s.threads[l.t].e == e
    && e in s.entries && s.entries[e].clock == latest
  }

  lemma StoreKeeps(cfg: Config, s: State, t: Tid, s': State, e: string, latest: nat)
    requires Step(cfg, s, StoreClock(t)) == Some(s') && Tickets(s) && Follows(s, e, latest)
    ensures Follows(s', e, latest) <==> !Overwrites(s, StoreClock(t), e, latest)
  {
    var k, ticket := s.threads[t].e, s.threads[t].ticket;
    if k == e {
      assert Apart(s, OnEntry(e), ByReader(t));
      if s.entries[e].clock == latest {
        forall u
          ensures !Holds(s', u, e, latest)
        {
          assert Apart(s, OnEntry(e), ByReader(u));
        }
      } else {
        var u :| Holds(s, u, e, latest);
        assert u != t ==> Holds(s', u, e, latest);
      }
    } else if e in s.entries && s.entries[e].clock != latest {
      var u :| Holds(s, u, e, latest);
      assert Holds(s', u, e, latest);
    }
  }

  lemma ProbeKeeps(cfg: Config, s: State, t: Tid, s': State, e: string, latest: nat)
    requires Step(cfg, s, Probe(t)) == Some(s') && Follows(s, e, latest)
    ensures Follows(s', e, LatestAfter(s, Probe(t), e, latest))
  {
    if e in s.entries {
      if s.threads[t].e == e {
        assert Holds(s', t, e, s.clock + 1);
      } else if s.entries[e].clock != latest {
        var u :| Holds(s, u, e, latest);
        assert Holds(s', u, e, latest);
      }
    }
  }

  lemma FinishKeeps(cfg: Config, s: State, t: Tid, s': State, e: string, latest: nat)
    requires Step(cfg, s, Finish(t)) == Some(s') && Follows(s, e, latest)
    ensures Follows(s', e, LatestAfter(s, Finish(t), e, latest))
  {
    EvictHeld(s.entries, cfg.capacity, OnEntry(e));
  }

  lemma OtherKeeps(cfg: Config, s: State, l: Label, s': State, e: string, latest: nat)
    requires Step(cfg, s, l) == Some(s') && Follows(s, e, latest)
    requires !l.Probe? && !l.Finish? && !l.StoreClock?
    ensures Follows(s', e, latest)
  {
    if e in s.entries && s.entries[e].clock != latest {
      var u :| Holds(s, u, e, latest);
      assert Holds(s', u, e, latest);
    }
  }

  lemma StepFollows(cfg: Config, s: State, l: Label, s': State, e: string, latest: nat)
    requires Step(cfg, s, l) == Some(s') && Tickets(s) && Follows(s, e, latest)
    ensures Follows(s', e, LatestAfter(s, l, e, latest)) <==> !Overwrites(s, l, e, latest)
  {
    if l.StoreClock? {
      StoreKeeps(cfg, s, l.t, s', e, latest);
    } else if l.Probe? {
      ProbeKeeps(cfg, s, l.t, s', e, latest);
    } else if l.Finish? {
      FinishKeeps(cfg, s, l.t, s', e, latest);
    } else {
      OtherKeeps(cfg, s, l, s', e, latest);
    }
  }

  /** At every moment of the run the latest ticket of `e` is stored or about to be. */
  ghost predicate AlwaysFollows(cfg: Config, ls: seq<Label>, e: string) {
    && Run(cfg, INIT, ls).Some? && Follows(Run(cfg, INIT, ls).value, e, Latest(cfg, ls, e))
    && (ls == [] || AlwaysFollows(cfg, ls[..|ls| - 1], e))
  }

  /** No reader stores its ticket over the latest one of `e`. */
  ghost predicate NeverOverwrites(cfg: Config, ls: seq<Label>, e: string) {
    ls == [] ||
    var most := ls[..|ls| - 1];
    && NeverOverwrites(cfg, most, e) && Run(cfg, INIT, most).Some?
    && !Overwrites(Run(cfg, INIT, most).value, ls[|ls| - 1], e, Latest(cfg, most, e))
  }

  lemma {:induction false} AlwaysTickets(cfg: Config, ls: seq<Label>)
    requires Run(cfg, INIT, ls).Some?
    ensures Tickets(Run(cfg, INIT, ls).value)
  {
    if ls != [] {
      var most := ls[..|ls| - 1];
      AlwaysTickets(cfg, most);
      var s, l, s' := Run(cfg, INIT, most).value, ls[|ls| - 1], Run(cfg, INIT, ls).value;
      forall h ensures Issued(s', h) { StepIssued(cfg, s, l, s', h); }
      forall g, h ensures Apart(s', g, h) { StepApart(cfg, s, l, s', g, h); }
    }
  }

  /** Exactly when clocks follow the latest use under concurrency: over every run and
      interleaving, if and only if no reader stores its ticket over the latest one. */
  lemma {:induction false} FollowsExactness(cfg: Config, ls: seq<Label>, e: string)
    requires Run(cfg, INIT, ls).Some?
    ensures AlwaysFollows(cfg, ls, e) <==> NeverOverwrites(cfg, ls, e)
  {
    if ls != [] {
      var most := ls[..|ls| - 1];
      FollowsExactness(cfg, most, e);
      AlwaysTickets(cfg, most);
      if AlwaysFollows(cfg, most, e) {
        StepFollows(cfg, Run(cfg, INIT, most).value, ls[|ls| - 1], Run(cfg, INIT, ls).value, e, Latest(cfg, most, e));
      }
    }
  }

  /** So when no reader is under way, entries are ordered by their latest use. */
  lemma OrderedByUse(cfg: Config, ls: seq<Label>, d: string, e: string)
    requires Run(cfg, INIT, ls).Some?
    requires NeverOverwrites(cfg, ls, d) && NeverOverwrites(cfg, ls, e)
    requires var s := Run(cfg, INIT, ls).value; NoReaders(s) && d in s.entries && e in s.entries
    ensures var s := Run(cfg, INIT, ls).value;
            s.entries[d].clock < s.entries[e].clock <==> Latest(cfg, ls, d) < Latest(cfg, ls, e)
  {
    FollowsExactness(cfg, ls, d);
    FollowsExactness(cfg, ls, e);
  }

  /** Three callers are about to read two cached expressions. */
  ghost predicate ThreeReaders(s: State, a: string, b: string, t: Tid, u: Tid, v: Tid) {
    && a != b && a in s.entries && b in s.entries && t != u && u != v && t != v
    && t in s.threads && u in s.threads && v in s.threads
    && s.threads[t] == Start(a) && s.threads[u] == Start(b) && s.threads[v] == Start(a)
  }

  lemma TakeTickets(cfg: Config, s: State, a: string, b: string, t: Tid, u: Tid, v: Tid)
    returns (s1: State, s2: State, s3: State)
    requires ThreeReaders(s, a, b, t, u, v)
    ensures Step(cfg, s, Probe(t)) == Some(s1) && Step(cfg, s1, Probe(u)) == Some(s2)
    ensures Step(cfg, s2, Probe(v)) == Some(s3)
    ensures TicketFor(s, Probe(t)) == TicketFor(s2, Probe(v)) == Some(a) && TicketFor(s1, Probe(u)) == Some(b)
    ensures s3.entries == s.entries && Holds(s3, t, a, s.clock + 1) && Holds(s3, u, b, s.clock + 2)
    ensures Holds(s3, v, a, s.clock + 3)
  {
    s1 := OnProbe(s, t, a);
    s2 := OnProbe(s1, u, b);
    s3 := OnProbe(s2, v, a);
  }

  /** The race is real: the readers store in the opposite order of their tickets, and the
      expression used last is left with the older clock. */
  lemma LastUsedIsOldest(cfg: Config, s: State, a: string, b: string, t: Tid, u: Tid, v: Tid)
    returns (s1: State, s2: State, s3: State, s4: State, s5: State, s6: State)
    requires ThreeReaders(s, a, b, t, u, v)
    ensures Step(cfg, s, Probe(t)) == Some(s1) && Step(cfg, s1, Probe(u)) == Some(s2)
    ensures Step(cfg, s2, Probe(v)) == Some(s3)
    ensures Step(cfg, s3, StoreClock(v)) == Some(s4) && Step(cfg, s4, StoreClock(u)) == Some(s5)
    ensures Step(cfg, s5, StoreClock(t)) == Some(s6)
    ensures TicketFor(s2, Probe(v)) == Some(a) && TicketFor(s1, Probe(u)) == Some(b)
    ensures a in s6.entries && b in s6.entries && s6.entries[a].clock < s6.entries[b].clock
  {
    s1, s2, s3 := TakeTickets(cfg, s, a, b, t, u, v);
    s4 := OnStoreClock(s3, v, a, s.clock + 3).value;
    s5 := OnStoreClock(s4, u, b, s.clock + 2).value;
    s6 := OnStoreClock(s5, t, a, s.clock + 1).value;
  }

  lemma {:induction false} RunJoin(cfg: Config, s: State, ls: seq<Label>, m: State, more: seq<Label>)
    requires Run(cfg, s, ls) == Some(m)
    ensures Run(cfg, s, ls + more) == Run(cfg, m, more)
  {
    if more == [] {
      assert ls + more == ls;
    } else {
      var n := |more| - 1;
      RunJoin(cfg, s, ls, m, more[..n]);
      assert (ls + more)[..|ls| + n] == ls + more[..n];
    }
  }

  /** Two expressions cached by two callers, one after the other. */
  lemma TwoCached(cfg: Config, a: string, b: string) returns (ls: seq<Label>, s: State)
    requires a != b && cfg.compile(a).Good? && cfg.compile(b).Good? && cfg.capacity >= 2
    ensures Run(cfg, INIT, ls) == Some(s) && a in s.entries && b in s.entries && s.threads.Keys == {0, 1}
  {
    var one, s1 := SoloCall(cfg, INIT, 0, a);
    assert |s1.entries| == 1 && s1.entries.Keys == {a};
    var two, s2 := SoloCall(cfg, s1, 1, b);
    RunJoin(cfg, INIT, one, s1, two);
    ls, s := one + two, s2;
  }

  /** The three readers are reachable, from an empty cache of capacity 2 or more. */
  lemma ThreeReadersReachable(cfg: Config, a: string, b: string) returns (ls: seq<Label>, s: State)
    requires a != b && cfg.compile(a).Good? && cfg.compile(b).Good? && cfg.capacity >= 2
    ensures Run(cfg, INIT, ls) == Some(s) && ThreeReaders(s, a, b, 2, 3, 4)
  {
    var two, s0 := TwoCached(cfg, a, b);
    var s1, s2 := Go(s0, 2, Start(a)), Go(Go(s0, 2, Start(a)), 3, Start(b));
    s := Go(s2, 4, Start(a));
    Then(cfg, INIT, two, s0, Spawn(2, a), s1);
    Then(cfg, INIT, two + [Spawn(2, a)], s1, Spawn(3, b), s2);
    Then(cfg, INIT, two + [Spawn(2, a)] + [Spawn(3, b)], s2, Spawn(4, a), s);
    ls := two + [Spawn(2, a)] + [Spawn(3, b)] + [Spawn(4, a)];
  }
}
