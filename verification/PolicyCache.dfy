/** What the policy cache holds under a name after any run of additions, removals and
    refreshes. */
module PolicyCache {
  import opened Wrappers
  import opened Resolver

  datatype Change = Received(p: Policy) | Dropped(n: string) | Listed(items: seq<Policy>)

  type Policies = map<string, Policy>

  /** What the resolver's methods do to the cache. */
  function Changed(policies: Policies, c: Change): Policies {
    match c
    case Received(p) => Stored(policies, p)
    case Dropped(n) => policies - {n}
    case Listed(items) => Only(StoredAll(policies, items), NamesOf(items))
  }

  function After(cs: seq<Change>): Policies {
    if cs == [] then map[] else Changed(After(cs[..|cs| - 1]), cs[|cs| - 1])
  }

  /** What happens to one name: a record arrives, or the name goes. */
  datatype Event = Got(p: Policy) | Gone

  /** The records of a listing under one name, in order. */
  function Records(items: seq<Policy>, n: string): seq<Event> {
    if items == [] then []
    else
      Records(items[..|items| - 1], n) + if items[|items| - 1].name == n then [Got(items[|items| - 1])] else []
  }

  /** A listing without the name drops it. */
  function EventsOf(c: Change, n: string): seq<Event> {
    match c
    case Received(p) => if p.name == n then [Got(p)] else []
    case Dropped(m) => if m == n then [Gone] else []
    case Listed(items) => if n in NamesOf(items) then Records(items, n) else [Gone]
  }

  function History(cs: seq<Change>, n: string): seq<Event> {
    if cs == [] then [] else History(cs[..|cs| - 1], n) + EventsOf(cs[|cs| - 1], n)
  }

  /** Record `k` starts the latest run of records of one version, which is not over. */
  ghost predicate StartsLatest(h: seq<Event>, k: int) {
    && 0 <= k < |h| && h[k].Got?
    && (forall j | k < j < |h| :: h[j].Got? && h[j].p.version == h[k].p.version)
    && (k > 0 ==> h[k - 1].Gone? || h[k - 1].p.version != h[k].p.version)
  }

  /** The cache holds under a name what its history says. */
  ghost predicate Remembers(policies: Policies, n: string, h: seq<Event>) {
    if n in policies then exists k :: StartsLatest(h, k) && h[k].p == policies[n]
    else h == [] || h[|h| - 1].Gone?
  }

  lemma GotKeeps(policies: Policies, p: Policy, h: seq<Event>)
    requires Remembers(policies, p.name, h)
    ensures Remembers(Stored(policies, p), p.name, h + [Got(p)])
  {
    var h', n := h + [Got(p)], p.name;
    if n in policies && policies[n].version == p.version {
      var k :| StartsLatest(h, k) && h[k].p == policies[n];
      assert StartsLatest(h', k) && h'[k].p == policies[n];
    } else {
      if n in policies {
        var k :| StartsLatest(h, k) && h[k].p == policies[n];
        assert h'[|h| - 1] == h[|h| - 1] && h[|h| - 1].Got? && h[|h| - 1].p.version == policies[n].version;
      }
      assert StartsLatest(h', |h|) && h'[|h|].p == p;
    }
  }

  lemma {:induction false} ListingKeeps(policies: Policies, items: seq<Policy>, n: string, h: seq<Event>)
    requires Remembers(policies, n, h)
    ensures Remembers(StoredAll(policies, items), n, h + Records(items, n))
  {
    if items == [] {
      assert h + Records(items, n) == h;
    } else {
      var most, last := items[..|items| - 1], items[|items| - 1];
      ListingKeeps(policies, most, n, h);
      if last.name == n {
        GotKeeps(StoredAll(policies, most), last, h + Records(most, n));
        assert h + Records(items, n) == h + Records(most, n) + [Got(last)];
      } else {
        assert h + Records(items, n) == h + Records(most, n);
      }
    }
  }

  lemma GoneKeeps(n: string, h: seq<Event>, policies: Policies)
    requires n !in policies
    ensures Remembers(policies, n, h + [Gone])
  {
  }

  lemma ChangeKeeps(policies: Policies, c: Change, n: string, h: seq<Event>)
    requires Remembers(policies, n, h)
    ensures Remembers(Changed(policies, c), n, h + EventsOf(c, n))
  {
    match c
    case Received(p) =>
      if p.name == n {
        GotKeeps(policies, p, h);
      } else {
        assert h + EventsOf(c, n) == h;
      }
    case Dropped(m) =>
      if m == n {
        GoneKeeps(n, h, Changed(policies, c));
      } else {
        assert h + EventsOf(c, n) == h;
      }
    case Listed(items) =>
      if n in NamesOf(items) {
        ListingKeeps(policies, items, n, h);
        StoredAllKeys(policies, items);
      } else {
        GoneKeeps(n, h, Changed(policies, c));
      }
  }

  /** The policy cache is its history: after any run, a name is cached exactly when its last
      event was a record, and what is cached is the first record of the latest run of records
      of one version. */
  lemma {:induction false} CachedIsHistory(cs: seq<Change>, n: string)
    ensures Remembers(After(cs), n, History(cs, n))
  {
    if cs != [] {
      CachedIsHistory(cs[..|cs| - 1], n);
      ChangeKeeps(After(cs[..|cs| - 1]), cs[|cs| - 1], n, History(cs[..|cs| - 1], n));
    }
  }

  /** In particular an update of a policy with a new version takes effect. */
  lemma UpdateTakesEffect(cs: seq<Change>, p: Policy)
    requires p.name in After(cs) ==> After(cs)[p.name].version != p.version
    ensures p.name in After(cs + [Received(p)]) && After(cs + [Received(p)])[p.name] == p
  {
    assert (cs + [Received(p)])[..|cs|] == cs;
    CachedIsHistory(cs + [Received(p)], p.name);
  }
}
