/** What the cache holds after any sequence of calls. */
module Lru {
  import opened CelCache

  /** The recency list after a sequence of calls on an empty cache. */
  function LruRun(cfg: Config, calls: seq<string>): seq<string> {
    if calls == [] then []
    else LruCall(cfg, LruRun(cfg, calls[..|calls| - 1]), calls[|calls| - 1])
  }

  /** Every compilable expression ever called, by last use, most recent first. */
  function Recent(cfg: Config, calls: seq<string>): seq<string> {
    if calls == [] then []
    else
      var e, before := calls[|calls| - 1], Recent(cfg, calls[..|calls| - 1]);
      if cfg.compile(e).Bad? then before else [e] + Without(before, e)
  }

  function Take(s: seq<string>, n: nat): seq<string> {
    if n < |s| then s[..n] else s
  }

  function Size(capacity: int): nat {
    if capacity < 1 then 1 else capacity
  }

  lemma {:induction false} WithoutSubset(s: seq<string>, e: string, k: string)
    requires k in Without(s, e)
    ensures k in s
  {
    if s[0] != e && k != s[0] {
      WithoutSubset(s[1..], e, k);
    }
  }

  /** Only compilable expressions are recent. */
  lemma {:induction false} RecentCompiles(cfg: Config, calls: seq<string>, k: string)
    requires k in Recent(cfg, calls)
    ensures cfg.compile(k).Good?
  {
    var before := Recent(cfg, calls[..|calls| - 1]);
    if k in before {
      RecentCompiles(cfg, calls[..|calls| - 1], k);
    } else if k in Without(before, calls[|calls| - 1]) {
      WithoutSubset(before, calls[|calls| - 1], k);
    }
  }

  lemma {:induction false} TrimIsTake(order: seq<string>, capacity: int)
    requires "" !in order
    ensures Trim(order, capacity) == Take(order, Size(capacity) - 1)
  {
    if capacity <= |order| && order != [] {
      var front := order[..|order| - 1];
      TrimIsTake(front, capacity);
    }
  }

  lemma TakeCons(x: string, s: seq<string>, n: nat)
    requires n > 0
    ensures Take([x] + s, n) == [x] + Take(s, n - 1)
  {
  }

  lemma WithoutCons(x: string, s: seq<string>, e: string)
    ensures Without([x] + s, e) == if x == e then s else [x] + Without(s, e)
  {
    assert ([x] + s)[1..] == s;
  }

  lemma {:induction false} WithoutTaken(s: seq<string>, e: string, n: nat)
    requires e in Take(s, n)
    ensures n > 0 && Without(Take(s, n), e) == Take(Without(s, e), n - 1)
  {
    var x, rest := s[0], s[1..];
    assert s == [x] + rest;
    TakeCons(x, rest, n);
    WithoutCons(x, Take(rest, n - 1), e);
    WithoutCons(x, rest, e);
    if x != e {
      WithoutTaken(rest, e, n - 1);
      TakeCons(x, Without(rest, e), n - 1);
    }
  }

  lemma {:induction false} WithoutBeyond(s: seq<string>, e: string, n: nat)
    requires e !in Take(s, n)
    ensures Take(Without(s, e), n) == Take(s, n)
  {
    if s != [] && n > 0 {
      assert s[0] in Take(s, n);
      assert Take(s, n) == [s[0]] + Take(s[1..], n - 1);
      WithoutBeyond(s[1..], e, n - 1);
    }
  }

  /** A hit keeps the list the front of the recent expressions. */
  lemma HitKeeps(recent: seq<string>, e: string, n: nat)
    requires e in Take(recent, n)
    ensures [e] + Without(Take(recent, n), e) == Take([e] + Without(recent, e), n)
  {
    WithoutTaken(recent, e, n);
    assert Take([e] + Without(recent, e), n) == [e] + Take(Without(recent, e), n - 1);
  }

  /** So does a compiled miss. */
  lemma MissKeeps(recent: seq<string>, e: string, capacity: int)
    requires "" !in recent && e !in Take(recent, Size(capacity))
    ensures [e] + Trim(Take(recent, Size(capacity)), capacity) == Take([e] + Without(recent, e), Size(capacity))
  {
    var n := Size(capacity);
    TrimIsTake(Take(recent, n), capacity);
    assert Take(Take(recent, n), n - 1) == Take(recent, n - 1);
    WithoutBeyond(recent, e, n - 1);
    assert Take([e] + Without(recent, e), n) == [e] + Take(Without(recent, e), n - 1);
  }

  /** LRU: the cache always holds exactly the most recently used expressions, up to its
      size, as long as the empty expression does not compile. */
  lemma {:induction false} CacheIsMostRecent(cfg: Config, calls: seq<string>)
    requires cfg.compile("").Bad?
    ensures LruRun(cfg, calls) == Take(Recent(cfg, calls), Size(cfg.capacity))
  {
    if calls != [] {
      var most, e, n := calls[..|calls| - 1], calls[|calls| - 1], Size(cfg.capacity);
      CacheIsMostRecent(cfg, most);
      var recent := Recent(cfg, most);
      if "" in recent {
        RecentCompiles(cfg, most, "");
      }
      if e in Take(recent, n) {
        RecentCompiles(cfg, most, e);
        HitKeeps(recent, e, n);
      } else if cfg.compile(e).Good? {
        MissKeeps(recent, e, cfg.capacity);
      }
    }
  }

  /** A list with the empty key at its tail is never trimmed. */
  lemma {:induction false} EmptyKeyPins(cfg: Config, others: seq<string>)
    requires cfg.compile("").Good?
    requires forall i | 0 <= i < |others| :: others[i] != "" && cfg.compile(others[i]).Good?
    requires forall i, j | 0 <= i < j < |others| :: others[i] != others[j]
    ensures var order := LruRun(cfg, [""] + others);
            && |order| == |others| + 1 && order[|others|] == ""
            && forall k | k in order :: k == "" || k in others
  {
    var calls := [""] + others;
    if others == [] {
      assert calls[..0] == [];
    } else {
      var n := |others| - 1;
      assert calls[..|calls| - 1] == [""] + others[..n];
      EmptyKeyPins(cfg, others[..n]);
      var order := LruRun(cfg, [""] + others[..n]);
      assert others[n] !in others[..n];
      assert LruRun(cfg, calls) == LruCall(cfg, order, others[n]) == [others[n]] + order;
    }
  }

  lemma ListSize(cfg: Config, calls: seq<string>)
    requires cfg.compile("").Bad?
    ensures |LruRun(cfg, calls)| <= Size(cfg.capacity)
  {
    CacheIsMostRecent(cfg, calls);
  }

  /** Exactly when the size bound holds, for fewer calls than there are tickets and with
      enough other expressions to call: the cache never exceeds its capacity if and only if
      the empty expression does not compile. */
  lemma CapacityExactness(cfg: Config, others: seq<string>)
    requires 1 <= cfg.capacity == |others| && cfg.capacity + 1 < NO_CLOCK
    requires forall i | 0 <= i < |others| :: others[i] != "" && cfg.compile(others[i]).Good?
    requires forall i, j | 0 <= i < j < |others| :: others[i] != others[j]
    ensures (forall calls | |calls| < NO_CLOCK :: |LruRun(cfg, calls)| <= cfg.capacity) <==> cfg.compile("").Bad?
  {
    if cfg.compile("").Bad? {
      forall calls | |calls| < NO_CLOCK
        ensures |LruRun(cfg, calls)| <= cfg.capacity
      {
        ListSize(cfg, calls);
      }
    } else {
      EmptyKeyPins(cfg, others);
      assert |[""] + others| < NO_CLOCK && |LruRun(cfg, [""] + others)| == cfg.capacity + 1;
    }
  }

  lemma ListDescribes(cfg: Config, calls: seq<string>, m: Entries)
    requires Recency(LruRun(cfg, calls), m)
    ensures |m| == |LruRun(cfg, calls)|
    ensures cfg.compile("").Bad? ==>
              Recency(Take(Recent(cfg, calls), Size(cfg.capacity)), m) && |m| <= Size(cfg.capacity)
  {
    RecencySize(LruRun(cfg, calls), m);
    if cfg.compile("").Bad? {
      ListSize(cfg, calls);
      CacheIsMostRecent(cfg, calls);
    }
  }

  function Total(ns: seq<nat>): nat {
    if ns == [] then 0 else Total(ns[..|ns| - 1]) + ns[|ns| - 1]
  }

  /** The cache itself over any sequence of calls, with other caches taking `others[i]`
      tickets before call `i`, as long as there are tickets: the entries are described by the
      recency list, and if the empty expression does not compile they are the most recently
      used ones. */
  method Replay(cfg: Config, calls: seq<string>, others: seq<nat>) returns (c: Cache)
    requires |others| == |calls| && Total(others) + |calls| < NO_CLOCK
    ensures fresh(c) && c.cfg == cfg && c.Valid()
    ensures Recency(LruRun(cfg, calls), c.entries) && |c.entries| == |LruRun(cfg, calls)|
    ensures cfg.compile("").Bad? ==>
              && Recency(Take(Recent(cfg, calls), Size(cfg.capacity)), c.entries)
              && |c.entries| <= Size(cfg.capacity)
  {
    c := new Cache(cfg);
    for i := 0 to |calls|
      invariant fresh(c) && c.cfg == cfg && c.Valid() && c.Ordered()
      invariant c.clock <= Total(others[..i]) + i
      invariant c.order == LruRun(cfg, calls[..i])
    {
      assert calls[..i + 1][..i] == calls[..i] && others[..i + 1][..i] == others[..i];
      TotalUpTo(others, i + 1);
      c.OtherUses(others[i]);
      var _ := c.GetOrCompile(calls[i]);
    }
    assert calls[..|calls|] == calls;
    ListDescribes(cfg, calls, c.entries);
  }

  lemma {:induction false} TotalUpTo(ns: seq<nat>, i: nat)
    requires i <= |ns|
    ensures Total(ns[..i]) <= Total(ns)
    decreases |ns| - i
  {
    if i == |ns| {
      assert ns[..i] == ns;
    } else {
      assert ns[..i + 1][..i] == ns[..i];
      TotalUpTo(ns, i + 1);
    }
  }

  /** The scan's start value is a second stop marker: a cache of capacity 1 whose entry
      carries that ticket grows to 2. */
  method LastTicketGrows(c: Cache, e: string, f: string, p: Program)
    requires c.Valid() && c.cfg.capacity == 1 && e != f && c.cfg.compile(f) == Good(p)
    requires c.entries.Keys == {e} && c.entries[e].clock == NO_CLOCK
    modifies c
    ensures c.entries.Keys == {e, f} && |c.entries| == 2
  {
    c.Insert(f, p);
    assert c.entries.Keys == {e, f};
  }

  /** It takes 2^64-1 uses to get there: a new cache on which one expression is called that
      often. */
  method LastTicketReached(cfg: Config, e: string) returns (c: Cache)
    requires cfg.compile(e).Good?
    ensures fresh(c) && c.cfg == cfg && c.Valid() && c.entries.Keys == {e} && c.entries[e].clock == NO_CLOCK
  {
    c := new Cache(cfg);
    var _ := c.GetOrCompile(e);
    for i := 1 to NO_CLOCK
      invariant fresh(c) && c.cfg == cfg && c.Valid()
      invariant c.entries.Keys == {e} && c.entries[e].clock == c.clock == i
    {
      var _ := c.GetOrCompile(e);
    }
  }
}
