/** The cache of compiled CEL programs, used by one caller at a time: a map with
    per-entry clocks that behaves as a recency list. */
module CelCache {
  import opened Params

  /** Identity of a compiled program. */
  type Program = nat

  /** What the CEL library makes of an expression. */
  datatype Compiled = Good(program: Program) | Bad(cause: string)

  /** What a caller gets: a program, or the cause wrapped with the expression. */
  datatype Outcome = Prog(program: Program) | Failed(expr: string, cause: string)

  datatype Config = Config(capacity: int, compile: string -> Compiled)

  function Result(cfg: Config, e: string): Outcome {
    match cfg.compile(e)
    case Good(p) => Prog(p)
    case Bad(cause) => Failed(e, cause)
  }

  /** What a caller must get for `e`: the program it compiles to, or its own expression with
      the cause it failed for. */
  ghost predicate Answers(cfg: Config, e: string, r: Outcome) {
    match r
    case Prog(program) => cfg.compile(e) == Good(program)
    case Failed(expr, cause) => expr == e && cfg.compile(e) == Bad(cause)
  }

  datatype Entry = Entry(clock: nat, program: Program)

  type Entries = map<string, Entry>

  /** The initial "oldest clock" of the eviction scan: the largest u64. */
  const NO_CLOCK: nat := 0xFFFF_FFFF_FFFF_FFFF

  /** The next ticket: u64 addition of 1. */
  function Next(clock: u64): (r: u64)
    ensures r == (clock + 1) % TWO64
  {
    if clock == NO_CLOCK then 0 else clock + 1
  }

  ghost predicate Distinct(m: Entries) {
    forall j, k | j in m && k in m && m[j].clock == m[k].clock :: j == k
  }

  ghost predicate IsOldest(m: Entries, k: string) {
    k in m && forall j | j in m :: m[k].clock <= m[j].clock
  }

  lemma {:induction false} OldestExists(m: Entries)
    requires m != map[]
    ensures exists k :: IsOldest(m, k)
    decreases |m|
  {
    var k :| k in m;
    var rest := m - {k};
    assert rest.Keys == m.Keys - {k};
    assert forall j | j in m :: j == k || j in rest;
    if rest == map[] {
      assert IsOldest(m, k);
    } else {
      OldestExists(rest);
      var j :| IsOldest(rest, j);
      assert IsOldest(m, if m[k].clock < m[j].clock then k else j);
    }
  }

  ghost function Oldest(m: Entries): (k: string)
    requires m != map[]
    ensures IsOldest(m, k)
  {
    OldestExists(m);
    var k :| IsOldest(m, k); k
  }

  /** Eviction down to below the capacity; the empty key doubles as "nothing found". */
  ghost function Evict(m: Entries, capacity: int): Entries
    decreases |m|
  {
    if |m| < capacity || m == map[] || Oldest(m) == "" then m
    else
      assert (m - {Oldest(m)}).Keys == m.Keys - {Oldest(m)};
      Evict(m - {Oldest(m)}, capacity)
  }

  /** `order` lists the keys, most recently used first. */
  ghost predicate Recency(order: seq<string>, m: Entries) {
    && (forall e :: e in order <==> e in m)
    && (forall i, j | 0 <= i < j < |order| :: m[order[j]].clock < m[order[i]].clock)
  }

  lemma FrontMember(order: seq<string>, e: string)
    requires order != [] && order[|order| - 1] !in order[..|order| - 1]
    ensures e in order[..|order| - 1] <==> e in order && e != order[|order| - 1]
  {
    assert order == order[..|order| - 1] + [order[|order| - 1]];
  }

  /** The tail of a recency list is an oldest key. */
  lemma TailIsOldest(order: seq<string>, m: Entries)
    requires Recency(order, m) && order != []
    ensures IsOldest(m, order[|order| - 1])
    ensures order[|order| - 1] !in order[..|order| - 1]
  {
    var n := |order| - 1;
    assert order[n] in order;
    assert forall i | 0 <= i < n :: m[order[n]].clock < m[order[i]].clock;
  }

  /** Without its tail the rest is a recency list of the rest. */
  lemma DropTail(order: seq<string>, m: Entries)
    requires Recency(order, m) && order != []
    ensures Recency(order[..|order| - 1], m - {order[|order| - 1]})
    ensures |m - {order[|order| - 1]}| == |m| - 1
  {
    var n := |order| - 1;
    var rest := m - {order[n]};
    TailIsOldest(order, m);
    assert rest.Keys == m.Keys - {order[n]};
    forall e
      ensures e in order[..n] <==> e in rest
    {
      FrontMember(order, e);
    }
  }

  /** A recency list names every key once. */
  lemma {:induction false} RecencySize(order: seq<string>, m: Entries)
    requires Recency(order, m)
    ensures |order| == |m|
  {
    if order == [] {
      assert forall e :: e !in m;
      assert m == map[];
    } else {
      DropTail(order, m);
      RecencySize(order[..|order| - 1], m - {order[|order| - 1]});
    }
  }

  /** There is only one oldest key: clocks along the list are distinct. */
  lemma OldestIsTail(order: seq<string>, m: Entries, k: string)
    requires Recency(order, m) && IsOldest(m, k)
    ensures order != [] && order[|order| - 1] == k
  {
    assert k in order;
    var n := |order| - 1;
    assert order[n] in order;
    assert forall i | 0 <= i < n :: m[order[n]].clock < m[order[i]].clock;
  }

  /** Eviction on the recency list: drop the tail while the list is full. */
  function Trim(order: seq<string>, capacity: int): seq<string> {
    if |order| < capacity || order == [] || order[|order| - 1] == "" then order
    else Trim(order[..|order| - 1], capacity)
  }

  /** One round of the eviction loop, on the map and on the list. */
  lemma EvictRound(order: seq<string>, m: Entries, capacity: int, k: string)
    requires Recency(order, m) && IsOldest(m, k) && capacity <= |m|
    ensures order != [] && order[|order| - 1] == k == Oldest(m)
    ensures k == "" ==> Trim(order, capacity) == order && Evict(m, capacity) == m
    ensures k != "" ==> Trim(order, capacity) == Trim(order[..|order| - 1], capacity)
    ensures k != "" ==> Evict(m, capacity) == Evict(m - {k}, capacity)
    ensures Recency(order[..|order| - 1], m - {k})
  {
    OldestIsTail(order, m, k);
    OldestIsTail(order, m, Oldest(m));
    DropTail(order, m);
    RecencySize(order, m);
  }

  /** The scan reporting nothing, or the empty key, ends the eviction. */
  lemma EvictStops(order: seq<string>, m: Entries, capacity: int)
    requires Recency(order, m) && capacity <= |m|
    requires m == map[] || IsOldest(m, "")
    ensures Trim(order, capacity) == order && Evict(m, capacity) == m
  {
    RecencySize(order, m);
    if m != map[] {
      EvictRound(order, m, capacity, "");
    }
  }

  function Without(order: seq<string>, e: string): seq<string> {
    if order == [] then []
    else if order[0] == e then order[1..]
    else [order[0]] + Without(order[1..], e)
  }

  /** One call on the recency list: a hit moves to the front, a compiled miss is trimmed
      for and pushed, a failed compile changes nothing. */
  function LruCall(cfg: Config, order: seq<string>, e: string): seq<string> {
    if e in order then [e] + Without(order, e)
    else if cfg.compile(e).Bad? then order
    else [e] + Trim(order, cfg.capacity)
  }

  lemma {:induction false} WithoutMember(order: seq<string>, e: string, k: string)
    requires forall i, j | 0 <= i < j < |order| :: order[i] != order[j]
    ensures k in Without(order, e) <==> k in order && k != e
  {
    if order != [] {
      if order[0] == e {
        assert e !in order[1..];
      } else {
        WithoutMember(order[1..], e, k);
      }
    }
  }

  /** Clocks along the list still fall after one key is taken out. */
  lemma {:induction false} WithoutSorted(order: seq<string>, e: string, m: Entries)
    requires forall k | k in order :: k in m
    requires forall i, j | 0 <= i < j < |order| :: m[order[j]].clock < m[order[i]].clock
    ensures forall k | k in Without(order, e) :: k in order && k != e
    ensures forall i, j | 0 <= i < j < |Without(order, e)| ::
              m[Without(order, e)[j]].clock < m[Without(order, e)[i]].clock
  {
    if order != [] {
      if order[0] == e {
        forall k | k in order[1..]
          ensures k != e
        {
          var i :| 0 < i < |order| && order[i] == k;
          assert m[order[i]].clock < m[order[0]].clock;
        }
      } else {
        WithoutSorted(order[1..], e, m);
        var rest := Without(order[1..], e);
        forall j | 0 <= j < |rest|
          ensures m[rest[j]].clock < m[order[0]].clock
        {
          assert rest[j] in order[1..];
          var i :| 0 < i < |order| && order[i] == rest[j];
        }
      }
    }
  }

  lemma RecencyDistinct(order: seq<string>, m: Entries)
    requires Recency(order, m)
    ensures forall i, j | 0 <= i < j < |order| :: order[i] != order[j]
  {
    forall i, j | 0 <= i < j < |order|
      ensures order[i] != order[j]
    {
      assert m[order[j]].clock < m[order[i]].clock;
    }
  }

  lemma FrontSorted(rest: seq<string>, m: Entries, e: string, x: Entry)
    requires forall k | k in rest :: k in m && k != e && m[k].clock < x.clock
    requires forall i, j | 0 <= i < j < |rest| :: m[rest[j]].clock < m[rest[i]].clock
    ensures var order', m' := [e] + rest, m[e := x];
            forall i, j | 0 <= i < j < |order'| :: m'[order'[j]].clock < m'[order'[i]].clock
  {
    var order', m' := [e] + rest, m[e := x];
    forall i, j | 0 <= i < j < |order'|
      ensures m'[order'[j]].clock < m'[order'[i]].clock
    {
      assert order'[j] == rest[j - 1] && rest[j - 1] in rest;
      if i > 0 {
        assert order'[i] == rest[i - 1] && rest[i - 1] in rest;
      }
    }
  }

  lemma FrontMembers(order: seq<string>, m: Entries, e: string, x: Entry)
    requires Recency(order, m)
    ensures forall k :: k in [e] + Without(order, e) <==> k in m[e := x]
  {
    RecencyDistinct(order, m);
    forall k
      ensures k in [e] + Without(order, e) <==> k in m[e := x]
    {
      WithoutMember(order, e, k);
    }
  }

  /** A hit: storing a fresh ticket on the entry is moving its key to the front. */
  lemma HitMovesToFront(order: seq<string>, m: Entries, e: string, ticket: nat)
    requires Recency(order, m) && e in m
    requires forall k | k in m :: m[k].clock < ticket
    ensures Recency([e] + Without(order, e), m[e := m[e].(clock := ticket)])
  {
    WithoutSorted(order, e, m);
    FrontSorted(Without(order, e), m, e, m[e].(clock := ticket));
    FrontMembers(order, m, e, m[e].(clock := ticket));
  }

  /** A compiled miss: inserting under a fresh ticket is pushing onto the front. */
  lemma InsertPushes(order: seq<string>, m: Entries, e: string, ticket: nat, p: Program)
    requires Recency(order, m) && e !in m
    requires forall k | k in m :: m[k].clock < ticket
    ensures Recency([e] + order, m[e := Entry(ticket, p)])
  {
    FrontSorted(order, m, e, Entry(ticket, p));
  }

  /** Entries hold what their key compiles to. */
  ghost predicate Sound(cfg: Config, m: Entries) {
    forall e | e in m :: cfg.compile(e) == Good(m[e].program)
  }

  /** Entries carry tickets of the clock, which has not reached the scan's start value. */
  ghost predicate Stamped(m: Entries, clock: nat) {
    clock < NO_CLOCK && forall e | e in m :: m[e].clock <= clock
  }

  /** The recency list describes the entries, and the clock has not reached its end. */
  ghost predicate InOrder(order: seq<string>, m: Entries, clock: nat) {
    Recency(order, m) && Stamped(m, clock)
  }

  lemma TouchKeeps(cfg: Config, order: seq<string>, m: Entries, clock: nat, e: string, ticket: nat)
    requires Sound(cfg, m) && e in m
    ensures Sound(cfg, m[e := m[e].(clock := ticket)])
    ensures InOrder(order, m, clock) && ticket == clock + 1 < NO_CLOCK ==>
              InOrder([e] + Without(order, e), m[e := m[e].(clock := ticket)], ticket)
  {
    if InOrder(order, m, clock) && ticket == clock + 1 < NO_CLOCK {
      HitMovesToFront(order, m, e, ticket);
    }
  }

  lemma InsertKeeps(cfg: Config, order: seq<string>, m: Entries, clock: nat, e: string, ticket: nat, p: Program)
    requires Sound(cfg, m) && e !in m && cfg.compile(e) == Good(p)
    ensures Sound(cfg, m[e := Entry(ticket, p)])
    ensures InOrder(order, m, clock) && ticket == clock + 1 < NO_CLOCK ==>
              InOrder([e] + order, m[e := Entry(ticket, p)], ticket)
  {
    if InOrder(order, m, clock) && ticket == clock + 1 < NO_CLOCK {
      InsertPushes(order, m, e, ticket, p);
    }
  }

  lemma DeleteKeeps(cfg: Config, m: Entries, k: string)
    requires Sound(cfg, m) && k in m
    ensures Sound(cfg, m - {k}) && (m - {k}).Keys <= m.Keys && |m - {k}| == |m| - 1
  {
    assert (m - {k}).Keys == m.Keys - {k};
  }

  lemma EvictRoundKeeps(order: seq<string>, m: Entries, clock: nat, capacity: int, k: string)
    requires InOrder(order, m, clock) && IsOldest(m, k) && capacity <= |m| && k != ""
    ensures order != [] && InOrder(order[..|order| - 1], m - {k}, clock)
    ensures Trim(order[..|order| - 1], capacity) == Trim(order, capacity)
    ensures Evict(m - {k}, capacity) == Evict(m, capacity)
  {
    EvictRound(order, m, capacity, k);
  }

  /** What one undisturbed call does to the entries. */
  ghost function CallEntries(cfg: Config, m: Entries, clock: nat, e: string): Entries {
    if e in m then m[e := m[e].(clock := clock + 1)]
    else
      match cfg.compile(e)
      case Bad(_) => m
      case Good(p) => Evict(m, cfg.capacity)[e := Entry(clock + 1, p)]
  }

  /** Some entry has a ticket the eviction scan can see. */
  ghost predicate SomeBelow(m: Entries) {
    exists k :: k in m && m[k].clock < NO_CLOCK
  }

  /** The scan may report nothing: it sees no ticket, or finds the empty key, which it cannot
      tell from nothing. */
  ghost predicate MayStop(m: Entries) {
    SomeBelow(m) ==> IsOldest(m, "")
  }

  /** A call is a hit, a compiled miss, or a failure that changes nothing. */
  lemma CallStep(cfg: Config, order: seq<string>, m: Entries, clock: nat, e: string)
    requires Recency(order, m)
    ensures e in m ==>
              && LruCall(cfg, order, e) == [e] + Without(order, e)
              && CallEntries(cfg, m, clock, e) == m[e := m[e].(clock := clock + 1)]
    ensures e !in m && Result(cfg, e).Prog? ==>
              && LruCall(cfg, order, e) == [e] + Trim(order, cfg.capacity)
              && CallEntries(cfg, m, clock, e) == Evict(m, cfg.capacity)[e := Entry(clock + 1, Result(cfg, e).program)]
    ensures e !in m && !Result(cfg, e).Prog? ==>
              LruCall(cfg, order, e) == order && CallEntries(cfg, m, clock, e) == m
  {
  }

  lemma ResultAnswers(cfg: Config, e: string)
    ensures Answers(cfg, e, Result(cfg, e))
  {
  }

  class Cache {
    const cfg: Config
    /** The global clock, a u64; every use of an entry takes a ticket from it. */
    var clock: u64
    var entries: Entries
    ghost var order: seq<string>

    /** What holds of every cache, also after the clock has wrapped. */
    ghost predicate Valid()
      reads this
    {
      Sound(cfg, entries)
    }

    /** What holds until the clock is about to wrap. */
    ghost predicate Ordered()
      reads this
    {
      InOrder(order, entries, clock)
    }

    constructor (cfg: Config)
      ensures this.cfg == cfg && clock == 0 && entries == map[] && order == [] && Valid() && Ordered()
    {
      this.cfg := cfg;
      clock, entries, order := 0, map[], [];
    }

    /** The clock is shared by all caches of the process: others take `n` tickets. */
    method OtherUses(n: nat)
      modifies this`clock
      ensures clock == (old(clock) + n) % TWO64
      ensures old(Ordered()) && old(clock) + n < NO_CLOCK ==> Ordered() && clock == old(clock) + n
    {
      clock := (clock + n) % TWO64;
    }

    /** The eviction scan, in whatever order the map is iterated: it finds an oldest entry,
        or nothing if no entry has a ticket below the scan's start value. */
    method ScanOldest() returns (key: string)
      ensures SomeBelow(entries) ==> IsOldest(entries, key)
      ensures !SomeBelow(entries) ==> key == ""
    {
      key := "";
      var oldest := NO_CLOCK;
      var rest := entries.Keys;
      while rest != {}
        invariant rest <= entries.Keys
        invariant oldest == NO_CLOCK ==> key == ""
        invariant oldest != NO_CLOCK ==> oldest < NO_CLOCK && key in entries && entries[key].clock == oldest
        invariant oldest == NO_CLOCK ==> forall k | k in entries && k !in rest :: NO_CLOCK <= entries[k].clock
        invariant forall k | k in entries && k !in rest :: oldest <= entries[k].clock
        decreases rest
      {
        var k :| k in rest;
        if entries[k].clock < oldest {
          oldest, key := entries[k].clock, k;
        }
        rest := rest - {k};
      }
    }

    /** Deletes the key the scan found; what remains to evict is unchanged by it. */
    method DeleteOldest(key: string)
      requires Valid() && key in entries && key != "" && cfg.capacity <= |entries|
      requires Ordered() ==> IsOldest(entries, key)
      modifies this`entries, this`order
      ensures Valid() && entries.Keys <= old(entries.Keys) && |entries| < old(|entries|)
      ensures old(Ordered()) ==> Ordered() && Trim(order, cfg.capacity) == Trim(old(order), cfg.capacity)
      ensures old(Ordered()) ==> Evict(entries, cfg.capacity) == Evict(old(entries), cfg.capacity)
    {
      var rest := entries - {key};
      DeleteKeeps(cfg, entries, key);
      if Ordered() {
        EvictRoundKeeps(order, entries, clock, cfg.capacity, key);
      }
      order := if order == [] then [] else order[..|order| - 1];
      entries := rest;
    }

    method EvictIfNeeded()
      requires Valid()
      modifies this`entries, this`order
      ensures Valid() && entries.Keys <= old(entries.Keys)
      ensures |entries| < cfg.capacity || MayStop(entries)
      ensures !SomeBelow(old(entries)) ==> entries == old(entries)
      ensures old(Ordered()) ==> Ordered() && order == Trim(old(order), cfg.capacity)
      ensures old(Ordered()) ==> entries == Evict(old(entries), cfg.capacity)
    {
      while |entries| >= cfg.capacity
        invariant Valid() && entries.Keys <= old(entries.Keys)
        invariant !SomeBelow(old(entries)) ==> entries == old(entries)
        invariant old(Ordered()) ==> Ordered() && Trim(order, cfg.capacity) == Trim(old(order), cfg.capacity)
        invariant old(Ordered()) ==> Evict(entries, cfg.capacity) == Evict(old(entries), cfg.capacity)
        decreases |entries|
      {
        var oldestKey := ScanOldest();
        if oldestKey == "" {
          if old(Ordered()) {
            EvictStops(order, entries, cfg.capacity);
          }
          return;
        }
        DeleteOldest(oldestKey);
      }
      if old(Ordered()) {
        RecencySize(order, entries);
      }
    }

    /** A use of a cached entry. */
    method Touch(e: string) returns (p: Program)
      requires Valid() && e in entries
      modifies this
      ensures Valid() && cfg.compile(e) == Good(p)
      ensures clock == Next(old(clock)) && entries == old(entries)[e := old(entries)[e].(clock := clock)]
      ensures old(Ordered()) && old(clock) + 1 < NO_CLOCK ==>
                Ordered() && order == [e] + Without(old(order), e)
    {
      p := entries[e].program;
      var ticket := Next(clock);
      TouchKeeps(cfg, order, entries, clock, e, ticket);
      clock, entries, order := ticket, entries[e := entries[e].(clock := ticket)], [e] + Without(order, e);
    }

    /** Stores a new entry under a fresh ticket. */
    method Store(e: string, p: Program)
      modifies this
      ensures clock == Next(old(clock)) && entries == old(entries)[e := Entry(clock, p)]
      ensures order == [e] + old(order)
    {
      clock := Next(clock);
      entries := entries[e := Entry(clock, p)];
      order := [e] + order;
    }

    /** A new entry, after making room for it. */
    method Insert(e: string, p: Program)
      requires Valid() && e !in entries && cfg.compile(e) == Good(p)
      modifies this
      ensures Valid()
      ensures !SomeBelow(old(entries)) ==> entries == old(entries)[e := Entry(clock, p)]
      ensures old(Ordered()) && old(clock) + 1 < NO_CLOCK ==>
                && Ordered() && clock == old(clock) + 1 && order == [e] + Trim(old(order), cfg.capacity)
                && entries == Evict(old(entries), cfg.capacity)[e := Entry(clock, p)]
    {
      EvictIfNeeded();
      InsertKeeps(cfg, order, entries, clock, e, Next(clock), p);
      Store(e, p);
    }

    /** One call: the caller gets the compile result of its own expression, also after the
        clock has wrapped; until then the recency list makes exactly the LRU step. */
    method GetOrCompile(e: string) returns (r: Outcome)
      requires Valid()
      modifies this
      ensures Valid()
      ensures r == Result(cfg, e) && Answers(cfg, e, r)
      ensures e in old(entries) ==>
                clock == Next(old(clock)) && entries == old(entries)[e := old(entries)[e].(clock := clock)]
      ensures old(Ordered()) && old(clock) + 1 < NO_CLOCK ==>
                && Ordered() && clock <= old(clock) + 1 && order == LruCall(cfg, old(order), e)
                && entries == CallEntries(cfg, old(entries), old(clock), e)
    {
      ResultAnswers(cfg, e);
      r := Result(cfg, e);
      if Ordered() {
        CallStep(cfg, order, entries, clock, e);
      }
      if e in entries {
        var p := Touch(e);
        r := Prog(p);
      } else if r.Prog? {
        Insert(e, r.program);
      }
    }
  }

  /** Exactly when a use makes its entry strictly the newest: if and only if there is no
      other entry, or the clock does not wrap and no other entry carries a ticket above it,
      left from before an earlier wrap. At the wrap the entry becomes an oldest one. */
  lemma NewestExactness(m: Entries, e: string, clock: u64)
    requires e in m
    ensures var m' := m[e := m[e].(clock := Next(clock))];
            && ((forall k | k in m' && k != e :: m'[k].clock < m'[e].clock) <==>
                  forall k | k in m && k != e :: clock < NO_CLOCK && m[k].clock <= clock)
            && (clock == NO_CLOCK ==> IsOldest(m', e))
  {
    var m' := m[e := m[e].(clock := Next(clock))];
    assert forall k | k in m && k != e :: k in m' && m'[k] == m[k];
  }
}
