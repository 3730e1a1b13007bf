/** Process entries written by the fallback win over cgroup entries in the kernel. How
    far their staleness reaches, and when a removal clears them all. */
module Fallback {
  import opened Wrappers
  import opened Params
  import opened PodMaps
  import opened Agreement

  predicate FallsBack(op: Op) {
    op.Update? && op.cgids == []
  }

  /** The latest fallback that listed the process, if any. */
  function LastFallback(ops: seq<Op>, g: u32): Option<Op> {
    if ops == [] then None
    else
      var op := ops[|ops| - 1];
      if FallsBack(op) && g in op.pids then Some(op) else LastFallback(ops[..|ops| - 1], g)
  }

  /** A process entry holds what the latest fallback listing the process wrote. */
  lemma {:induction false} EntryIsLastFallback(ops: seq<Op>, g: u32)
    requires g in After(ops).byTgid
    ensures LastFallback(ops, g).Some? && LastFallback(ops, g).value.Update?
    ensures LastFallback(ops, g).value.tp == After(ops).byTgid[g]
  {
    if ops != [] {
      var op := ops[|ops| - 1];
      if op.Update? {
        WrittenAll(op.pids);
      }
      if !(FallsBack(op) && g in op.pids) {
        EntryIsLastFallback(ops[..|ops| - 1], g);
      }
    }
  }

  /** The pod whose fallback wrote the entry of `g`. */
  function Writer(ops: seq<Op>, g: u32): string {
    var op := LastFallback(ops, g);
    if op.Some? && op.value.Update? then op.value.uid else ""
  }

  /** Every process entry is in the record of the pod that wrote it. */
  ghost predicate OwnRecords(ops: seq<Op>) {
    forall g | g in After(ops).byTgid :: g in Recorded(After(ops).podPids, Writer(ops, g))
  }

  /** A fallback lists every process whose entry its pod wrote and that is still there, and
      a pod without a name lists none. */
  ghost predicate Lists(ops: seq<Op>, op: Op) {
    FallsBack(op) ==>
      && (forall g | g in After(ops).byTgid && Writer(ops, g) == op.uid :: g in op.pids)
      && (op.uid == "" ==> op.pids == [])
  }

  /** Every fallback of the run lists what is there when it happens. */
  ghost predicate AllList(ops: seq<Op>) {
    ops == [] || (AllList(ops[..|ops| - 1]) && Lists(ops[..|ops| - 1], ops[|ops| - 1]))
  }

  /** Every entry is recorded after every operation of the run. */
  ghost predicate AlwaysOwn(ops: seq<Op>) {
    OwnRecords(ops) && (ops == [] || AlwaysOwn(ops[..|ops| - 1]))
  }

  /** No record is kept for a pod without a name. */
  lemma {:induction false} OnlyNamed(ops: seq<Op>)
    ensures "" !in After(ops).podPids
  {
    if ops != [] {
      OnlyNamed(ops[..|ops| - 1]);
    }
  }

  lemma FallbackBooks(b: Books, op: Op, g: u32, uid: string)
    requires FallsBack(op)
    ensures var b' := Apply(b, op);
            && (g in b'.byTgid <==> g in b.byTgid || g in op.pids)
            && Recorded(b'.podPids, uid) == if uid == op.uid && uid != "" then op.pids else Recorded(b.podPids, uid)
  {
    WrittenAll(op.pids);
  }

  /** What one fallback does to one entry, its writer and its record. */
  lemma FallbackEntry(ops: seq<Op>, g: u32)
    requires ops != [] && FallsBack(ops[|ops| - 1])
    ensures var most, op := ops[..|ops| - 1], ops[|ops| - 1];
            && (g in After(ops).byTgid <==> g in After(most).byTgid || g in op.pids)
            && Writer(ops, g) == (if g in op.pids then op.uid else Writer(most, g))
            && Recorded(After(ops).podPids, Writer(ops, g)) ==
               (if Writer(ops, g) == op.uid && op.uid != "" then op.pids
                else Recorded(After(most).podPids, Writer(ops, g)))
  {
    FallbackBooks(After(ops[..|ops| - 1]), ops[|ops| - 1], g, Writer(ops, g));
  }

  /** A fallback keeps every entry recorded exactly if it lists the present ones. */
  lemma FallbackKeeps(ops: seq<Op>)
    requires ops != [] && FallsBack(ops[|ops| - 1]) && OwnRecords(ops[..|ops| - 1])
    ensures OwnRecords(ops) <==> Lists(ops[..|ops| - 1], ops[|ops| - 1])
  {
    var most, op := ops[..|ops| - 1], ops[|ops| - 1];
    OnlyNamed(most);
    if Lists(most, op) {
      forall g | g in After(ops).byTgid
        ensures g in Recorded(After(ops).podPids, Writer(ops, g))
      {
        FallbackEntry(ops, g);
      }
    }
    if OwnRecords(ops) {
      forall g | (g in After(most).byTgid && Writer(most, g) == op.uid) || g in op.pids
        ensures g in op.pids && op.uid != ""
      {
        FallbackEntry(ops, g);
      }
      if op.pids != [] {
        assert op.pids[0] in op.pids;
      }
    }
  }

  lemma OthersKeep(ops: seq<Op>)
    requires ops != [] && !FallsBack(ops[|ops| - 1]) && OwnRecords(ops[..|ops| - 1])
    ensures OwnRecords(ops)
  {
    forall g | g in After(ops).byTgid
      ensures g in Recorded(After(ops).podPids, Writer(ops, g))
    {
      assert Writer(ops, g) == Writer(ops[..|ops| - 1], g);
    }
  }

  /** Exactly when every process entry stays in the record of the pod that wrote it,
      throughout any run of fallbacks, cgroup updates, removals and sweeps, process ids being
      reused or not: if and only if every fallback lists the processes whose entries its pod
      wrote and that are still there. */
  lemma {:induction false} RecordsExactness(ops: seq<Op>)
    ensures AlwaysOwn(ops) <==> AllList(ops)
  {
    if ops != [] {
      RecordsExactness(ops[..|ops| - 1]);
      if AlwaysOwn(ops[..|ops| - 1]) {
        if FallsBack(ops[|ops| - 1]) {
          FallbackKeeps(ops);
        } else {
          OthersKeep(ops);
        }
      }
    }
  }

  /** What a task sees after any run whatever, once a pod's cgroups are written: the new
      parameters in each of them, except a process that still has an entry, which sees what
      the latest fallback listing it wrote. */
  lemma LookupAfterUpdate(ops: seq<Op>, op: Op, tgid: u32, c: u64)
    requires op.Update? && c in op.cgids && c != 0
    ensures var b, last := Apply(After(ops), op), LastFallback(ops, tgid);
            && (tgid !in b.byTgid ==> Lookup(b.byTgid, b.byCgroup, tgid, c) == Found(op.tp, true))
            && (tgid in b.byTgid ==>
                  && last.Some? && last.value.Update?
                  && Lookup(b.byTgid, b.byCgroup, tgid, c) == Found(last.value.tp, true))
  {
    WrittenAll(op.cgids);
    var b := Apply(After(ops), op);
    assert b.byTgid == After(ops).byTgid;
    assert c in b.byCgroup && b.byCgroup[c] == op.tp;
    if tgid in b.byTgid {
      EntryIsLastFallback(ops, tgid);
    }
  }

  /** Confined staleness, after any run in which fallbacks list what is still there: the
      processes that see something else than the newest parameters of their cgroup are in
      the record of the pod that wrote their entry, and a removal of that pod clears them. */
  lemma ConfinedStaleness(ops: seq<Op>, op: Op, tgid: u32, c: u64, rcgids: seq<u64>, rpids: seq<u32>)
    requires AllList(ops) && op.Update? && c in op.cgids && c != 0
    ensures var b := Apply(After(ops), op);
            && (Lookup(b.byTgid, b.byCgroup, tgid, c) != Found(op.tp, true) ==> tgid in b.byTgid)
            && (tgid in b.byTgid ==>
                  && tgid in Recorded(b.podPids, Writer(ops, tgid))
                  && tgid !in Apply(b, Remove(Writer(ops, tgid), rcgids, rpids)).byTgid)
  {
    RecordsExactness(ops);
    LookupAfterUpdate(ops, op, tgid, c);
    var b := Apply(After(ops), op);
    assert b.byTgid == After(ops).byTgid && b.podPids == After(ops).podPids;
  }

  /** What the pod's record holds: the processes of its latest fallback since its removal. */
  function LatestListed(ops: seq<Op>, uid: string): seq<u32> {
    if ops == [] || uid == "" then []
    else
      var op := ops[|ops| - 1];
      if FallsBack(op) && op.uid == uid then op.pids
      else if op.Remove? && op.uid == uid then []
      else LatestListed(ops[..|ops| - 1], uid)
  }

  lemma {:induction false} RecordIsLatest(ops: seq<Op>, uid: string)
    ensures Recorded(After(ops).podPids, uid) == LatestListed(ops, uid)
  {
    if ops != [] {
      RecordIsLatest(ops[..|ops| - 1], uid);
      if FallsBack(ops[|ops| - 1]) {
        WrittenAll(ops[|ops| - 1].pids);
      }
    }
  }

  /** What outlives a removal, after any run whatever: exactly the process entries that the
      pod's latest fallback did not list and that do not resolve any more. In particular a
      process only an earlier fallback listed keeps its entry. */
  lemma RemovalLeaves(ops: seq<Op>, uid: string, rcgids: seq<u64>, rpids: seq<u32>, g: u32)
    ensures g in Apply(After(ops), Remove(uid, rcgids, rpids)).byTgid <==>
            g in After(ops).byTgid && g !in LatestListed(ops, uid) && g !in rpids
  {
    RecordIsLatest(ops, uid);
  }

  /** Two fallbacks and a removal that leave an entry behind: the second one misses a
      process the first one wrote. */
  lemma FallbackLeaks(uid: string, tp: TaskParams, g: u32)
    requires uid != ""
    ensures var ops := [Update(uid, tp, [], [g]), Update(uid, tp, [], [])];
            g in Apply(After(ops), Remove(uid, [], [])).byTgid
  {
    var one, two := Update(uid, tp, [], [g]), Update(uid, tp, [], []);
    assert [one, two][..1] == [one] && [one][..0] == [];
    FallbackBooks(EMPTY, one, g, uid);
    FallbackBooks(Apply(EMPTY, one), two, g, uid);
  }
}
