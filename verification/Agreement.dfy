/** What tasks look up in the kernel after whole runs of the agent's operations. */
module Agreement {
  import opened Wrappers
  import opened Params
  import opened PodMaps

  /** One agent operation with what it found on the host at that moment. */
  datatype Op =
    | Update(uid: string, tp: TaskParams, cgids: seq<u64>, pids: seq<u32>)
    | Remove(uid: string, cgids: seq<u64>, pids: seq<u32>)
    | Sweep(live: set<u64>)
    | SweepPids(alive: set<u32>)

  function Apply(b: Books, op: Op): Books {
    match op
    case Update(uid, tp, cgids, pids) => Updated(b, uid, cgids, pids, tp, true, {}, {})
    case Remove(uid, cgids, pids) => Removed(b, uid, cgids, pids, true, {}, {})
    case Sweep(live) => b.(byCgroup := Swept(b.byCgroup, live, {}))
    case SweepPids(alive) => b.(byTgid := Kept(b.byTgid, alive))
  }

  function After(ops: seq<Op>): Books {
    if ops == [] then EMPTY else Apply(After(ops[..|ops| - 1]), ops[|ops| - 1])
  }

  lemma {:induction false} WrittenAll<K>(ks: seq<K>)
    ensures Written(ks, {}) == ks
  {
    if ks != [] {
      WrittenAll(ks[..|ks| - 1]);
    }
  }

  /** The host during a run: which cgroup belongs to which pod, and which cgroups exist
      at each operation and, at the end, now. */
  datatype Host = Host(owner: u64 -> string, lives: seq<set<u64>>)

  /** What operation `k` found is true of the host: an update resolves all of the pod's
      live cgroups, a pod without any has no processes either, a removal resolves only
      cgroups of its pod, and a sweep sees every live cgroup. */
  ghost predicate Truthful(h: Host, ops: seq<Op>, k: nat)
    requires k < |ops| && k < |h.lives|
  {
    match ops[k]
    case Update(uid, _, cgids, pids) =>
      && (forall c :: c in cgids <==> c in h.lives[k] && h.owner(c) == uid)
      && (cgids == [] ==> pids == [])
    case Remove(uid, cgids, _) => forall c | c in cgids :: h.owner(c) == uid
    case Sweep(live) => live == h.lives[k]
    case SweepPids(_) => true
  }

  /** Cgroup ids are never reused: a cgroup exists without interruption. */
  ghost predicate NeverReused(h: Host) {
    forall i, j, k, c | 0 <= i <= j <= k < |h.lives| && c in h.lives[i] && c in h.lives[k] :: c in h.lives[j]
  }

  ghost predicate Observes(h: Host, ops: seq<Op>) {
    && |h.lives| == |ops| + 1
    && NeverReused(h)
    && (forall i, c | 0 <= i < |h.lives| && c in h.lives[i] :: h.owner(c) != "")
    && (forall k | 0 <= k < |ops| :: Truthful(h, ops, k))
  }

  /** The parameters a cgroup should have after `n` operations: those of its pod's latest
      update, if the cgroup existed then and the pod was not removed since. */
  function Expected(h: Host, ops: seq<Op>, n: nat, c: u64): Option<TaskParams>
    requires n <= |ops| && n <= |h.lives|
  {
    if n == 0 then None
    else
      match ops[n - 1]
      case Update(uid, tp, _, _) =>
        if uid != h.owner(c) then Expected(h, ops, n - 1, c)
        else if c in h.lives[n - 1] then Some(tp) else None
      case Remove(uid, _, _) => if uid == h.owner(c) then None else Expected(h, ops, n - 1, c)
      case Sweep(_) => Expected(h, ops, n - 1, c)
      case SweepPids(_) => Expected(h, ops, n - 1, c)
  }

  ghost predicate EverLive(h: Host, n: nat, c: u64)
    requires n <= |h.lives|
  {
    exists k :: 0 <= k < n && c in h.lives[k]
  }

  lemma EverLater(h: Host, n: nat, c: u64)
    requires 0 < n <= |h.lives| && (EverLive(h, n - 1, c) || c in h.lives[n - 1])
    ensures EverLive(h, n, c)
  {
    if EverLive(h, n - 1, c) {
      var k :| 0 <= k < n - 1 && c in h.lives[k];
      assert 0 <= k < n && c in h.lives[k];
    }
  }

  lemma {:induction false} ExpectedEverLive(h: Host, ops: seq<Op>, n: nat, c: u64)
    requires n <= |ops| && n <= |h.lives| && Expected(h, ops, n, c).Some?
    ensures EverLive(h, n, c)
  {
    if !(ops[n - 1].Update? && ops[n - 1].uid == h.owner(c)) {
      ExpectedEverLive(h, ops, n - 1, c);
    }
    EverLater(h, n, c);
  }

  /** No operation writes a process entry, and every cgroup entry was live once. */
  lemma {:induction false} OnlyCgroupEntries(h: Host, ops: seq<Op>, n: nat, c: u64)
    requires Observes(h, ops) && n <= |ops|
    ensures After(ops[..n]).byTgid == map[]
    ensures c in After(ops[..n]).byCgroup ==> EverLive(h, n, c)
  {
    if n > 0 {
      assert ops[..n][..n - 1] == ops[..n - 1];
      OnlyCgroupEntries(h, ops, n - 1, c);
      assert Truthful(h, ops, n - 1);
      var op := ops[n - 1];
      if op.Update? {
        WrittenAll(op.cgids);
        WrittenAll(op.pids);
      }
      if c in After(ops[..n]).byCgroup {
        EverLater(h, n, c);
      }
    }
  }

  /** The map and the records agree with what is expected of a cgroup of pod `uid`. */
  ghost predicate Agrees(b: Books, want: Option<TaskParams>, c: u64, uid: string) {
    && (c in b.byCgroup <==> want.Some?)
    && (c in b.byCgroup ==> b.byCgroup[c] == want.value && c in Recorded(b.podCgroups, uid))
    && (forall u | c in Recorded(b.podCgroups, u) :: u == uid)
  }

  lemma UpdateAgrees(b: Books, op: Op, c: u64, own: string, want: Option<TaskParams>)
    requires op.Update? && own != "" && Agrees(b, want, c, own)
    requires c in op.cgids <==> own == op.uid
    ensures Agrees(Apply(b, op), if own == op.uid then Some(op.tp) else want, c, own)
  {
    WrittenAll(op.cgids);
    var b' := Apply(b, op);
    assert forall u | u != op.uid || op.cgids == [] :: Recorded(b'.podCgroups, u) == Recorded(b.podCgroups, u);
    if op.cgids != [] && op.uid != "" {
      assert Recorded(b'.podCgroups, op.uid) == op.cgids;
    }
  }

  lemma RemoveAgrees(b: Books, op: Op, c: u64, own: string, want: Option<TaskParams>)
    requires op.Remove? && Agrees(b, want, c, own)
    requires c in op.cgids ==> own == op.uid
    ensures Agrees(Apply(b, op), if own == op.uid then None else want, c, own)
  {
    var b' := Apply(b, op);
    assert forall u | u != op.uid :: Recorded(b'.podCgroups, u) == Recorded(b.podCgroups, u);
    assert c in b'.byCgroup <==> c in b.byCgroup && c !in op.cgids && c !in Recorded(b.podCgroups, op.uid);
  }

  /** One operation keeps the agreement for a cgroup that is live when it happens. */
  lemma ApplyAgrees(h: Host, ops: seq<Op>, n: nat, c: u64, b: Books)
    requires Observes(h, ops) && 0 < n <= |ops| && c in h.lives[n - 1]
    requires Agrees(b, Expected(h, ops, n - 1, c), c, h.owner(c))
    ensures Agrees(Apply(b, ops[n - 1]), Expected(h, ops, n, c), c, h.owner(c))
  {
    assert Truthful(h, ops, n - 1) && h.owner(c) != "";
    match ops[n - 1]
    case Update(_, _, _, _) => UpdateAgrees(b, ops[n - 1], c, h.owner(c), Expected(h, ops, n - 1, c));
    case Remove(_, _, _) => RemoveAgrees(b, ops[n - 1], c, h.owner(c), Expected(h, ops, n - 1, c));
    case Sweep(_) =>
    case SweepPids(_) =>
  }

  /** Records only ever name cgroups that were live. */
  lemma {:induction false} OnlyLiveRecords(h: Host, ops: seq<Op>, n: nat, c: u64, u: string)
    requires Observes(h, ops) && n <= |ops| && c in Recorded(After(ops[..n]).podCgroups, u)
    ensures EverLive(h, n, c)
  {
    if n > 0 {
      assert ops[..n][..n - 1] == ops[..n - 1];
      assert Truthful(h, ops, n - 1);
      var op := ops[n - 1];
      if op.Update? {
        WrittenAll(op.cgids);
      }
      if c in Recorded(After(ops[..n - 1]).podCgroups, u) {
        OnlyLiveRecords(h, ops, n - 1, c, u);
      }
      EverLater(h, n, c);
    }
  }

  lemma {:induction false} RunAgrees(h: Host, ops: seq<Op>, n: nat, c: u64)
    requires Observes(h, ops) && n <= |ops| && c in h.lives[n]
    ensures Agrees(After(ops[..n]), Expected(h, ops, n, c), c, h.owner(c))
  {
    if n > 0 {
      if c in h.lives[n - 1] {
        RunAgrees(h, ops, n - 1, c);
        assert ops[..n][..n - 1] == ops[..n - 1];
        ApplyAgrees(h, ops, n, c, After(ops[..n - 1]));
      } else {
        NeverBefore(h, n, c);
        OnlyCgroupEntries(h, ops, n, c);
        if Expected(h, ops, n, c).Some? {
          ExpectedEverLive(h, ops, n, c);
        }
        forall u
          ensures c !in Recorded(After(ops[..n]).podCgroups, u)
        {
          if c in Recorded(After(ops[..n]).podCgroups, u) {
            OnlyLiveRecords(h, ops, n, c, u);
          }
        }
      }
    }
  }

  /** A cgroup that exists now but did not at the last operation never existed before. */
  lemma NeverBefore(h: Host, n: nat, c: u64)
    requires NeverReused(h) && 0 < n < |h.lives| && c in h.lives[n] && c !in h.lives[n - 1]
    ensures !EverLive(h, n, c)
  {
    forall k | 0 <= k < n
      ensures c !in h.lives[k]
    {
      var last := h.lives[n - 1];
    }
  }

  /** Agent-to-kernel agreement: after any sequence of updates, removals and sweeps, every
      task in a cgroup that exists now, whatever its process and whenever it was forked,
      looks up exactly what its pod's latest update wrote, or the defaults. */
  lemma AgentKernelAgreement(h: Host, ops: seq<Op>, tgid: u32, c: u64)
    requires Observes(h, ops) && c in h.lives[|ops|] && c != 0
    ensures After(ops).byTgid == map[]
    ensures Lookup(After(ops).byTgid, After(ops).byCgroup, tgid, c) ==
            match Expected(h, ops, |ops|, c)
            case Some(tp) => Found(tp, true)
            case None => Found(DEFAULT_PARAMS, false)
  {
    assert ops[..|ops|] == ops;
    RunAgrees(h, ops, |ops|, c);
    OnlyCgroupEntries(h, ops, |ops|, c);
  }

  /** Removal frame: the pod's recorded and resolvable keys are gone, no other key is. */
  lemma RemovalFrame(b: Books, uid: string, cgids: seq<u64>, pids: seq<u32>, tgid: u32, c: u64)
    ensures var b' := Apply(b, Remove(uid, cgids, pids));
            && (c in b'.byCgroup <==> c in b.byCgroup && c !in cgids && c !in Recorded(b.podCgroups, uid))
            && (tgid in b'.byTgid <==> tgid in b.byTgid && tgid !in pids && tgid !in Recorded(b.podPids, uid))
            && (tgid !in pids && tgid !in Recorded(b.podPids, uid) && c !in cgids && c !in Recorded(b.podCgroups, uid)
                ==> Lookup(b'.byTgid, b'.byCgroup, tgid, c) == Lookup(b.byTgid, b.byCgroup, tgid, c))
            && (forall u | u != uid :: Recorded(b'.podCgroups, u) == Recorded(b.podCgroups, u)
                                       && Recorded(b'.podPids, u) == Recorded(b.podPids, u))
  {
  }

  /** Sweep frame: the map is restricted to the live cgroups (an empty live set changes
      nothing), and no task in a live cgroup notices. */
  lemma SweepFrame(b: Books, live: set<u64>, tgid: u32, c: u64)
    ensures var b' := Apply(b, Sweep(live));
            && (c in b'.byCgroup <==> c in b.byCgroup && (live == {} || c in live))
            && (c in live ==> Lookup(b'.byTgid, b'.byCgroup, tgid, c) == Lookup(b.byTgid, b.byCgroup, tgid, c))
            && b'.(byCgroup := b.byCgroup) == b
  {
  }

  predicate Updates(op: Op, uid: string) {
    op.Update? && op.uid == uid
  }

  predicate Removes(op: Op, uid: string) {
    op.Remove? && op.uid == uid
  }

  /** The pod was updated, and not removed since. */
  ghost predicate UpdatedSince(ops: seq<Op>, uid: string) {
    exists k :: 0 <= k < |ops| && Updates(ops[k], uid) && forall j | k < j < |ops| :: !Removes(ops[j], uid)
  }

  lemma UpdatedSnoc(ops: seq<Op>, uid: string)
    requires ops != []
    ensures var last := ops[|ops| - 1];
            UpdatedSince(ops, uid) <==>
              Updates(last, uid) || (!Removes(last, uid) && UpdatedSince(ops[..|ops| - 1], uid))
  {
    var m := |ops| - 1;
    var most, last := ops[..m], ops[m];
    if UpdatedSince(ops, uid) && !Updates(last, uid) {
      var k :| 0 <= k < |ops| && Updates(ops[k], uid) && forall j | k < j < |ops| :: !Removes(ops[j], uid);
      assert Updates(most[k], uid) && forall j | k < j < m :: !Removes(most[j], uid);
    }
    if !Removes(last, uid) && UpdatedSince(most, uid) {
      var k :| 0 <= k < m && Updates(most[k], uid) && forall j | k < j < m :: !Removes(most[j], uid);
      assert Updates(ops[k], uid) && forall j | k < j < |ops| :: j == m || ops[j] == most[j];
    }
    if Updates(last, uid) {
      assert Updates(ops[m], uid);
    }
  }

  /** The pods tracked are its history: over every run a pod is in one of the records
      exactly when it has a name, was updated and was not removed since. */
  lemma {:induction false} TrackedIsHistory(ops: seq<Op>, uid: string)
    ensures uid in RecordedPods(After(ops)) <==> uid != "" && UpdatedSince(ops, uid)
  {
    if ops != [] {
      TrackedIsHistory(ops[..|ops| - 1], uid);
      UpdatedSnoc(ops, uid);
    }
  }

  /** So the number of tracked pods is the number of named pods updated and not removed. */
  lemma TrackedCount(ops: seq<Op>, uids: set<string>)
    requires forall uid :: uid in uids <==> uid != "" && UpdatedSince(ops, uid)
    ensures |RecordedPods(After(ops))| == |uids|
  {
    forall uid
      ensures uid in RecordedPods(After(ops)) <==> uid in uids
    {
      TrackedIsHistory(ops, uid);
    }
    assert RecordedPods(After(ops)) == uids;
  }
}
