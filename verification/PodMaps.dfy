/** The agent's side of the parameter maps: writing a pod's parameters, removing them,
    sweeping stale entries, and the per-pod records of what was written. What the
    filesystem resolves and which map operations fail come in as arguments. */
module PodMaps {
  import opened Wrappers
  import opened Params

  datatype Books = Books(
    byTgid: TgidMap,
    byCgroup: CgroupMap,
    podPids: map<string, seq<u32>>,
    podCgroups: map<string, seq<u64>>)

  datatype PutError = NoError | PutCgroup(cgid: u64) | PutPid(pid: u32)

  const EMPTY := Books(map[], map[], map[], map[])

  function PutAll<K>(m: map<K, TaskParams>, ks: set<K>, tp: TaskParams): map<K, TaskParams> {
    m + map k | k in ks :: tp
  }

  /** The keys whose put succeeds, in order. */
  function Written<K(==)>(ks: seq<K>, fails: set<K>): seq<K> {
    if ks == [] then []
    else Written(ks[..|ks| - 1], fails) + if ks[|ks| - 1] in fails then [] else [ks[|ks| - 1]]
  }

  predicate FirstAt<K(==)>(ks: seq<K>, fails: set<K>, i: nat) {
    i < |ks| && ks[i] in fails && forall j | 0 <= j < i :: ks[j] !in fails
  }

  /** The error an update returns names the first key whose put failed. */
  ghost predicate Reports<K>(ks: seq<K>, fails: set<K>, err: Option<K>) {
    match err
    case None => forall k | k in ks :: k !in fails
    case Some(k) => exists i: nat :: FirstAt(ks, fails, i) && ks[i] == k
  }

  lemma ReportsSnoc<K>(ks: seq<K>, i: nat, fails: set<K>, err: Option<K>)
    requires i < |ks| && Reports(ks[..i], fails, err)
    ensures Reports(ks[..i + 1], fails, if err.None? && ks[i] in fails then Some(ks[i]) else err)
  {
    match err
    case None =>
      assert forall j | 0 <= j < i :: ks[..i][j] !in fails;
      if ks[i] in fails {
        assert FirstAt(ks[..i + 1], fails, i);
      }
    case Some(k) =>
      var j: nat :| FirstAt(ks[..i], fails, j) && ks[..i][j] == k;
      assert FirstAt(ks[..i + 1], fails, j);
  }

  function Recorded<K>(book: map<string, seq<K>>, uid: string): seq<K> {
    if uid in book then book[uid] else []
  }

  function Record<K>(book: map<string, seq<K>>, uid: string, ks: seq<K>): map<string, seq<K>> {
    if uid == "" then book else book[uid := ks]
  }

  /** An update writes the pod's cgroups if any were resolved and falls back to its
      processes otherwise; either way the record of that kind is replaced. */
  function Updated(b: Books, uid: string, cgids: seq<u64>, pids: seq<u32>, tp: TaskParams,
                   cgroupOpen: bool, cgFails: set<u64>, pidFails: set<u32>): Books
  {
    if cgroupOpen && cgids != [] then
      var w := Written(cgids, cgFails);
      b.(byCgroup := PutAll(b.byCgroup, Keys(w), tp), podCgroups := Record(b.podCgroups, uid, w))
    else
      var w := Written(pids, pidFails);
      b.(byTgid := PutAll(b.byTgid, Keys(w), tp), podPids := Record(b.podPids, uid, w))
  }

  /** A removal forgets the pod and deletes every recorded or still resolvable key,
      except those whose delete fails. */
  function Removed(b: Books, uid: string, cgids: seq<u64>, pids: seq<u32>,
                   cgroupOpen: bool, cgStuck: set<u64>, pidStuck: set<u32>): Books
  {
    Books(
      b.byTgid - (Keys(Recorded(b.podPids, uid)) + Keys(pids) - pidStuck),
      if cgroupOpen then b.byCgroup - (Keys(Recorded(b.podCgroups, uid)) + Keys(cgids) - cgStuck) else b.byCgroup,
      b.podPids - {uid},
      b.podCgroups - {uid})
  }

  /** A sweep keeps the live keys; an empty live set means the tree was not visible. */
  function Swept<K>(m: map<K, TaskParams>, live: set<K>, stuck: set<K>): map<K, TaskParams> {
    if live == {} then m else Kept(m, live + stuck)
  }

  function Kept<K>(m: map<K, TaskParams>, keep: set<K>): map<K, TaskParams> {
    map k | k in m && k in keep :: m[k]
  }

  /** The pods either record names. */
  function RecordedPods(b: Books): set<string> {
    b.podCgroups.Keys + b.podPids.Keys
  }

  lemma WrittenSnoc<K>(ks: seq<K>, i: nat, fails: set<K>)
    requires i < |ks|
    ensures Written(ks[..i + 1], fails) == Written(ks[..i], fails) + if ks[i] in fails then [] else [ks[i]]
  {
    assert ks[..i + 1][..i] == ks[..i];
  }

  lemma PutAllSnoc<K>(m: map<K, TaskParams>, w: seq<K>, k: K, tp: TaskParams)
    ensures PutAll(m, Keys(w), tp)[k := tp] == PutAll(m, Keys(w + [k]), tp)
  {
  }

  lemma DropKey<K>(m: map<K, TaskParams>, k: K)
    requires k in m
    ensures |m - {k}| == |m| - 1
  {
    assert (m - {k}).Keys == m.Keys - {k};
  }

  lemma DeleteOne<K>(m: map<K, TaskParams>, k: K, rest: set<K>, stuck: set<K>)
    requires k in rest
    ensures (m - if k in stuck then {} else {k}) - (rest - {k} - stuck) == m - (rest - stuck)
  {
  }

  /** Deleting the stale keys leaves what a sweep keeps. */
  lemma DeletingStale<K>(m: map<K, TaskParams>, live: set<K>, stuck: set<K>, stale: set<K>)
    requires live != {} && forall k :: k in stale <==> k in m && k !in live
    ensures m - (stale - stuck) == Swept(m, live, stuck)
  {
  }

  /** Iterates the map, in whatever order, and lists the keys not to keep. */
  method CollectStale<K>(m: map<K, TaskParams>, keep: set<K>) returns (stale: seq<K>)
    ensures forall k :: k in stale <==> k in m && k !in keep
  {
    stale := [];
    var unseen := m.Keys;
    while unseen != {}
      invariant unseen <= m.Keys
      invariant forall k :: k in stale <==> k in m && k !in unseen && k !in keep
      decreases unseen
    {
      var k :| k in unseen;
      if k !in keep {
        stale := stale + [k];
      }
      unseen := unseen - {k};
    }
  }

  /** Adds the keys one by one, in whatever order. */
  method AddAll(uids: set<string>, keys: set<string>) returns (all: set<string>)
    ensures all == uids + keys
  {
    all := uids;
    var rest := keys;
    while rest != {}
      invariant rest <= keys && all + rest == uids + keys
      decreases rest
    {
      var uid :| uid in rest;
      all, rest := all + {uid}, rest - {uid};
    }
  }

  class Maps {
    var taskOpen: bool
    var cgroupOpen: bool
    var byTgid: TgidMap
    var byCgroup: CgroupMap
    var podPids: map<string, seq<u32>>
    var podCgroups: map<string, seq<u64>>

    ghost function View(): Books
      reads this
    {
      Books(byTgid, byCgroup, podPids, podCgroups)
    }

    constructor (taskOpen: bool, cgroupOpen: bool)
      ensures View() == EMPTY && this.taskOpen == taskOpen && this.cgroupOpen == cgroupOpen
    {
      this.taskOpen, this.cgroupOpen := taskOpen, cgroupOpen;
      byTgid, byCgroup, podPids, podCgroups := map[], map[], map[], map[];
    }

    method WriteCgroupParams(cgids: seq<u64>, tp: TaskParams, fails: set<u64>)
      returns (written: seq<u64>, err: Option<u64>)
      modifies this`byCgroup
      ensures written == Written(cgids, fails)
      ensures Reports(cgids, fails, err)
      ensures byCgroup == PutAll(old(byCgroup), Keys(written), tp)
    {
      written, err := [], None;
      for i := 0 to |cgids|
        invariant written == Written(cgids[..i], fails)
        invariant Reports(cgids[..i], fails, err)
        invariant byCgroup == PutAll(old(byCgroup), Keys(written), tp)
      {
        WrittenSnoc(cgids, i, fails);
        ReportsSnoc(cgids, i, fails, err);
        if cgids[i] in fails {
          if err.None? {
            err := Some(cgids[i]);
          }
        } else {
          PutAllSnoc(old(byCgroup), written, cgids[i], tp);
          byCgroup := byCgroup[cgids[i] := tp];
          written := written + [cgids[i]];
        }
      }
      assert cgids[..|cgids|] == cgids;
    }

    method UpdatePodParams(uid: string, cgids: seq<u64>, pids: seq<u32>, tp: TaskParams,
                           cgFails: set<u64>, pidFails: set<u32>)
      returns (err: PutError)
      modifies this`byTgid, this`byCgroup, this`podPids, this`podCgroups
      ensures !taskOpen ==> View() == old(View()) && err == NoError
      ensures taskOpen ==> View() == Updated(old(View()), uid, cgids, pids, tp, cgroupOpen, cgFails, pidFails)
      ensures taskOpen ==>
                if cgroupOpen && cgids != [] then
                  exists e :: Reports(cgids, cgFails, e) && err == (if e.Some? then PutCgroup(e.value) else NoError)
                else
                  exists e :: Reports(pids, pidFails, e) && err == (if e.Some? then PutPid(e.value) else NoError)
    {
      err := NoError;
      if !taskOpen {
        return;
      }
      if cgroupOpen {
        if |cgids| > 0 {
          var written, failed := WriteCgroupParams(cgids, tp, cgFails);
          err := if failed.Some? then PutCgroup(failed.value) else NoError;
          if uid != "" {
            podCgroups := podCgroups[uid := written];
          }
          return;
        }
      }
      var written: seq<u32>, failed: Option<u32> := [], None;
      for i := 0 to |pids|
        modifies this`byTgid
        invariant written == Written(pids[..i], pidFails)
        invariant Reports(pids[..i], pidFails, failed)
        invariant byTgid == PutAll(old(byTgid), Keys(written), tp)
      {
        WrittenSnoc(pids, i, pidFails);
        ReportsSnoc(pids, i, pidFails, failed);
        if pids[i] in pidFails {
          if failed.None? {
            failed := Some(pids[i]);
          }
        } else {
          PutAllSnoc(old(byTgid), written, pids[i], tp);
          byTgid := byTgid[pids[i] := tp];
          written := written + [pids[i]];
        }
      }
      assert pids[..|pids|] == pids;
      err := if failed.Some? then PutPid(failed.value) else NoError;
      if uid != "" {
        podPids := podPids[uid := written];
      }
    }

    /** One delete: it fails on a missing key, or for a reason of its own. */
    method DeleteCgroup(k: u64, stuck: set<u64>) returns (ok: bool)
      modifies this`byCgroup
      ensures ok <==> k in old(byCgroup) && k !in stuck
      ensures byCgroup == old(byCgroup) - if k in stuck then {} else {k}
      ensures |byCgroup| == |old(byCgroup)| - if ok then 1 else 0
    {
      ok := k in byCgroup && k !in stuck;
      if ok {
        DropKey(byCgroup, k);
        byCgroup := byCgroup - {k};
      }
    }

    /** Deletes in whatever order and counts the deletes that found their key. */
    method DeleteCgroups(ks: set<u64>, stuck: set<u64>) returns (removed: nat)
      modifies this`byCgroup
      ensures byCgroup == old(byCgroup) - (ks - stuck)
      ensures removed == |old(byCgroup)| - |byCgroup|
    {
      removed := 0;
      var rest := ks;
      ghost var goal := byCgroup - (ks - stuck);
      while rest != {}
        invariant byCgroup - (rest - stuck) == goal
        invariant removed == |old(byCgroup)| - |byCgroup|
        decreases rest
      {
        var k :| k in rest;
        DeleteOne(byCgroup, k, rest, stuck);
        var ok := DeleteCgroup(k, stuck);
        if ok {
          removed := removed + 1;
        }
        rest := rest - {k};
      }
    }

    /** Best-effort deletes whose results are ignored. */
    method ForgetCgroups(ks: set<u64>, stuck: set<u64>)
      modifies this`byCgroup
      ensures byCgroup == old(byCgroup) - (ks - stuck)
    {
      var _ := DeleteCgroups(ks, stuck);
    }

    method DeleteTgids(ks: set<u32>, stuck: set<u32>)
      modifies this`byTgid
      ensures byTgid == old(byTgid) - (ks - stuck)
    {
      var rest := ks;
      while rest != {}
        invariant rest <= ks
        invariant byTgid == old(byTgid) - (ks - rest - stuck)
        decreases rest
      {
        var k :| k in rest;
        if k !in stuck {
          byTgid := byTgid - {k};
        }
        rest := rest - {k};
      }
    }

    method RemovePodParams(uid: string, cgids: seq<u64>, pids: seq<u32>, cgStuck: set<u64>, pidStuck: set<u32>)
      modifies this`byTgid, this`byCgroup, this`podPids, this`podCgroups
      ensures !taskOpen ==> View() == old(View())
      ensures taskOpen ==> View() == Removed(old(View()), uid, cgids, pids, cgroupOpen, cgStuck, pidStuck)
    {
      if !taskOpen {
        return;
      }
      var recordedPids := if uid in podPids then podPids[uid] else [];
      var recordedCgids := if uid in podCgroups then podCgroups[uid] else [];
      podPids := podPids - {uid};
      podCgroups := podCgroups - {uid};
      if cgroupOpen {
        ForgetCgroups(Keys(recordedCgids) + Keys(cgids), cgStuck);
      }
      DeleteTgids(Keys(recordedPids) + Keys(pids), pidStuck);
    }

    /** Sweeps cgroup entries whose cgroup is gone and counts what was deleted. */
    method CleanStaleCgroupIds(live: set<u64>, stuck: set<u64>) returns (removed: nat)
      modifies this`byCgroup
      ensures byCgroup == if cgroupOpen then Swept(old(byCgroup), live, stuck) else old(byCgroup)
      ensures removed == |old(byCgroup)| - |byCgroup|
    {
      if !cgroupOpen || live == {} {
        return 0;
      }
      var stale := CollectStale(byCgroup, live);
      DeletingStale(byCgroup, live, stuck, Keys(stale));
      removed := DeleteCgroups(Keys(stale), stuck);
    }

    /** Sweeps process entries whose process is gone. */
    method CleanStalePids(alive: set<u32>, stuck: set<u32>)
      modifies this`byTgid
      ensures byTgid == if taskOpen then Kept(old(byTgid), alive + stuck) else old(byTgid)
    {
      if taskOpen {
        var stale := CollectStale(byTgid, alive);
        DeleteTgids(Keys(stale), stuck);
      }
    }

    /** Collects the pods of both records and counts them. */
    method TrackedPods() returns (n: nat)
      ensures n == |RecordedPods(View())|
    {
      var uids := AddAll({}, podCgroups.Keys);
      uids := AddAll(uids, podPids.Keys);
      assert uids == RecordedPods(View());
      n := |uids|;
    }
  }
}
