/** What the map operations do key by key, also when single puts or deletes fail. */
module MapEffects {
  import opened Wrappers
  import opened Params
  import opened PodMaps

  lemma {:induction false} WrittenMembers<K>(ks: seq<K>, fails: set<K>, k: K)
    ensures k in Written(ks, fails) <==> k in ks && k !in fails
  {
    if ks != [] {
      WrittenMembers(ks[..|ks| - 1], fails, k);
      assert ks == ks[..|ks| - 1] + [ks[|ks| - 1]];
    }
  }

  lemma WrittenThen<K>(ks: seq<K>, k: K, fails: set<K>)
    ensures Written(ks + [k], fails) == Written(ks, fails) + if k in fails then [] else [k]
  {
    assert (ks + [k])[..|ks|] == ks;
  }

  /** A failed put is skipped and the loop goes on: what was written before it and after it
      is kept, in order. */
  lemma {:induction false} WrittenAround<K>(ks: seq<K>, k: K, more: seq<K>, fails: set<K>)
    ensures Written(ks + [k] + more, fails) ==
            Written(ks, fails) + (if k in fails then [] else [k]) + Written(more, fails)
  {
    if more == [] {
      assert ks + [k] + more == ks + [k];
      WrittenThen(ks, k, fails);
    } else {
      var n := |more| - 1;
      WrittenAround(ks, k, more[..n], fails);
      assert ks + [k] + more == ks + [k] + more[..n] + [more[n]] && more == more[..n] + [more[n]];
      WrittenThen(ks + [k] + more[..n], more[n], fails);
      WrittenThen(more[..n], more[n], fails);
    }
  }

  /** An update key by key. Through the cgroups, if their map is open and any resolved, it
      sets exactly the resolved keys whose put succeeds, and records exactly those for a
      named pod; a failed key stays as it was and is not recorded. Otherwise it does the
      same with the processes. */
  lemma UpdateEffect(b: Books, uid: string, cgids: seq<u64>, pids: seq<u32>, tp: TaskParams, open: bool,
                     cgFails: set<u64>, pidFails: set<u32>, c: u64, g: u32, u: string)
    ensures var b', byCgroups := Updated(b, uid, cgids, pids, tp, open, cgFails, pidFails), open && cgids != [];
            var setsC, setsG := byCgroups && c in cgids && c !in cgFails, !byCgroups && g in pids && g !in pidFails;
            && (c in b'.byCgroup <==> c in b.byCgroup || setsC)
            && (c in b'.byCgroup ==> b'.byCgroup[c] == if setsC then tp else b.byCgroup[c])
            && (g in b'.byTgid <==> g in b.byTgid || setsG)
            && (g in b'.byTgid ==> b'.byTgid[g] == if setsG then tp else b.byTgid[g])
            && (c in Recorded(b'.podCgroups, u) <==>
                  if byCgroups && u == uid != "" then setsC else c in Recorded(b.podCgroups, u))
            && (g in Recorded(b'.podPids, u) <==>
                  if !byCgroups && u == uid != "" then setsG else g in Recorded(b.podPids, u))
  {
    WrittenMembers(cgids, cgFails, c);
    WrittenMembers(pids, pidFails, g);
  }

  /** A removal key by key: gone are exactly the recorded or resolvable keys whose delete
      succeeds, cgroup keys only if their map is open, and the pod's records. */
  lemma RemovalEffect(b: Books, uid: string, cgids: seq<u64>, pids: seq<u32>, open: bool,
                      cgStuck: set<u64>, pidStuck: set<u32>, c: u64, g: u32, u: string)
    ensures var b' := Removed(b, uid, cgids, pids, open, cgStuck, pidStuck);
            var dropsC := open && (c in cgids || c in Recorded(b.podCgroups, uid)) && c !in cgStuck;
            var dropsG := (g in pids || g in Recorded(b.podPids, uid)) && g !in pidStuck;
            && (c in b'.byCgroup <==> c in b.byCgroup && !dropsC)
            && (c in b'.byCgroup ==> b'.byCgroup[c] == b.byCgroup[c])
            && (g in b'.byTgid <==> g in b.byTgid && !dropsG)
            && (g in b'.byTgid ==> b'.byTgid[g] == b.byTgid[g])
            && Recorded(b'.podCgroups, u) == (if u == uid then [] else Recorded(b.podCgroups, u))
            && Recorded(b'.podPids, u) == (if u == uid then [] else Recorded(b.podPids, u))
  {
  }

  /** A sweep key by key: gone are exactly the keys that are not live and whose delete
      succeeds, and nothing if no key is live. */
  lemma SweepEffect<K>(m: map<K, TaskParams>, live: set<K>, stuck: set<K>, k: K)
    ensures var m' := Swept(m, live, stuck);
            && (k in m' <==> k in m && (live == {} || k in live || k in stuck))
            && (k in m' ==> m'[k] == m[k])
  {
  }

  /** The sweep of processes: gone are exactly those that have exited and whose delete
      succeeds, also if none is alive. */
  lemma PidSweepEffect<K>(m: map<K, TaskParams>, alive: set<K>, stuck: set<K>, k: K)
    ensures var m' := Kept(m, alive + stuck);
            && (k in m' <==> k in m && (k in alive || k in stuck))
            && (k in m' ==> m'[k] == m[k])
  {
  }
}
