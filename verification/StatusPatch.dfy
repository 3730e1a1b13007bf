/** Status write-back by JSON merge patches (section 2 of RFC 7396) from many nodes. */
module StatusPatch {
  import opened Wrappers

  datatype Json =
    | Null
    | Bool(b: bool)
    | Num(n: int)
    | Str(s: string)
    | Arr(items: seq<Json>)
    | Obj(fields: map<string, Json>)

  function Field(j: Json, k: string): Json {
    if j.Obj? && k in j.fields then j.fields[k] else Null
  }

  function Fields(j: Json): map<string, Json> {
    if j.Obj? then j.fields else map[]
  }

  /** Merge patch: an object patch merges field by field, with null deleting the field;
      any other patch replaces its target. */
  function MergePatch(target: Json, patch: Json): Json
    decreases patch
  {
    if !patch.Obj? then patch
    else
      var t := Fields(target);
      Obj(map k | k in t.Keys + patch.fields.Keys && !(k in patch.fields && patch.fields[k].Null?) ::
            if k in patch.fields then MergePatch(Field(target, k), patch.fields[k]) else t[k])
  }

  /** What an object patch does to one field. */
  lemma MergeField(target: Json, patch: Json, k: string)
    requires patch.Obj?
    ensures Field(MergePatch(target, patch), k) ==
            if k !in patch.fields then Field(target, k)
            else if patch.fields[k].Null? then Null
            else MergePatch(Field(target, k), patch.fields[k])
  {
  }

  /** Two object patches that meet only in objects, all the way down. */
  ghost predicate Independent(p: Json, q: Json)
    decreases p
  {
    p.Obj? && q.Obj? && forall k | k in p.fields && k in q.fields :: Independent(p.fields[k], q.fields[k])
  }

  /** Independent merge patches commute on every document. */
  lemma {:induction false} IndependentCommute(d: Json, p: Json, q: Json)
    requires Independent(p, q)
    ensures MergePatch(MergePatch(d, p), q) == MergePatch(MergePatch(d, q), p)
    decreases p
  {
    var pq, qp := MergePatch(MergePatch(d, p), q), MergePatch(MergePatch(d, q), p);
    forall k
      ensures k in pq.fields <==> k in qp.fields
      ensures k in pq.fields ==> pq.fields[k] == qp.fields[k]
    {
      if k in p.fields && k in q.fields {
        IndependentCommute(Field(d, k), p.fields[k], q.fields[k]);
      }
    }
    assert pq.fields == qp.fields;
  }

  /** Sending a merge patch again changes nothing. */
  lemma {:induction false} PatchIdempotent(d: Json, p: Json)
    ensures MergePatch(MergePatch(d, p), p) == MergePatch(d, p)
    decreases p
  {
    if p.Obj? {
      var once, twice := MergePatch(d, p), MergePatch(MergePatch(d, p), p);
      forall k
        ensures k in once.fields <==> k in twice.fields
        ensures k in once.fields ==> once.fields[k] == twice.fields[k]
      {
        if k in p.fields {
          PatchIdempotent(Field(d, k), p.fields[k]);
        }
      }
      assert once.fields == twice.fields;
    }
  }

  type Counts = map<string, int>

  /** What one node writes: its policy counts under its own name. */
  datatype WriteBack = WriteBack(node: string, counts: Counts)

  function BuildStatusPatch(w: WriteBack): Json {
    Obj(map["status" := Obj(map["nodeStatuses" := Obj(map[w.node := Obj(map p | p in w.counts :: Num(w.counts[p]))])])])
  }

  function AfterAll(d: Json, ws: seq<WriteBack>): Json {
    if ws == [] then d else MergePatch(AfterAll(d, ws[..|ws| - 1]), BuildStatusPatch(ws[|ws| - 1]))
  }

  lemma NodesIndependent(v: WriteBack, w: WriteBack)
    requires v.node != w.node
    ensures Independent(BuildStatusPatch(v), BuildStatusPatch(w))
  {
    var p, q := BuildStatusPatch(v), BuildStatusPatch(w);
    var ps, qs := p.fields["status"], q.fields["status"];
    var pn, qn := ps.fields["nodeStatuses"], qs.fields["nodeStatuses"];
    assert Independent(pn, qn);
    assert Independent(ps, qs);
  }

  /** One node's write-backs, in order. */
  function Of(ws: seq<WriteBack>, node: string): seq<WriteBack> {
    if ws == [] then []
    else if ws[|ws| - 1].node != node then Of(ws[..|ws| - 1], node)
    else Of(ws[..|ws| - 1], node) + [ws[|ws| - 1]]
  }

  function DropAt(ws: seq<WriteBack>, i: nat): seq<WriteBack>
    requires i < |ws|
  {
    ws[..i] + ws[i + 1..]
  }

  /** `i` is the last write-back of its node. */
  ghost predicate LastOfNode(ws: seq<WriteBack>, i: nat) {
    i < |ws| && forall j | i < j < |ws| :: ws[j].node != ws[i].node
  }

  lemma DropPrefix(ws: seq<WriteBack>, i: nat)
    requires i < |ws| - 1
    ensures DropAt(ws, i) == DropAt(ws[..|ws| - 1], i) + [ws[|ws| - 1]]
    ensures DropAt(ws, i)[..|ws| - 2] == DropAt(ws[..|ws| - 1], i)
  {
  }

  /** A node's last write-back can be delayed past everything after it. */
  lemma {:induction false} MoveToEnd(d: Json, ws: seq<WriteBack>, i: nat)
    requires LastOfNode(ws, i)
    ensures AfterAll(d, ws) == MergePatch(AfterAll(d, DropAt(ws, i)), BuildStatusPatch(ws[i]))
  {
    var m := |ws| - 1;
    if i == m {
      assert DropAt(ws, i) == ws[..m];
    } else {
      MoveToEnd(d, ws[..m], i);
      NodesIndependent(ws[i], ws[m]);
      IndependentCommute(AfterAll(d, DropAt(ws[..m], i)), BuildStatusPatch(ws[i]), BuildStatusPatch(ws[m]));
      DropPrefix(ws, i);
    }
  }

  /** Taking out a node's last write-back shortens that node's sequence by it only. */
  lemma {:induction false} OfDropAt(ws: seq<WriteBack>, i: nat, node: string)
    requires LastOfNode(ws, i)
    ensures Of(ws, node) == if ws[i].node == node then Of(DropAt(ws, i), node) + [ws[i]] else Of(DropAt(ws, i), node)
  {
    var m := |ws| - 1;
    if i == m {
      assert DropAt(ws, i) == ws[..m];
    } else {
      OfDropAt(ws[..m], i, node);
      DropPrefix(ws, i);
    }
  }

  lemma {:induction false} FindLast(ws: seq<WriteBack>, node: string) returns (i: nat)
    requires Of(ws, node) != []
    ensures LastOfNode(ws, i) && ws[i].node == node
  {
    if ws[|ws| - 1].node == node {
      i := |ws| - 1;
    } else {
      i := FindLast(ws[..|ws| - 1], node);
    }
  }

  /** Write-backs commute across nodes: two interleavings of the same per-node sequences
      leave the same document, whatever it was before. */
  lemma {:induction false} InterleavingsAgree(d: Json, ws: seq<WriteBack>, vs: seq<WriteBack>)
    requires forall node :: Of(ws, node) == Of(vs, node)
    ensures AfterAll(d, ws) == AfterAll(d, vs)
    decreases |ws|
  {
    if ws == [] {
      if vs != [] {
        SomeNodeWrote(vs);
      }
    } else {
      var m := |ws| - 1;
      var w := ws[m];
      assert Of(ws, w.node) == Of(vs, w.node);
      var i := FindLast(vs, w.node);
      forall node
        ensures Of(ws[..m], node) == Of(DropAt(vs, i), node)
      {
        assert Of(ws, node) == Of(vs, node);
        OfDropAt(vs, i, node);
        if node == w.node {
          SameFront(Of(ws[..m], node), w, Of(DropAt(vs, i), node), vs[i]);
        }
      }
      OfDropAt(vs, i, w.node);
      SameFront(Of(ws[..m], w.node), w, Of(DropAt(vs, i), w.node), vs[i]);
      InterleavingsAgree(d, ws[..m], DropAt(vs, i));
      MoveToEnd(d, vs, i);
    }
  }

  lemma SomeNodeWrote(vs: seq<WriteBack>)
    requires vs != []
    ensures exists node :: Of(vs, node) != []
  {
    assert Of(vs, vs[|vs| - 1].node) != [];
  }

  lemma SameFront(s: seq<WriteBack>, x: WriteBack, t: seq<WriteBack>, y: WriteBack)
    requires s + [x] == t + [y]
    ensures s == t && x == y
  {
    assert (s + [x])[|s|] == x && (t + [y])[|t|] == y;
    assert (s + [x])[..|s|] == s && (t + [y])[..|t|] == t;
  }

  function NodeEntry(d: Json, node: string): Json {
    Field(Field(Field(d, "status"), "nodeStatuses"), node)
  }

  /** One write-back sets the counts it names and leaves everything else alone. */
  lemma WriteBackFrame(d: Json, w: WriteBack, node: string, policy: string)
    ensures var d' := MergePatch(d, BuildStatusPatch(w));
            && Field(NodeEntry(d', node), policy) ==
                 (if node == w.node && policy in w.counts then Num(w.counts[policy])
                  else Field(NodeEntry(d, node), policy))
            && (node != w.node ==> NodeEntry(d', node) == NodeEntry(d, node))
  {
    var p := BuildStatusPatch(w);
    var s := p.fields["status"];
    var ns := s.fields["nodeStatuses"];
    MergeField(d, p, "status");
    MergeField(Field(d, "status"), s, "nodeStatuses");
    MergeField(Field(Field(d, "status"), "nodeStatuses"), ns, node);
    if node == w.node {
      MergeField(NodeEntry(d, node), ns.fields[node], policy);
    }
  }

  /** The last count the node wrote for the policy. */
  function LastCount(ws: seq<WriteBack>, node: string, policy: string): Option<int> {
    if ws == [] then None
    else
      var w := ws[|ws| - 1];
      if w.node == node && policy in w.counts then Some(w.counts[policy])
      else LastCount(ws[..|ws| - 1], node, policy)
  }

  /** Every policy a node ever named holds the last count it wrote, also after the node
      stopped naming it: the nested counts merge and are not replaced. */
  lemma {:induction false} LastCountStays(d: Json, ws: seq<WriteBack>, node: string, policy: string)
    ensures Field(NodeEntry(AfterAll(d, ws), node), policy) ==
            match LastCount(ws, node, policy)
            case Some(n) => Num(n)
            case None => Field(NodeEntry(d, node), policy)
  {
    if ws != [] {
      LastCountStays(d, ws[..|ws| - 1], node, policy);
      WriteBackFrame(AfterAll(d, ws[..|ws| - 1]), ws[|ws| - 1], node, policy);
    }
  }

  /** The names among the first ones whose document is patched. */
  function Patched(names: seq<string>, docs: map<string, Json>, fails: set<string>): set<string> {
    set n | n in names && n in docs && n !in fails
  }

  lemma {:induction false} DistinctSize(names: seq<string>)
    requires forall i, j | 0 <= i < j < |names| :: names[i] != names[j]
    ensures |Keys(names)| == |names|
  {
    if names != [] {
      var n := |names| - 1;
      DistinctSize(names[..n]);
      assert names == names[..n] + [names[n]];
      assert Keys(names) == Keys(names[..n]) + {names[n]};
    }
  }

  lemma ProperPart(part: set<string>, whole: set<string>)
    requires part <= whole
    ensures |part| <= |whole| && (|part| == |whole| <==> part == whole)
  {
    assert whole == part + (whole - part);
  }

  /** The counter of write-backs counts attempts: it equals the number of documents patched
      exactly when every document exists and no patch fails. */
  lemma CountedExactness(names: seq<string>, docs: map<string, Json>, fails: set<string>)
    requires forall i, j | 0 <= i < j < |names| :: names[i] != names[j]
    ensures |Patched(names, docs, fails)| <= |names|
    ensures |names| == |Patched(names, docs, fails)| <==> forall n | n in names :: n in docs && n !in fails
  {
    DistinctSize(names);
    ProperPart(Patched(names, docs, fails), Keys(names));
    if forall n | n in names :: n in docs && n !in fails {
      assert Patched(names, docs, fails) == Keys(names);
    }
    if Patched(names, docs, fails) == Keys(names) {
      forall n | n in names
        ensures n in docs && n !in fails
      {
        assert n in Keys(names);
      }
    }
  }

  /** One round: the counts of every cached policy go to each policy's own document;
      patches that fail are skipped, and without policies nothing is written. */
  method WritebackPolicyStatus(node: string, names: seq<string>, active: string -> int,
                               docs: map<string, Json>, fails: set<string>)
    returns (docs': map<string, Json>, counted: nat)
    requires forall i, j | 0 <= i < j < |names| :: names[i] != names[j]
    ensures docs'.Keys == docs.Keys
    ensures forall n | n in docs :: docs'[n] ==
              if n in Patched(names, docs, fails)
              then MergePatch(docs[n], BuildStatusPatch(WriteBack(node, map p | p in names :: active(p))))
              else docs[n]
    ensures counted == |Patched(names, docs, fails)| <==> forall n | n in names :: n in docs && n !in fails
    ensures counted == |names|
  {
    docs', counted := docs, 0;
    CountedExactness(names, docs, fails);
    if |names| == 0 {
      return;
    }
    var counts: Counts := map[];
    for i := 0 to |names|
      invariant counts == map p | p in names[..i] :: active(p)
    {
      assert names[..i + 1] == names[..i] + [names[i]];
      counts := counts[names[i] := active(names[i])];
    }
    assert names[..|names|] == names;
    docs' := PatchAll(names, BuildStatusPatch(WriteBack(node, counts)), docs, fails);
    counted := counted + |names|;
  }

  method PatchAll(names: seq<string>, patch: Json, docs: map<string, Json>, fails: set<string>)
    returns (docs': map<string, Json>)
    requires forall i, j | 0 <= i < j < |names| :: names[i] != names[j]
    ensures docs'.Keys == docs.Keys
    ensures forall n | n in docs ::
              docs'[n] == if n in names && n !in fails then MergePatch(docs[n], patch) else docs[n]
  {
    docs' := docs;
    for i := 0 to |names|
      invariant docs'.Keys == docs.Keys
      invariant forall n | n in docs ::
                  docs'[n] == if n in names[..i] && n !in fails then MergePatch(docs[n], patch) else docs[n]
    {
      var n := names[i];
      assert names[..i + 1] == names[..i] + [n] && n !in names[..i];
      if n in docs' && n !in fails {
        docs' := docs'[n := MergePatch(docs'[n], patch)];
      }
    }
    assert names[..|names|] == names;
  }
}
