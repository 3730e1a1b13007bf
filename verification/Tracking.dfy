/** The resolver over whole runs: what is tracked, and what the kernel gets to see. */
module Tracking {
  import opened Wrappers
  import opened Params
  import opened Annotations
  import opened Resolver

  function After(ops: seq<Op>): Tracker {
    if ops == [] then UNTRACKED else Apply(After(ops[..|ops| - 1]), ops[|ops| - 1])
  }

  /** No unnamed pod is tracked and no empty set is stored, over every run. */
  lemma {:induction false} AlwaysNamed(ops: seq<Op>)
    ensures forall n | n in After(ops).matched :: After(ops).matched[n] != {} && "" !in After(ops).matched[n]
  {
    if ops != [] {
      AlwaysNamed(ops[..|ops| - 1]);
    }
  }

  predicate Matches(op: Op, uid: string, n: string) {
    op.Resolve? && op.uid == uid && n in op.names
  }

  /** What ends a match: a later resolution of the pod, the removal of the policy, or
      anyone's resolution while the policy is not cached. */
  predicate Supersedes(cached: set<string>, op: Op, uid: string, n: string) {
    || op == Op.Remove(n)
    || (op.Resolve? && op.uid == uid)
    || (op.Resolve? && op.uid != "" && n !in cached)
  }

  /** The pod's latest resolution matched the policy, and nothing ended the match since. */
  ghost predicate LatestMatch(ops: seq<Op>, uid: string, n: string) {
    exists k :: 0 <= k < |ops| && Matches(ops[k], uid, n) && Unended(ops, k, uid, n)
  }

  /** Operation `j` ends the match of `uid` with `n`. */
  ghost predicate Ends(ops: seq<Op>, j: int, uid: string, n: string) {
    0 <= j < |ops| && Supersedes(After(ops[..j]).policies, ops[j], uid, n)
  }

  ghost predicate Unended(ops: seq<Op>, k: int, uid: string, n: string) {
    forall j | k < j :: !Ends(ops, j, uid, n)
  }

  lemma EndsPrefix(ops: seq<Op>, m: nat, j: int, uid: string, n: string)
    requires m <= |ops|
    ensures Ends(ops[..m], j, uid, n) <==> j < m && Ends(ops, j, uid, n)
  {
    if 0 <= j < m {
      assert ops[..m][..j] == ops[..j];
    }
  }

  lemma UnendedSnoc(ops: seq<Op>, k: int, uid: string, n: string)
    requires 0 <= k < |ops| - 1
    ensures var m := |ops| - 1;
            Unended(ops, k, uid, n) <==> Unended(ops[..m], k, uid, n) && !Ends(ops, m, uid, n)
  {
    var m := |ops| - 1;
    if Unended(ops, k, uid, n) {
      forall j | k < j
        ensures !Ends(ops[..m], j, uid, n)
      {
        EndsPrefix(ops, m, j, uid, n);
      }
    }
    if Unended(ops[..m], k, uid, n) && !Ends(ops, m, uid, n) {
      forall j | k < j
        ensures !Ends(ops, j, uid, n)
      {
        EndsPrefix(ops, m, j, uid, n);
      }
    }
  }

  lemma LatestSnoc(ops: seq<Op>, uid: string, n: string)
    requires ops != []
    ensures var m := |ops| - 1;
            LatestMatch(ops, uid, n) <==>
              || Matches(ops[m], uid, n)
              || (!Supersedes(After(ops[..m]).policies, ops[m], uid, n) && LatestMatch(ops[..m], uid, n))
  {
    var m := |ops| - 1;
    var most, last := ops[..m], ops[m];
    if LatestMatch(ops, uid, n) && !Matches(last, uid, n) {
      var k :| 0 <= k < |ops| && Matches(ops[k], uid, n) && Unended(ops, k, uid, n);
      UnendedSnoc(ops, k, uid, n);
      assert Matches(most[k], uid, n);
    }
    if !Supersedes(After(most).policies, last, uid, n) && LatestMatch(most, uid, n) {
      var k :| 0 <= k < m && Matches(most[k], uid, n) && Unended(most, k, uid, n);
      UnendedSnoc(ops, k, uid, n);
      assert Matches(ops[k], uid, n);
    }
    if Matches(last, uid, n) {
      assert Matches(ops[m], uid, n) && Unended(ops, m, uid, n);
    }
  }

  /** One operation does to the tracked pods what it does to the history. */
  lemma ApplyTracked(s: Tracker, op: Op, uid: string, n: string)
    requires uid != "" && forall k | k in s.matched :: s.matched[k] != {}
    ensures uid in MatchedOf(Apply(s, op).matched, n) <==>
            Matches(op, uid, n) || (!Supersedes(s.policies, op, uid, n) && uid in MatchedOf(s.matched, n))
  {
  }

  /** Match tracking is its history: after any sequence of additions, removals, refreshes
      and resolutions, also ones that raced with a removal, a pod is tracked under a policy
      exactly when its latest resolution matched it and since then the policy was not
      removed and nobody was resolved while it was not cached. */
  lemma {:induction false} TrackingIsHistory(ops: seq<Op>, uid: string, n: string)
    ensures uid in MatchedOf(After(ops).matched, n) <==> uid != "" && LatestMatch(ops, uid, n)
  {
    AlwaysNamed(ops);
    if ops != [] && uid != "" {
      var most := ops[..|ops| - 1];
      TrackingIsHistory(most, uid, n);
      AlwaysNamed(most);
      LatestSnoc(ops, uid, n);
      ApplyTracked(After(most), ops[|ops| - 1], uid, n);
    }
  }

  /** So the active count is the number of such pods. */
  lemma CountIsHistory(ops: seq<Op>, n: string, uids: set<string>)
    requires forall uid :: uid in uids <==> uid != "" && LatestMatch(ops, uid, n)
    ensures |MatchedOf(After(ops).matched, n)| == |uids|
  {
    forall uid
      ensures uid in MatchedOf(After(ops).matched, n) <==> uid in uids
    {
      TrackingIsHistory(ops, uid, n);
    }
    assert MatchedOf(After(ops).matched, n) == uids;
  }

  /** Tracked names are cached policies. */
  ghost predicate Cached(s: Tracker) {
    forall n | n in s.matched :: n in s.policies
  }

  ghost predicate AlwaysCached(ops: seq<Op>) {
    Cached(After(ops)) && (ops == [] || AlwaysCached(ops[..|ops| - 1]))
  }

  /** The next operation does not race with a removal, and a refresh lists every policy that
      is some named pod's latest match. */
  ghost predicate Proper(ops: seq<Op>, op: Op) {
    match op
    case Add(_) => true
    case Remove(_) => true
    case Resolve(uid, names) => uid == "" || names <= After(ops).policies
    case Refresh(listed) => forall uid, n | uid != "" && LatestMatch(ops, uid, n) :: n in listed
  }

  ghost predicate AllProper(ops: seq<Op>) {
    ops == [] || (AllProper(ops[..|ops| - 1]) && Proper(ops[..|ops| - 1], ops[|ops| - 1]))
  }

  lemma TrackedMatch(ops: seq<Op>, n: string) returns (uid: string)
    requires n in After(ops).matched
    ensures uid != "" && LatestMatch(ops, uid, n)
  {
    AlwaysNamed(ops);
    uid :| uid in After(ops).matched[n];
    TrackingIsHistory(ops, uid, n);
  }

  lemma RefreshKeeps(ops: seq<Op>, listed: set<string>)
    ensures Cached(Apply(After(ops), Op.Refresh(listed))) <==> Proper(ops, Op.Refresh(listed))
  {
    if Proper(ops, Op.Refresh(listed)) {
      forall n | n in After(ops).matched
        ensures n in listed
      {
        var uid := TrackedMatch(ops, n);
      }
    }
    if Cached(Apply(After(ops), Op.Refresh(listed))) {
      forall uid, n | uid != "" && LatestMatch(ops, uid, n)
        ensures n in listed
      {
        TrackingIsHistory(ops, uid, n);
      }
    }
  }

  lemma ResolveKeeps(s: Tracker, uid: string, names: set<string>)
    requires Cached(s)
    ensures Cached(Apply(s, Op.Resolve(uid, names))) <==> uid == "" || names <= s.policies
  {
    var s' := Apply(s, Op.Resolve(uid, names));
    if uid != "" && Cached(s') {
      forall n | n in names
        ensures n in s.policies
      {
        assert uid in TrackedOf(s.matched, s.policies, names, uid, n);
        assert n in s'.matched;
      }
    }
  }

  /** Exactly when tracked names stay within the cached policies throughout a run: if and
      only if no resolution raced with a removal and every refresh lists all policies that
      are some pod's latest match. */
  lemma {:induction false} CachedExactness(ops: seq<Op>)
    ensures AlwaysCached(ops) <==> AllProper(ops)
  {
    if ops != [] {
      var most, op := ops[..|ops| - 1], ops[|ops| - 1];
      CachedExactness(most);
      match op
      case Add(_) =>
      case Remove(_) =>
      case Resolve(uid, names) =>
        if AlwaysCached(most) {
          ResolveKeeps(After(most), uid, names);
        }
      case Refresh(listed) => RefreshKeeps(most, listed);
    }
  }

  /** A policy dropped by polling and listed again still counts the pod it matched before,
      unless somebody was resolved in between. */
  lemma StaleCount(n: string, uid: string, other: string)
    requires uid != "" && other != "" && other != uid
    ensures MatchedOf(After([Op.Add(n), Op.Resolve(uid, {n}), Op.Refresh({}), Op.Refresh({n})]).matched, n) == {uid}
    ensures var ops := [Op.Add(n), Op.Resolve(uid, {n}), Op.Refresh({}), Op.Resolve(other, {}), Op.Refresh({n})];
            MatchedOf(After(ops).matched, n) == {}
  {
    var added, matched := [] + [Op.Add(n)], [] + [Op.Add(n)] + [Op.Resolve(uid, {n})];
    AfterThen([], Op.Add(n));
    AfterThen(added, Op.Resolve(uid, {n}));
    assert TrackedOf(map[], {n}, {n}, uid, n) == {uid};
    assert MatchedOf(After(matched).matched, n) == {uid};
    var dropped := matched + [Op.Refresh({})];
    AfterThen(matched, Op.Refresh({}));
    AfterThen(dropped, Op.Refresh({n}));
    assert dropped + [Op.Refresh({n})] == [Op.Add(n), Op.Resolve(uid, {n}), Op.Refresh({}), Op.Refresh({n})];
    var pruned := dropped + [Op.Resolve(other, {})];
    AfterThen(dropped, Op.Resolve(other, {}));
    AfterThen(pruned, Op.Refresh({n}));
    assert pruned + [Op.Refresh({n})] ==
           [Op.Add(n), Op.Resolve(uid, {n}), Op.Refresh({}), Op.Resolve(other, {}), Op.Refresh({n})];
  }

  /** A resolution that matched just before the policy was removed leaves the pod tracked
      under a policy that is gone. */
  lemma RaceTracksRemoved(n: string, uid: string)
    requires uid != ""
    ensures var s := After([Op.Add(n), Op.Remove(n), Op.Resolve(uid, {n})]);
            n !in s.policies && MatchedOf(s.matched, n) == {uid}
  {
    var added, removed := [] + [Op.Add(n)], [] + [Op.Add(n)] + [Op.Remove(n)];
    AfterThen([], Op.Add(n));
    AfterThen(added, Op.Remove(n));
    AfterThen(removed, Op.Resolve(uid, {n}));
    assert TrackedOf(map[], {}, {n}, uid, n) == {uid};
    assert removed + [Op.Resolve(uid, {n})] == [Op.Add(n), Op.Remove(n), Op.Resolve(uid, {n})];
  }

  lemma AfterThen(ops: seq<Op>, op: Op)
    ensures After(ops + [op]) == Apply(After(ops), op)
  {
    assert (ops + [op])[..|ops|] == ops;
  }

  /** A policy as the custom resource definition admits it: the weight is up to 10000, or
      omitted; the budget has no maximum. */
  ghost predicate Admitted(p: Policy) {
    0 <= p.weight <= 10_000 && 0 <= p.budgetUs
  }

  lemma ResolvedWeight(policies: map<string, Policy>, matches: Matcher, pod: Pod, w: u64)
    requires WeightResolved(policies, matches, pod, w) && forall n | n in policies :: Admitted(policies[n])
    ensures 1 <= w <= MAX_PRIO_WEIGHT
  {
  }

  /** No annotation and no matching policy sets a weight. */
  ghost predicate Unweighted(policies: map<string, Policy>, matches: Matcher, pod: Pod) {
    ParseAnnotationWeight(pod.annotations) == 0
    && forall n | Applies(policies, matches, pod, n) :: policies[n].weight <= 0
  }

  /** The defaults: then the QoS class decides, 200 for best effort, 800 for burstable and
      1000 for the others. */
  lemma QosDecides(policies: map<string, Policy>, matches: Matcher, pod: Pod, r: TaskParams)
    requires Resolved(policies, matches, pod, r) && Unweighted(policies, matches, pod)
    ensures pod.qos.BestEffort? ==> r.weight == 200
    ensures pod.qos.Burstable? ==> r.weight == 800
    ensures pod.qos.Guaranteed? || pod.qos.Unset? ==> r.weight == 1_000
  {
  }

  /** A valid weight annotation decides, whatever policies match. */
  lemma AnnotationDecides(policies: map<string, Policy>, matches: Matcher, pod: Pod, r: TaskParams, z: nat, w: nat)
    requires Resolved(policies, matches, pod, r)
    requires Get(pod.annotations, "scheduling.fengrru.dev/weight") == Written(z, w) && 1 <= w <= 10_000
    ensures r.weight == w
  {
    WeightPrecedence(pod.annotations, z, w, 0, 0);
  }

  /** Without one, the largest weight a matching policy sets decides, also below the default
      of the pod's QoS class. */
  lemma PolicyDecides(policies: map<string, Policy>, matches: Matcher, pod: Pod, r: TaskParams, n: string)
    requires Resolved(policies, matches, pod, r) && ParseAnnotationWeight(pod.annotations) == 0
    requires Applies(policies, matches, pod, n) && policies[n].weight > 0
    requires forall m | Applies(policies, matches, pod, m) :: policies[m].weight <= policies[n].weight
    ensures r.weight == policies[n].weight
  {
  }

  /** A charge at `1/n` of the weight is `n` times the charge, up to rounding. */
  lemma ChargeRatio(w: u64, n: nat, used: u64, light: u64)
    requires w > 0 && n > 0 && light * n == w && light > 0 && used <= DEFAULT_SLICE_NS
    ensures n * Charge(w, used) <= Charge(light, used) < n * Charge(w, used) + n
  {
    ChargeBounds(w, used);
    ChargeBounds(light, used);
    var c, d: int := Charge(w, used), Charge(light, used);
    assert c * w == (n * c) * light;
    assert (c + 1) * w == (n * c + n) * light;
    QuotientOrder(n * c, d, light);
    QuotientOrder(d, n * c + n - 1, light);
  }

  /** So without configuration, best effort pays four times as much virtual time as burstable
      and five times as much as guaranteed for the same CPU time. */
  lemma QosShares(policies: map<string, Policy>, matches: Matcher, low: Pod, mid: Pod, high: Pod,
                  rl: TaskParams, rm: TaskParams, rh: TaskParams, used: u64)
    requires Resolved(policies, matches, low, rl) && Unweighted(policies, matches, low) && low.qos.BestEffort?
    requires Resolved(policies, matches, mid, rm) && Unweighted(policies, matches, mid) && mid.qos.Burstable?
    requires Resolved(policies, matches, high, rh) && Unweighted(policies, matches, high) && high.qos.Guaranteed?
    requires used <= DEFAULT_SLICE_NS
    ensures 4 * Charge(rm.weight, used) <= Charge(rl.weight, used) < 4 * Charge(rm.weight, used) + 4
    ensures 5 * Charge(rh.weight, used) <= Charge(rl.weight, used) < 5 * Charge(rh.weight, used) + 5
  {
    QosDecides(policies, matches, low, rl);
    QosDecides(policies, matches, mid, rm);
    QosDecides(policies, matches, high, rh);
    ChargeRatio(rm.weight, 4, used, rl.weight);
    ChargeRatio(rh.weight, 5, used, rl.weight);
  }

  predicate SetsBudget(policies: map<string, Policy>, matches: Matcher, pod: Pod, n: string) {
    Applies(policies, matches, pod, n) && policies[n].budgetUs > 0
  }

  /** Some matching budget is at least `ns` after conversion. */
  ghost predicate SomeReaches(policies: map<string, Policy>, matches: Matcher, pod: Pod, ns: nat) {
    exists n :: SetsBudget(policies, matches, pod, n) && BudgetNs(policies[n]) >= ns
  }

  ghost predicate AllVanish(policies: map<string, Policy>, matches: Matcher, pod: Pod) {
    forall n | SetsBudget(policies, matches, pod, n) :: BudgetNs(policies[n]) == 0
  }

  /** The budget that decides is not one that wrapped to less than a microsecond. */
  ghost predicate NotTiny(policies: map<string, Policy>, matches: Matcher, pod: Pod) {
    var annotated := ParseAnnotationBudget(pod.annotations);
    if annotated > 0 then annotated >= 1000
    else SomeReaches(policies, matches, pod, 1000) || AllVanish(policies, matches, pod)
  }

  lemma ResolvedReaches(policies: map<string, Policy>, matches: Matcher, pod: Pod, b: u64, ns: nat)
    requires BudgetResolved(policies, matches, pod, b) && ParseAnnotationBudget(pod.annotations) == 0 && ns > 0
    ensures b >= ns <==> SomeReaches(policies, matches, pod, ns)
    ensures b == 0 <==> AllVanish(policies, matches, pod)
  {
    if b != 0 {
      var n :| Applies(policies, matches, pod, n) && policies[n].budgetUs > 0 && BudgetNs(policies[n]) == b;
      assert SetsBudget(policies, matches, pod, n);
    }
    if n :| SetsBudget(policies, matches, pod, n) && BudgetNs(policies[n]) >= ns {
      assert Applies(policies, matches, pod, n) && BudgetNs(policies[n]) <= b;
    }
  }

  /** Whatever admitted policies resolve to, the kernel sees a weight of 1 to 10000, a slice
      of 1 ns to 5 ms, and for any remaining slice a charge between the time used and 10000
      times it, computed without overflow; the slice is at least a microsecond exactly when
      the budget that decides did not wrap to less. */
  lemma ResolverDischargesKernel(policies: map<string, Policy>, matches: Matcher, pod: Pod, r: TaskParams,
                                 remaining: u64)
    requires Resolved(policies, matches, pod, r) && forall n | n in policies :: Admitted(policies[n])
    ensures 1 <= r.weight <= MAX_PRIO_WEIGHT
    ensures 1 <= TaskSlice(r) <= DEFAULT_SLICE_NS
    ensures 1000 <= TaskSlice(r) <==> NotTiny(policies, matches, pod)
    ensures var used := UsedNs(TaskSlice(r), remaining);
            used <= Charge(r.weight, used) <= MAX_PRIO_WEIGHT * used < TWO64
  {
    ResolvedWeight(policies, matches, pod, r.weight);
    if ParseAnnotationBudget(pod.annotations) == 0 {
      ResolvedReaches(policies, matches, pod, r.budgetNs, 1000);
    }
    SaneCharge(r, UsedNs(TaskSlice(r), remaining));
  }

  lemma SaneCharge(r: TaskParams, used: u64)
    requires 1 <= r.weight <= MAX_PRIO_WEIGHT && used <= DEFAULT_SLICE_NS
    ensures used <= Charge(r.weight, used) <= MAX_PRIO_WEIGHT * used < TWO64
  {
    ChargeBounds(r.weight, used);
    ChargeAtLeastUsed(r.weight, used);
  }

  /** `us` is the largest budget a matching policy sets, 0 if none does. */
  ghost predicate LargestBudget(policies: map<string, Policy>, matches: Matcher, pod: Pod, us: nat) {
    && (us > 0 ==> exists n :: SetsBudget(policies, matches, pod, n) && policies[n].budgetUs == us)
    && (forall n | SetsBudget(policies, matches, pod, n) :: policies[n].budgetUs <= us)
  }

  lemma ShortConversion(p: Policy)
    requires 0 < p.budgetUs < 5000
    ensures BudgetNs(p) == 1000 * p.budgetUs
  {
  }

  lemma ShortBudgets(policies: map<string, Policy>, matches: Matcher, pod: Pod, b: u64, us: nat)
    requires BudgetResolved(policies, matches, pod, b) && ParseAnnotationBudget(pod.annotations) == 0
    requires LargestBudget(policies, matches, pod, us) && us < 5000
    ensures b == us * 1000
  {
    if b != 0 {
      var n :| Applies(policies, matches, pod, n) && policies[n].budgetUs > 0 && BudgetNs(policies[n]) == b;
      assert SetsBudget(policies, matches, pod, n);
      ShortConversion(policies[n]);
    }
    if us > 0 {
      var n :| SetsBudget(policies, matches, pod, n) && policies[n].budgetUs == us;
      assert Applies(policies, matches, pod, n) && BudgetNs(policies[n]) <= b;
      ShortConversion(policies[n]);
    }
  }

  /** Exactly when the policies' largest budget is the slice that counts: unless it is no
      cap and the conversions wrap so that all of them look like small ones. */
  lemma PolicyBudgetExactness(policies: map<string, Policy>, matches: Matcher, pod: Pod, r: TaskParams, us: nat)
    requires Resolved(policies, matches, pod, r) && ParseAnnotationBudget(pod.annotations) == 0
    requires LargestBudget(policies, matches, pod, us)
    ensures TaskSlice(r) == IntendedSlice(us) <==>
            us < 5000 || SomeReaches(policies, matches, pod, DEFAULT_SLICE_NS) || AllVanish(policies, matches, pod)
  {
    if us < 5000 {
      ShortBudgets(policies, matches, pod, r.budgetNs, us);
    } else {
      ResolvedReaches(policies, matches, pod, r.budgetNs, DEFAULT_SLICE_NS);
    }
  }

  /** An admitted policy with a budget of about 584 years gives a slice of 384 ns. */
  lemma PolicyBudgetWraps(p: Policy, matches: Matcher, pod: Pod, r: TaskParams)
    requires p.budgetUs == 18_446_744_073_709_552 && matches(p, pod) && ParseAnnotationBudget(pod.annotations) == 0
    requires Resolved(map[p.name := p], matches, pod, r)
    ensures TaskSlice(r) == 384 && IntendedSlice(p.budgetUs) == DEFAULT_SLICE_NS
  {
    assert Applies(map[p.name := p], matches, pod, p.name) && BudgetNs(p) == 384;
  }

  /** The annotated budget decides: it parses and does not convert to 0. */
  predicate Decides(us: nat) {
    us < TWO64 && us * 1000 % TWO64 > 0
  }

  /** Exactly when a pod gets the slice its budget annotation means, whatever policies match:
      if the annotation decides, unless it wraps to a small budget; if it converts to 0 or
      does not parse, a policy takes over, and the result is the default slice that was meant
      only if the policies give no cap either. */
  lemma AnnotatedBudgetExactness(policies: map<string, Policy>, matches: Matcher, pod: Pod, r: TaskParams,
                                 z: nat, us: nat)
    requires Resolved(policies, matches, pod, r) && Get(pod.annotations, BUDGET) == Written(z, us)
    ensures TaskSlice(r) == IntendedSlice(us) <==>
            if Decides(us) then us <= (TWO64 - 1) / 1000 || us * 1000 % TWO64 >= DEFAULT_SLICE_NS
            else SomeReaches(policies, matches, pod, DEFAULT_SLICE_NS) || AllVanish(policies, matches, pod)
  {
    BudgetOfWritten(pod.annotations, z, us);
    if Decides(us) {
      ConvertedSlice(us, r.weight);
    } else {
      NotDeciding(us);
      ResolvedReaches(policies, matches, pod, r.budgetNs, DEFAULT_SLICE_NS);
    }
  }

  lemma NotDeciding(us: nat)
    requires !Decides(us)
    ensures IntendedSlice(us) == DEFAULT_SLICE_NS
  {
  }

  /** An annotation of 2^61 microseconds converts to 0, so a policy of 100 microseconds is
      applied although annotations are meant to take precedence. */
  lemma AnnotationLosesToPolicy(p: Policy, matches: Matcher, pod: Pod, r: TaskParams)
    requires ParseUint(Get(pod.annotations, BUDGET)) == Some(0x2000_0000_0000_0000)
    requires p.budgetUs == 100 && matches(p, pod) && Resolved(map[p.name := p], matches, pod, r)
    ensures TaskSlice(r) == 100_000 && IntendedSlice(0x2000_0000_0000_0000) == DEFAULT_SLICE_NS
  {
    assert ParseAnnotationBudget(pod.annotations) == 0;
    assert Applies(map[p.name := p], matches, pod, p.name) && BudgetNs(p) == 100_000;
  }
}
