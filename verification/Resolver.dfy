/** Resolution of a pod's scheduling parameters from policies, annotations and QoS class,
    and the tracking of which pods match which policy. */
module Resolver {
  import opened Wrappers
  import opened Params
  import opened Annotations

  datatype Qos = Guaranteed | Burstable | BestEffort | Unset

  datatype Pod = Pod(uid: string, qos: Qos, annotations: Annotated)

  type i32 = x: int | -0x8000_0000 <= x < 0x8000_0000
  type i64 = x: int | -0x8000_0000_0000_0000 <= x < 0x8000_0000_0000_0000

  /** A weight or budget of 0 means not set. */
  datatype Policy = Policy(name: string, version: string, weight: i32, budgetUs: i64)

  /** Selector and CEL condition of a policy against a pod. */
  type Matcher = (Policy, Pod) -> bool

  function QosDefaultWeight(qos: Qos): u64 {
    match qos
    case Guaranteed => 1000
    case Burstable => 800
    case BestEffort => 200
    case Unset => 1000
  }

  function BudgetNs(p: Policy): u64
    requires p.budgetUs > 0
  {
    p.budgetUs * 1000 % TWO64
  }

  predicate Applies(policies: map<string, Policy>, matches: Matcher, pod: Pod, n: string) {
    n in policies && matches(policies[n], pod)
  }

  function MatchingNames(policies: map<string, Policy>, matches: Matcher, pod: Pod): set<string> {
    set n | n in policies && matches(policies[n], pod)
  }

  /** The weight order: annotation, then the largest weight of a matching policy, then the
      QoS default. */
  ghost predicate WeightResolved(policies: map<string, Policy>, matches: Matcher, pod: Pod, w: u64) {
    var annotated := ParseAnnotationWeight(pod.annotations);
    if annotated > 0 then w == annotated
    else if exists n :: Applies(policies, matches, pod, n) && policies[n].weight > 0 then
      && (exists n :: Applies(policies, matches, pod, n) && policies[n].weight == w)
      && (forall n | Applies(policies, matches, pod, n) :: policies[n].weight <= w)
    else w == QosDefaultWeight(pod.qos)
  }

  /** The budget order: annotation, then the largest budget of a matching policy, then 0. */
  ghost predicate BudgetResolved(policies: map<string, Policy>, matches: Matcher, pod: Pod, b: u64) {
    var annotated := ParseAnnotationBudget(pod.annotations);
    if annotated > 0 then b == annotated
    else
      && (b != 0 ==>
            exists n :: Applies(policies, matches, pod, n) && policies[n].budgetUs > 0 && BudgetNs(policies[n]) == b)
      && (forall n | Applies(policies, matches, pod, n) && policies[n].budgetUs > 0 :: BudgetNs(policies[n]) <= b)
  }

  ghost predicate Resolved(policies: map<string, Policy>, matches: Matcher, pod: Pod, r: TaskParams) {
    WeightResolved(policies, matches, pod, r.weight) && BudgetResolved(policies, matches, pod, r.budgetNs)
  }

  /** The resolution order leaves no choice, so no iteration order can matter. */
  lemma ResolvedUnique(policies: map<string, Policy>, matches: Matcher, pod: Pod, r: TaskParams, r': TaskParams)
    requires Resolved(policies, matches, pod, r) && Resolved(policies, matches, pod, r')
    ensures r == r'
  {
  }

  /** Pods tracked under a policy name. */
  function MatchedOf(matched: map<string, set<string>>, n: string): set<string> {
    if n in matched then matched[n] else {}
  }

  /** What tracking a pod leaves under a name: names without a policy are dropped, and the
      pod is under exactly the names it matched. */
  function TrackedOf(matched: map<string, set<string>>, policies: set<string>, names: set<string>, uid: string,
                     n: string): set<string>
  {
    (if n in policies then MatchedOf(matched, n) - {uid} else {}) + if n in names then {uid} else {}
  }

  function Tracked(matched: map<string, set<string>>, policies: set<string>, names: set<string>,
                   uid: string): map<string, set<string>>
  {
    if uid == "" then matched
    else
      map n | n in matched.Keys + names && TrackedOf(matched, policies, names, uid, n) != {} ::
        TrackedOf(matched, policies, names, uid, n)
  }

  /** One operation of the resolver. A resolution names what matched when it looked, which
      another goroutine may have removed since; a refresh names all policies listed. */
  datatype Op =
    | Add(n: string)
    | Remove(n: string)
    | Resolve(uid: string, names: set<string>)
    | Refresh(listed: set<string>)

  datatype Tracker = Tracker(policies: set<string>, matched: map<string, set<string>>)

  const UNTRACKED := Tracker({}, map[])

  function Apply(s: Tracker, op: Op): Tracker {
    match op
    case Add(n) => s.(policies := s.policies + {n})
    case Remove(n) => Tracker(s.policies - {n}, s.matched - {n})
    case Resolve(uid, names) => s.(matched := Tracked(s.matched, s.policies, names, uid))
    case Refresh(listed) => s.(policies := listed)
  }

  /** A policy is stored unless its version is cached already. */
  function Stored(policies: map<string, Policy>, p: Policy): map<string, Policy> {
    if p.name in policies && policies[p.name].version == p.version then policies else policies[p.name := p]
  }

  function StoredAll(policies: map<string, Policy>, items: seq<Policy>): map<string, Policy> {
    if items == [] then policies else Stored(StoredAll(policies, items[..|items| - 1]), items[|items| - 1])
  }

  function NamesOf(items: seq<Policy>): set<string> {
    set i | 0 <= i < |items| :: items[i].name
  }

  function Only(policies: map<string, Policy>, names: set<string>): map<string, Policy> {
    map n | n in policies && n in names :: policies[n]
  }

  lemma NamesSnoc(items: seq<Policy>, i: nat)
    requires i < |items|
    ensures NamesOf(items[..i + 1]) == NamesOf(items[..i]) + {items[i].name}
  {
    forall n
      ensures n in NamesOf(items[..i + 1]) <==> n in NamesOf(items[..i]) || n == items[i].name
    {
      if n in NamesOf(items[..i]) {
        var j :| 0 <= j < i && items[..i][j].name == n;
        assert items[..i + 1][j].name == n;
      }
      assert items[..i + 1][i].name == items[i].name;
    }
  }

  lemma {:induction false} StoredAllKeys(policies: map<string, Policy>, items: seq<Policy>)
    ensures StoredAll(policies, items).Keys == policies.Keys + NamesOf(items)
  {
    if items != [] {
      var n := |items| - 1;
      StoredAllKeys(policies, items[..n]);
      NamesSnoc(items, n);
      assert items[..n + 1] == items;
    }
  }

  class PolicyResolver {
    const matches: Matcher
    var policies: map<string, Policy>
    var matched: map<string, set<string>>

    /** Cached names and what is tracked under them. */
    ghost function View(): Tracker
      reads this
    {
      Tracker(policies.Keys, matched)
    }

    constructor (matches: Matcher)
      ensures this.matches == matches && policies == map[] && matched == map[] && View() == UNTRACKED
    {
      this.matches := matches;
      policies, matched := map[], map[];
    }

    method AddPolicy(p: Policy)
      modifies this`policies
      ensures View() == Apply(old(View()), Op.Add(p.name))
      ensures policies == Stored(old(policies), p)
      ensures p.name in policies && policies[p.name].version == p.version
      ensures if p.name in old(policies) && old(policies)[p.name].version == p.version
              then policies[p.name] == old(policies)[p.name] else policies[p.name] == p
      ensures forall n | n != p.name :: n in policies <==> n in old(policies)
      ensures forall n | n != p.name && n in policies :: policies[n] == old(policies)[n]
    {
      if p.name in policies && policies[p.name].version == p.version {
        return;
      }
      policies := policies[p.name := p];
    }

    method RemovePolicy(n: string)
      modifies this`policies, this`matched
      ensures View() == Apply(old(View()), Op.Remove(n))
      ensures policies == old(policies) - {n}
    {
      policies := policies - {n};
      matched := matched - {n};
    }

    /** The polling fallback: stores what was listed and drops what was not; a failed
        listing changes nothing. What is tracked is left alone. */
    method RefreshPolicies(list: Option<seq<Policy>>)
      modifies this`policies
      ensures list.None? ==> policies == old(policies)
      ensures list.Some? ==> View() == Apply(old(View()), Op.Refresh(NamesOf(list.value)))
      ensures list.Some? ==> policies == Only(StoredAll(old(policies), list.value), NamesOf(list.value))
    {
      if list.None? {
        return;
      }
      var items := list.value;
      var seen: set<string> := {};
      for i := 0 to |items|
        invariant policies == StoredAll(old(policies), items[..i]) && seen == NamesOf(items[..i])
      {
        NamesSnoc(items, i);
        assert items[..i + 1][..i] == items[..i];
        seen := seen + {items[i].name};
        AddPolicy(items[i]);
      }
      assert items[..|items|] == items;
      StoredAllKeys(old(policies), items);
      DropUnseen(seen);
    }

    method DropUnseen(seen: set<string>)
      modifies this`policies
      ensures policies == Only(old(policies), seen)
    {
      var rest := policies.Keys;
      while rest != {}
        invariant rest <= old(policies).Keys
        invariant policies == map n | n in old(policies) && (n in rest || n in seen) :: old(policies)[n]
        decreases rest
      {
        var n :| n in rest;
        if n !in seen {
          policies := policies - {n};
        }
        rest := rest - {n};
      }
    }

    /** The matching policies' names, in whatever order the map is iterated. */
    method GetMatchingPolicies(pod: Pod) returns (names: seq<string>)
      ensures forall n :: n in names <==> Applies(policies, matches, pod, n)
    {
      names := [];
      var rest := policies.Keys;
      while rest != {}
        invariant rest <= policies.Keys
        invariant forall n :: n in names <==> Applies(policies, matches, pod, n) && n !in rest
        decreases rest
      {
        var n :| n in rest;
        if matches(policies[n], pod) {
          names := names + [n];
        }
        rest := rest - {n};
      }
    }

    /** The fold over the matching policies: the largest weight and the largest budget. */
    method FoldPolicies(names: seq<string>) returns (weight: u64, budgetNs: u64)
      requires forall n | n in names :: n in policies
      ensures forall n | n in names :: policies[n].weight <= weight
      ensures weight > 0 ==> exists n :: n in names && policies[n].weight == weight
      ensures forall n | n in names && policies[n].budgetUs > 0 :: BudgetNs(policies[n]) <= budgetNs
      ensures budgetNs > 0 ==> exists n :: n in names && policies[n].budgetUs > 0 && BudgetNs(policies[n]) == budgetNs
    {
      weight, budgetNs := 0, 0;
      for i := 0 to |names|
        invariant forall j | 0 <= j < i :: policies[names[j]].weight <= weight
        invariant weight > 0 ==> exists n :: n in names && policies[n].weight == weight
        invariant forall j | 0 <= j < i && policies[names[j]].budgetUs > 0 :: BudgetNs(policies[names[j]]) <= budgetNs
        invariant budgetNs > 0 ==>
                    exists n :: n in names && policies[n].budgetUs > 0 && BudgetNs(policies[n]) == budgetNs
      {
        assert names[i] in names;
        var p := policies[names[i]];
        if p.weight > 0 {
          if p.weight > weight {
            weight := p.weight;
          }
        }
        if p.budgetUs > 0 {
          var ns := p.budgetUs * 1000 % TWO64;
          if ns > budgetNs {
            budgetNs := ns;
          }
        }
      }
    }

    method Resolve(pod: Pod) returns (r: TaskParams)
      modifies this`matched
      ensures Resolved(policies, matches, pod, r)
      ensures View() == Apply(old(View()), Op.Resolve(pod.uid, MatchingNames(policies, matches, pod)))
    {
      var names := GetMatchingPolicies(pod);
      var policyWeight, budgetNs := FoldPolicies(names);
      var weight := QosDefaultWeight(pod.qos);
      if policyWeight > 0 {
        weight := policyWeight;
      }
      var w := ParseAnnotationWeight(pod.annotations);
      if w > 0 {
        weight := w;
      }
      var b := ParseAnnotationBudget(pod.annotations);
      if b > 0 {
        budgetNs := b;
      }
      r := TaskParams(weight, budgetNs);
      TrackMatchedPods(names, pod.uid);
      assert Keys(names) == MatchingNames(policies, matches, pod);
    }

    method TrackMatchedPods(names: seq<string>, uid: string)
      modifies this`matched
      ensures matched == Tracked(old(matched), policies.Keys, Keys(names), uid)
    {
      if uid == "" {
        return;
      }
      PruneMatched(uid);
      AddMatched(names, uid);
      SameTracking(matched, Tracked(old(matched), policies.Keys, Keys(names), uid));
    }

    /** Puts the pod under every name it matched. */
    method AddMatched(names: seq<string>, uid: string)
      requires forall n | n in matched :: matched[n] != {}
      modifies this`matched
      ensures forall n :: MatchedOf(matched, n) == MatchedOf(old(matched), n) + if n in names then {uid} else {}
      ensures forall n | n in matched :: matched[n] != {}
    {
      for i := 0 to |names|
        invariant forall n ::
                    MatchedOf(matched, n) == MatchedOf(old(matched), n) + if n in names[..i] then {uid} else {}
        invariant forall n | n in matched :: matched[n] != {}
      {
        assert names[..i + 1] == names[..i] + [names[i]];
        var before := if names[i] in matched then matched[names[i]] else {};
        matched := matched[names[i] := before + {uid}];
      }
      assert names[..|names|] == names;
    }

    /** Drops names without a policy, the pod everywhere, and names left without pods. */
    method PruneMatched(uid: string)
      modifies this`matched
      ensures forall n :: MatchedOf(matched, n) == if n in policies then MatchedOf(old(matched), n) - {uid} else {}
      ensures forall n | n in matched :: matched[n] != {}
    {
      var rest := matched.Keys;
      while rest != {}
        invariant rest <= matched.Keys
        invariant forall n | n in rest :: n in old(matched) && matched[n] == old(matched)[n]
        invariant forall n | n !in rest ::
                    MatchedOf(matched, n) == if n in policies then MatchedOf(old(matched), n) - {uid} else {}
        invariant forall n | n in matched && n !in rest :: matched[n] != {}
        decreases rest
      {
        var n :| n in rest;
        rest := rest - {n};
        if n !in policies {
          matched := matched - {n};
        } else {
          var left := matched[n] - {uid};
          if left == {} {
            matched := matched - {n};
          } else {
            matched := matched[n := left];
          }
        }
      }
    }

    method ActivePodCount(n: string) returns (count: int)
      ensures count == ToInt32(|MatchedOf(matched, n)|)
      ensures |MatchedOf(matched, n)| < 0x8000_0000 ==> count == |MatchedOf(matched, n)|
    {
      if n in matched {
        return ToInt32(|matched[n]|);
      }
      return 0;
    }
  }

  /** Conversion to a 32-bit signed integer. */
  function ToInt32(x: int): int {
    (x + 0x8000_0000) % 0x1_0000_0000 - 0x8000_0000
  }

  /** Maps without empty sets are equal when they track the same pods under every name. */
  lemma SameTracking(m: map<string, set<string>>, m': map<string, set<string>>)
    requires forall n :: MatchedOf(m, n) == MatchedOf(m', n)
    requires (forall n | n in m :: m[n] != {}) && forall n | n in m' :: m'[n] != {}
    ensures m == m'
  {
    forall n
      ensures n in m <==> n in m'
    {
      assert MatchedOf(m, n) == MatchedOf(m', n);
    }
    assert forall n | n in m :: m[n] == MatchedOf(m', n);
  }
}
