/** Scheduling parameters as the kernel side sees them: the two parameter maps,
    the slice a task is given, and what a stop charges to its virtual time. */
module Params {

  const TWO64: int := 0x1_0000_0000_0000_0000
  const TWO63: int := 0x8000_0000_0000_0000

  type u32 = x: int | 0 <= x < 0x1_0000_0000
  type u64 = x: int | 0 <= x < 0x1_0000_0000_0000_0000

  const MAX_PRIO_WEIGHT: u64 := 10_000
  const DEFAULT_WEIGHT: u64 := 1_000
  const DEFAULT_SLICE_NS: u64 := 5_000_000

  /** The largest charge of one stop: a full default slice at divisor 1. */
  const MAX_CHARGE: int := 50_000_000_000

  datatype TaskParams = TaskParams(weight: u64, budgetNs: u64)

  type TgidMap = map<u32, TaskParams>
  type CgroupMap = map<u64, TaskParams>

  datatype Found = Found(tp: TaskParams, explicit: bool)

  const DEFAULT_PARAMS := TaskParams(DEFAULT_WEIGHT, 0)

  /** Parameters of a task: the per-process entry wins over the cgroup entry, cgroup
      id 0 means the cgroup could not be determined, and defaults apply otherwise. */
  function Lookup(byTgid: TgidMap, byCgroup: CgroupMap, tgid: u32, cgid: u64): (r: Found)
    ensures !r.explicit <==> tgid !in byTgid && (cgid == 0 || cgid !in byCgroup)
    ensures !r.explicit ==> r.tp == DEFAULT_PARAMS
  {
    if tgid in byTgid then Found(byTgid[tgid], true)
    else if cgid != 0 && cgid in byCgroup then Found(byCgroup[cgid], true)
    else Found(DEFAULT_PARAMS, false)
  }

  /** An explicit entry of the process wins, whatever the cgroup map holds and whichever
      cgroup the task is in; without one the cgroup's entry applies. */
  lemma ProcessEntryWins(byTgid: TgidMap, byCgroup: CgroupMap, tgid: u32, cgid: u64)
    ensures tgid in byTgid ==>
              forall m: CgroupMap, c :: Lookup(byTgid, m, tgid, c) == Found(byTgid[tgid], true)
    ensures tgid !in byTgid && cgid != 0 && cgid in byCgroup ==>
              Lookup(byTgid, byCgroup, tgid, cgid) == Found(byCgroup[cgid], true)
  {
  }

  /** A budget can only shorten the slice, and 0 means no budget. */
  function TaskSlice(tp: TaskParams): (r: u64)
    ensures 0 < r <= DEFAULT_SLICE_NS
    ensures r < DEFAULT_SLICE_NS ==> r == tp.budgetNs
    ensures 0 < tp.budgetNs ==> r <= tp.budgetNs
  {
    if tp.budgetNs != 0 && tp.budgetNs < DEFAULT_SLICE_NS then tp.budgetNs else DEFAULT_SLICE_NS
  }

  /** The consumed part of a slice, by wrapping u64 subtraction and the underflow guard.
      The kernel may have refilled `remaining` above `slice`: then the whole slice counts. */
  function UsedNs(slice: u64, remaining: u64): (r: u64)
    ensures r == if remaining <= slice then slice - remaining else slice
  {
    var used := (slice - remaining) % TWO64;
    if used > slice then slice else used
  }

  function Max(x: int, y: int): int {
    if x < y then y else x
  }

  function Divisor(weight: u64): (r: u64)
    ensures r >= 1
  {
    if weight == 0 then 1 else weight
  }

  /** Virtual time charged for `used` nanoseconds. */
  function Charge(weight: u64, used: u64): (r: int)
  {
    (used * MAX_PRIO_WEIGHT) / Divisor(weight)
  }

  lemma DivBounds(x: int, d: int)
    requires 0 <= x && 1 <= d
    ensures 0 <= x / d <= x
    ensures x / d * d <= x < (x / d + 1) * d
  {
  }

  lemma MulMonotone(a: int, b: int, d: int)
    requires a <= b && 0 <= d
    ensures a * d <= b * d
  {
  }

  /** Compares two quotients by the ranges their dividends lie in. */
  lemma QuotientOrder(a: int, b: int, d: int)
    requires 1 <= d && a * d < (b + 1) * d
    ensures a <= b
  {
    if a >= b + 1 {
      MulMonotone(b + 1, a, d);
    }
  }

  /** The charge is 10000 times the time over the weight, rounded down by less than one unit;
      weight 0 counts as 1. It is never more than a full default slice at weight 1, so
      nothing in it wraps. */
  lemma ChargeBounds(weight: u64, used: u64)
    requires used <= DEFAULT_SLICE_NS
    ensures 0 <= Charge(weight, used) <= 10_000 * used <= MAX_CHARGE
    ensures weight > 0 ==> Charge(weight, used) * weight <= 10_000 * used < (Charge(weight, used) + 1) * weight
    ensures weight == 0 ==> Charge(weight, used) == 10_000 * used
  {
    DivBounds(used * MAX_PRIO_WEIGHT, Divisor(weight));
  }

  /** For weights up to the maximum every nanosecond used costs at least one unit. */
  lemma ChargeAtLeastUsed(weight: u64, used: u64)
    requires weight <= MAX_PRIO_WEIGHT
    ensures used <= Charge(weight, used)
  {
    var d := Divisor(weight);
    DivBounds(used * MAX_PRIO_WEIGHT, d);
    MulMonotone(d, MAX_PRIO_WEIGHT, used);
    QuotientOrder(used, Charge(weight, used), d);
  }

  /** A longer run is never charged less. */
  lemma ChargeMonotone(weight: u64, used: u64, more: u64)
    requires used <= more
    ensures Charge(weight, used) <= Charge(weight, more)
  {
    var d := Divisor(weight);
    DivBounds(used * MAX_PRIO_WEIGHT, d);
    DivBounds(more * MAX_PRIO_WEIGHT, d);
    QuotientOrder(Charge(weight, used), Charge(weight, more), d);
  }

  /** What a full default slice costs at the three weights of the documentation. */
  lemma WorkedCharges()
    ensures Charge(10_000, 5_000_000) == 5_000_000
    ensures Charge(1_000, 5_000_000) == 50_000_000
    ensures Charge(100, 5_000_000) == 500_000_000
  {
  }

  /** A task nothing was written for has weight 1000 and a slice of 5 ms. */
  lemma DefaultTask(tgid: u32, cgid: u64)
    ensures Lookup(map[], map[], tgid, cgid) == Found(TaskParams(1_000, 0), false)
    ensures TaskSlice(Lookup(map[], map[], tgid, cgid).tp) == 5_000_000
  {
  }
}
