/** Scheduling parameters from pod annotations. */
module Annotations {
  import opened Wrappers
  import opened Params

  const WEIGHT := "scheduling.fengrru.dev/weight"
  const BUDGET := "scheduling.fengrru.dev/budget-microseconds"
  const IMPORTANCE := "scheduling.fengrru.dev/importance"

  type Annotated = map<string, string>

  function Get(ann: Annotated, key: string): string {
    if key in ann then ann[key] else ""
  }

  predicate IsDigit(c: char) {
    '0' <= c <= '9'
  }

  function Num(c: char): nat
    requires IsDigit(c)
  {
    c as int - '0' as int
  }

  function Digit(d: nat): (c: char)
    requires d < 10
    ensures IsDigit(c) && Num(c) == d
  {
    ('0' as int + d) as char
  }

  lemma DigitOfNum(c: char)
    requires IsDigit(c)
    ensures Num(c) < 10 && Digit(Num(c)) == c
  {
  }

  predicate AllDigits(s: string) {
    forall i | 0 <= i < |s| :: IsDigit(s[i])
  }

  function Value(s: string): nat
    requires AllDigits(s)
  {
    if s == [] then 0 else 10 * Value(s[..|s| - 1]) + Num(s[|s| - 1])
  }

  /** Base-10 parsing into 64 bits: digits only, at least one, and no overflow. */
  function ParseUint(s: string): Option<u64> {
    if s == "" || !AllDigits(s) || Value(s) >= TWO64 then None else Some(Value(s))
  }

  function Decimal(n: nat): (s: string)
    ensures s != "" && AllDigits(s)
  {
    if n < 10 then [Digit(n)] else Decimal(n / 10) + [Digit(n % 10)]
  }

  /** 0 means not set. An explicit weight wins over the importance; a value that does not
      parse or is out of range counts as not set. */
  function ParseAnnotationWeight(ann: Annotated): (w: u64)
    ensures w <= MAX_PRIO_WEIGHT
  {
    var explicit := ParseUint(Get(ann, WEIGHT));
    if explicit.Some? && 1 <= explicit.value <= 10_000 then explicit.value
    else
      var importance := ParseUint(Get(ann, IMPORTANCE));
      if importance.Some? && 0 < importance.value <= 100 then importance.value * 100 else 0
  }

  /** Nanoseconds, multiplied in u64: 0 means not set. */
  function ParseAnnotationBudget(ann: Annotated): (b: u64) {
    var us := ParseUint(Get(ann, BUDGET));
    if us.Some? && us.value > 0 then us.value * 1000 % TWO64 else 0
  }

  function Zeros(z: nat): string {
    if z == 0 then "" else Zeros(z - 1) + "0"
  }

  /** The number `n` as users may write it: with any number of leading zeros. */
  function Written(z: nat, n: nat): string {
    Zeros(z) + Decimal(n)
  }

  lemma {:induction false} ZerosDigits(z: nat)
    ensures AllDigits(Zeros(z)) && Value(Zeros(z)) == 0
  {
    if z > 0 {
      ZerosDigits(z - 1);
      assert (Zeros(z - 1) + "0")[..|Zeros(z - 1)|] == Zeros(z - 1);
    }
  }

  lemma ValueSnoc(s: string, c: char)
    requires AllDigits(s) && IsDigit(c)
    ensures AllDigits(s + [c]) && Value(s + [c]) == 10 * Value(s) + Num(c)
  {
    assert (s + [c])[..|s|] == s;
  }

  lemma {:induction false} WrittenValue(z: nat, n: nat)
    ensures Written(z, n) != "" && AllDigits(Written(z, n)) && Value(Written(z, n)) == n
  {
    if n < 10 {
      ZerosDigits(z);
      ValueSnoc(Zeros(z), Digit(n));
    } else {
      WrittenValue(z, n / 10);
      ValueSnoc(Written(z, n / 10), Digit(n % 10));
      assert Written(z, n) == Written(z, n / 10) + [Digit(n % 10)];
    }
  }

  lemma DecimalSnoc(n: nat, c: char)
    requires n > 0 && IsDigit(c)
    ensures Decimal(10 * n + Num(c)) == Decimal(n) + [c]
  {
    DigitOfNum(c);
    var m := 10 * n + Num(c);
    assert m / 10 == n && m % 10 == Num(c);
  }

  lemma OneDigit(c: char)
    requires IsDigit(c)
    ensures Decimal(Num(c)) == [c]
  {
    DigitOfNum(c);
  }

  /** One more digit after a number written with `y` leading zeros. */
  lemma WrittenSnoc(y: nat, n: nat, c: char) returns (z: nat)
    requires IsDigit(c)
    ensures Written(y, n) + [c] == Written(z, 10 * n + Num(c))
  {
    if n == 0 {
      z := y + 1;
      OneDigit(c);
      assert Written(y, 0) == Zeros(z);
    } else {
      z := y;
      DecimalSnoc(n, c);
      assert Zeros(z) + Decimal(n) + [c] == Zeros(z) + (Decimal(n) + [c]);
    }
  }

  lemma OneWritten(c: char)
    requires IsDigit(c)
    ensures [c] == Written(0, Num(c))
  {
    OneDigit(c);
  }

  lemma {:induction false} DigitsSnoc(front: string, c: char) returns (z: nat)
    requires AllDigits(front) && IsDigit(c)
    ensures front + [c] == Written(z, 10 * Value(front) + Num(c))
  {
    if front == "" {
      z := 0;
      OneWritten(c);
      assert front + [c] == [c];
    } else {
      var n := |front| - 1;
      var y := DigitsSnoc(front[..n], front[n]);
      assert front == front[..n] + [front[n]];
      z := WrittenSnoc(y, Value(front), c);
    }
  }

  /** Every digit string is a number written with leading zeros. */
  lemma DigitsAreWritten(s: string) returns (z: nat)
    requires s != "" && AllDigits(s)
    ensures s == Written(z, Value(s))
  {
    z := DigitsSnoc(s[..|s| - 1], s[|s| - 1]);
    assert s == s[..|s| - 1] + [s[|s| - 1]];
  }

  /** Parsing inverts writing, with or without leading zeros, on every u64, rejects every
      larger number, and accepts nothing else. */
  lemma ParseRoundTrip(z: nat, n: nat)
    ensures ParseUint(Written(z, n)) == if n < TWO64 then Some(n) else None
  {
    WrittenValue(z, n);
  }

  lemma ParseOnlyWritten(s: string) returns (z: nat)
    requires ParseUint(s).Some?
    ensures s == Written(z, ParseUint(s).value)
  {
    z := DigitsAreWritten(s);
  }

  /** A text that does not set a value up to `max`: missing, malformed, or out of range. */
  predicate Unset(text: string, z: nat, n: nat, max: nat) {
    text == "" || !AllDigits(text) || (text == Written(z, n) && !(1 <= n <= max))
  }

  /** Which annotation decides: a valid weight, whatever the importance; else a valid
      importance; else neither. With `DigitsAreWritten` this covers every pair of texts. */
  lemma WeightPrecedence(ann: Annotated, z: nat, weight: nat, y: nat, importance: nat)
    ensures Get(ann, WEIGHT) == Written(z, weight) && 1 <= weight <= 10_000 ==> ParseAnnotationWeight(ann) == weight
    ensures Unset(Get(ann, WEIGHT), z, weight, 10_000) ==>
              && (Get(ann, IMPORTANCE) == Written(y, importance) && 1 <= importance <= 100 ==>
                    ParseAnnotationWeight(ann) == 100 * importance)
              && (Unset(Get(ann, IMPORTANCE), y, importance, 100) ==> ParseAnnotationWeight(ann) == 0)
  {
    ParseRoundTrip(z, weight);
    ParseRoundTrip(y, importance);
  }

  /** The slice a budget of `us` microseconds is meant to give. */
  function IntendedSlice(us: nat): nat {
    if us == 0 || us * 1000 >= DEFAULT_SLICE_NS then DEFAULT_SLICE_NS else us * 1000
  }

  /** What a written budget becomes: nanoseconds modulo 2^64, or not set. */
  lemma BudgetOfWritten(ann: Annotated, z: nat, us: nat)
    requires Get(ann, BUDGET) == Written(z, us)
    ensures ParseAnnotationBudget(ann) == if us < TWO64 then us * 1000 % TWO64 else 0
  {
    ParseRoundTrip(z, us);
  }

  /** A missing or malformed budget is not set. */
  lemma BudgetUnset(ann: Annotated)
    requires Get(ann, BUDGET) == "" || !AllDigits(Get(ann, BUDGET))
    ensures ParseAnnotationBudget(ann) == 0
  {
  }

  /** The annotations by the names users write. */
  lemma AnnotationNames(z: nat, n: nat)
    ensures 1 <= n <= 10_000 ==> ParseAnnotationWeight(map["scheduling.fengrru.dev/weight" := Written(z, n)]) == n
    ensures 1 <= n <= 100 ==>
              ParseAnnotationWeight(map["scheduling.fengrru.dev/importance" := Written(z, n)]) == 100 * n
    ensures n * 1000 < TWO64 ==>
              ParseAnnotationBudget(map["scheduling.fengrru.dev/budget-microseconds" := Written(z, n)]) == 1000 * n
    ensures ParseAnnotationWeight(map[]) == 0 && ParseAnnotationBudget(map[]) == 0
  {
    ParseRoundTrip(z, n);
    DistinctNames();
  }

  lemma DistinctNames()
    ensures WEIGHT != BUDGET && WEIGHT != IMPORTANCE && BUDGET != IMPORTANCE
  {
    assert |WEIGHT| == 29 && |IMPORTANCE| == 33 && |BUDGET| == 42;
  }

  /** When a converted budget gives the slice that was meant. */
  lemma ConvertedSlice(us: u64, weight: u64)
    ensures TaskSlice(TaskParams(weight, us * 1000 % TWO64)) == IntendedSlice(us)
            <==> us <= (TWO64 - 1) / 1000 || us * 1000 % TWO64 == 0 || us * 1000 % TWO64 >= DEFAULT_SLICE_NS
  {
  }

  /** A budget of about 584 years becomes a slice of 384 nanoseconds. */
  lemma BudgetWraps(ann: Annotated, weight: u64)
    requires ParseUint(Get(ann, BUDGET)) == Some(18_446_744_073_709_552)
    ensures TaskSlice(TaskParams(weight, ParseAnnotationBudget(ann))) == 384
    ensures IntendedSlice(18_446_744_073_709_552) == DEFAULT_SLICE_NS
  {
  }
}
