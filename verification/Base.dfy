/** Machine words, times, outcomes and ordered strings: the vocabulary every component shares. */
module Base {

  datatype Option<+T> = None | Some(value: T)

  /** Every error value the modelled operations can return. */
  datatype Error =
    | WorkerNotFound | WorkerAlreadyExists | InvalidWorker
    | WorkloadNotFound | WorkloadAlreadyExists | InvalidWorkload
    | PlacementConflict | NotSchedulable | NoEligibleWorker
    | InvalidSample | StaleSample
    | InsufficientHistory | InvalidInterval

  datatype Outcome<+T> = Ok(value: T) | Err(error: Error)

  // ----- unsigned 64-bit memory sizes, with the wrap-around of Go's uint64

  const WORD_LIMIT: int := 0x1_0000_0000_0000_0000

  type Word = n: int | 0 <= n < WORD_LIMIT

  function AddWord(a: Word, b: Word): Word {
    if a + b < WORD_LIMIT then a + b else a + b - WORD_LIMIT
  }

  function SubWord(a: Word, b: Word): Word {
    if a >= b then a - b else a - b + WORD_LIMIT
  }

  // ----- instants and durations in nanoseconds; instant 0 is the zero time.Time

  type Time = int
  type Duration = int

  const SECOND: Duration := 1_000_000_000
  const MINUTE: Duration := 60 * SECOND
  const MAX_DURATION: Duration := 0x7FFF_FFFF_FFFF_FFFF
  const MIN_DURATION: Duration := -0x8000_0000_0000_0000

  predicate IsZeroTime(t: Time) { t == 0 }

  /** `Time.Sub` saturates at the ends of the 64-bit duration range. */
  function SubTime(t: Time, u: Time): Duration {
    if t - u > MAX_DURATION then MAX_DURATION
    else if t - u < MIN_DURATION then MIN_DURATION
    else t - u
  }

  // ----- numbers

  function Min(a: int, b: int): int { if a < b then a else b }

  function MaxReal(a: real, b: real): real { if a > b then a else b }

  function AbsReal(a: real): real { if a < 0.0 then -a else a }

  function Clamp(value: real, minimum: real, maximum: real): real {
    if value < minimum then minimum
    else if value > maximum then maximum
    else value
  }

  /** Percentage of `total` that is not `available`. */
  function UsedPercent(total: Word, available: Word): real
    requires total > 0
  {
    SubWord(total, available) as real / total as real * 100.0
  }

  lemma RatioRange(x: real, y: real)
    requires 0.0 <= x <= y && 0.0 < y
    ensures 0.0 <= x / y <= 1.0
  {
    assert x / y * y == x;
  }

  lemma OneMoreTimes(x: real, n: nat)
    ensures x * (n + 1) as real == x * n as real + x
  {
    assert (n + 1) as real == n as real + 1.0;
  }

  lemma TimesOver(x: real, n: nat)
    requires n > 0
    ensures x * n as real / n as real == x
  {
  }

  lemma UsedPercentRange(total: Word, available: Word)
    requires 0 < total && available <= total
    ensures 0.0 <= UsedPercent(total, available) <= 100.0
  {
    RatioRange((total - available) as real, total as real);
  }

  lemma UsedPercentMeaning(total: Word, available: Word)
    requires 0 < total && available <= total
    ensures UsedPercent(total, available) * total as real == 100.0 * (total - available) as real
  {
    var used, whole := (total - available) as real, total as real;
    assert used / whole * whole == used;
    assert used / whole * 100.0 * whole == used / whole * whole * 100.0;
  }

  lemma PercentOf(x: real, total: Word, available: Word)
    requires 0 < total && available <= total && x == UsedPercent(total, available)
    ensures x * total as real == 100.0 * (total - available) as real
  {
    UsedPercentMeaning(total, available);
  }

  // ----- lexicographic order on strings, as Go's `<`

  predicate StringLess(a: string, b: string) {
    b != [] && (a == [] || a[0] < b[0] || (a[0] == b[0] && StringLess(a[1..], b[1..])))
  }

  lemma {:induction false} StringLessTotal(a: string, b: string)
    ensures a == b || StringLess(a, b) || StringLess(b, a)
  {
    if a != [] && b != [] && a[0] == b[0] {
      StringLessTotal(a[1..], b[1..]);
      if a[1..] == b[1..] {
        assert a == [a[0]] + a[1..] && b == [b[0]] + b[1..];
      }
    }
  }

  lemma {:induction false} StringLessAsymmetric(a: string, b: string)
    requires StringLess(a, b)
    ensures !StringLess(b, a) && a != b
  {
    if a != [] && a[0] == b[0] {
      StringLessAsymmetric(a[1..], b[1..]);
    }
  }

  lemma {:induction false} StringLessTransitive(a: string, b: string, c: string)
    requires StringLess(a, b) && StringLess(b, c)
    ensures StringLess(a, c)
  {
    if a != [] && a[0] == b[0] == c[0] {
      StringLessTransitive(a[1..], b[1..], c[1..]);
    }
  }

  lemma TakeSnoc<T>(s: seq<T>, i: nat)
    requires i < |s|
    ensures s[..i + 1] == s[..i] + [s[i]]
  {
  }

  lemma ConcatAssociative<T>(a: seq<T>, b: seq<T>, c: seq<T>)
    ensures (a + b) + c == a + (b + c)
  {
  }

  // ----- listing a map in an arbitrary order

  /** `keys` lists the domain of `m` once each. */
  ghost predicate Lists<V>(m: map<string, V>, keys: seq<string>) {
    && (forall i :: 0 <= i < |keys| ==> keys[i] in m)
    && (forall i, j :: 0 <= i < j < |keys| ==> keys[i] != keys[j])
    && (forall k :: k in m ==> k in keys)
  }

  /** `values` are the values of `m` under `keys`, in that order. */
  ghost predicate ListsValues<V>(m: map<string, V>, keys: seq<string>, values: seq<V>) {
    Lists(m, keys) && |values| == |keys|
    && forall i :: 0 <= i < |keys| ==> keys[i] in m && values[i] == m[keys[i]]
  }

  /** Ranging over a Go map: every entry once, in an order the caller cannot predict. */
  method Range<V>(m: map<string, V>) returns (values: seq<V>, ghost keys: seq<string>)
    ensures ListsValues(m, keys, values)
  {
    values, keys := [], [];
    var rest := m.Keys;
    while rest != {}
      invariant rest <= m.Keys && |values| == |keys|
      invariant forall i :: 0 <= i < |keys| ==> keys[i] in m && keys[i] !in rest && values[i] == m[keys[i]]
      invariant forall i, j :: 0 <= i < j < |keys| ==> keys[i] != keys[j]
      invariant forall k :: k in m ==> k in rest || k in keys
      decreases |rest|
    {
      var k :| k in rest;
      values, keys, rest := values + [m[k]], keys + [k], rest - {k};
    }
  }
}
