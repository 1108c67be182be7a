/** The exponential moving average filter with error feedback, in exact integer arithmetic. */
module Ema {
  import opened Powers

  /** An arithmetic shift to the right rounds down. */
  function ShiftRight(x: int, k: nat): int { x / Pow2(k) }

  function ShiftLeft(x: int, k: nat): int { x * Pow2(k) }

  datatype State = State(filter: int, error: int)
  {
    /** The remainder kept for the next step is always a proper one. */
    predicate Valid(k: nat) { 0 <= error < Pow2(k) }

    /** What the filter conserves: its output in the finer unit 2^-k, with the remainder. */
    function Sum(k: nat): int { Pow2(k) * filter + error }
  }

  function Next(s: State, val: int, k: nat): State {
    var sum := (val - s.filter) + s.error;
    var div := ShiftRight(sum, k);
    State(s.filter + div, sum - ShiftLeft(div, k))
  }

  function Run(s: State, vals: seq<int>, k: nat): State
    decreases |vals|
  {
    if vals == [] then s else Run(Next(s, vals[0], k), vals[1..], k)
  }

  class EmaFilter {
    var filter: int
    var error: int

    function Now(): State
      reads this
    {
      State(filter, error)
    }

    constructor (value: int)
      ensures Now() == State(value, 0)
    {
      filter := value;
      error := 0;
    }

    /** One step, which conserves the sum and keeps the remainder proper. */
    method Filter(val: int, k: nat) returns (r: int)
      modifies this
      ensures Now() == Next(old(Now()), val, k) && r == filter
      ensures Now().Valid(k)
      ensures Now().Sum(k) == old(Now().Sum(k)) + (val - old(filter))
    {
      StepConserves(Now(), val, k);
      var sum := (val - filter) + error;
      var div := ShiftRight(sum, k);
      error := sum - ShiftLeft(div, k);
      filter := filter + div;
      r := filter;
    }
  }

  lemma Division(x: int, p: nat)
    requires p > 0
    ensures x == (x / p) * p + x % p && 0 <= x % p < p
  {
  }

  lemma StepConserves(s: State, val: int, k: nat)
    ensures Next(s, val, k).Valid(k)
    ensures Next(s, val, k).Sum(k) == s.Sum(k) + (val - s.filter)
  {
    var sum, p := (val - s.filter) + s.error, Pow2(k);
    Division(sum, p);
    assert p * (s.filter + sum / p) == p * s.filter + (sum / p) * p;
  }

  function Total(vals: seq<int>): int { if vals == [] then 0 else vals[0] + Total(vals[1..]) }

  /** The outputs before each step of a run. */
  function Outputs(s: State, vals: seq<int>, k: nat): seq<int>
    decreases |vals|
  {
    if vals == [] then [] else [s.filter] + Outputs(Next(s, vals[0], k), vals[1..], k)
  }

  /** Over any run the sum changes by exactly what came in less what the filter put out. */
  lemma {:induction false} RunConserves(s: State, vals: seq<int>, k: nat)
    requires s.Valid(k)
    ensures Run(s, vals, k).Valid(k)
    ensures Run(s, vals, k).Sum(k) == s.Sum(k) + Total(vals) - Total(Outputs(s, vals, k))
    decreases |vals|
  {
    if vals != [] {
      StepConserves(s, vals[0], k);
      RunConserves(Next(s, vals[0], k), vals[1..], k);
    }
  }

  // ----- range -----

  lemma QuotientBounds(x: int, p: nat, n: int)
    requires p > 0
    ensures x >= n * p ==> x / p >= n
    ensures x < (n + 1) * p ==> x / p <= n
  {
    Division(x, p);
    if x >= n * p && x / p < n {
      Scaled(x / p + 1, n, p);
      assert false;
    }
    if x < (n + 1) * p && x / p > n {
      Scaled(n + 1, x / p, p);
      assert false;
    }
  }

  lemma Scaled(a: int, b: int, p: nat)
    requires a <= b
    ensures a * p <= b * p
  {
  }

  /** A step keeps the output between bounds that hold the output and the input, and none of its
      intermediate values leaves the bounds' distance by more than the remainder's range: an integer
      type that holds those does not overflow. */
  lemma StepStaysInRange(s: State, val: int, k: nat, low: int, high: int)
    requires s.Valid(k) && low <= s.filter <= high && low <= val <= high
    ensures low <= Next(s, val, k).filter <= high
    ensures var sum := (val - s.filter) + s.error;
            low - high <= sum < high - low + Pow2(k) &&
            low - high - Pow2(k) < ShiftLeft(ShiftRight(sum, k), k) <= sum
  {
    var sum, p := (val - s.filter) + s.error, Pow2(k);
    Division(sum, p);
    QuotientBounds(sum, p, high - s.filter);
    Scaled(1, high - s.filter + 1, p);
    Above(high - s.filter, p);
    QuotientBounds(sum, p, low - s.filter);
    Above(s.filter - low, p);
    assert (low - s.filter) * p == -((s.filter - low) * p);
  }

  lemma Above(d: int, p: nat)
    requires d >= 0 && p > 0
    ensures d + p <= (d + 1) * p && d <= d * p
  {
    assert d <= d * p by { ScaledByOne(d, p); }
  }

  lemma ScaledByOne(d: int, p: nat)
    requires d >= 0 && p > 0
    ensures d <= d * p
  {
  }

  /** The output never leaves the range spanned by the initial value and the inputs. */
  lemma {:induction false} RunStaysInRange(s: State, vals: seq<int>, k: nat, low: int, high: int)
    requires s.Valid(k) && low <= s.filter <= high && forall i :: 0 <= i < |vals| ==> low <= vals[i] <= high
    ensures low <= Run(s, vals, k).filter <= high
    decreases |vals|
  {
    hide Next, Pow2;
    if vals != [] {
      StepConserves(s, vals[0], k);
      StepStaysInRange(s, vals[0], k, low, high);
      RunStaysInRange(Next(s, vals[0], k), vals[1..], k, low, high);
    }
  }

  // ----- constant input -----

  /** The state after n steps with the same input. */
  function Settle(s: State, val: int, k: nat, n: nat): State
    decreases n
  {
    if n == 0 then s else Next(Settle(s, val, k, n - 1), val, k)
  }

  /** A step moves the output towards the input, or leaves it, and never past it. */
  lemma StepApproaches(s: State, val: int, k: nat)
    requires s.Valid(k)
    ensures s.filter <= val ==> s.filter <= Next(s, val, k).filter <= val
    ensures s.filter >= val ==> val <= Next(s, val, k).filter <= s.filter
  {
    StepStaysInRange(s, val, k, if s.filter <= val then s.filter else val, if s.filter <= val then val else s.filter);
  }

  /** Once there the filter does not change at all. */
  lemma StepStays(s: State, k: nat)
    requires s.Valid(k)
    ensures Next(s, s.filter, k) == s
  {
    QuotientBounds(s.error, Pow2(k), 0);
  }

  /** Until it arrives, each step brings the conserved sum at least one unit nearer. */
  lemma {:induction false} SettleProgress(s: State, val: int, k: nat, n: nat)
    requires s.Valid(k)
    ensures var r := Settle(s, val, k, n);
            r.Valid(k) &&
            (s.filter <= val ==> s.filter <= r.filter <= val && (r.filter < val ==> r.Sum(k) >= s.Sum(k) + n)) &&
            (s.filter >= val ==> val <= r.filter <= s.filter && (r.filter > val ==> r.Sum(k) <= s.Sum(k) - n))
    decreases n
  {
    if n > 0 {
      SettleProgress(s, val, k, n - 1);
      StepConserves(Settle(s, val, k, n - 1), val, k);
      StepApproaches(Settle(s, val, k, n - 1), val, k);
    }
  }

  lemma NotBelow(p: nat, f0: int, f: int, e: int, val: int, n: nat, moving: bool)
    requires 0 <= e < p && n >= p * (val - f0) && (moving ==> p * f + e >= p * f0 + n) && moving == (f < val)
    ensures f >= val
  {
    assert p * (val - f0) == p * val - p * f0;
    if f < val {
      Scaled(f + 1, val, p);
      assert false;
    }
  }

  lemma NotAbove(p: nat, f0: int, e0: int, f: int, e: int, val: int, n: nat, moving: bool)
    requires 0 <= e < p && 0 <= e0 < p && n >= p * (f0 - val + 1) && moving == (f > val)
    requires moving ==> p * f + e <= p * f0 + e0 - n
    ensures f <= val
  {
    assert p * (f0 - val + 1) == p * f0 - p * val + p;
    if f > val {
      Scaled(val + 1, f, p);
      assert false;
    }
  }

  /** With a constant input the output is monotone, never overshoots, reaches the input exactly within
      2^k steps for each unit of distance, and stays there. */
  lemma Converges(s: State, val: int, k: nat, n: nat)
    requires s.Valid(k) && n >= Pow2(k) * (if s.filter <= val then val - s.filter else s.filter - val + 1)
    ensures Settle(s, val, k, n).filter == val
    ensures forall m: nat :: m >= n ==> Settle(s, val, k, m) == Settle(s, val, k, n)
  {
    hide Pow2, Settle;
    SettleProgress(s, val, k, n);
    var r, p := Settle(s, val, k, n), Pow2(k);
    if s.filter <= val {
      NotBelow(p, s.filter, r.filter, r.error, val, n, r.filter < val);
    } else {
      NotAbove(p, s.filter, s.error, r.filter, r.error, val, n, r.filter > val);
    }
    forall m: nat | m >= n
      ensures Settle(s, val, k, m) == r
    {
      StaysSettled(s, val, k, n, m);
    }
  }

  lemma {:induction false} StaysSettled(s: State, val: int, k: nat, n: nat, m: nat)
    requires s.Valid(k) && Settle(s, val, k, n).filter == val && m >= n
    ensures Settle(s, val, k, m) == Settle(s, val, k, n)
    decreases m
  {
    if m > n {
      StaysSettled(s, val, k, n, m - 1);
      SettleProgress(s, val, k, n);
      StepStays(Settle(s, val, k, n), k);
    }
  }
}
