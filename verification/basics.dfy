/** Shared vocabulary of the lineup optimiser: optional values, errors raised
    by the optimiser's classes, and costs that may be infinite (the optimisers
    use an infinite float as a "worst possible" cost). */
module Basics {

  /** Python's `Optional[...]`: a value or `None`. */
  datatype Option<+T> = None | Some(value: T)

  /** The exceptions the modelled code raises. */
  datatype Error =
    | InvalidBoatType        // `Boat(n)` with n not 4 or 8
    | PositionOutOfRange     // `assign_rower` outside 1..boat_type
    | NotEnoughRowers        // an optimiser built with too small a roster
    | DivisionByZero         // `len(rowers) // 0`
    | NegativeSampleSize     // `random.sample(population, k)` with k < 0

  /** Either a value or the error the source raises instead of returning. */
  datatype Result<+T> = Ok(value: T) | Err(error: Error)

  /** A cost as the optimisers compute it: a finite float, or `float('inf')`. */
  datatype Cost = Finite(value: real) | Inf {

    /** Python's `<` on floats, with `inf < inf` false. */
    predicate Less(other: Cost) {
      match (this, other)
      case (Finite(a), Finite(b)) => a < b
      case (Finite(_), Inf) => true
      case (Inf, _) => false
    }

    /** Python's `<=` on floats. */
    predicate AtMost(other: Cost) {
      this == other || Less(other)
    }
  }

  /** `AtMost` is a total preorder: used to chain best-so-far facts. */
  lemma CostOrder(a: Cost, b: Cost, c: Cost)
    ensures a.AtMost(b) && b.AtMost(c) ==> a.AtMost(c)
    ensures a.AtMost(b) || b.AtMost(a)
    ensures a.Less(b) <==> !b.AtMost(a)
  {
  }

  /** The annealing acceptance test with its random draw replaced by `coin`.
      With `delta = candidate - current` the source accepts when `delta < 0`,
      and otherwise when `random() < exp(-delta / T)`; `coin` is the outcome
      of that comparison. Because `random()` lies in [0, 1), a zero delta is
      accepted whatever the draw (exp(0) = 1); an infinite candidate gives a
      delta of +inf or NaN, for which the comparison is false. */
  function Accepts(current: Cost, candidate: Cost, coin: bool): (accept: bool)
    ensures candidate.Less(current) ==> accept
    ensures candidate == current && candidate.Finite? ==> accept
    ensures candidate.Inf? ==> !accept
    ensures accept ==> candidate.Finite?
    ensures current.AtMost(candidate) && current != candidate && candidate.Finite? ==> (accept <==> coin)
  {
    match (current, candidate)
    case (Finite(c), Finite(n)) => n - c <= 0.0 || coin
    case (Inf, Finite(_)) => true
    case (_, Inf) => false
  }

  /** Python's floor division `a // b` on integers (Dafny's `/` is Euclidean,
      which differs for a negative divisor). */
  function FloorDiv(a: int, b: int): (q: int)
    requires b != 0
    ensures b > 0 ==> q * b <= a < q * b + b
    ensures b < 0 ==> q * b >= a > q * b + b
  {
    if b > 0 then a / b else (-a) / (-b)
  }

  /** `n // b` for a count `n`: with a positive divisor it is zero exactly
      when `n < b`; with a negative one it is never positive and zero only
      for `n == 0`. */
  lemma FloorDivOfCount(n: int, b: int)
    requires n >= 0 && b != 0
    ensures b > 0 ==> FloorDiv(n, b) >= 0 && (FloorDiv(n, b) == 0 <==> n < b)
    ensures b < 0 ==> FloorDiv(n, b) <= 0 && (FloorDiv(n, b) == 0 <==> n == 0)
  {
    var q := FloorDiv(n, b);
    if b > 0 {
      if q > 0 {
        assert q * b >= b;
      }
    } else {
      if q < 0 {
        assert q * b >= -b;
      }
      if q == 0 {
        assert n <= 0;
      }
    }
  }

  /** `range(n)` has `max(n, 0)` elements. */
  function RangeLength(n: int): (k: nat)
    ensures n >= 0 ==> k == n
    ensures n < 0 ==> k == 0
  {
    if n < 0 then 0 else n
  }
}
