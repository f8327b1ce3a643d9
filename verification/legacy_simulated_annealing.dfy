/** The earlier single-boat optimiser kept at the repository root
    (`simulated_annealing.py`). Its cost has four terms: the fitness total
    (erg time over attendance), the side penalty, a penalty on the distance
    of the varsity count from half the boat, and the power variance. It has
    no stern-loading term. The swap move and the annealing loop are those of
    the current optimiser. */
module LegacySimulatedAnnealing {
  import opened Basics
  import opened Stats
  import opened LegacyRowers
  import opened Annealing

  /** Added for each seat whose occupant wants the other side. */
  const SidePenalty: real := 100.0
  /** Multiplies the distance of the varsity count from half the boat. */
  const ExperienceBalanceWeight: real := 10.0
  /** Multiplies the population variance of the fitness scores. */
  const PowerVarianceWeight: real := 0.1

  /** The optimiser's settings as its constructor stores them. */
  datatype LineupOptimizer = LineupOptimizer(
    rowers: seq<Rower>,
    boatType: int,
    initialTemp: real,
    coolingRate: real,
    minTemp: real,
    iterationsPerTemp: int)

  /** The constructor refuses a roster with fewer rowers than seats. */
  function NewLineupOptimizer(rowers: seq<Rower>, boatType: int, initialTemp: real,
                              coolingRate: real, minTemp: real, iterationsPerTemp: int)
    : (r: Result<LineupOptimizer>)
    ensures r.Err? <==> |rowers| < boatType
    ensures r.Err? ==> r.error == NotEnoughRowers
    ensures r.Ok? ==> r.value.rowers == rowers && r.value.boatType == boatType
    ensures r.Ok? ==> r.value.initialTemp == initialTemp && r.value.coolingRate == coolingRate
    ensures r.Ok? ==> r.value.minTemp == minTemp && r.value.iterationsPerTemp == iterationsPerTemp
  {
    if |rowers| < boatType then Err(NotEnoughRowers)
    else Ok(LineupOptimizer(rowers, boatType, initialTemp, coolingRate, minTemp, iterationsPerTemp))
  }

  /** The constructor's guard is what `random.sample` needs: for a
      non-negative boat size it accepts exactly the rosters from which a
      starting sample can be drawn. A negative size passes the guard, but no
      sample of it exists. */
  lemma ConstructorAdmitsSample(rowers: seq<Rower>, boatType: int, initialTemp: real,
                                coolingRate: real, minTemp: real, iterationsPerTemp: int)
    ensures var r := NewLineupOptimizer(rowers, boatType, initialTemp, coolingRate, minTemp, iterationsPerTemp);
      && (boatType >= 0 ==> (r.Ok? <==> exists pick :: IsSample(pick, |rowers|, boatType)))
      && (boatType < 0 ==> r.Ok? && !exists pick :: IsSample(pick, |rowers|, boatType))
  {
    SampleExistsIff(|rowers|, boatType);
  }

  /** Every rower of the lineup attends some practices, so every fitness
      score is finite. */
  predicate Attending(lineup: seq<Rower>) {
    forall i :: 0 <= i < |lineup| ==> lineup[i].attendance > 0.0
  }

  /** The finite fitness score of an attending rower. */
  function Fitness(r: Rower): (f: real)
    ensures r.attendance > 0.0 ==> FitnessScore(r) == Finite(f)
  {
    match FitnessScore(r)
    case Finite(v) => v
    case Inf => 0.0
  }

  predicate IsVarsity(r: Rower) { r.experience == Varsity }

  // ----- The four cost terms -----

  /** Term 1: the sum of the fitness scores. */
  function FitnessTotal(lineup: seq<Rower>): real
  {
    SumOf(lineup, Fitness)
  }

  predicate Mismatched(s: Seat) {
    s.occupant.Some? && s.occupant.value.sidePreference != Both && s.occupant.value.sidePreference != s.side
  }

  /** Term 2: 100 for each seat whose occupant prefers the other side. */
  function SideTerm(seats: seq<Seat>): (t: real)
    ensures t >= 0.0
    ensures t == 0.0 <==> forall i :: 0 <= i < |seats| ==> !Mismatched(seats[i])
  {
    CountOfBounds(seats, Mismatched);
    SidePenalty * CountOf(seats, Mismatched) as real
  }

  function VarsityCount(lineup: seq<Rower>): (v: nat)
    ensures v <= |lineup|
    ensures v == 0 <==> forall i :: 0 <= i < |lineup| ==> !IsVarsity(lineup[i])
    ensures v == |lineup| <==> forall i :: 0 <= i < |lineup| ==> IsVarsity(lineup[i])
  {
    CountOfBounds(lineup, IsVarsity);
    CountOf(lineup, IsVarsity)
  }

  /** Term 3: `abs(varsity_count - len(lineup) / 2) * 10`, with true
      division. It is zero exactly when the boat is split evenly. */
  function ExperienceTerm(lineup: seq<Rower>): (t: real)
    ensures t >= 0.0
    ensures t == 0.0 <==> 2 * VarsityCount(lineup) == |lineup|
  {
    var gap := VarsityCount(lineup) as real - |lineup| as real / 2.0;
    (if gap < 0.0 then -gap else gap) * ExperienceBalanceWeight
  }

  /** Term 4: weighted population variance of the fitness scores. It
      vanishes exactly when every rower has the same fitness score. */
  function PowerTerm(lineup: seq<Rower>): (t: real)
    requires |lineup| > 0
    ensures t >= 0.0
    ensures t == 0.0 <==>
      forall i, j :: 0 <= i < |lineup| && 0 <= j < |lineup| ==> Fitness(lineup[i]) == Fitness(lineup[j])
  {
    VarianceZeroIff(lineup, Fitness);
    VarianceOf(lineup, Fitness) * PowerVarianceWeight
  }

  /** For two rowers the power term is a tenth of their fitness variance,
      which is a quarter of the squared difference. */
  lemma PowerTermOfPair(a: Rower, b: Rower)
    ensures PowerTerm([a, b]) == 0.1 * (Square(Fitness(a) - Fitness(b)) / 4.0)
  {
    VarianceOfPair([a, b], Fitness);
  }

  /** The four terms of one lineup seated in `boat`. */
  datatype CostTerms = CostTerms(fitness: real, side: real, experience: real, power: real) {
    function Total(): real { fitness + side + experience + power }
  }

  function Terms(boat: Boat, lineup: seq<Rower>): CostTerms
    requires |lineup| > 0
  {
    CostTerms(FitnessTotal(lineup), SideTerm(boat.seats), ExperienceTerm(lineup), PowerTerm(lineup))
  }

  /** `calculate_cost`: infinite for a lineup of the wrong length; otherwise
      the lineup is seated in a fresh boat (which fails for a size other than
      4 or 8) and the four terms are added. Every term but the first is a
      non-negative penalty. */
  function CalculateCost(boatType: int, lineup: seq<Rower>): (r: Result<Cost>)
    requires Attending(lineup)
    ensures |lineup| != boatType ==> r == Ok(Inf)
    ensures |lineup| == boatType ==> (r.Err? <==> !ValidBoatType(boatType))
    ensures |lineup| == boatType && r.Err? ==> r.error == InvalidBoatType
    ensures |lineup| == boatType && r.Ok? ==> r.value.Finite? && r.value.value >= FitnessTotal(lineup)
  {
    if |lineup| != boatType then Ok(Inf)
    else match BoatWithLineup(boatType, lineup)
      case Err(e) => Err(e)
      case Ok(boat) => Ok(Finite(Terms(boat, lineup).Total()))
  }

  /** The cost the search minimises: `calculate_cost` on attending lineups of
      the boat's size. */
  function LineupCost(boatType: int): seq<Rower> --> Cost
    requires ValidBoatType(boatType)
  {
    (l: seq<Rower>) requires |l| == boatType && Attending(l) => CalculateCost(boatType, l).value
  }

  /** The cost of a full lineup, with its breakdown into the four terms, and
      the seat-by-seat meaning of the side term. */
  lemma CostIsSumOfTerms(boatType: int, lineup: seq<Rower>)
    requires ValidBoatType(boatType) && |lineup| == boatType && Attending(lineup)
    ensures BoatWithLineup(boatType, lineup).Ok?
    ensures var boat := BoatWithLineup(boatType, lineup).value;
      && CalculateCost(boatType, lineup) == Ok(Finite(Terms(boat, lineup).Total()))
      && (forall i :: 0 <= i < boatType ==>
            (Mismatched(boat.seats[i]) <==>
               lineup[i].sidePreference != Both && lineup[i].sidePreference != SeatSide(boatType, i + 1)))
  {
  }

  /** The experience term is 20 for a single-experience four, 40 for a
      single-experience eight, and largest for a single-experience boat. */
  lemma ExperienceTermShape(lineup: seq<Rower>)
    ensures |lineup| == 4 && (VarsityCount(lineup) == 0 || VarsityCount(lineup) == 4) ==> ExperienceTerm(lineup) == 20.0
    ensures |lineup| == 8 && (VarsityCount(lineup) == 0 || VarsityCount(lineup) == 8) ==> ExperienceTerm(lineup) == 40.0
    ensures ExperienceTerm(lineup) <= 5.0 * |lineup| as real
    ensures ExperienceTerm(lineup) == 5.0 * |lineup| as real <==>
      VarsityCount(lineup) == 0 || VarsityCount(lineup) == |lineup|
  {
  }

  /** The fitness total, the experience term and the power term depend only
      on the multiset of rowers: a reordering changes the cost only through
      the side term. */
  lemma PermutationChangesOnlySideTerm(boatType: int, a: seq<Rower>, b: seq<Rower>)
    requires ValidBoatType(boatType) && |a| == boatType && Attending(a)
    requires multiset(a) == multiset(b)
    ensures |b| == boatType && Attending(b)
    ensures var ta := Terms(BoatWithLineup(boatType, a).value, a);
            var tb := Terms(BoatWithLineup(boatType, b).value, b);
      && ta.fitness == tb.fitness && ta.experience == tb.experience && ta.power == tb.power
      && CalculateCost(boatType, a).value.value - ta.side == CalculateCost(boatType, b).value.value - tb.side
  {
    PermutationKeepsOrderFreeTerms(a, b);
    CostIsSumOfTerms(boatType, a);
    CostIsSumOfTerms(boatType, b);
  }

  /** Fitness total, experience term and power term depend only on the
      multiset of rowers, and so does attendance of the whole lineup. */
  lemma PermutationKeepsOrderFreeTerms(a: seq<Rower>, b: seq<Rower>)
    requires |a| > 0 && Attending(a)
    requires multiset(a) == multiset(b)
    ensures |b| == |a| && Attending(b)
    ensures FitnessTotal(a) == FitnessTotal(b)
    ensures ExperienceTerm(a) == ExperienceTerm(b)
    ensures PowerTerm(a) == PowerTerm(b)
  {
    assert |multiset(a)| == |multiset(b)|;
    forall i | 0 <= i < |b|
      ensures b[i].attendance > 0.0
    {
      assert b[i] in multiset(a);
    }
    SumOfPermutation(a, b, Fitness);
    CountOfPermutation(a, b, IsVarsity);
    VarianceOfPermutation(a, b, Fitness);
  }

  /** With every rower willing to row either side, all orders of the same
      rowers cost the same. */
  lemma EitherSideCostInvariant(boatType: int, a: seq<Rower>, b: seq<Rower>)
    requires ValidBoatType(boatType) && |a| == boatType && Attending(a)
    requires multiset(a) == multiset(b)
    requires forall i :: 0 <= i < |a| ==> a[i].sidePreference == Both
    ensures Attending(b)
    ensures CalculateCost(boatType, a) == CalculateCost(boatType, b)
  {
    PermutationChangesOnlySideTerm(boatType, a, b);
    forall i | 0 <= i < |b|
      ensures b[i].sidePreference == Both
    {
      assert b[i] in multiset(a);
    }
    CostIsSumOfTerms(boatType, a);
    CostIsSumOfTerms(boatType, b);
  }

  /** Every rearrangement of an attending lineup attends. */
  lemma RearrangementsAttend(n: int, initial: seq<Rower>)
    requires Attending(initial)
    ensures forall l: seq<Rower> | Rearranges(n, initial, l) :: Attending(l)
  {
    forall l: seq<Rower> | Rearranges(n, initial, l)
      ensures Attending(l)
    {
      forall k | 0 <= k < |l|
        ensures l[k].attendance > 0.0
      {
        assert l[k] in multiset(initial);
      }
    }
  }

  /** `optimize`: sample a starting lineup and anneal it with the swap move
      and this cost. The result is the best lineup of the search the schedule
      determines: a rearrangement of the sample whose cost is the least of the
      costs of all lineups the search made current, and so at most the
      starting cost. The roster must attend: a rower with zero attendance has
      an infinite fitness, which the source turns into a NaN cost. */
  method Optimize(opt: LineupOptimizer, pick: seq<nat>, levels: seq<seq<Draw<Swap>>>)
    returns (result: Result<(seq<Rower>, Cost)>, ghost trace: seq<Cost>)
    requires NewLineupOptimizer(opt.rowers, opt.boatType, opt.initialTemp, opt.coolingRate, opt.minTemp,
                                opt.iterationsPerTemp) == Ok(opt)
    requires Attending(opt.rowers)
    requires opt.boatType >= 0 ==> IsSample(pick, |opt.rowers|, opt.boatType)
    requires ValidSchedule(levels, opt.iterationsPerTemp, opt.boatType)
    ensures opt.boatType < 0 ==> result == Err(NegativeSampleSize)
    ensures opt.boatType >= 0 ==> (result.Ok? <==> ValidBoatType(opt.boatType))
    ensures opt.boatType >= 0 && result.Err? ==> result.error == InvalidBoatType
    ensures result.Ok? ==>
      var (best, bestCost) := result.value;
      var initial := Sample(opt.rowers, pick);
      && |best| == opt.boatType
      && multiset(best) == multiset(initial)
      && (forall k :: 0 <= k < |best| ==> best[k] in opt.rowers)
      && (Distinct(opt.rowers) ==> Distinct(best))
      && Attending(initial) && Attending(best)
      && CalculateCost(opt.boatType, best) == Ok(bestCost)
      && bestCost.Finite?
      && bestCost.AtMost(CalculateCost(opt.boatType, initial).value)
      && |trace| > 0 && trace[0] == CalculateCost(opt.boatType, initial).value
      && bestCost in trace
      && (forall c :: c in trace ==> bestCost.AtMost(c))
    ensures result.Ok? ==>
      var initial := Sample(opt.rowers, pick);
      && Ready(initial, LineupCost(opt.boatType), SwapMove, RearrangementOf(opt.boatType, initial), levels)
      && var r := Annealed(initial, LineupCost(opt.boatType), SwapMove, RearrangementOf(opt.boatType, initial),
                           opt.initialTemp, opt.coolingRate, opt.minTemp, levels);
         result.value == (r.0.best, r.0.bestCost) && trace == r.1
  {
    trace := [];
    if opt.boatType < 0 {
      return Err(NegativeSampleSize), trace;
    }
    var n := opt.boatType;
    var initial := Sample(opt.rowers, pick);
    var start := CalculateCost(n, initial);
    if start.Err? {
      return Err(start.error), trace;
    }
    SwapRearranges(n, initial, levels, opt.iterationsPerTemp);
    RearrangementsAttend(n, initial);
    var best, bestCost;
    best, bestCost, trace := Anneal(initial, LineupCost(n), SwapMove, RearrangementOf(n, initial),
                                    opt.initialTemp, opt.coolingRate, opt.minTemp, opt.iterationsPerTemp, levels);
    RearrangedSample(opt.rowers, pick, n, best);
    result := Ok((best, bestCost));
  }
}
