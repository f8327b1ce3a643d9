/** The single-boat optimiser (`src/simulated_annealing.py`): a five-term
    cost of one lineup, the two-seat swap move, and the annealing loop that
    keeps the best lineup seen. Random draws are oracle parameters. */
module SimulatedAnnealing {
  import opened Basics
  import opened Stats
  import opened Rowers
  import opened Annealing

  /** Added for each seat whose occupant wants the other side. */
  const SidePenalty: real := 100.0
  /** Multiplies `varsity_count * novice_count`. */
  const ExperienceMixingWeight: real := 10.0
  /** Multiplies the population variance of the fitness scores. */
  const PowerVarianceWeight: real := 0.1
  /** Multiplies each bow-to-stern fitness increase. */
  const SternLoadingWeight: real := 15.0

  /** The optimiser's settings as its constructor stores them. */
  datatype LineupOptimizer = LineupOptimizer(
    rowers: seq<Rower>,
    boatType: int,
    initialTemp: real,
    coolingRate: real,
    minTemp: real,
    iterationsPerTemp: int)

  /** The constructor: it refuses a roster with fewer rowers than seats and
      checks nothing else (an invalid boat size surfaces later, when a cost is
      computed). */
  function NewLineupOptimizer(rowers: seq<Rower>, boatType: int, initialTemp: real,
                              coolingRate: real, minTemp: real, iterationsPerTemp: int)
    : (r: Result<LineupOptimizer>)
    ensures r.Err? <==> |rowers| < boatType
    ensures r.Err? ==> r.error == NotEnoughRowers
    ensures r.Ok? ==> r.value.rowers == rowers && r.value.boatType == boatType
    ensures r.Ok? ==> r.value.initialTemp == initialTemp && r.value.coolingRate == coolingRate
    ensures r.Ok? ==> r.value.minTemp == minTemp && r.value.iterationsPerTemp == iterationsPerTemp
  {
    if |rowers| < boatType then Err(NotEnoughRowers)
    else Ok(LineupOptimizer(rowers, boatType, initialTemp, coolingRate, minTemp, iterationsPerTemp))
  }

  /** The constructor's guard is what `random.sample` needs: for a
      non-negative boat size it accepts exactly the rosters from which a
      starting sample can be drawn. A negative size passes the guard, but no
      sample of it exists. */
  lemma ConstructorAdmitsSample(rowers: seq<Rower>, boatType: int, initialTemp: real,
                                coolingRate: real, minTemp: real, iterationsPerTemp: int)
    ensures var r := NewLineupOptimizer(rowers, boatType, initialTemp, coolingRate, minTemp, iterationsPerTemp);
      && (boatType >= 0 ==> (r.Ok? <==> exists pick :: IsSample(pick, |rowers|, boatType)))
      && (boatType < 0 ==> r.Ok? && !exists pick :: IsSample(pick, |rowers|, boatType))
  {
    SampleExistsIff(|rowers|, boatType);
  }

  // ----- The five cost terms -----

  /** Term 1: the sum of the fitness scores. */
  function FitnessTotal(lineup: seq<Rower>): real
  {
    SumOf(lineup, FitnessScore)
  }

  /** Term 2: the side-preference penalty over the seats of a boat. */
  function SideTerm(seats: seq<Seat>): (t: real)
    ensures t >= 0.0
    ensures t == 0.0 <==> forall i :: 0 <= i < |seats| ==> !Mismatched(seats[i])
  {
    SidePenalty * SideMismatches(seats) as real
  }

  /** `varsity_count * novice_count`, with every non-varsity rower a novice. */
  function ExperienceProduct(lineup: seq<Rower>): nat
  {
    var v := VarsityCount(lineup);
    SplitProduct(v, |lineup|);
    v * (|lineup| - v)
  }

  /** `v * (n - v)` for a split of `n` into `v` and `n - v`: never negative,
      zero only for a one-sided split, and for even `n` largest at the even
      split. */
  lemma SplitProduct(v: nat, n: nat)
    requires v <= n
    ensures v * (n - v) >= 0
    ensures v * (n - v) == 0 <==> v == 0 || v == n
    ensures n % 2 == 0 ==> v * (n - v) <= (n / 2) * (n / 2)
    ensures n % 2 == 0 ==> (v * (n - v) == (n / 2) * (n / 2) <==> v == n / 2)
  {
    if 0 < v < n {
      PositiveProduct(v, n - v);
    }
    if n % 2 == 0 {
      EvenSplitProduct(v, n / 2);
    }
  }

  /** For `n = 2m`, the split product is `m * m` less the square of the
      distance from the even split. */
  lemma EvenSplitProduct(v: int, m: int)
    ensures v * (2 * m - v) <= m * m
    ensures v * (2 * m - v) == m * m <==> v == m
  {
    DifferenceOfSquares(v, m);
    SquareZero(m - v);
  }

  lemma PositiveProduct(a: int, b: int)
    requires a > 0 && b > 0
    ensures a * b > 0
  {
  }

  lemma DifferenceOfSquares(v: int, m: int)
    ensures v * (2 * m - v) == m * m - (m - v) * (m - v)
  {
  }

  lemma SquareZero(d: int)
    ensures d * d >= 0
    ensures d * d == 0 <==> d == 0
  {
  }

  /** Term 3: rewards boats of a single experience level. */
  function ExperienceTerm(lineup: seq<Rower>): (t: real)
    ensures t >= 0.0
    ensures t == 0.0 <==>
      (forall i :: 0 <= i < |lineup| ==> IsVarsity(lineup[i])) ||
      (forall i :: 0 <= i < |lineup| ==> !IsVarsity(lineup[i]))
  {
    SplitProduct(VarsityCount(lineup), |lineup|);
    ExperienceProduct(lineup) as real * ExperienceMixingWeight
  }

  /** Term 4: weighted population variance of the fitness scores. It
      vanishes exactly when every rower has the same fitness score. */
  function PowerTerm(lineup: seq<Rower>): (t: real)
    requires |lineup| > 0
    ensures t >= 0.0
    ensures t == 0.0 <==>
      forall i, j :: 0 <= i < |lineup| && 0 <= j < |lineup| ==> FitnessScore(lineup[i]) == FitnessScore(lineup[j])
  {
    VarianceZeroIff(lineup, FitnessScore);
    VarianceOf(lineup, FitnessScore) * PowerVarianceWeight
  }

  /** The penalty one adjacent pair contributes: only a bow-ward rower who is
      strictly fitter (lower score) than the stern-ward one is penalised. */
  function SternStep(bow: Rower, stern: Rower): real
  {
    if FitnessScore(bow) < FitnessScore(stern)
    then (FitnessScore(stern) - FitnessScore(bow)) * SternLoadingWeight
    else 0.0
  }

  /** Fitness scores never increase from the bow (index 0) to the stern. */
  predicate SternLoaded(lineup: seq<Rower>) {
    forall i :: 0 <= i < |lineup| - 1 ==> FitnessScore(lineup[i]) >= FitnessScore(lineup[i + 1])
  }

  /** Term 5: the stern-loading penalty, summed over adjacent pairs. It
      vanishes exactly on lineups whose fitness scores never increase towards
      the stern. */
  function SternTerm(lineup: seq<Rower>): (t: real)
    ensures t >= 0.0
    ensures t == 0.0 <==> SternLoaded(lineup)
    decreases |lineup|
  {
    if |lineup| < 2 then 0.0
    else
      var rest := SternTerm(lineup[1..]);
      assert forall i :: 1 <= i < |lineup| ==> lineup[i] == lineup[1..][i - 1];
      SternStep(lineup[0], lineup[1]) + rest
  }

  /** The five terms of one lineup seated in `boat`. */
  datatype CostTerms = CostTerms(fitness: real, side: real, experience: real, power: real, stern: real) {
    function Total(): real { fitness + side + experience + power + stern }
  }

  function Terms(boat: Boat, lineup: seq<Rower>): CostTerms
    requires |lineup| > 0
  {
    CostTerms(FitnessTotal(lineup), SideTerm(boat.seats), ExperienceTerm(lineup),
              PowerTerm(lineup), SternTerm(lineup))
  }

  /** `calculate_cost`: infinite for a lineup of the wrong length; otherwise
      the lineup is seated in a fresh boat (which fails for a boat size other
      than 4 or 8) and the five terms are added. Every term but the first is
      a non-negative penalty. */
  function CalculateCost(boatType: int, lineup: seq<Rower>): (r: Result<Cost>)
    ensures |lineup| != boatType ==> r == Ok(Inf)
    ensures |lineup| == boatType ==> (r.Err? <==> !ValidBoatType(boatType))
    ensures |lineup| == boatType && r.Err? ==> r.error == InvalidBoatType
    ensures |lineup| == boatType && r.Ok? ==> r.value.Finite? && r.value.value >= FitnessTotal(lineup)
  {
    if |lineup| != boatType then Ok(Inf)
    else match BoatWithLineup(boatType, lineup)
      case Err(e) => Err(e)
      case Ok(boat) => Ok(Finite(Terms(boat, lineup).Total()))
  }

  /** The cost the search minimises: `calculate_cost` on lineups of the
      boat's size. */
  function LineupCost(boatType: int): seq<Rower> --> Cost
    requires ValidBoatType(boatType)
  {
    (l: seq<Rower>) requires |l| == boatType => CalculateCost(boatType, l).value
  }

  /** The cost of a full lineup, with its breakdown into the five terms. */
  lemma CostIsSumOfTerms(boatType: int, lineup: seq<Rower>)
    requires ValidBoatType(boatType) && |lineup| == boatType
    ensures BoatWithLineup(boatType, lineup).Ok?
    ensures var boat := BoatWithLineup(boatType, lineup).value;
      && CalculateCost(boatType, lineup) == Ok(Finite(Terms(boat, lineup).Total()))
      && (forall k :: 0 <= k < boatType ==> boat.seats[k].occupant == Some(lineup[k]))
      && (forall k :: 0 <= k < boatType ==> boat.seats[k].side == SeatSide(k + 1))
  {
  }

  /** The side term adds the penalty once per occupant seated on the side
      opposite to a PORT or STARBOARD preference, and nothing when everyone
      rows either side. */
  lemma SideTermCountsMismatches(boatType: int, lineup: seq<Rower>)
    requires ValidBoatType(boatType) && |lineup| == boatType
    ensures var seats := BoatWithLineup(boatType, lineup).value.seats;
      && SideTerm(seats) == SidePenalty * CountOf(seats, Mismatched) as real
      && (forall i :: 0 <= i < |seats| ==>
            (Mismatched(seats[i]) <==>
               lineup[i].sidePreference != Both && lineup[i].sidePreference != SeatSide(i + 1)))
    ensures (forall i :: 0 <= i < |lineup| ==> lineup[i].sidePreference == Both) ==>
      SideTerm(BoatWithLineup(boatType, lineup).value.seats) == 0.0
  {
  }

  /** The experience term is 0 for a single-experience boat, 40 for a four of
      two varsity and two novice rowers, and largest at an even split. */
  lemma ExperienceTermShape(lineup: seq<Rower>)
    ensures VarsityCount(lineup) == 0 || VarsityCount(lineup) == |lineup| ==> ExperienceTerm(lineup) == 0.0
    ensures |lineup| == 4 && VarsityCount(lineup) == 2 ==> ExperienceTerm(lineup) == 40.0
    ensures |lineup| % 2 == 0 ==>
      ExperienceProduct(lineup) <= (|lineup| / 2) * (|lineup| / 2) &&
      (ExperienceProduct(lineup) == (|lineup| / 2) * (|lineup| / 2) <==> VarsityCount(lineup) == |lineup| / 2)
  {
    SplitProduct(VarsityCount(lineup), |lineup|);
  }

  /** For two rowers the power term is a tenth of their fitness variance,
      which is a quarter of the squared difference. */
  lemma PowerTermOfPair(a: Rower, b: Rower)
    ensures PowerTerm([a, b]) == 0.1 * (Square(FitnessScore(a) - FitnessScore(b)) / 4.0)
  {
    VarianceOfPair([a, b], FitnessScore);
  }

  /** For two rowers the stern term is 15 per point by which the stern rower's
      score exceeds the bow rower's, and nothing otherwise. */
  lemma SternTermOfPair(a: Rower, b: Rower)
    ensures SternTerm([a, b]) ==
      (if FitnessScore(a) < FitnessScore(b) then 15.0 * (FitnessScore(b) - FitnessScore(a)) else 0.0)
  {
    assert [a, b][1..] == [b];
  }

  /** Fitness total, experience term and power term depend only on the
      multiset of rowers. */
  lemma PermutationKeepsOrderFreeTerms(a: seq<Rower>, b: seq<Rower>)
    requires |a| > 0 && multiset(a) == multiset(b)
    ensures |b| == |a|
    ensures FitnessTotal(a) == FitnessTotal(b)
    ensures ExperienceTerm(a) == ExperienceTerm(b)
    ensures PowerTerm(a) == PowerTerm(b)
  {
    assert |multiset(a)| == |multiset(b)|;
    SumOfPermutation(a, b, FitnessScore);
    CountOfPermutation(a, b, IsVarsity);
    VarianceOfPermutation(a, b, FitnessScore);
  }

  /** A reordering of the same rowers can change the cost only through the
      side and stern terms. */
  lemma PermutationChangesOnlyPositionalTerms(boatType: int, a: seq<Rower>, b: seq<Rower>)
    requires ValidBoatType(boatType) && |a| == boatType
    requires multiset(a) == multiset(b)
    ensures |b| == boatType
    ensures var ta := Terms(BoatWithLineup(boatType, a).value, a);
            var tb := Terms(BoatWithLineup(boatType, b).value, b);
      && ta.fitness == tb.fitness && ta.experience == tb.experience && ta.power == tb.power
      && CalculateCost(boatType, a).value.value - ta.side - ta.stern
         == CalculateCost(boatType, b).value.value - tb.side - tb.stern
  {
    PermutationKeepsOrderFreeTerms(a, b);
    CostIsSumOfTerms(boatType, a);
    CostIsSumOfTerms(boatType, b);
  }

  /** Rowers who all row either side and all have the same fitness cost the
      same in every order, whatever their experience levels. */
  lemma UniformLineupCostInvariant(boatType: int, a: seq<Rower>, b: seq<Rower>, f: real)
    requires ValidBoatType(boatType) && |a| == boatType
    requires multiset(a) == multiset(b)
    requires forall i :: 0 <= i < |a| ==> a[i].sidePreference == Both
    requires forall i :: 0 <= i < |a| ==> FitnessScore(a[i]) == f
    ensures CalculateCost(boatType, a) == CalculateCost(boatType, b)
  {
    PermutationChangesOnlyPositionalTerms(boatType, a, b);
    forall i | 0 <= i < |b|
      ensures b[i].sidePreference == Both && FitnessScore(b[i]) == f
    {
      assert b[i] in multiset(a);
    }
    UniformPositionalTermsVanish(boatType, a, f);
    UniformPositionalTermsVanish(boatType, b, f);
  }

  /** Side and stern terms vanish for a lineup of equally fit rowers who all
      row either side. */
  lemma UniformPositionalTermsVanish(boatType: int, lineup: seq<Rower>, f: real)
    requires ValidBoatType(boatType) && |lineup| == boatType
    requires forall i :: 0 <= i < |lineup| ==> lineup[i].sidePreference == Both && FitnessScore(lineup[i]) == f
    ensures var t := Terms(BoatWithLineup(boatType, lineup).value, lineup);
      t.side == 0.0 && t.stern == 0.0
  {
    SideTermCountsMismatches(boatType, lineup);
    assert SternLoaded(lineup);
  }

  /** `optimize`: sample a starting lineup and anneal it with the swap move
      and `calculate_cost`. The result is the best lineup of the search the
      schedule determines: a rearrangement of the sample whose cost is the
      least of the costs of all lineups the search made current, and so at
      most the starting cost. A boat size other than 4 or 8 fails at the
      first cost evaluation; a negative one already in `random.sample`. */
  method Optimize(opt: LineupOptimizer, pick: seq<nat>, levels: seq<seq<Draw<Swap>>>)
    returns (result: Result<(seq<Rower>, Cost)>, ghost trace: seq<Cost>)
    requires NewLineupOptimizer(opt.rowers, opt.boatType, opt.initialTemp, opt.coolingRate, opt.minTemp,
                                opt.iterationsPerTemp) == Ok(opt)
    requires opt.boatType >= 0 ==> IsSample(pick, |opt.rowers|, opt.boatType)
    requires ValidSchedule(levels, opt.iterationsPerTemp, opt.boatType)
    ensures opt.boatType < 0 ==> result == Err(NegativeSampleSize)
    ensures opt.boatType >= 0 ==> (result.Ok? <==> ValidBoatType(opt.boatType))
    ensures opt.boatType >= 0 && result.Err? ==> result.error == InvalidBoatType
    ensures result.Ok? ==>
      var (best, bestCost) := result.value;
      var initial := Sample(opt.rowers, pick);
      && |best| == opt.boatType
      && multiset(best) == multiset(initial)
      && (forall k :: 0 <= k < |best| ==> best[k] in opt.rowers)
      && (Distinct(opt.rowers) ==> Distinct(best))
      && CalculateCost(opt.boatType, best) == Ok(bestCost)
      && bestCost.Finite?
      && bestCost.AtMost(CalculateCost(opt.boatType, initial).value)
      && |trace| > 0 && trace[0] == CalculateCost(opt.boatType, initial).value
      && bestCost in trace
      && (forall c :: c in trace ==> bestCost.AtMost(c))
    ensures result.Ok? ==>
      var initial := Sample(opt.rowers, pick);
      && Ready(initial, LineupCost(opt.boatType), SwapMove, RearrangementOf(opt.boatType, initial), levels)
      && var r := Annealed(initial, LineupCost(opt.boatType), SwapMove, RearrangementOf(opt.boatType, initial),
                           opt.initialTemp, opt.coolingRate, opt.minTemp, levels);
         result.value == (r.0.best, r.0.bestCost) && trace == r.1
  {
    trace := [];
    if opt.boatType < 0 {
      return Err(NegativeSampleSize), trace;
    }
    var n := opt.boatType;
    var initial := Sample(opt.rowers, pick);
    var start := CalculateCost(n, initial);
    if start.Err? {
      return Err(start.error), trace;
    }
    SwapRearranges(n, initial, levels, opt.iterationsPerTemp);
    var best, bestCost;
    best, bestCost, trace := Anneal(initial, LineupCost(n), SwapMove, RearrangementOf(n, initial),
                                    opt.initialTemp, opt.coolingRate, opt.minTemp, opt.iterationsPerTemp, levels);
    RearrangedSample(opt.rowers, pick, n, best);
    result := Ok((best, bestCost));
  }
}
