/** The multi-boat optimiser (`src/multi_boat_optimizer.py`): the roster is
    split into `len(rowers) // boat_type` boats that should be evenly matched.
    The cost adds a per-boat penalty (side mismatches, mixed experience) to a
    penalty on the variance of the boats' mean fitness; the move exchanges
    two rowers of two different boats. Random draws are oracle parameters. */
module MultiBoatOptimizer {
  import opened Basics
  import opened Stats
  import opened Rowers
  import opened Annealing

  /** Added for each seat whose occupant wants the other side. */
  const MismatchPenalty: real := 100.0
  /** Added once for a boat holding both varsity and novice rowers. */
  const MixedBoatPenalty: real := 1000.0
  /** Multiplies the variance of the boats' mean fitness scores. */
  const BalanceWeight: real := 100.0

  /** The optimiser's settings as its constructor stores them. */
  datatype MultiBoatOptimizer = MultiBoatOptimizer(
    rowers: seq<Rower>,
    boatType: int,
    numBoats: int,
    initialTemp: real,
    coolingRate: real,
    minTemp: real,
    iterationsPerTemp: int)
  {
    /** What the constructor establishes. */
    predicate Valid() {
      boatType != 0 && numBoats == FloorDiv(|rowers|, boatType) && numBoats != 0
    }
  }

  /** The constructor: `num_boats = len(rowers) // boat_type`, refused when it
      is zero. A zero boat size fails in the division itself. */
  function NewMultiBoatOptimizer(rowers: seq<Rower>, boatType: int, initialTemp: real,
                                 coolingRate: real, minTemp: real, iterationsPerTemp: int)
    : (r: Result<MultiBoatOptimizer>)
    ensures boatType == 0 ==> r == Err(DivisionByZero)
    ensures boatType > 0 ==> (r.Ok? <==> |rowers| >= boatType)
    ensures boatType > 0 && r.Err? ==> r.error == NotEnoughRowers
    ensures boatType < 0 ==> (r.Ok? <==> |rowers| > 0)
    ensures r.Ok? ==> r.value.Valid() && r.value.rowers == rowers && r.value.boatType == boatType
    ensures r.Ok? && boatType > 0 ==>
      r.value.numBoats * boatType <= |rowers| < (r.value.numBoats + 1) * boatType
    ensures r.Ok? ==> r.value.initialTemp == initialTemp && r.value.coolingRate == coolingRate
    ensures r.Ok? ==> r.value.minTemp == minTemp && r.value.iterationsPerTemp == iterationsPerTemp
  {
    if boatType == 0 then Err(DivisionByZero)
    else
      FloorDivOfCount(|rowers|, boatType);
      var numBoats := FloorDiv(|rowers|, boatType);
      if numBoats == 0 then Err(NotEnoughRowers)
      else Ok(MultiBoatOptimizer(rowers, boatType, numBoats, initialTemp, coolingRate, minTemp, iterationsPerTemp))
  }

  // ----- Cost of one boat -----

  /** The boat holds both varsity and non-varsity rowers. */
  predicate Mixed(lineup: seq<Rower>) {
    0 < VarsityCount(lineup) < |lineup|
  }

  lemma MixedMeansBothLevels(lineup: seq<Rower>)
    ensures Mixed(lineup) <==>
      (exists i :: 0 <= i < |lineup| && IsVarsity(lineup[i])) &&
      (exists j :: 0 <= j < |lineup| && !IsVarsity(lineup[j]))
  {
  }

  /** A lineup a boat of this size can seat: seating fails only for a boat
      size other than 4 or 8 or for a lineup longer than the boat. */
  predicate Fits(boatType: int, lineup: seq<Rower>) {
    ValidBoatType(boatType) && |lineup| <= boatType
  }

  /** `calculate_single_boat_cost`: the lineup is seated from the bow in a
      fresh boat, each mismatched seat costs 100 and a mixed boat 1000. As at
      most 8 seats can be mismatched, the cost reaches 1000 exactly when the
      boat is mixed, and it is zero exactly for an unmixed boat in which
      every rower sits on an acceptable side. */
  function SingleBoatCost(boatType: int, lineup: seq<Rower>): (r: Result<real>)
    ensures r.Err? <==> !Fits(boatType, lineup)
    ensures r.Err? ==> r.error == (if ValidBoatType(boatType) then PositionOutOfRange else InvalidBoatType)
    ensures r.Ok? ==> r.value >= 0.0
    ensures r.Ok? ==> (r.value >= MixedBoatPenalty <==> Mixed(lineup))
    ensures r.Ok? ==> (r.value == 0.0 <==>
      !Mixed(lineup) &&
      forall i :: 0 <= i < |lineup| ==>
        lineup[i].sidePreference == Both || lineup[i].sidePreference == SeatSide(i + 1))
  {
    match BoatWithLineup(boatType, lineup)
    case Err(e) => Err(e)
    case Ok(boat) =>
      var seats := boat.seats;
      assert forall i :: 0 <= i < |lineup| ==> seats[i].occupant == Some(lineup[i]);
      assert forall i :: 0 <= i < |seats| ==> seats[i].side == SeatSide(i + 1);
      Ok(MismatchPenalty * SideMismatches(seats) as real
         + (if Mixed(lineup) then MixedBoatPenalty else 0.0))
  }

  /** The side part of a boat's cost, seat by seat: the seat at position
      `i + 1` is penalised exactly when `lineup[i]` prefers a fixed side other
      than that seat's side; the empty seats behind a short lineup never are. */
  lemma SingleBoatCostBySeat(boatType: int, lineup: seq<Rower>)
    requires Fits(boatType, lineup)
    ensures var seats := BoatWithLineup(boatType, lineup).value.seats;
      && SingleBoatCost(boatType, lineup).value
         == MismatchPenalty * CountOf(seats, Mismatched) as real
            + (if Mixed(lineup) then MixedBoatPenalty else 0.0)
      && forall i :: 0 <= i < |seats| ==>
           (Mismatched(seats[i]) <==>
              i < |lineup| && lineup[i].sidePreference != Both && lineup[i].sidePreference != SeatSide(i + 1))
  {
  }

  // ----- Cost of a set of boats -----

  /** The boats the cost looks at: `if not boat_lineup: continue`. */
  function NonEmpty(boats: seq<seq<Rower>>): (kept: seq<seq<Rower>>)
    ensures |kept| <= |boats|
    ensures forall b :: 0 <= b < |kept| ==> |kept[b]| > 0
    ensures forall x :: x in kept <==> x in boats && |x| > 0
    decreases |boats|
  {
    if |boats| == 0 then []
    else if |boats[0]| == 0 then NonEmpty(boats[1..])
    else [boats[0]] + NonEmpty(boats[1..])
  }

  lemma {:induction false} NonEmptyConcat(a: seq<seq<Rower>>, b: seq<seq<Rower>>)
    ensures NonEmpty(a + b) == NonEmpty(a) + NonEmpty(b)
    decreases |a|
  {
    if |a| == 0 {
      assert a + b == b;
    } else {
      assert (a + b)[1..] == a[1..] + b;
      NonEmptyConcat(a[1..], b);
    }
  }

  lemma {:induction false} NonEmptyOfNonEmpty(boats: seq<seq<Rower>>)
    requires forall b :: 0 <= b < |boats| ==> |boats[b]| > 0
    ensures NonEmpty(boats) == boats
    decreases |boats|
  {
    if |boats| > 0 {
      NonEmptyOfNonEmpty(boats[1..]);
    }
  }

  /** The per-boat costs, in order; the first boat that cannot be seated
      raises its error. */
  function BoatCosts(boatType: int, lineups: seq<seq<Rower>>): (r: Result<seq<real>>)
    ensures r.Ok? <==> forall b :: 0 <= b < |lineups| ==> Fits(boatType, lineups[b])
    ensures r.Ok? ==> |r.value| == |lineups|
    ensures r.Ok? ==> forall b :: 0 <= b < |lineups| ==> r.value[b] == SingleBoatCost(boatType, lineups[b]).value
    ensures r.Err? ==> r.error == (if ValidBoatType(boatType) then PositionOutOfRange else InvalidBoatType)
    decreases |lineups|
  {
    if |lineups| == 0 then Ok([])
    else
      var first := SingleBoatCost(boatType, lineups[0]);
      var rest := BoatCosts(boatType, lineups[1..]);
      assert forall b :: 1 <= b < |lineups| ==> lineups[b] == lineups[1..][b - 1];
      if first.Err? then Err(first.error)
      else if rest.Err? then Err(rest.error)
      else Ok([first.value] + rest.value)
  }

  /** The mean fitness score of each boat. */
  function BoatMeans(lineups: seq<seq<Rower>>): (means: seq<real>)
    requires forall b :: 0 <= b < |lineups| ==> |lineups[b]| > 0
    ensures |means| == |lineups|
    ensures forall b :: 0 <= b < |lineups| ==> means[b] == MeanOf(lineups[b], FitnessScore)
  {
    seq(|lineups|, b requires 0 <= b < |lineups| => MeanOf(lineups[b], FitnessScore))
  }

  /** The population variance of the boat means; zero for fewer than two
      boats, where the source skips it. */
  function BalanceVariance(means: seq<real>): (v: real)
    ensures v >= 0.0
    ensures |means| <= 1 ==> v == 0.0
    ensures v == 0.0 <==> forall i, j :: 0 <= i < |means| && 0 <= j < |means| ==> means[i] == means[j]
  {
    if |means| > 1 then
      VarianceZeroIff(means, Id);
      Variance(means)
    else 0.0
  }

  /** With two boats the penalty is a quarter of the squared gap between
      their means. */
  lemma BalanceVarianceOfTwo(a: real, b: real)
    ensures BalanceVariance([a, b]) == Square(a - b) / 4.0
  {
    VarianceOfPair([a, b], Id);
  }

  /** `calculate_cost`: the sum of the costs of the non-empty boats plus 100
      times the variance of their mean fitness scores. It fails exactly when
      some non-empty boat cannot be seated; otherwise it is never below the
      sum of the per-boat costs, and equal to it with fewer than two
      non-empty boats. */
  function CalculateCost(boatType: int, boats: seq<seq<Rower>>): (r: Result<real>)
    ensures r.Ok? <==> forall b :: 0 <= b < |boats| && |boats[b]| > 0 ==> Fits(boatType, boats[b])
    ensures r.Err? ==> r.error == (if ValidBoatType(boatType) then PositionOutOfRange else InvalidBoatType)
    ensures r.Ok? ==> r.value >= 0.0
    ensures r.Ok? ==> r.value >= SumOf(BoatCosts(boatType, NonEmpty(boats)).value, Id)
    ensures r.Ok? && |NonEmpty(boats)| <= 1 ==> r.value == SumOf(BoatCosts(boatType, NonEmpty(boats)).value, Id)
    ensures r.Ok? ==> (r.value == SumOf(BoatCosts(boatType, NonEmpty(boats)).value, Id) <==>
      forall b, c :: 0 <= b < |boats| && 0 <= c < |boats| && |boats[b]| > 0 && |boats[c]| > 0 ==>
        MeanOf(boats[b], FitnessScore) == MeanOf(boats[c], FitnessScore))
  {
    KeptCostOfBoats(boatType, boats);
    KeptCost(boatType, NonEmpty(boats))
  }

  /** What the cost of the kept boats says about the boats themselves. */
  lemma KeptCostOfBoats(boatType: int, boats: seq<seq<Rower>>)
    ensures var r := KeptCost(boatType, NonEmpty(boats));
      && (r.Ok? <==> forall b :: 0 <= b < |boats| && |boats[b]| > 0 ==> Fits(boatType, boats[b]))
      && (r.Ok? ==> (r.value == SumOf(BoatCosts(boatType, NonEmpty(boats)).value, Id) <==>
            forall b, c :: 0 <= b < |boats| && 0 <= c < |boats| && |boats[b]| > 0 && |boats[c]| > 0 ==>
              MeanOf(boats[b], FitnessScore) == MeanOf(boats[c], FitnessScore)))
  {
    KeptFit(boatType, boats);
    KeptMeansAgree(boats);
  }

  /** The kept boats all fit exactly when the non-empty boats do. */
  lemma KeptFit(boatType: int, boats: seq<seq<Rower>>)
    ensures (forall b :: 0 <= b < |NonEmpty(boats)| ==> Fits(boatType, NonEmpty(boats)[b]))
        <==> (forall b :: 0 <= b < |boats| && |boats[b]| > 0 ==> Fits(boatType, boats[b]))
  {
    var kept := NonEmpty(boats);
    if forall b :: 0 <= b < |boats| && |boats[b]| > 0 ==> Fits(boatType, boats[b]) {
      forall i | 0 <= i < |kept|
        ensures Fits(boatType, kept[i])
      {
        var b := KeptFrom(boats, i);
      }
    }
    if forall i :: 0 <= i < |kept| ==> Fits(boatType, kept[i]) {
      forall b | 0 <= b < |boats| && |boats[b]| > 0
        ensures Fits(boatType, boats[b])
      {
        var i := KeptAt(boats, b);
      }
    }
  }

  /** Where a kept boat comes from. */
  lemma KeptFrom(boats: seq<seq<Rower>>, i: int) returns (b: int)
    requires 0 <= i < |NonEmpty(boats)|
    ensures 0 <= b < |boats| && boats[b] == NonEmpty(boats)[i]
  {
    assert NonEmpty(boats)[i] in NonEmpty(boats);
    b :| 0 <= b < |boats| && boats[b] == NonEmpty(boats)[i];
  }

  /** Where a non-empty boat is kept. */
  lemma KeptAt(boats: seq<seq<Rower>>, b: int) returns (i: int)
    requires 0 <= b < |boats| && |boats[b]| > 0
    ensures 0 <= i < |NonEmpty(boats)| && NonEmpty(boats)[i] == boats[b]
  {
    assert boats[b] in boats;
    i :| 0 <= i < |NonEmpty(boats)| && NonEmpty(boats)[i] == boats[b];
  }

  /** The kept boats have equal means exactly when the non-empty boats do. */
  lemma KeptMeansAgree(boats: seq<seq<Rower>>)
    ensures (forall i, j :: 0 <= i < |NonEmpty(boats)| && 0 <= j < |NonEmpty(boats)| ==>
               MeanOf(NonEmpty(boats)[i], FitnessScore) == MeanOf(NonEmpty(boats)[j], FitnessScore))
        <==> (forall b, c :: 0 <= b < |boats| && 0 <= c < |boats| && |boats[b]| > 0 && |boats[c]| > 0 ==>
               MeanOf(boats[b], FitnessScore) == MeanOf(boats[c], FitnessScore))
  {
    var kept := NonEmpty(boats);
    if forall b, c :: 0 <= b < |boats| && 0 <= c < |boats| && |boats[b]| > 0 && |boats[c]| > 0 ==>
         MeanOf(boats[b], FitnessScore) == MeanOf(boats[c], FitnessScore) {
      forall i, j | 0 <= i < |kept| && 0 <= j < |kept|
        ensures MeanOf(kept[i], FitnessScore) == MeanOf(kept[j], FitnessScore)
      {
        var b := KeptFrom(boats, i);
        var c := KeptFrom(boats, j);
      }
    }
    if forall i, j :: 0 <= i < |kept| && 0 <= j < |kept| ==>
         MeanOf(kept[i], FitnessScore) == MeanOf(kept[j], FitnessScore) {
      forall b, c | 0 <= b < |boats| && 0 <= c < |boats| && |boats[b]| > 0 && |boats[c]| > 0
        ensures MeanOf(boats[b], FitnessScore) == MeanOf(boats[c], FitnessScore)
      {
        var i := KeptAt(boats, b);
        var j := KeptAt(boats, c);
      }
    }
  }

  /** The cost of a list of non-empty boats. */
  function KeptCost(boatType: int, kept: seq<seq<Rower>>): (r: Result<real>)
    requires forall b :: 0 <= b < |kept| ==> |kept[b]| > 0
    ensures r.Ok? <==> BoatCosts(boatType, kept).Ok?
    ensures r.Err? ==> r.error == BoatCosts(boatType, kept).error
    ensures r.Ok? ==> r.value >= SumOf(BoatCosts(boatType, kept).value, Id) >= 0.0
    ensures r.Ok? && |kept| <= 1 ==> r.value == SumOf(BoatCosts(boatType, kept).value, Id)
    ensures r.Ok? ==> (r.value == SumOf(BoatCosts(boatType, kept).value, Id) <==>
      forall i, j :: 0 <= i < |kept| && 0 <= j < |kept| ==>
        MeanOf(kept[i], FitnessScore) == MeanOf(kept[j], FitnessScore))
  {
    match BoatCosts(boatType, kept)
    case Err(e) => Err(e)
    case Ok(costs) =>
      assert forall b :: 0 <= b < |costs| ==> costs[b] == SingleBoatCost(boatType, kept[b]).value >= 0.0;
      SumOfNonNegative(costs, Id);
      BalancePenalty(kept);
      Ok(SumOf(costs, Id) + BalanceVariance(BoatMeans(kept)) * BalanceWeight)
  }

  /** The weighted balance penalty of non-empty boats vanishes exactly when
      their means agree. */
  lemma BalancePenalty(kept: seq<seq<Rower>>)
    requires forall b :: 0 <= b < |kept| ==> |kept[b]| > 0
    ensures var p := BalanceVariance(BoatMeans(kept)) * BalanceWeight;
      && p >= 0.0
      && (|kept| <= 1 ==> p == 0.0)
      && (p == 0.0 <==> forall i, j :: 0 <= i < |kept| && 0 <= j < |kept| ==>
                          MeanOf(kept[i], FitnessScore) == MeanOf(kept[j], FitnessScore))
  {
    var means := BoatMeans(kept);
    var v := BalanceVariance(means);
    assert v * BalanceWeight == 0.0 <==> v == 0.0;
  }

  /** Two full boats cost their own costs plus 100 times the variance of
      their two mean fitness scores (which `BalanceVarianceOfTwo` gives as a
      quarter of their squared gap). */
  lemma TwoBoatsCost(boatType: int, a: seq<Rower>, b: seq<Rower>)
    requires |a| > 0 && |b| > 0 && Fits(boatType, a) && Fits(boatType, b)
    ensures CalculateCost(boatType, [a, b]).Ok?
    ensures CalculateCost(boatType, [a, b]).value
         == SingleBoatCost(boatType, a).value + SingleBoatCost(boatType, b).value
            + 100.0 * BalanceVariance([MeanOf(a, FitnessScore), MeanOf(b, FitnessScore)])
  {
    NonEmptyOfNonEmpty([a, b]);
    CostOfKept(boatType, [a, b]);
    KeptCostValue(boatType, [a, b]);
    PairParts(boatType, a, b);
    PairSum(SingleBoatCost(boatType, a).value, SingleBoatCost(boatType, b).value);
  }



  lemma KeptCostValue(boatType: int, kept: seq<seq<Rower>>)
    requires forall b :: 0 <= b < |kept| ==> |kept[b]| > 0 && Fits(boatType, kept[b])
    ensures BoatCosts(boatType, kept).Ok? && KeptCost(boatType, kept).Ok?
    ensures KeptCost(boatType, kept).value
         == SumOf(BoatCosts(boatType, kept).value, Id) + BalanceVariance(BoatMeans(kept)) * BalanceWeight
  {
    match BoatCosts(boatType, kept)
    case Ok(costs) =>
  }



  lemma PairParts(boatType: int, a: seq<Rower>, b: seq<Rower>)
    requires |a| > 0 && |b| > 0 && Fits(boatType, a) && Fits(boatType, b)
    ensures BoatCosts(boatType, [a, b]).value
         == [SingleBoatCost(boatType, a).value, SingleBoatCost(boatType, b).value]
    ensures BoatMeans([a, b]) == [MeanOf(a, FitnessScore), MeanOf(b, FitnessScore)]
  {
  }



  lemma PairSum(x: real, y: real)
    ensures SumOf([x, y], Id) == x + y
  {
    assert [x, y][1..] == [y];
    assert SumOf([y], Id) == y + SumOf([y][1..], Id);
  }


  /** Empty boats anywhere in the list leave the cost unchanged. */
  lemma EmptyBoatsIgnored(boatType: int, a: seq<seq<Rower>>, b: seq<seq<Rower>>)
    ensures CalculateCost(boatType, a + [[]] + b) == CalculateCost(boatType, a + b)
  {
    NonEmptySkipsEmpty(a, b);
    CostOfKept(boatType, a + [[]] + b);
    CostOfKept(boatType, a + b);
  }

  lemma NonEmptySkipsEmpty(a: seq<seq<Rower>>, b: seq<seq<Rower>>)
    ensures NonEmpty(a + [[]] + b) == NonEmpty(a + b)
  {
    NonEmptyConcat(a, [[]] + b);
    NonEmptyConcat([[]], b);
    NonEmptyConcat(a, b);
    assert a + [[]] + b == a + ([[]] + b);
  }

  /** The cost looks only at the non-empty boats. */
  lemma CostOfKept(boatType: int, boats: seq<seq<Rower>>)
    ensures CalculateCost(boatType, boats) == KeptCost(boatType, NonEmpty(boats))
  {
  }

  /** Boats whose mean fitness scores are all equal pay no balance penalty:
      the cost is then the sum of the per-boat costs. */
  lemma BalancedBoatsCostTheirSum(boatType: int, boats: seq<seq<Rower>>, m: real)
    requires forall b :: 0 <= b < |boats| ==> |boats[b]| > 0 && Fits(boatType, boats[b])
    requires forall b :: 0 <= b < |boats| ==> MeanOf(boats[b], FitnessScore) == m
    ensures CalculateCost(boatType, boats) == Ok(SumOf(BoatCosts(boatType, boats).value, Id))
  {
    NonEmptyOfNonEmpty(boats);
    CostOfKept(boatType, boats);
    if |boats| > 1 {
      VarianceOfConstant(BoatMeans(boats), Id, m);
    }
  }

  // ----- Neighbour move -----

  /** The random choices of `generate_neighbor`: two different boats and a
      seat in each. */
  datatype Exchange = Exchange(boat1: nat, boat2: nat, seat1: nat, seat2: nat)

  predicate ValidExchange(m: Exchange, boats: seq<seq<Rower>>) {
    && m.boat1 != m.boat2 && m.boat1 < |boats| && m.boat2 < |boats|
    && m.seat1 < |boats[m.boat1]| && m.seat2 < |boats[m.boat2]|
  }

  /** All rowers of all boats, boat after boat. */
  function Flatten(boats: seq<seq<Rower>>): seq<Rower>
  {
    if |boats| == 0 then [] else boats[0] + Flatten(boats[1..])
  }

  lemma {:induction false} FlattenAppend(boats: seq<seq<Rower>>, last: seq<Rower>)
    ensures Flatten(boats + [last]) == Flatten(boats) + last
    decreases |boats|
  {
    if |boats| == 0 {
      assert boats + [last] == [last];
    } else {
      assert (boats + [last])[1..] == boats[1..] + [last];
      FlattenAppend(boats[1..], last);
    }
  }

  /** The rowers of two lists of boats, one list after the other. */
  lemma {:induction false} FlattenConcat(a: seq<seq<Rower>>, b: seq<seq<Rower>>)
    ensures Flatten(a + b) == Flatten(a) + Flatten(b)
    decreases |a|
  {
    if |a| == 0 {
      assert a + b == b;
    } else {
      assert (a + b)[1..] == a[1..] + b;
      FlattenConcat(a[1..], b);
    }
  }

  /** Replacing one boat replaces its rowers in the roster of all boats. */
  lemma FlattenUpdate(boats: seq<seq<Rower>>, b: nat, x: seq<Rower>)
    requires b < |boats|
    ensures multiset(Flatten(boats[b := x])) + multiset(boats[b]) == multiset(Flatten(boats)) + multiset(x)
  {
    var before := boats[..b];
    var after := boats[b + 1..];
    assert boats == before + [boats[b]] + after;
    assert boats[b := x] == before + [x] + after;
    FlattenConcat(before + [boats[b]], after);
    FlattenConcat(before + [x], after);
    FlattenAppend(before, boats[b]);
    FlattenAppend(before, x);
  }

  /** `generate_neighbor` with its random choices given: with fewer than two
      boats a copy, otherwise the two chosen rowers trade places. Every boat
      keeps its size, boats other than the two chosen are untouched, and no
      rower enters or leaves the set of boats. */
  function GenerateNeighbor(boats: seq<seq<Rower>>, m: Exchange): (next: seq<seq<Rower>>)
    requires |boats| < 2 || ValidExchange(m, boats)
    ensures |boats| < 2 ==> next == boats
    ensures |next| == |boats|
    ensures forall b :: 0 <= b < |boats| ==> |next[b]| == |boats[b]|
    ensures |boats| >= 2 ==>
      && next[m.boat1][m.seat1] == boats[m.boat2][m.seat2]
      && next[m.boat2][m.seat2] == boats[m.boat1][m.seat1]
      && (forall b :: 0 <= b < |boats| && b != m.boat1 && b != m.boat2 ==> next[b] == boats[b])
      && (forall k :: 0 <= k < |boats[m.boat1]| && k != m.seat1 ==> next[m.boat1][k] == boats[m.boat1][k])
      && (forall k :: 0 <= k < |boats[m.boat2]| && k != m.seat2 ==> next[m.boat2][k] == boats[m.boat2][k])
  {
    if |boats| < 2 then boats
    else
      var x := boats[m.boat1][m.seat1];
      var y := boats[m.boat2][m.seat2];
      boats[m.boat1 := boats[m.boat1][m.seat1 := y]][m.boat2 := boats[m.boat2][m.seat2 := x]]
  }

  /** An exchange moves rowers between boats but never adds or drops one. */
  lemma ExchangeKeepsRowers(boats: seq<seq<Rower>>, m: Exchange)
    requires |boats| < 2 || ValidExchange(m, boats)
    ensures multiset(Flatten(GenerateNeighbor(boats, m))) == multiset(Flatten(boats))
  {
    if |boats| >= 2 {
      var x := boats[m.boat1][m.seat1];
      var y := boats[m.boat2][m.seat2];
      var one := boats[m.boat1][m.seat1 := y];
      var two := boats[m.boat2][m.seat2 := x];
      var first := boats[m.boat1 := one];
      var second := first[m.boat2 := two];
      assert GenerateNeighbor(boats, m) == second;
      assert first[m.boat2] == boats[m.boat2];
      FlattenUpdate(boats, m.boat1, one);
      FlattenUpdate(first, m.boat2, two);
      MultisetUpdate(boats[m.boat1], m.seat1, y);
      MultisetUpdate(boats[m.boat2], m.seat2, x);
      var after := multiset(Flatten(second));
      var before := multiset(Flatten(boats));
      var middle := multiset(Flatten(first));
      TwoTradesCancel(before, middle, after, multiset(boats[m.boat1]), multiset(boats[m.boat2]),
                      multiset(one), multiset(two), x, y);
    }
  }

  /** Bookkeeping of one exchange: boat 1 trades `x` for `y`, boat 2 trades
      `y` for `x`, so the whole roster ends where it began. */
  lemma TwoTradesCancel<T>(before: multiset<T>, middle: multiset<T>, after: multiset<T>,
                           m1: multiset<T>, m2: multiset<T>, n1: multiset<T>, n2: multiset<T>, x: T, y: T)
    requires middle + m1 == before + n1
    requires after + m2 == middle + n2
    requires n1 + multiset{x} == m1 + multiset{y}
    requires n2 + multiset{y} == m2 + multiset{x}
    ensures after == before
  {
    forall z
      ensures after[z] == before[z]
    {
      assert (middle + m1)[z] == (before + n1)[z];
      assert (after + m2)[z] == (middle + n2)[z];
      assert (n1 + multiset{x})[z] == (m1 + multiset{y})[z];
      assert (n2 + multiset{y})[z] == (m2 + multiset{x})[z];
    }
  }

  /** Repeating the same exchange restores the boats. */
  lemma ExchangeTwiceRestores(boats: seq<seq<Rower>>, m: Exchange)
    requires |boats| < 2 || ValidExchange(m, boats)
    ensures GenerateNeighbor(GenerateNeighbor(boats, m), m) == boats
  {
    if |boats| >= 2 {
      var twice := GenerateNeighbor(GenerateNeighbor(boats, m), m);
      forall b | 0 <= b < |boats|
        ensures twice[b] == boats[b]
      {
      }
    }
  }

  // ----- Initial partition and the annealing loop -----

  /** The roster holds `count` boats of `boatType` rowers. */
  predicate CanPartition(shuffled: seq<Rower>, boatType: int, count: nat) {
    count == 0 || (boatType > 0 && count * boatType <= |shuffled|)
  }

  /** The initial solution: boat `i` takes the slice `[i * boat_type,
      (i + 1) * boat_type)` of the shuffled roster. Together the boats hold
      exactly the first `count * boat_type` rowers, in order. */
  function InitialPartition(shuffled: seq<Rower>, boatType: int, count: nat): (boats: seq<seq<Rower>>)
    requires CanPartition(shuffled, boatType, count)
    ensures |boats| == count
    ensures forall i :: 0 <= i < count ==> |boats[i]| == boatType
    ensures Flatten(boats) == shuffled[..count * boatType]
    decreases count
  {
    if count == 0 then []
    else
      var start := (count - 1) * boatType;
      assert start + boatType == count * boatType;
      assert start <= count * boatType;
      var boats := InitialPartition(shuffled, boatType, count - 1) + [shuffled[start..start + boatType]];
      FlattenAppend(InitialPartition(shuffled, boatType, count - 1), shuffled[start..start + boatType]);
      assert shuffled[..start] + shuffled[start..start + boatType] == shuffled[..start + boatType];
      boats
  }

  /** A set of boats the search may hold: `count` boats of `boatType` rowers
      drawn from `pool`, all seatable. */
  predicate Partitioned(boatType: int, count: nat, pool: multiset<Rower>, boats: seq<seq<Rower>>)
  {
    && |boats| == count
    && (forall b :: 0 <= b < |boats| ==> |boats[b]| == boatType)
    && (count > 0 ==> ValidBoatType(boatType))
    && multiset(Flatten(boats)) == pool
  }

  /** The oracle is well formed: one draw per inner iteration, each naming
      two different boats and a seat of each, whenever there are two boats. */
  predicate ValidSchedule(levels: seq<seq<Draw<Exchange>>>, iterationsPerTemp: int, count: nat, boatType: int) {
    forall l :: 0 <= l < |levels| ==>
      && |levels[l]| == RangeLength(iterationsPerTemp)
      && forall t :: 0 <= t < |levels[l]| ==>
           var m := levels[l][t].move;
           count >= 2 ==> m.boat1 != m.boat2 && m.boat1 < count && m.boat2 < count && m.seat1 < boatType && m.seat2 < boatType
  }

  /** The boats a search may hold, as the loop's feasibility predicate. */
  function PartitionOf(boatType: int, count: nat, pool: multiset<Rower>): seq<seq<Rower>> -> bool
  {
    (bs: seq<seq<Rower>>) => Partitioned(boatType, count, pool, bs)
  }

  /** The cost the search minimises: `calculate_cost` on boats that can be
      seated. */
  function BoatsCost(boatType: int): seq<seq<Rower>> --> Cost
  {
    (bs: seq<seq<Rower>>) requires CalculateCost(boatType, bs).Ok? => Finite(CalculateCost(boatType, bs).value)
  }

  lemma ExchangeKeepsPartition(boatType: int, count: nat, pool: multiset<Rower>,
                               levels: seq<seq<Draw<Exchange>>>, iterationsPerTemp: int)
    requires ValidSchedule(levels, iterationsPerTemp, count, boatType)
    ensures MovesKeep(levels, PartitionOf(boatType, count, pool), GenerateNeighbor)
  {
    var feasible := PartitionOf(boatType, count, pool);
    forall l | 0 <= l < |levels|
      ensures LevelKeeps(levels[l], feasible, GenerateNeighbor)
    {
      forall t, bs | 0 <= t < |levels[l]| && feasible(bs)
        ensures GenerateNeighbor.requires(bs, levels[l][t].move)
        ensures feasible(GenerateNeighbor(bs, levels[l][t].move))
      {
        ExchangeKeepsRowers(bs, levels[l][t].move);
      }
    }
  }

  /** A partition of the pool can always be costed. */
  lemma PartitionHasCost(boatType: int, count: nat, pool: multiset<Rower>, boats: seq<seq<Rower>>)
    requires Partitioned(boatType, count, pool, boats)
    ensures CalculateCost(boatType, boats).Ok?
  {
  }

  lemma PartitionsHaveCost(boatType: int, count: nat, pool: multiset<Rower>)
    ensures forall bs | Partitioned(boatType, count, pool, bs) :: CalculateCost(boatType, bs).Ok?
  {
    forall bs | Partitioned(boatType, count, pool, bs)
      ensures CalculateCost(boatType, bs).Ok?
    {
      PartitionHasCost(boatType, count, pool, bs);
    }
  }

  /** The optimiser's roster can be cut into its `num_boats` boats: at least
      one boat for a positive size, none for a negative one. */
  lemma RosterPartitions(opt: MultiBoatOptimizer, shuffled: seq<Rower>)
    requires opt.Valid()
    requires multiset(shuffled) == multiset(opt.rowers)
    ensures |shuffled| == |opt.rowers|
    ensures CanPartition(shuffled, opt.boatType, RangeLength(opt.numBoats))
    ensures opt.boatType > 0 ==> opt.numBoats >= 1
    ensures opt.boatType < 0 ==> RangeLength(opt.numBoats) == 0
  {
    assert |multiset(shuffled)| == |multiset(opt.rowers)|;
    FloorDivOfCount(|opt.rowers|, opt.boatType);
  }

  /** Boats holding the first `k` rowers of a shuffled roster draw on the
      roster, hold `k` rowers, and repeat nobody the roster does not repeat. */
  lemma PrefixDrawsOnRoster(rowers: seq<Rower>, shuffled: seq<Rower>, boats: seq<seq<Rower>>, k: nat)
    requires multiset(shuffled) == multiset(rowers)
    requires k <= |shuffled|
    requires multiset(Flatten(boats)) == multiset(shuffled[..k])
    ensures multiset(Flatten(boats)) <= multiset(rowers)
    ensures |Flatten(boats)| == k
    ensures Distinct(rowers) ==> Distinct(Flatten(boats))
  {
    assert shuffled == shuffled[..k] + shuffled[k..];
    assert multiset(shuffled) == multiset(shuffled[..k]) + multiset(shuffled[k..]);
    assert |multiset(Flatten(boats))| == |multiset(shuffled[..k])|;
    if Distinct(rowers) {
      DistinctByMultiset(rowers, shuffled);
      assert Distinct(shuffled[..k]);
      DistinctByMultiset(shuffled[..k], Flatten(boats));
    }
  }

  /** Boats that redistribute the initial partition of the shuffled roster
      draw on the roster, leave out `len(rowers) % boat_type` rowers, and
      repeat nobody the roster does not repeat. */
  lemma PartitionOfRoster(opt: MultiBoatOptimizer, shuffled: seq<Rower>, boats: seq<seq<Rower>>)
    requires opt.Valid()
    requires multiset(shuffled) == multiset(opt.rowers)
    requires CanPartition(shuffled, opt.boatType, RangeLength(opt.numBoats))
    requires var count := RangeLength(opt.numBoats);
      Partitioned(opt.boatType, count, multiset(Flatten(InitialPartition(shuffled, opt.boatType, count))), boats)
    ensures multiset(Flatten(boats)) <= multiset(opt.rowers)
    ensures opt.boatType > 0 ==> |opt.rowers| - |Flatten(boats)| == |opt.rowers| % opt.boatType
    ensures Distinct(opt.rowers) ==> Distinct(Flatten(boats))
  {
    var n := opt.boatType;
    var count := RangeLength(opt.numBoats);
    RosterPartitions(opt, shuffled);
    PrefixDrawsOnRoster(opt.rowers, shuffled, boats, count * n);
    if n > 0 {
      RemainderLeftOut(|opt.rowers|, n);
    }
  }

  /** `num_boats` full boats leave out `len(rowers) % boat_type` rowers. */
  lemma RemainderLeftOut(size: nat, boatType: int)
    requires boatType > 0
    ensures size - FloorDiv(size, boatType) * boatType == size % boatType
  {
  }

  /** No boats cost nothing. */
  lemma NoBoatsCostNothing(boatType: int)
    ensures CalculateCost(boatType, []) == Ok(0.0)
  {
    assert NonEmpty([]) == [];
    assert BoatCosts(boatType, []) == Ok([]);
  }

  /** `best`, `bestCost` and `trace` are what the search from `initial`
      determines, with the exchange move and `calculate_cost`, over partitions
      of the initial rowers. */
  ghost predicate IsAnnealed(n: int, count: nat, initial: seq<seq<Rower>>, initialTemp: real, coolingRate: real,
                             minTemp: real, levels: seq<seq<Draw<Exchange>>>,
                             best: seq<seq<Rower>>, bestCost: real, trace: seq<Cost>)
  {
    var pool := multiset(Flatten(initial));
    && Ready(initial, BoatsCost(n), GenerateNeighbor, PartitionOf(n, count, pool), levels)
    && var r := Annealed(initial, BoatsCost(n), GenerateNeighbor, PartitionOf(n, count, pool),
                         initialTemp, coolingRate, minTemp, levels);
       best == r.0.best && Finite(bestCost) == r.0.bestCost && trace == r.1
  }

  /** The annealing loop over sets of boats: the exchange move keeps the
      boats a partition of the same rowers, so every solution visited can be
      costed. The result is the best set of boats of the search the schedule
      determines. */
  method AnnealBoats(n: int, count: nat, initial: seq<seq<Rower>>, initialTemp: real, coolingRate: real,
                     minTemp: real, iterationsPerTemp: int, levels: seq<seq<Draw<Exchange>>>)
    returns (best: seq<seq<Rower>>, bestCost: real, ghost trace: seq<Cost>)
    requires Partitioned(n, count, multiset(Flatten(initial)), initial)
    requires ValidSchedule(levels, iterationsPerTemp, count, n)
    ensures Partitioned(n, count, multiset(Flatten(initial)), best)
    ensures CalculateCost(n, best) == Ok(bestCost)
    ensures |trace| > 0 && trace[0] == Finite(CalculateCost(n, initial).value)
    ensures Finite(bestCost) in trace && forall c :: c in trace ==> Finite(bestCost).AtMost(c)
    ensures IsAnnealed(n, count, initial, initialTemp, coolingRate, minTemp, levels, best, bestCost, trace)
  {
    var pool := multiset(Flatten(initial));
    ExchangeKeepsPartition(n, count, pool, levels, iterationsPerTemp);
    PartitionsHaveCost(n, count, pool);
    var b, c;
    b, c, trace := Anneal(initial, BoatsCost(n), GenerateNeighbor, PartitionOf(n, count, pool),
                          initialTemp, coolingRate, minTemp, iterationsPerTemp, levels);
    best, bestCost := b, c.value;
  }

  /** `optimize`: cut the shuffled roster into `num_boats` boats and anneal
      them with the exchange move and `calculate_cost`. The result is the
      best set of boats of the search the schedule determines: it holds the
      same rowers as the initial boats, each boat full, and its cost is the
      least of the costs the search made current, so at most the initial
      one. A
      positive boat size other than 4 or 8 fails at the first cost; a
      negative one gives no boats at all. */
  method Optimize(opt: MultiBoatOptimizer, shuffled: seq<Rower>, levels: seq<seq<Draw<Exchange>>>)
    returns (result: Result<(seq<seq<Rower>>, real)>, ghost trace: seq<Cost>)
    requires opt.Valid()
    requires multiset(shuffled) == multiset(opt.rowers)
    requires ValidSchedule(levels, opt.iterationsPerTemp, RangeLength(opt.numBoats), opt.boatType)
    ensures opt.boatType > 0 ==> (result.Ok? <==> ValidBoatType(opt.boatType))
    ensures result.Err? ==> result.error == InvalidBoatType
    ensures opt.boatType < 0 ==> result == Ok(([], 0.0))
    ensures CanPartition(shuffled, opt.boatType, RangeLength(opt.numBoats))
    ensures result.Ok? ==>
      var (best, bestCost) := result.value;
      var initial := InitialPartition(shuffled, opt.boatType, RangeLength(opt.numBoats));
      && |best| == RangeLength(opt.numBoats)
      && (forall b :: 0 <= b < |best| ==> |best[b]| == opt.boatType)
      && multiset(Flatten(best)) == multiset(Flatten(initial))
      && multiset(Flatten(best)) <= multiset(opt.rowers)
      && (opt.boatType > 0 ==> |opt.rowers| - |Flatten(best)| == |opt.rowers| % opt.boatType)
      && (Distinct(opt.rowers) ==> Distinct(Flatten(best)))
      && CalculateCost(opt.boatType, best) == Ok(bestCost)
      && CalculateCost(opt.boatType, initial).Ok?
      && |trace| > 0 && trace[0] == Finite(CalculateCost(opt.boatType, initial).value)
      && Finite(bestCost) in trace
      && (forall c :: c in trace ==> Finite(bestCost).AtMost(c))
    ensures result.Ok? ==>
      IsAnnealed(opt.boatType, RangeLength(opt.numBoats),
                 InitialPartition(shuffled, opt.boatType, RangeLength(opt.numBoats)),
                 opt.initialTemp, opt.coolingRate, opt.minTemp, levels, result.value.0, result.value.1, trace)
  {
    var n := opt.boatType;
    var count := RangeLength(opt.numBoats);
    RosterPartitions(opt, shuffled);
    var initial := InitialPartition(shuffled, n, count);
    var start := CalculateCost(n, initial);
    trace := [];
    if start.Err? {
      assert n > 0 && |initial[0]| > 0;
      return Err(start.error), trace;
    }
    assert count > 0 ==> |initial[0]| == n > 0 && Fits(n, initial[0]);
    var best, bestCost;
    best, bestCost, trace := AnnealBoats(n, count, initial, opt.initialTemp, opt.coolingRate,
                                         opt.minTemp, opt.iterationsPerTemp, levels);
    PartitionOfRoster(opt, shuffled, best);
    if n < 0 {
      NoBoatsCostNothing(n);
    }
    result := Ok((best, bestCost));
  }
}
