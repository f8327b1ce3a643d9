/** The command-line driver (`src/lineup_setter.py`): the number of runs, the
    best-of-runs selection, the statistics printed for a lineup, and the
    update of every rower's `days_since_boated` after a session. File I/O and
    printing are not modelled; the optimiser runs are inputs. */
module LineupSetter {
  import opened Basics
  import opened Stats
  import opened Rowers
  import MultiBoatOptimizer

  /** `runs = args.runs if args.runs > 1 else 1`: the larger of the request
      and one, so at least one run is made and never fewer than asked for. */
  function RunCount(requested: int): (runs: nat)
    ensures runs >= 1 && runs >= requested
    ensures runs == 1 || runs == requested
  {
    if requested > 1 then requested else 1
  }

  /** The best-of-runs loop: starting from no result at an infinite cost, a
      run replaces the best only when its cost is strictly lower. The result
      is the first run of least cost; when no run has a finite cost nothing
      is selected. */
  method SelectBest<L>(runs: seq<(L, Cost)>) returns (best: Option<L>, bestCost: Cost)
    ensures forall i :: 0 <= i < |runs| ==> bestCost.AtMost(runs[i].1)
    ensures best.None? <==> forall i :: 0 <= i < |runs| ==> runs[i].1 == Inf
    ensures best.None? ==> bestCost == Inf
    ensures best.Some? ==>
      exists i :: 0 <= i < |runs| && runs[i] == (best.value, bestCost) &&
                  forall j :: 0 <= j < i ==> bestCost.Less(runs[j].1)
  {
    best, bestCost := None, Inf;
    ghost var at := 0;
    var i := 0;
    while i < |runs|
      invariant 0 <= i <= |runs|
      invariant forall j :: 0 <= j < i ==> bestCost.AtMost(runs[j].1)
      invariant best.None? <==> forall j :: 0 <= j < i ==> runs[j].1 == Inf
      invariant best.None? ==> bestCost == Inf
      invariant best.Some? ==>
        && 0 <= at < i && runs[at] == (best.value, bestCost)
        && forall j :: 0 <= j < at ==> bestCost.Less(runs[j].1)
    {
      var (lineup, cost) := runs[i];
      if cost.Less(bestCost) {
        forall j | 0 <= j < i
          ensures cost.AtMost(runs[j].1)
        {
          CostOrder(cost, bestCost, runs[j].1);
        }
        if best.Some? {
          forall j | 0 <= j < i
            ensures cost.Less(runs[j].1)
          {
            CostOrder(cost, bestCost, runs[j].1);
            if j < at {
              CostOrder(bestCost, runs[j].1, runs[j].1);
            }
          }
        }
        best, bestCost, at := Some(lineup), cost, i;
      }
      i := i + 1;
    }
  }

  /** The multi-boat mode's guard: `len(rowers) // boat_type` boats, or
      nothing to do when that is zero. The boat size comes from the command
      line, which accepts only 4 and 8. */
  function BoatsToBuild(rosterSize: nat, boatType: int): (count: Option<nat>)
    requires ValidBoatType(boatType)
    ensures count.None? <==> rosterSize < boatType
    ensures count.Some? ==> count.value >= 1
    ensures count.Some? ==> count.value * boatType <= rosterSize < (count.value + 1) * boatType
  {
    FloorDivOfCount(rosterSize, boatType);
    var n := FloorDiv(rosterSize, boatType);
    if n == 0 then None else Some(n)
  }

  /** The driver's guard and the optimiser's constructor agree: the driver
      stops exactly when the constructor would refuse the roster, and
      otherwise both count the same boats. */
  lemma GuardMatchesConstructor(rowers: seq<Rower>, boatType: int, initialTemp: real, coolingRate: real,
                                minTemp: real, iterationsPerTemp: int)
    requires ValidBoatType(boatType)
    ensures var built := MultiBoatOptimizer.NewMultiBoatOptimizer(rowers, boatType, initialTemp,
                                                                  coolingRate, minTemp, iterationsPerTemp);
      && (BoatsToBuild(|rowers|, boatType).None? <==> built.Err?)
      && (built.Ok? ==> BoatsToBuild(|rowers|, boatType) == Some(built.value.numBoats))
  {
  }

  // ----- days_since_boated -----

  /** `{r.name for r in best_lineup}`. */
  function BoatedNames(lineup: seq<Rower>): (names: set<string>)
    ensures forall i :: 0 <= i < |lineup| ==> lineup[i].name in names
    ensures forall name :: name in names ==> exists i :: 0 <= i < |lineup| && lineup[i].name == name
  {
    set r | r in lineup :: r.name
  }

  /** `{r.name for lineup in best_lineups for r in lineup}`. */
  function BoatedNamesOfBoats(boats: seq<seq<Rower>>): (names: set<string>)
    ensures forall b, i :: 0 <= b < |boats| && 0 <= i < |boats[b]| ==> boats[b][i].name in names
  {
    assert forall b, i :: 0 <= b < |boats| && 0 <= i < |boats[b]| ==> boats[b] in boats && boats[b][i] in boats[b];
    set l, r | l in boats && r in l :: r.name
  }

  /** The names on several boats are the names of their combined roster. */
  lemma {:induction false} BoatedNamesOfBoatsFlatten(boats: seq<seq<Rower>>)
    ensures BoatedNamesOfBoats(boats) == BoatedNames(MultiBoatOptimizer.Flatten(boats))
    decreases |boats|
  {
    if |boats| > 0 {
      BoatedNamesOfBoatsFlatten(boats[1..]);
      var flat := MultiBoatOptimizer.Flatten(boats);
      assert flat == boats[0] + MultiBoatOptimizer.Flatten(boats[1..]);
      assert BoatedNamesOfBoats(boats) == BoatedNames(boats[0]) + BoatedNamesOfBoats(boats[1..]) by {
        assert forall l :: l in boats <==> l == boats[0] || l in boats[1..];
      }
      assert BoatedNames(flat) == BoatedNames(boats[0]) + BoatedNames(MultiBoatOptimizer.Flatten(boats[1..])) by {
        assert forall r :: r in flat <==> r in boats[0] || r in MultiBoatOptimizer.Flatten(boats[1..]);
      }
    }
  }

  /** The update after a session: a rower whose name was boated is reset to
      zero days, everyone else waits one day more. Order, length and every
      other field are kept. In fitness terms, a boated rower loses the whole
      waiting bonus and everyone else gains 5 more points of it. */
  method UpdateDaysSinceBoated(rowers: seq<Rower>, boated: set<string>) returns (updated: seq<Rower>)
    ensures |updated| == |rowers|
    ensures forall i :: 0 <= i < |rowers| ==>
      updated[i] == rowers[i].(daysSinceBoated := if rowers[i].name in boated then 0 else rowers[i].daysSinceBoated + 1)
    ensures forall i :: 0 <= i < |rowers| && rowers[i].name in boated ==>
      FitnessScore(updated[i]) == FitnessScore(rowers[i].(daysSinceBoated := 0))
    ensures forall i :: 0 <= i < |rowers| && rowers[i].name !in boated ==>
      FitnessScore(updated[i]) == FitnessScore(rowers[i]) - WaitBonusPerDay
  {
    updated := [];
    var i := 0;
    while i < |rowers|
      invariant 0 <= i <= |rowers|
      invariant |updated| == i
      invariant forall k :: 0 <= k < i ==>
        updated[k] == rowers[k].(daysSinceBoated := if rowers[k].name in boated then 0 else rowers[k].daysSinceBoated + 1)
      invariant forall k :: 0 <= k < i && rowers[k].name !in boated ==>
        FitnessScore(updated[k]) == FitnessScore(rowers[k]) - WaitBonusPerDay
    {
      var r := rowers[i];
      if r.name in boated {
        updated := updated + [r.(daysSinceBoated := 0)];
      } else {
        WaitingOneMoreDay(r);
        updated := updated + [r.(daysSinceBoated := r.daysSinceBoated + 1)];
      }
      i := i + 1;
    }
  }

  /** The end of a single-boat session: only a non-empty best lineup updates
      the roster (`if best_lineup:`). */
  method FinishSingleBoat(rowers: seq<Rower>, best: Option<seq<Rower>>) returns (updated: seq<Rower>)
    ensures |updated| == |rowers|
    ensures (best.None? || |best.value| == 0) ==> updated == rowers
    ensures best.Some? && |best.value| > 0 ==> forall i :: 0 <= i < |rowers| ==>
      updated[i] == rowers[i].(daysSinceBoated := if (exists k :: 0 <= k < |best.value| && best.value[k].name == rowers[i].name)
                                                  then 0 else rowers[i].daysSinceBoated + 1)
  {
    if best.Some? && |best.value| > 0 {
      updated := UpdateDaysSinceBoated(rowers, BoatedNames(best.value));
    } else {
      updated := rowers;
    }
  }

  /** The end of a multi-boat session: a non-empty list of boats updates the
      roster with the names on any of the boats. */
  method FinishMultiBoat(rowers: seq<Rower>, best: Option<seq<seq<Rower>>>) returns (updated: seq<Rower>)
    ensures |updated| == |rowers|
    ensures (best.None? || |best.value| == 0) ==> updated == rowers
    ensures best.Some? && |best.value| > 0 ==> forall i :: 0 <= i < |rowers| ==>
      updated[i] == rowers[i].(daysSinceBoated := if rowers[i].name in BoatedNames(MultiBoatOptimizer.Flatten(best.value))
                                                  then 0 else rowers[i].daysSinceBoated + 1)
  {
    if best.Some? && |best.value| > 0 {
      BoatedNamesOfBoatsFlatten(best.value);
      updated := UpdateDaysSinceBoated(rowers, BoatedNamesOfBoats(best.value));
    } else {
      updated := rowers;
    }
  }

  /** The boat printed at the end of a single-boat session: an empty boat,
      filled from the bow when a non-empty best lineup exists. */
  function FinalBoat(boatType: int, best: Option<seq<Rower>>): (r: Result<Boat>)
    ensures r.Err? <==> !ValidBoatType(boatType) || (best.Some? && |best.value| > boatType)
    ensures r.Ok? ==> r.value.Valid() && r.value.boatType == boatType
    ensures r.Ok? ==> forall k :: 0 <= k < boatType ==>
      GetLineup(r.value)[k] == (if best.Some? && k < |best.value| then Some(best.value[k]) else None)
  {
    match best
    case Some(lineup) => BoatWithLineup(boatType, lineup)
    case None => BoatWithLineup(boatType, [])
  }

  // ----- Lineup statistics -----

  /** `[r for r in lineup if r]`: one entry per occupied seat, in seat
      order; the occupant of seat `i` follows the occupants of the seats
      before it. */
  function ActiveRowers(lineup: seq<Option<Rower>>): (active: seq<Rower>)
    ensures |active| == CountOf(lineup, IsSeated) <= |lineup|
    ensures forall r :: r in active <==> Some(r) in lineup
    ensures forall i :: 0 <= i < |lineup| && lineup[i].Some? ==>
      CountOf(lineup[..i], IsSeated) < |active| && active[CountOf(lineup[..i], IsSeated)] == lineup[i].value
    decreases |lineup|
  {
    if |lineup| == 0 then []
    else
      var rest := ActiveRowers(lineup[1..]);
      assert forall x :: x in lineup <==> x == lineup[0] || x in lineup[1..];
      assert forall i :: 1 <= i <= |lineup| ==> lineup[..i][1..] == lineup[1..][..i - 1];
      match lineup[0]
      case Some(r) => [r] + rest
      case None => rest
  }

  predicate SeatedVarsity(o: Option<Rower>) { o.Some? && o.value.experience == Varsity }
  predicate SeatedNovice(o: Option<Rower>) { o.Some? && o.value.experience == Novice }
  predicate IsSeated(o: Option<Rower>) { o.Some? }

  /** The varsity and novice counts printed for a lineup: the first is the
      varsity count the cost function sees on the seated rowers, the second
      the rest of them. */
  function ExperienceBreakdown(lineup: seq<Option<Rower>>): (counts: (nat, nat))
    ensures counts.0 + counts.1 == CountOf(lineup, IsSeated)
    ensures counts.0 + counts.1 <= |lineup|
    ensures counts.0 == VarsityCount(ActiveRowers(lineup))
    ensures counts.1 == |ActiveRowers(lineup)| - VarsityCount(ActiveRowers(lineup))
  {
    CountOfSplit(lineup);
    CountOfBounds(lineup, IsSeated);
    SeatedVarsityCount(lineup);
    (CountOf(lineup, SeatedVarsity), CountOf(lineup, SeatedNovice))
  }

  /** Counting varsity occupants seat by seat agrees with counting varsity
      rowers among the seated ones. */
  lemma {:induction false} SeatedVarsityCount(lineup: seq<Option<Rower>>)
    ensures CountOf(lineup, SeatedVarsity) == VarsityCount(ActiveRowers(lineup))
    decreases |lineup|
  {
    if |lineup| > 0 {
      SeatedVarsityCount(lineup[1..]);
      var rest := ActiveRowers(lineup[1..]);
      match lineup[0]
      case Some(r) =>
        assert ActiveRowers(lineup) == [r] + rest;
        assert ([r] + rest)[1..] == rest;
      case None =>
    }
  }

  lemma {:induction false} CountOfSplit(lineup: seq<Option<Rower>>)
    ensures CountOf(lineup, SeatedVarsity) + CountOf(lineup, SeatedNovice) == CountOf(lineup, IsSeated)
    decreases |lineup|
  {
    if |lineup| > 0 {
      CountOfSplit(lineup[1..]);
    }
  }

  /** The side-preference matches printed for a boat: occupied seats whose
      rower rows either side or this seat's side. Together with the
      mismatches they count the occupied seats, so a boat shows every seat
      matched exactly when it is full and no seat is mismatched. */
  function SideMatches(b: Boat): (matches: nat)
    requires b.Valid()
    ensures matches + SideMismatches(b.seats) == CountOf(b.seats, Occupied)
    ensures matches <= |GetLineup(b)|
    ensures matches == |GetLineup(b)| <==> IsFull(b) && SideMismatches(b.seats) == 0
  {
    MatchedOrMismatched(b.seats);
    CountOfBounds(b.seats, Occupied);
    CountOfBounds(b.seats, Matched);
    CountOf(b.seats, Matched)
  }

  lemma {:induction false} MatchedOrMismatched(seats: seq<Seat>)
    ensures CountOf(seats, Matched) + CountOf(seats, Mismatched) == CountOf(seats, Occupied)
    decreases |seats|
  {
    if |seats| > 0 {
      MatchedOrMismatched(seats[1..]);
    }
  }

  /** The average attendance printed for the active rowers: a fraction. */
  function AverageAttendance(active: seq<Rower>): (avg: real)
    requires |active| > 0
    ensures 0.0 <= avg <= 1.0
  {
    MeanOfBounds(active, AttendanceScore, 0.0, 1.0);
    MeanOf(active, AttendanceScore)
  }

  /** The average lies between the lowest and the highest attendance score;
      when every score is the same, the average is that score. */
  lemma AverageAttendanceBetween(active: seq<Rower>, lo: real, hi: real)
    requires |active| > 0
    requires forall i :: 0 <= i < |active| ==> lo <= AttendanceScore(active[i]) <= hi
    ensures lo <= AverageAttendance(active) <= hi
  {
    MeanOfBounds(active, AttendanceScore, lo, hi);
  }

  /** A lineup whose rowers all attended every practice averages 1. */
  lemma FullAttendanceAveragesOne(active: seq<Rower>)
    requires |active| > 0
    requires forall i :: 0 <= i < |active| ==> AttendanceScore(active[i]) == 1.0
    ensures AverageAttendance(active) == 1.0
  {
    VarianceOfConstant(active, AttendanceScore, 1.0);
  }
}
