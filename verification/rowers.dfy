/** Rowers, seats and boats (`src/rower.py`): the athlete record with its
    derived attendance and fitness scores, the 6k-to-2k erg conversion, and
    a boat of 4 or 8 seats whose sides alternate by position. */
module Rowers {
  import opened Basics
  import opened Stats

  datatype Side = Port | Starboard | Both

  datatype Experience = Novice | Varsity

  /** One athlete. `attendanceHistory` holds the tokens "yes"/"no", most
      recent last; `ergScore` is a 2k time in seconds (lower is better). */
  datatype Rower = Rower(
    name: string,
    ergScore: real,
    sidePreference: Side,
    experience: Experience,
    attendanceHistory: seq<string>,
    daysSinceBoated: int)

  /** Weight of a missed last practice in the fitness score (seconds). */
  const AbsencePenalty: real := 500.0
  /** Fitness bonus per day spent without a seat (seconds). */
  const WaitBonusPerDay: real := 5.0

  predicate IsYes(entry: string) { entry == "yes" }

  predicate IsVarsity(r: Rower) { r.experience == Varsity }

  predicate IsNovice(r: Rower) { r.experience == Novice }

  /** Number of varsity rowers in a lineup. */
  function VarsityCount(lineup: seq<Rower>): (v: nat)
    ensures v <= |lineup|
    ensures v == 0 <==> forall i :: 0 <= i < |lineup| ==> !IsVarsity(lineup[i])
    ensures v == |lineup| <==> forall i :: 0 <= i < |lineup| ==> IsVarsity(lineup[i])
  {
    CountOfBounds(lineup, IsVarsity);
    CountOf(lineup, IsVarsity)
  }

  /** True when the most recent attendance entry is exactly "no". */
  predicate AbsentLastTime(history: seq<string>) {
    |history| > 0 && history[|history| - 1] == "no"
  }

  /** Fraction of "yes" entries in the history; 0 for an empty history. */
  function AttendanceScore(r: Rower): (score: real)
    ensures 0.0 <= score <= 1.0
    ensures |r.attendanceHistory| == 0 ==> score == 0.0
    ensures score == 1.0 <==>
      |r.attendanceHistory| > 0 && forall i :: 0 <= i < |r.attendanceHistory| ==> r.attendanceHistory[i] == "yes"
    ensures score == 0.0 <==>
      forall i :: 0 <= i < |r.attendanceHistory| ==> r.attendanceHistory[i] != "yes"
    ensures score * |r.attendanceHistory| as real == CountOf(r.attendanceHistory, IsYes) as real
  {
    var h := r.attendanceHistory;
    CountOfBounds(h, IsYes);
    if |h| == 0 then 0.0
    else
      FractionBounds(CountOf(h, IsYes), |h|);
      CountOf(h, IsYes) as real / |h| as real
  }

  /** Lower is better: the erg time, plus a penalty when the last practice was
      missed, minus a bonus for every day spent waiting for a seat. */
  function FitnessScore(r: Rower): (score: real)
    ensures var base := r.ergScore - r.daysSinceBoated as real * WaitBonusPerDay;
      score == base || score == base + AbsencePenalty
    ensures score == r.ergScore + AbsencePenalty - r.daysSinceBoated as real * WaitBonusPerDay
      <==> AbsentLastTime(r.attendanceHistory)
  {
    var withAbsence := if AbsentLastTime(r.attendanceHistory) then r.ergScore + AbsencePenalty else r.ergScore;
    withAbsence - r.daysSinceBoated as real * WaitBonusPerDay
  }

  /** One more day without a seat lowers (improves) the fitness score by
      exactly the daily bonus. */
  lemma WaitingOneMoreDay(r: Rower)
    ensures FitnessScore(r.(daysSinceBoated := r.daysSinceBoated + 1)) == FitnessScore(r) - WaitBonusPerDay
  {
  }

  /** Missing the last practice costs exactly the absence penalty compared
      with attending it, whatever came before. */
  lemma MissedPracticeCosts(r: Rower, earlier: seq<string>)
    ensures FitnessScore(r.(attendanceHistory := earlier + ["no"]))
         == FitnessScore(r.(attendanceHistory := earlier + ["yes"])) + AbsencePenalty
  {
  }

  /** The fitness score ignores name, side preference and experience. */
  lemma FitnessIgnoresIdentity(a: Rower, b: Rower)
    requires a.ergScore == b.ergScore
    requires a.attendanceHistory == b.attendanceHistory
    requires a.daysSinceBoated == b.daysSinceBoated
    ensures FitnessScore(a) == FitnessScore(b)
  {
  }

  /** Estimated 2k time from a 6k time: take the 6k 500m split, subtract ten
      seconds, and row four such splits. */
  function Convert6kTo2k(time6k: real): (time2k: real)
    ensures time2k == time6k / 3.0 - 40.0
    ensures time6k == 3.0 * (time2k + 40.0)
  {
    var split6k := time6k / 12.0;
    var split2k := split6k - 10.0;
    split2k * 4.0
  }

  /** A faster 6k always converts to a faster 2k. */
  lemma Convert6kTo2kStrictlyIncreasing(t1: real, t2: real)
    ensures t1 < t2 <==> Convert6kTo2k(t1) < Convert6kTo2k(t2)
  {
  }

  // ----- Seats and boats -----

  datatype Seat = Seat(position: int, side: Side, occupant: Option<Rower>)

  /** A boat of `boatType` seats; `Valid` is what the constructor establishes
      and every operation keeps. */
  datatype Boat = Boat(boatType: int, seats: seq<Seat>) {
    predicate Valid() {
      && ValidBoatType(boatType)
      && |seats| == boatType
      && forall i :: 0 <= i < |seats| ==>
           seats[i].position == i + 1 && seats[i].side == SeatSide(i + 1)
    }
  }

  predicate ValidBoatType(n: int) { n == 4 || n == 8 }

  /** The fixed side of the seat at a 1-based position: odd positions row on
      starboard, even ones on port, in fours and eights alike. */
  function SeatSide(position: int): Side
  {
    if position % 2 == 0 then Port else Starboard
  }

  /** `Boat(boat_type)`: fails unless the size is 4 or 8, otherwise empty
      seats numbered 1..boat_type with alternating sides. */
  function NewBoat(boatType: int): (r: Result<Boat>)
    ensures r.Err? <==> !ValidBoatType(boatType)
    ensures r.Err? ==> r.error == InvalidBoatType
    ensures r.Ok? ==> r.value.Valid() && r.value.boatType == boatType
    ensures r.Ok? ==> |r.value.seats| == boatType && forall i :: 0 <= i < boatType ==>
      && r.value.seats[i].position == i + 1
      && r.value.seats[i].occupant == None
      && (r.value.seats[i].side == Port <==> (i + 1) % 2 == 0)
      && (r.value.seats[i].side == Starboard <==> (i + 1) % 2 == 1)
  {
    if !ValidBoatType(boatType) then Err(InvalidBoatType)
    else Ok(Boat(boatType, seq(boatType, i => Seat(i + 1, SeatSide(i + 1), None))))
  }

  /** `assign_rower(position, rower)`: fails outside 1..boat_type; otherwise
      replaces the occupant of that one seat and touches nothing else. */
  function AssignRower(b: Boat, position: int, rower: Rower): (r: Result<Boat>)
    requires b.Valid()
    ensures r.Err? <==> position < 1 || position > b.boatType
    ensures r.Err? ==> r.error == PositionOutOfRange
    ensures r.Ok? ==> r.value.Valid() && r.value.boatType == b.boatType
    ensures r.Ok? ==> |r.value.seats| == |b.seats| && forall i :: 0 <= i < |b.seats| ==>
      && r.value.seats[i].position == b.seats[i].position
      && r.value.seats[i].side == b.seats[i].side
      && r.value.seats[i].occupant == (if i == position - 1 then Some(rower) else b.seats[i].occupant)
  {
    if position < 1 || position > b.boatType then Err(PositionOutOfRange)
    else
      var seat := b.seats[position - 1];
      Ok(b.(seats := b.seats[position - 1 := seat.(occupant := Some(rower))]))
  }

  /** `get_rower(position)`: `None` outside 1..boat_type or for an empty seat. */
  function GetRower(b: Boat, position: int): (r: Option<Rower>)
    requires b.Valid()
    ensures (position < 1 || position > b.boatType) ==> r == None
    ensures 1 <= position <= b.boatType ==> r == b.seats[position - 1].occupant
  {
    if position < 1 || position > b.boatType then None
    else b.seats[position - 1].occupant
  }

  /** `get_lineup()`: the occupants, seat by seat from the bow. */
  function GetLineup(b: Boat): (lineup: seq<Option<Rower>>)
    requires b.Valid()
    ensures |lineup| == b.boatType
    ensures forall i :: 0 <= i < |lineup| ==> lineup[i] == GetRower(b, i + 1)
  {
    seq(|b.seats|, i requires 0 <= i < |b.seats| => b.seats[i].occupant)
  }

  /** After a successful assignment the seat reads back the new rower, both
      through `get_rower` and through `get_lineup`, and every other position
      reads back what it held before. */
  lemma AssignThenGet(b: Boat, position: int, rower: Rower)
    requires b.Valid()
    requires AssignRower(b, position, rower).Ok?
    ensures var b' := AssignRower(b, position, rower).value;
      && GetRower(b', position) == Some(rower)
      && GetLineup(b')[position - 1] == Some(rower)
      && |GetLineup(b')| == b.boatType
      && forall q :: q != position ==> GetRower(b', q) == GetRower(b, q)
  {
  }

  /** `is_full()`: every seat has an occupant. */
  function AllOccupied(seats: seq<Seat>): (full: bool)
    ensures full <==> forall i :: 0 <= i < |seats| ==> seats[i].occupant.Some?
  {
    if |seats| == 0 then true
    else seats[0].occupant.Some? && AllOccupied(seats[1..])
  }

  function IsFull(b: Boat): bool
  {
    AllOccupied(b.seats)
  }

  /** `clear()`: every seat emptied, sides and positions untouched. */
  function Clear(b: Boat): (r: Boat)
    requires b.Valid()
    ensures r.Valid() && r.boatType == b.boatType && |r.seats| == |b.seats|
    ensures forall i :: 0 <= i < |r.seats| ==>
      r.seats[i].occupant == None && r.seats[i].position == b.seats[i].position && r.seats[i].side == b.seats[i].side
    ensures !IsFull(r)
  {
    b.(seats := seq(|b.seats|, i requires 0 <= i < |b.seats| => b.seats[i].(occupant := None)))
  }

  /** The loop `for i, rower in enumerate(lineup): boat.assign_rower(i + 1, rower)`
      from index `i` on: fails as soon as the lineup outgrows the boat,
      otherwise seats `lineup[k]` at position `k + 1` for `k >= i`. */
  function AssignFrom(b: Boat, lineup: seq<Rower>, i: nat): (r: Result<Boat>)
    requires b.Valid() && i <= |lineup|
    ensures r.Err? <==> i < |lineup| && |lineup| > b.boatType
    ensures r.Err? ==> r.error == PositionOutOfRange
    ensures r.Ok? ==> r.value.Valid() && r.value.boatType == b.boatType
    ensures r.Ok? ==> forall k :: 0 <= k < |b.seats| ==>
      && r.value.seats[k].position == b.seats[k].position
      && r.value.seats[k].side == b.seats[k].side
      && r.value.seats[k].occupant == (if i <= k < |lineup| then Some(lineup[k]) else b.seats[k].occupant)
    decreases |lineup| - i
  {
    if i == |lineup| then Ok(b)
    else match AssignRower(b, i + 1, lineup[i])
      case Err(e) => Err(e)
      case Ok(next) => AssignFrom(next, lineup, i + 1)
  }

  /** A fresh boat holding `lineup` from the bow (`create_boat_with_lineup`,
      and the first lines of every cost function). */
  function BoatWithLineup(boatType: int, lineup: seq<Rower>): (r: Result<Boat>)
    ensures r.Err? <==> !ValidBoatType(boatType) || |lineup| > boatType
    ensures r.Err? && !ValidBoatType(boatType) ==> r.error == InvalidBoatType
    ensures r.Err? && ValidBoatType(boatType) ==> r.error == PositionOutOfRange
    ensures r.Ok? ==> r.value.Valid() && r.value.boatType == boatType
    ensures r.Ok? ==> forall k :: 0 <= k < boatType ==>
      r.value.seats[k].occupant == (if k < |lineup| then Some(lineup[k]) else None)
  {
    match NewBoat(boatType)
    case Err(e) => Err(e)
    case Ok(b) => AssignFrom(b, lineup, 0)
  }

  /** A full lineup fills the boat. */
  lemma FullLineupFillsBoat(boatType: int, lineup: seq<Rower>)
    requires ValidBoatType(boatType) && |lineup| == boatType
    ensures BoatWithLineup(boatType, lineup).Ok?
    ensures IsFull(BoatWithLineup(boatType, lineup).value)
  {
  }

  // ----- Side preference on a seat -----

  /** The seat is occupied by someone who wants the other side. */
  predicate Mismatched(s: Seat) {
    s.occupant.Some? && s.occupant.value.sidePreference != Both && s.occupant.value.sidePreference != s.side
  }

  /** The seat is occupied by someone who rows either side or this one. */
  predicate Matched(s: Seat) {
    s.occupant.Some? && (s.occupant.value.sidePreference == Both || s.occupant.value.sidePreference == s.side)
  }

  predicate Occupied(s: Seat) { s.occupant.Some? }

  /** Number of seats whose occupant sits on the side they do not want. */
  function SideMismatches(seats: seq<Seat>): (n: nat)
    ensures n <= |seats|
    ensures n == 0 <==> forall i :: 0 <= i < |seats| ==> !Mismatched(seats[i])
  {
    CountOfBounds(seats, Mismatched);
    CountOf(seats, Mismatched)
  }

  /** If every occupant rows either side, no seat is mismatched. */
  lemma AllBothNoMismatch(seats: seq<Seat>)
    requires forall i :: 0 <= i < |seats| ==>
      seats[i].occupant.Some? ==> seats[i].occupant.value.sidePreference == Both
    ensures SideMismatches(seats) == 0
  {
  }
}
