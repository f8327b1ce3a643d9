/** The earlier data model kept at the repository root (`rower.py`): a rower
    with a single attendance fraction instead of a history, a fitness score
    of erg time divided by attendance, and the same 4- or 8-seat boat. It is
    a separate copy in the source and a separate module here. */
module LegacyRowers {
  import opened Basics

  datatype Side = Port | Starboard | Both

  datatype Experience = Novice | Varsity

  /** One athlete; `attendance` is a fraction between 0 and 1. */
  datatype Rower = Rower(
    name: string,
    ergScore: real,
    sidePreference: Side,
    experience: Experience,
    attendance: real)

  /** `fitness_score`: erg time divided by attendance, infinite for a rower
      who never attends. Lower is better, so poorer attendance inflates it. */
  function FitnessScore(r: Rower): (score: Cost)
    ensures score.Inf? <==> r.attendance <= 0.0
    ensures score.Finite? ==> score.value * r.attendance == r.ergScore
  {
    if r.attendance > 0.0 then Finite(r.ergScore / r.attendance) else Inf
  }

  /** For a positive erg time, better attendance gives a strictly better
      (lower) fitness score, and any attendance beats none. */
  lemma AttendanceImprovesFitness(r: Rower, better: real)
    requires r.ergScore > 0.0
    requires r.attendance < better && better > 0.0
    ensures FitnessScore(r.(attendance := better)).Less(FitnessScore(r))
  {
    if r.attendance > 0.0 {
      var a, b, e := r.attendance, better, r.ergScore;
      var x, y := e / b, e / a;
      assert x * b == e && y * a == e;
      assert x > 0.0;
      assert x * a < x * b;
      assert x * b == y * a;
      assert x < y;
    }
  }

  // ----- Seats and boats -----

  datatype Seat = Seat(position: int, side: Side, occupant: Option<Rower>)

  /** A boat of `boatType` seats; `Valid` is what the constructor establishes
      and every operation keeps. */
  datatype Boat = Boat(boatType: int, seats: seq<Seat>) {
    predicate Valid() {
      && ValidBoatType(boatType)
      && |seats| == boatType
      && forall i :: 0 <= i < |seats| ==>
           seats[i].position == i + 1 && seats[i].side == SeatSide(boatType, i + 1)
    }
  }

  predicate ValidBoatType(n: int) { n == 4 || n == 8 }

  /** The side of the seat at a 1-based position. The source decides it
      separately for eights and for fours, with the same rule in both. */
  function SeatSide(boatType: int, position: int): (side: Side)
    ensures side == Port <==> position % 2 == 0
    ensures side == Starboard <==> position % 2 == 1
  {
    if boatType == 8 then (if position % 2 == 0 then Port else Starboard)
    else (if position % 2 == 0 then Port else Starboard)
  }

  /** `Boat(boat_type)`: fails unless the size is 4 or 8, otherwise empty
      seats numbered 1..boat_type, starboard on odd and port on even ones. */
  function NewBoat(boatType: int): (r: Result<Boat>)
    ensures r.Err? <==> !ValidBoatType(boatType)
    ensures r.Err? ==> r.error == InvalidBoatType
    ensures r.Ok? ==> r.value.Valid() && r.value.boatType == boatType
    ensures r.Ok? ==> |r.value.seats| == boatType && forall i :: 0 <= i < boatType ==>
      && r.value.seats[i].position == i + 1
      && r.value.seats[i].occupant == None
      && (r.value.seats[i].side == Port <==> (i + 1) % 2 == 0)
      && (r.value.seats[i].side == Starboard <==> (i + 1) % 2 == 1)
  {
    if !ValidBoatType(boatType) then Err(InvalidBoatType)
    else Ok(Boat(boatType, seq(boatType, i => Seat(i + 1, SeatSide(boatType, i + 1), None))))
  }

  /** `assign_rower(position, rower)`: fails outside 1..boat_type; otherwise
      replaces the occupant of that one seat and touches nothing else. */
  function AssignRower(b: Boat, position: int, rower: Rower): (r: Result<Boat>)
    requires b.Valid()
    ensures r.Err? <==> position < 1 || position > b.boatType
    ensures r.Err? ==> r.error == PositionOutOfRange
    ensures r.Ok? ==> r.value.Valid() && r.value.boatType == b.boatType
    ensures r.Ok? ==> |r.value.seats| == |b.seats| && forall i :: 0 <= i < |b.seats| ==>
      && r.value.seats[i].position == b.seats[i].position
      && r.value.seats[i].side == b.seats[i].side
      && r.value.seats[i].occupant == (if i == position - 1 then Some(rower) else b.seats[i].occupant)
  {
    if position < 1 || position > b.boatType then Err(PositionOutOfRange)
    else
      var seat := b.seats[position - 1];
      Ok(b.(seats := b.seats[position - 1 := seat.(occupant := Some(rower))]))
  }

  /** `get_rower(position)`: `None` outside 1..boat_type or for an empty seat. */
  function GetRower(b: Boat, position: int): (r: Option<Rower>)
    requires b.Valid()
    ensures (position < 1 || position > b.boatType) ==> r == None
    ensures 1 <= position <= b.boatType ==> r == b.seats[position - 1].occupant
  {
    if position < 1 || position > b.boatType then None
    else b.seats[position - 1].occupant
  }

  /** `get_lineup()`: the occupants, seat by seat from the bow. */
  function GetLineup(b: Boat): (lineup: seq<Option<Rower>>)
    requires b.Valid()
    ensures |lineup| == b.boatType
    ensures forall i :: 0 <= i < |lineup| ==> lineup[i] == GetRower(b, i + 1)
  {
    seq(|b.seats|, i requires 0 <= i < |b.seats| => b.seats[i].occupant)
  }

  /** After a successful assignment the seat reads back the new rower and
      every other position reads back what it held before. */
  lemma AssignThenGet(b: Boat, position: int, rower: Rower)
    requires b.Valid()
    requires AssignRower(b, position, rower).Ok?
    ensures var b' := AssignRower(b, position, rower).value;
      && GetRower(b', position) == Some(rower)
      && forall q :: q != position ==> GetRower(b', q) == GetRower(b, q)
  {
  }

  /** `is_full()`: every seat has an occupant. */
  function AllOccupied(seats: seq<Seat>): (full: bool)
    ensures full <==> forall i :: 0 <= i < |seats| ==> seats[i].occupant.Some?
  {
    if |seats| == 0 then true
    else seats[0].occupant.Some? && AllOccupied(seats[1..])
  }

  function IsFull(b: Boat): bool
  {
    AllOccupied(b.seats)
  }

  /** `clear()`: every seat emptied, sides and positions untouched. */
  function Clear(b: Boat): (r: Boat)
    requires b.Valid()
    ensures r.Valid() && r.boatType == b.boatType && |r.seats| == |b.seats|
    ensures forall i :: 0 <= i < |r.seats| ==>
      r.seats[i].occupant == None && r.seats[i].position == b.seats[i].position && r.seats[i].side == b.seats[i].side
    ensures !IsFull(r)
  {
    b.(seats := seq(|b.seats|, i requires 0 <= i < |b.seats| => b.seats[i].(occupant := None)))
  }

  /** `assign_rower` for each `lineup[k]` at position `k + 1`, from index `i`
      on: fails as soon as the lineup outgrows the boat. */
  function AssignFrom(b: Boat, lineup: seq<Rower>, i: nat): (r: Result<Boat>)
    requires b.Valid() && i <= |lineup|
    ensures r.Err? <==> i < |lineup| && |lineup| > b.boatType
    ensures r.Err? ==> r.error == PositionOutOfRange
    ensures r.Ok? ==> r.value.Valid() && r.value.boatType == b.boatType
    ensures r.Ok? ==> forall k :: 0 <= k < |b.seats| ==>
      && r.value.seats[k].side == b.seats[k].side
      && r.value.seats[k].occupant == (if i <= k < |lineup| then Some(lineup[k]) else b.seats[k].occupant)
    decreases |lineup| - i
  {
    if i == |lineup| then Ok(b)
    else match AssignRower(b, i + 1, lineup[i])
      case Err(e) => Err(e)
      case Ok(next) => AssignFrom(next, lineup, i + 1)
  }

  /** `create_boat_with_lineup` (and the start of `calculate_cost`): a fresh
      boat holding `lineup` from the bow. */
  function BoatWithLineup(boatType: int, lineup: seq<Rower>): (r: Result<Boat>)
    ensures r.Err? <==> !ValidBoatType(boatType) || |lineup| > boatType
    ensures r.Err? && !ValidBoatType(boatType) ==> r.error == InvalidBoatType
    ensures r.Ok? ==> r.value.Valid() && r.value.boatType == boatType
    ensures r.Ok? ==> forall k :: 0 <= k < boatType ==>
      r.value.seats[k].occupant == (if k < |lineup| then Some(lineup[k]) else None)
  {
    match NewBoat(boatType)
    case Err(e) => Err(e)
    case Ok(b) => AssignFrom(b, lineup, 0)
  }
}
