/** The simulated-annealing loop shared by every optimiser of the
    repository: one trial moves the search to an accepted neighbour and
    replaces the best solution only on a strict improvement. The solution
    type `S` is a lineup for the single-boat optimisers and a list of
    lineups for the multi-boat one. Also the random sample that starts a
    single-boat search and the two-seat swap that both single-boat
    optimisers (current and legacy) use as their move. */
module Annealing {
  import opened Basics
  import opened Stats

  /** The state the loop carries: the current solution and the best one
      seen, each with its cost. */
  datatype Search<S> = Search(current: S, currentCost: Cost, best: S, bestCost: Cost)

  /** Before the first trial the start is both current and best. */
  function Start<S>(initial: S, cost: Cost): (s: Search<S>)
    ensures s.current == initial && s.best == initial
    ensures s.currentCost == cost && s.bestCost == cost
  {
    Search(initial, cost, initial, cost)
  }

  /** One inner-loop iteration, given the neighbour, its cost and the random
      draw: an accepted neighbour becomes current, and also best when it is
      strictly cheaper than the best so far. */
  function Step<S>(s: Search<S>, neighbor: S, neighborCost: Cost, coin: bool): (next: Search<S>)
    ensures next.bestCost.AtMost(s.bestCost)
    ensures Accepts(s.currentCost, neighborCost, coin) ==>
      next.current == neighbor && next.currentCost == neighborCost
    ensures !Accepts(s.currentCost, neighborCost, coin) ==> next == s
    ensures (next.best == s.best && next.bestCost == s.bestCost) ||
            (next.best == neighbor && next.bestCost == neighborCost && neighborCost.Less(s.bestCost))
  {
    if !Accepts(s.currentCost, neighborCost, coin) then s
    else if neighborCost.Less(s.bestCost) then Search(neighbor, neighborCost, neighbor, neighborCost)
    else s.(current := neighbor, currentCost := neighborCost)
  }

  /** The costs of the successive current solutions, extended by one trial. */
  function Record<S>(trace: seq<Cost>, s: Search<S>, neighborCost: Cost, coin: bool): seq<Cost>
  {
    if Accepts(s.currentCost, neighborCost, coin) then trace + [neighborCost] else trace
  }

  /** `trace` lists the costs of every solution the search has made current,
      the last being the current one; the best cost is one of them and at
      most each of them. */
  ghost predicate Tracks<S>(s: Search<S>, trace: seq<Cost>)
  {
    && |trace| > 0
    && trace[|trace| - 1] == s.currentCost
    && s.bestCost in trace
    && forall c :: c in trace ==> s.bestCost.AtMost(c)
  }

  lemma StartTracks<S>(initial: S, cost: Cost)
    ensures Tracks(Start(initial, cost), [cost])
  {
  }

  /** The best cost stays the minimum of the visited costs across a trial. */
  lemma StepTracks<S>(s: Search<S>, trace: seq<Cost>, neighbor: S, neighborCost: Cost, coin: bool)
    requires Tracks(s, trace)
    ensures Tracks(Step(s, neighbor, neighborCost, coin), Record(trace, s, neighborCost, coin))
  {
    var next := Step(s, neighbor, neighborCost, coin);
    var trace' := Record(trace, s, neighborCost, coin);
    if Accepts(s.currentCost, neighborCost, coin) {
      forall c | c in trace'
        ensures next.bestCost.AtMost(c)
      {
        if c in trace {
          CostOrder(next.bestCost, s.bestCost, c);
        } else {
          CostOrder(next.bestCost, s.bestCost, neighborCost);
        }
      }
    }
  }

  /** Once tracked, the best cost is at most the first cost of the trace. */
  lemma TracksBelowStart<S>(s: Search<S>, trace: seq<Cost>)
    requires Tracks(s, trace)
    ensures s.bestCost.AtMost(trace[0])
  {
    assert trace[0] in trace;
  }

  /** The random draws of one inner-loop iteration: the neighbour move and
      the outcome of `random() < exp(-delta / T)`. */
  datatype Draw<M> = Draw(move: M, coin: bool)

  /** Every draw of one temperature level takes a feasible solution to a
      feasible neighbour. */
  ghost predicate LevelKeeps<S(!new), M>(draws: seq<Draw<M>>, feasible: S -> bool, neighbor: (S, M) --> S)
  {
    forall t, s | 0 <= t < |draws| && feasible(s) ::
      neighbor.requires(s, draws[t].move) && feasible(neighbor(s, draws[t].move))
  }

  /** Every draw of the schedule takes a feasible solution to a feasible
      neighbour. */
  ghost predicate MovesKeep<S(!new), M>(levels: seq<seq<Draw<M>>>, feasible: S -> bool, neighbor: (S, M) --> S)
  {
    forall l | 0 <= l < |levels| :: LevelKeeps(levels[l], feasible, neighbor)
  }

  /** What the loop needs of its arguments: a feasible start, a cost defined
      on every feasible solution and moves that keep feasibility. */
  ghost predicate Ready<S(!new), M>(initial: S, cost: S --> Cost, neighbor: (S, M) --> S, feasible: S -> bool,
                                   levels: seq<seq<Draw<M>>>)
  {
    && feasible(initial)
    && (forall s | feasible(s) :: cost.requires(s))
    && MovesKeep(levels, feasible, neighbor)
  }

  /** The trials of one temperature level, one draw after the other, with
      the costs of the solutions they make current appended to `trace`. */
  ghost function RunLevel<S(!new), M>(s: Search<S>, trace: seq<Cost>, draws: seq<Draw<M>>,
                                     cost: S --> Cost, neighbor: (S, M) --> S, feasible: S -> bool)
    : (r: (Search<S>, seq<Cost>))
    requires feasible(s.current) && forall x | feasible(x) :: cost.requires(x)
    requires LevelKeeps(draws, feasible, neighbor)
    ensures feasible(r.0.current)
    decreases |draws|
  {
    if |draws| == 0 then (s, trace)
    else
      var candidate := neighbor(s.current, draws[0].move);
      var candidateCost := cost(candidate);
      RunLevel(Step(s, candidate, candidateCost, draws[0].coin), Record(trace, s, candidateCost, draws[0].coin),
               draws[1..], cost, neighbor, feasible)
  }

  /** The temperature levels from `temperature` on: a level runs while the
      temperature is above `minTemp` and the schedule has draws left, and
      each level multiplies the temperature by `coolingRate`. */
  ghost function Run<S(!new), M>(s: Search<S>, trace: seq<Cost>, temperature: real, coolingRate: real, minTemp: real,
                                levels: seq<seq<Draw<M>>>, cost: S --> Cost, neighbor: (S, M) --> S, feasible: S -> bool)
    : (r: (Search<S>, seq<Cost>))
    requires feasible(s.current) && forall x | feasible(x) :: cost.requires(x)
    requires MovesKeep(levels, feasible, neighbor)
    ensures feasible(r.0.current)
    decreases |levels|
  {
    if temperature > minTemp && |levels| > 0 then
      var next := RunLevel(s, trace, levels[0], cost, neighbor, feasible);
      assert MovesKeep(levels[1..], feasible, neighbor) by {
        assert forall l | 0 <= l < |levels| - 1 :: levels[1..][l] == levels[l + 1];
      }
      Run(next.0, next.1, temperature * coolingRate, coolingRate, minTemp, levels[1..], cost, neighbor, feasible)
    else (s, trace)
  }

  /** The whole search from `initial`: its final state and the costs of
      every solution it made current. */
  ghost function Annealed<S(!new), M>(initial: S, cost: S --> Cost, neighbor: (S, M) --> S, feasible: S -> bool,
                                     initialTemp: real, coolingRate: real, minTemp: real, levels: seq<seq<Draw<M>>>)
    : (r: (Search<S>, seq<Cost>))
    requires Ready(initial, cost, neighbor, feasible, levels)
  {
    Run(Start(initial, cost(initial)), [cost(initial)], initialTemp, coolingRate, minTemp, levels, cost, neighbor, feasible)
  }

  /** The annealing loop of both optimisers: `while temperature > min_temp`,
      run `iterations_per_temp` trials, then multiply the temperature by the
      cooling rate. Level `l` of the schedule supplies the draws of the `l`-th
      temperature level, so the loop also stops when the schedule runs out.
      The result is the best solution of `Annealed`, the search the schedule
      determines; `trace` lists the costs of the successive current
      solutions, and the returned cost is the least of them and the cost of
      the returned solution. */
  method Anneal<S(!new), M>(initial: S, cost: S --> Cost, neighbor: (S, M) --> S, ghost feasible: S -> bool,
                           initialTemp: real, coolingRate: real, minTemp: real, iterationsPerTemp: int,
                           levels: seq<seq<Draw<M>>>)
    returns (best: S, bestCost: Cost, ghost trace: seq<Cost>)
    requires Ready(initial, cost, neighbor, feasible, levels)
    requires forall l | 0 <= l < |levels| :: |levels[l]| == RangeLength(iterationsPerTemp)
    ensures var r := Annealed(initial, cost, neighbor, feasible, initialTemp, coolingRate, minTemp, levels);
      best == r.0.best && bestCost == r.0.bestCost && trace == r.1
    ensures feasible(best) && bestCost == cost(best)
    ensures |trace| > 0 && trace[0] == cost(initial)
    ensures bestCost in trace && forall c :: c in trace ==> bestCost.AtMost(c)
    ensures bestCost.AtMost(cost(initial))
  {
    var s := Start(initial, cost(initial));
    trace := [cost(initial)];
    StartTracks(initial, cost(initial));
    var temperature := initialTemp;
    var level := 0;
    while temperature > minTemp && level < |levels|
      invariant 0 <= level <= |levels|
      invariant feasible(s.current) && s.currentCost == cost(s.current)
      invariant feasible(s.best) && s.bestCost == cost(s.best)
      invariant Tracks(s, trace) && trace[0] == cost(initial)
      invariant MovesKeep(levels[level..], feasible, neighbor)
      invariant Run(s, trace, temperature, coolingRate, minTemp, levels[level..], cost, neighbor, feasible)
             == Annealed(initial, cost, neighbor, feasible, initialTemp, coolingRate, minTemp, levels)
      decreases |levels| - level
    {
      var draws := levels[level];
      ghost var s0, trace0 := s, trace;
      var t := 0;
      while t < |draws|
        invariant 0 <= t <= |draws|
        invariant feasible(s.current) && s.currentCost == cost(s.current)
        invariant feasible(s.best) && s.bestCost == cost(s.best)
        invariant Tracks(s, trace) && trace[0] == cost(initial)
        invariant LevelKeeps(draws[t..], feasible, neighbor)
        invariant RunLevel(s, trace, draws[t..], cost, neighbor, feasible)
               == RunLevel(s0, trace0, draws, cost, neighbor, feasible)
      {
        var candidate := neighbor(s.current, draws[t].move);
        var candidateCost := cost(candidate);
        StepTracks(s, trace, candidate, candidateCost, draws[t].coin);
        assert draws[t..][1..] == draws[t + 1..];
        trace := Record(trace, s, candidateCost, draws[t].coin);
        s := Step(s, candidate, candidateCost, draws[t].coin);
        t := t + 1;
      }
      assert levels[level..][1..] == levels[level + 1..];
      temperature := temperature * coolingRate;
      level := level + 1;
    }
    TracksBelowStart(s, trace);
    best, bestCost := s.best, s.bestCost;
  }

  // ----- The lineup swap move of both single-boat optimisers -----

  /** `generate_neighbor` with its random pair of distinct positions given:
      a new lineup with the occupants of `i` and `j` exchanged. */
  function GenerateNeighbor<T>(current: seq<T>, i: nat, j: nat): (neighbor: seq<T>)
    requires i < |current| && j < |current| && i != j
    ensures |neighbor| == |current|
    ensures neighbor[i] == current[j] && neighbor[j] == current[i]
    ensures forall k :: 0 <= k < |current| && k != i && k != j ==> neighbor[k] == current[k]
    ensures multiset(neighbor) == multiset(current)
  {
    current[i := current[j]][j := current[i]]
  }

  /** Repeating the same swap restores the lineup. */
  lemma SwapTwiceRestores<T>(current: seq<T>, i: nat, j: nat)
    requires i < |current| && j < |current| && i != j
    ensures GenerateNeighbor(GenerateNeighbor(current, i, j), i, j) == current
  {
  }

  lemma SwapKeepsDistinct<T>(current: seq<T>, i: nat, j: nat)
    requires i < |current| && j < |current| && i != j
    requires Distinct(current)
    ensures Distinct(GenerateNeighbor(current, i, j))
  {
    var n := GenerateNeighbor(current, i, j);
    forall a, b | 0 <= a < b < |n|
      ensures n[a] != n[b]
    {
      var sa := if a == i then j else if a == j then i else a;
      var sb := if b == i then j else if b == j then i else b;
      assert n[a] == current[sa] && n[b] == current[sb];
    }
  }

  // ----- The annealing loop -----

  /** The pair of positions `random.sample(range(len(lineup)), 2)` returns. */
  datatype Swap = Swap(first: nat, second: nat)

  predicate ValidSwap(m: Swap, size: int) {
    m.first < size && m.second < size && m.first != m.second
  }

  /** `random.sample(rowers, k)` as the positions it picks: `k` distinct
      indices into the roster. */
  predicate IsSample(pick: seq<nat>, rosterSize: int, k: int) {
    && |pick| == k
    && (forall a :: 0 <= a < |pick| ==> pick[a] < rosterSize)
    && (forall a, b :: 0 <= a < b < |pick| ==> pick[a] != pick[b])
  }

  /** A sample of `k` positions exists exactly when the roster has at least
      `k` rowers; `random.sample` raises `ValueError` otherwise. */
  lemma SampleExistsIff(rosterSize: nat, k: int)
    ensures (exists pick :: IsSample(pick, rosterSize, k)) <==> 0 <= k <= rosterSize
  {
    if 0 <= k <= rosterSize {
      var pick: seq<nat> := seq(k, a requires 0 <= a => a);
      assert IsSample(pick, rosterSize, k);
    }
    if pick :| IsSample(pick, rosterSize, k) {
      DistinctBelow(pick, rosterSize);
    }
  }

  /** Pigeonhole: distinct positions below `n` number at most `n`. */
  lemma {:induction false} DistinctBelow(pick: seq<nat>, n: nat)
    requires forall a :: 0 <= a < |pick| ==> pick[a] < n
    requires forall a, b :: 0 <= a < b < |pick| ==> pick[a] != pick[b]
    ensures |pick| <= n
    decreases n
  {
    if |pick| > 0 {
      assert pick[0] < n;
      if a :| 0 <= a < |pick| && pick[a] == n - 1 {
        var rest := pick[..a] + pick[a + 1..];
        assert forall i :: 0 <= i < |rest| ==> rest[i] == pick[if i < a then i else i + 1];
        DistinctBelow(rest, n - 1);
      } else {
        DistinctBelow(pick, n - 1);
      }
    }
  }

  function Sample<T>(rowers: seq<T>, pick: seq<nat>): (s: seq<T>)
    requires forall a :: 0 <= a < |pick| ==> pick[a] < |rowers|
    ensures |s| == |pick|
    ensures forall a :: 0 <= a < |s| ==> s[a] == rowers[pick[a]]
  {
    seq(|pick|, a requires 0 <= a < |pick| => rowers[pick[a]])
  }

  /** Distinct positions of a roster without repeats give distinct rowers. */
  lemma SampleDistinct<T>(rowers: seq<T>, pick: seq<nat>, k: int)
    requires IsSample(pick, |rowers|, k)
    requires Distinct(rowers)
    ensures Distinct(Sample(rowers, pick))
  {
    var s := Sample(rowers, pick);
    forall a, b | 0 <= a < b < |s|
      ensures s[a] != s[b]
    {
      if pick[a] < pick[b] {
        assert s[a] == rowers[pick[a]] && s[b] == rowers[pick[b]];
      } else {
        assert pick[b] < pick[a];
      }
    }
  }

  /** A rearrangement of a sample draws only on the roster, and repeats
      nobody the roster does not repeat. */
  lemma RearrangedSample<T>(rowers: seq<T>, pick: seq<nat>, n: int, lineup: seq<T>)
    requires IsSample(pick, |rowers|, n)
    requires Rearranges(n, Sample(rowers, pick), lineup)
    ensures forall k :: 0 <= k < |lineup| ==> lineup[k] in rowers
    ensures Distinct(rowers) ==> Distinct(lineup)
  {
    var initial := Sample(rowers, pick);
    forall k | 0 <= k < |lineup|
      ensures lineup[k] in rowers
    {
      assert lineup[k] in multiset(initial);
    }
    if Distinct(rowers) {
      SampleDistinct(rowers, pick, n);
    }
  }

  /** The oracle is well formed: each temperature level supplies one draw per
      inner iteration, and each draw names two distinct seats of the boat. */
  predicate ValidSchedule(levels: seq<seq<Draw<Swap>>>, iterationsPerTemp: int, size: int) {
    forall l :: 0 <= l < |levels| ==>
      && |levels[l]| == RangeLength(iterationsPerTemp)
      && forall t :: 0 <= t < |levels[l]| ==> ValidSwap(levels[l][t].move, size)
  }

  /** A lineup the search may hold: a full rearrangement of the starting
      sample, without repeats when the sample has none. */
  predicate Rearranges<T(==)>(n: int, initial: seq<T>, lineup: seq<T>)
  {
    && |lineup| == n && multiset(lineup) == multiset(initial)
    && (Distinct(initial) ==> Distinct(lineup))
  }

  /** The swap move as the loop draws it: the pair names two seats. */
  function SwapMove<T>(lineup: seq<T>, m: Swap): seq<T>
    requires ValidSwap(m, |lineup|)
  {
    GenerateNeighbor(lineup, m.first, m.second)
  }

  /** The lineups a search started from `initial` may hold. */
  function RearrangementOf<T(==)>(n: int, initial: seq<T>): seq<T> -> bool
  {
    (lineup: seq<T>) => Rearranges(n, initial, lineup)
  }

  lemma SwapRearranges<T(!new)>(n: int, initial: seq<T>, levels: seq<seq<Draw<Swap>>>, iterationsPerTemp: int)
    requires ValidSchedule(levels, iterationsPerTemp, n)
    ensures MovesKeep(levels, RearrangementOf(n, initial), SwapMove)
  {
    forall l, t, lineup | 0 <= l < |levels| && 0 <= t < |levels[l]| && Rearranges(n, initial, lineup)
      ensures Rearranges(n, initial, GenerateNeighbor(lineup, levels[l][t].move.first, levels[l][t].move.second))
    {
      if Distinct(initial) {
        SwapKeepsDistinct(lineup, levels[l][t].move.first, levels[l][t].move.second);
      }
    }
  }
}
