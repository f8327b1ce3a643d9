# Rowing lineup setter: a Dafny model

The rowing lineup setter seats a roster of rowers in a four or an eight, or in
several boats of one size. It searches for a good assignment with simulated
annealing. This project models the optimisation core of the program in Dafny
and proves properties of it:

- **`Rowers`** (`src/rower.py`):
  - the rower record with its derived attendance and fitness scores;
  - the 6k-to-2k erg conversion;
  - a boat of 4 or 8 seats whose sides alternate by position.
- **`SimulatedAnnealing`** (`src/simulated_annealing.py`):
  - the single-boat optimiser;
  - a five-term cost: fitness total, side mismatches, the experience product, the power variance and stern loading;
  - the two-seat swap;
  - `optimize`.
- **`MultiBoatOptimizer`** (`src/multi_boat_optimizer.py`):
  - the multi-boat optimiser;
  - a per-boat cost of side mismatches plus a flat penalty for a mixed boat;
  - a balance penalty on the variance of the boats' mean fitness;
  - the exchange of two rowers between boats;
  - the initial contiguous partition;
  - `optimize`.
- **`LineupSetter`** (`src/lineup_setter.py`):
  - the session driver: the run count and the best-of-runs selection;
  - the multi-boat guard;
  - the statistics printed for a lineup;
  - the update of `days_since_boated` after a session.
- **`LegacyRowers`** and **`LegacySimulatedAnnealing`** (root `rower.py` and
  `simulated_annealing.py`):
  - the earlier variant, kept as separate modules;
  - fitness is erg time divided by an attendance fraction;
  - the experience term is `10·|varsity − n/2|`;
  - there is no stern-loading term.
- **`Annealing`**: the annealing loop, the random sample and the two-seat swap.
  Both single-boat optimisers share them, and the multi-boat optimiser uses the loop.
- **`Basics`** and **`Stats`**: vocabulary and folds.
  - `Basics`: options, results, the errors the source raises, a cost that can be `float('inf')`, the acceptance rule, and Python's floor division.
  - `Stats`: sums, counts, means, population variance, and their invariance under permutation.

Every random draw is a parameter. This covers `random.sample`, `random.shuffle`,
`random.randint`, and the outcome of `random() < exp(-delta / T)`. The
annealing loop takes a schedule: one list of draws per temperature level.

What the code does, as the model states it:

- The per-boat cost of the multi-boat optimiser is the side penalty plus the
  flat mixed-boat penalty. It has no variance and no stern term.
- Cooling is exponential: `temperature *= cooling_rate` after each level, with
  no clamp to `min_temp`.
- The penalty weights are literals in the code.
- The single-boat constructors refuse only a roster shorter than the boat. A
  negative size passes them and then fails in `random.sample`. A non-negative
  size other than 4 or 8 fails when a cost first builds a `Boat`, so the cost
  functions return a `Result`.
- The multi-boat constructor divides by the boat size: a zero size fails with
  a division error, and any other size is refused when it leaves no boat. A
  negative size with a non-empty roster gives a negative number of boats, so
  `optimize` builds no boats and returns them at cost 0.
- The waiting bonus is a fixed 5 per day.

## Model

| member | source | states |
|---|---|---|
| Basics.Accepts | src/simulated_annealing.py:133-141 | a cheaper candidate is always accepted, an equally cheap finite one too (exp(0) = 1 exceeds every `random()`), an infinite one never; otherwise the random draw decides |
| Basics.FloorDiv | src/multi_boat_optimizer.py:23 | `a // b` rounds towards minus infinity: `q·b <= a < q·b + b` for a positive divisor, mirrored for a negative one |
| Basics.FloorDivOfCount | src/multi_boat_optimizer.py:23-30 | for a roster size `n`, `n // b` is zero exactly when `n < b` (positive b), and never positive, zero only for an empty roster (negative b) |
| Stats.VarianceOfPermutation | src/simulated_annealing.py:86-87 | mean and population variance are the same for any reordering of the sample |
| Stats.VarianceNonNegative | src/simulated_annealing.py:87 | a population variance is never negative |
| Stats.VarianceOfConstant | src/multi_boat_optimizer.py:53-55 | equal values have zero variance and their common value as mean |
| Stats.VarianceZeroIff | src/simulated_annealing.py:86-87 | a population variance is zero exactly when all values are equal, and positive as soon as two differ |
| Stats.VarianceOfPair | src/multi_boat_optimizer.py:53-55 | the variance of two values is a quarter of the square of their difference |
| Stats.MeanOfBounds | src/lineup_setter.py:57 | an average lies between the lower and upper bounds of its terms |
| Stats.FractionBounds | src/rower.py:63 | `count / len` is in [0, 1], 1 exactly for a full count, 0 exactly for a zero count |
| Rowers.VarsityCount | src/simulated_annealing.py:76 | the varsity count is at most the lineup length, zero iff nobody is varsity, the length iff everybody is |
| Rowers.AttendanceScore | src/rower.py:58-63 | attendance is the number of "yes" entries divided by the history length, 0 for an empty history; always in [0, 1], 1 iff every entry is "yes", 0 iff none is |
| Rowers.FitnessScore | src/rower.py:65-80 | fitness is the erg time less 5 per day waited, plus 500 exactly when the last history entry is "no" |
| Rowers.WaitingOneMoreDay | src/rower.py:78 | one more day without a seat lowers fitness by exactly 5 |
| Rowers.MissedPracticeCosts | src/rower.py:71-73 | a last entry "no" costs exactly 500 more than a last entry "yes" |
| Rowers.FitnessIgnoresIdentity | src/rower.py:65-80 | fitness depends only on erg time, history and days waited |
| Rowers.Convert6kTo2k | src/rower.py:23-39 | the estimate is `t/3 − 40`, and the 6k time is recovered from it |
| Rowers.Convert6kTo2kStrictlyIncreasing | src/rower.py:36-39 | a faster 6k converts to a faster 2k, and conversely |
| Rowers.NewBoat | src/rower.py:121-144 | `Boat(n)` fails unless n is 4 or 8; otherwise n empty seats at positions 1..n, port exactly on even and starboard exactly on odd positions |
| Rowers.AssignRower | src/rower.py:146-150 | fails exactly outside 1..boat_type; otherwise only seat `position − 1` changes its occupant, no side or position changes |
| Rowers.GetLineup | src/rower.py:162-164 | one entry per seat, entry `i` being what `get_rower(i + 1)` returns |
| Rowers.AssignThenGet | src/rower.py:146-164 | after `assign_rower(p, r)` both `get_rower(p)` and `get_lineup()[p − 1]` give `r`, the lineup keeps length boat_type, every other position reads as before |
| Rowers.AllOccupied | src/rower.py:158-160 | `is_full` holds iff every seat has an occupant |
| Rowers.Clear | src/rower.py:166-169 | every seat is emptied, sides and positions kept, and the boat is no longer full |
| Rowers.AssignFrom | src/simulated_annealing.py:53-55 | the assignment loop fails iff the lineup is longer than the boat, and otherwise seats `lineup[k]` at position `k + 1` |
| Rowers.BoatWithLineup | src/simulated_annealing.py:157-162 | a fresh boat holding the lineup from the bow; fails with the boat-size error for sizes other than 4 and 8 and with the position error for a too long lineup |
| Rowers.FullLineupFillsBoat | src/simulated_annealing.py:53-55 | a lineup of boat length fills the boat |
| Rowers.SideMismatches | src/simulated_annealing.py:64-70 | the number of mismatched seats is at most the seat count and zero iff no seat is mismatched |
| Rowers.AllBothNoMismatch | src/simulated_annealing.py:67 | with every occupant rowing either side there is no mismatch |
| Annealing.Step | src/simulated_annealing.py:143-150 | the best cost never rises; an accepted neighbour becomes current; a rejected one changes nothing; the best changes only to a strictly cheaper accepted neighbour |
| Annealing.StartTracks | src/simulated_annealing.py:119-122 | the initial state is the minimum of its one-element history of costs |
| Annealing.StepTracks | src/simulated_annealing.py:143-150 | after any trial the best cost is still the least of all costs made current, and one of them |
| Annealing.TracksBelowStart | src/simulated_annealing.py:119-122 | the best cost never exceeds the starting cost |
| Annealing.Anneal | src/simulated_annealing.py:124-155 | the result is the best solution and best cost of `Annealed`, the search that applies the accept-and-improve step to each draw of each level while the temperature exceeds `min_temp`, multiplying it by the cooling rate after each level; the trace is that search's list of costs made current; the returned solution is feasible, its cost is the returned cost, the least of that list and at most the starting one |
| Annealing.GenerateNeighbor | src/simulated_annealing.py:103-108 | a new lineup of the same length with positions `i` and `j` exchanged, every other position and the multiset of rowers unchanged |
| Annealing.SwapTwiceRestores | src/simulated_annealing.py:105-107 | repeating the same swap restores the lineup |
| Annealing.SwapKeepsDistinct | simulated_annealing.py:88-93 | a swap never makes a rower appear twice |
| Annealing.SampleDistinct | src/simulated_annealing.py:118 | distinct positions of a roster without repeats give distinct rowers |
| Annealing.SampleExistsIff | src/simulated_annealing.py:118 | `k` distinct positions of a roster of `n` exist exactly when `0 <= k <= n`, the condition under which `random.sample` succeeds |
| Annealing.RearrangedSample | src/simulated_annealing.py:118-155 | any rearrangement of the sample holds only roster rowers, without repeats when the roster has none |
| Annealing.SwapRearranges | src/simulated_annealing.py:129 | every swap of the schedule keeps the lineup a rearrangement of the starting sample |
| SimulatedAnnealing.ConstructorAdmitsSample | src/simulated_annealing.py:14-38 | for a non-negative size the constructor accepts exactly the rosters from which the starting sample can be drawn; a negative size passes, though no sample exists |
| SimulatedAnnealing.SideTerm | src/simulated_annealing.py:63-71 | the side term is never negative and zero iff no seat is mismatched |
| SimulatedAnnealing.SplitProduct | src/simulated_annealing.py:76-82 | `v·(n − v)` is never negative, zero iff the boat has a single experience level, and for even `n` at most `(n/2)²`, reached exactly at the even split |
| SimulatedAnnealing.EvenSplitProduct | src/simulated_annealing.py:79-82 | for a boat of `2m` rowers the product is at most `m²`, reached only at `v = m` |
| SimulatedAnnealing.ExperienceTerm | src/simulated_annealing.py:73-82 | the experience term is never negative and zero iff all rowers are varsity or all are novice |
| SimulatedAnnealing.PowerTerm | src/simulated_annealing.py:84-88 | the power term is never negative, and zero exactly when every rower has the same fitness score |
| SimulatedAnnealing.SternTerm | src/simulated_annealing.py:90-99 | the stern term is never negative and zero iff fitness never increases from bow to stern |
| SimulatedAnnealing.PowerTermOfPair | src/simulated_annealing.py:84-88 | for two rowers the power term is 0.1 times the variance, a quarter of their squared fitness difference |
| SimulatedAnnealing.SternTermOfPair | src/simulated_annealing.py:90-99 | for two rowers the stern term is 15 per point the stern rower's score exceeds the bow rower's, else 0 |
| SimulatedAnnealing.CalculateCost | src/simulated_annealing.py:40-101 | infinite for a lineup of the wrong length; fails exactly for a boat size other than 4 or 8; otherwise finite and at least the fitness total |
| SimulatedAnnealing.CostIsSumOfTerms | src/simulated_annealing.py:53-101 | a full lineup costs the sum of the five terms, seated from the bow with seat sides alternating |
| SimulatedAnnealing.SideTermCountsMismatches | src/simulated_annealing.py:63-71 | the side term is 100 per seat whose rower prefers the other fixed side, and zero when everyone rows either side |
| SimulatedAnnealing.ExperienceTermShape | src/simulated_annealing.py:76-82 | zero for a single-experience boat, 40 for a four of two varsity and two novice, largest exactly at the even split |
| SimulatedAnnealing.PermutationKeepsOrderFreeTerms | src/simulated_annealing.py:59-88 | fitness total, experience term and power term are the same for every ordering of the same rowers |
| SimulatedAnnealing.PermutationChangesOnlyPositionalTerms | src/simulated_annealing.py:40-101 | a reordering changes the cost only through the side and stern terms |
| SimulatedAnnealing.UniformPositionalTermsVanish | src/simulated_annealing.py:63-99 | equally fit rowers who all row either side pay no side and no stern penalty |
| SimulatedAnnealing.UniformLineupCostInvariant | src/simulated_annealing.py:40-101 | such rowers cost the same in every order |
| SimulatedAnnealing.Optimize | src/simulated_annealing.py:110-155 | for an optimiser the constructor built: fails for a negative size (sample) or a size other than 4 or 8 (first cost); otherwise returns exactly the best lineup and cost of `Annealed` from the sample, with the swap move and `calculate_cost`, and that lineup is a full rearrangement of the sample, rowers from the roster and without repeats, whose finite cost is its own, the least cost made current, at most the starting one |
| MultiBoatOptimizer.NewMultiBoatOptimizer | src/multi_boat_optimizer.py:16-30 | `num_boats = len // boat_type`; refused when zero, with a division error for a zero size; the count fills at most the roster and leaves less than a boat |
| MultiBoatOptimizer.MixedMeansBothLevels | src/multi_boat_optimizer.py:76-78 | a boat is mixed iff it holds a varsity and a non-varsity rower |
| MultiBoatOptimizer.SingleBoatCost | src/multi_boat_optimizer.py:63-80 | fails iff the boat cannot be seated; never negative; at least 1000 iff mixed; zero iff unmixed and every rower sits on an acceptable side |
| MultiBoatOptimizer.SingleBoatCostBySeat | src/multi_boat_optimizer.py:67-78 | the boat's cost is 100 per mismatched seat plus 1000 when mixed, a seat being mismatched exactly when its rower prefers the other fixed side |
| MultiBoatOptimizer.NonEmpty | src/multi_boat_optimizer.py:40-42 | the boats kept are exactly the non-empty ones |
| MultiBoatOptimizer.BoatCosts | src/multi_boat_optimizer.py:40-46 | one cost per boat, in order, each the boat's single cost; fails iff some boat cannot be seated |
| MultiBoatOptimizer.BalanceVariance | src/multi_boat_optimizer.py:52-57 | the balance variance is never negative, zero for fewer than two boats, and zero exactly when all boat means are equal |
| MultiBoatOptimizer.BalanceVarianceOfTwo | src/multi_boat_optimizer.py:52-57 | for two boats the variance is a quarter of the squared gap between their means |
| MultiBoatOptimizer.CalculateCost | src/multi_boat_optimizer.py:32-61 | fails exactly when a non-empty boat cannot be seated; otherwise never negative, at least the sum of the per-boat costs, and equal to that sum exactly when all non-empty boats have the same mean fitness |
| MultiBoatOptimizer.KeptCost | src/multi_boat_optimizer.py:52-61 | for non-empty boats the total is the sum of their costs plus a balance penalty that is never negative and is zero exactly when all their means are equal |
| MultiBoatOptimizer.TwoBoatsCost | src/multi_boat_optimizer.py:32-61 | two full boats cost their own costs plus 100 times the variance of their two means |
| MultiBoatOptimizer.EmptyBoatsIgnored | src/multi_boat_optimizer.py:40-42 | inserting an empty boat anywhere leaves the cost unchanged |
| MultiBoatOptimizer.NonEmptySkipsEmpty | src/multi_boat_optimizer.py:40-42 | an empty boat is never kept |
| MultiBoatOptimizer.BalancedBoatsCostTheirSum | src/multi_boat_optimizer.py:52-60 | boats with equal mean fitness cost exactly the sum of their single costs |
| MultiBoatOptimizer.GenerateNeighbor | src/multi_boat_optimizer.py:82-102 | with fewer than two boats the boats are returned unchanged; otherwise the two chosen rowers trade places, every boat keeps its size, all other seats and boats are untouched |
| MultiBoatOptimizer.ExchangeKeepsRowers | src/multi_boat_optimizer.py:93-100 | the combined multiset of rowers is unchanged |
| MultiBoatOptimizer.ExchangeTwiceRestores | src/multi_boat_optimizer.py:100 | repeating the same exchange restores the boats |
| MultiBoatOptimizer.InitialPartition | src/multi_boat_optimizer.py:109-114 | `num_boats` boats of exactly `boat_type` rowers, together the first `num_boats·boat_type` rowers of the shuffled roster in order |
| MultiBoatOptimizer.ExchangeKeepsPartition | src/multi_boat_optimizer.py:126 | every exchange of the schedule keeps the boats a partition of the same rowers into full boats |
| MultiBoatOptimizer.PartitionHasCost | src/multi_boat_optimizer.py:117-127 | such a partition always has a cost |
| MultiBoatOptimizer.RosterPartitions | src/multi_boat_optimizer.py:109-114 | the shuffled roster holds `num_boats` full boats, at least one for a positive size and none for a negative one |
| MultiBoatOptimizer.PrefixDrawsOnRoster | src/multi_boat_optimizer.py:109-114 | boats holding a prefix of the shuffled roster draw on the roster, hold the prefix's length and repeat nobody |
| MultiBoatOptimizer.PartitionOfRoster | src/multi_boat_optimizer.py:109-114 | boats redistributing the initial partition leave out exactly `len % boat_type` rowers and repeat nobody |
| MultiBoatOptimizer.RemainderLeftOut | src/multi_boat_optimizer.py:23 | `num_boats` full boats leave `len % boat_type` rowers over |
| MultiBoatOptimizer.NoBoatsCostNothing | src/multi_boat_optimizer.py:37-61 | an empty list of boats costs 0 |
| MultiBoatOptimizer.AnnealBoats | src/multi_boat_optimizer.py:122-141 | the result is exactly the best boats and cost of `Annealed` with the exchange move and `calculate_cost`; those boats remain a partition of the initial rowers, and their cost is the least cost made current |
| MultiBoatOptimizer.Optimize | src/multi_boat_optimizer.py:104-141 | fails only for a positive size other than 4 or 8; otherwise the result is exactly the best boats and cost of `Annealed` from the initial partition: `num_boats` full boats holding the initial rowers, leaving `len % boat_type` out, without repeats, cost equal to their own and at most the initial cost |
| LineupSetter.RunCount | src/lineup_setter.py:160 | the run count is the larger of the request and one |
| LineupSetter.SelectBest | src/lineup_setter.py:157-178 | from an infinite start, the first run of least cost is kept; nothing is kept when every cost is infinite (the single-boat loop at lines 193-215 is the same) |
| LineupSetter.BoatsToBuild | src/lineup_setter.py:149-153 | nothing to build iff the roster is shorter than one boat; otherwise the count fills at most the roster and leaves less than a boat |
| LineupSetter.GuardMatchesConstructor | src/lineup_setter.py:150-153 | the driver stops exactly when the optimiser would refuse the roster, and otherwise counts the same boats |
| LineupSetter.BoatedNames | src/lineup_setter.py:227 | exactly the names on the lineup |
| LineupSetter.BoatedNamesOfBoats | src/lineup_setter.py:183 | every name on any boat is included |
| LineupSetter.BoatedNamesOfBoatsFlatten | src/lineup_setter.py:183 | the names on the boats are the names of their combined roster |
| LineupSetter.UpdateDaysSinceBoated | src/lineup_setter.py:228-232 | boated names reset to 0, everyone else waits one day more, order and every other field kept; a boated rower's fitness is that of a rower who never waited, anyone else's score drops by exactly 5 |
| LineupSetter.FinishSingleBoat | src/lineup_setter.py:226-232 | only a non-empty best lineup updates the roster; then each rower keeps its place and every field except `days_since_boated`, which is reset to 0 for a name on the lineup and grows by one otherwise |
| LineupSetter.FinishMultiBoat | src/lineup_setter.py:182-188 | only a non-empty best list of boats updates the roster; then each rower keeps its place and every field except `days_since_boated`, which is reset to 0 for a name on any boat and grows by one otherwise |
| LineupSetter.FinalBoat | src/lineup_setter.py:218-221 | the printed boat holds the best lineup from the bow, or is empty when there is none |
| LineupSetter.ActiveRowers | src/lineup_setter.py:47 | one entry per occupied seat, in seat order: the occupant of seat `i` sits at the index equal to the number of occupied seats before it, and nobody else appears |
| LineupSetter.ExperienceBreakdown | src/lineup_setter.py:62-65 | the varsity count is the cost function's varsity count of the seated rowers, the novice count is the rest of them, and together they count the occupied seats |
| LineupSetter.SeatedVarsityCount | src/lineup_setter.py:62-65 | counting varsity occupants seat by seat equals counting varsity rowers among the seated ones |
| LineupSetter.CountOfSplit | src/lineup_setter.py:63-64 | every occupied seat is counted as exactly one of varsity and novice |
| LineupSetter.SideMatches | src/lineup_setter.py:67-73 | matches plus the cost's mismatches count the occupied seats; all seats match iff the boat is full with no mismatch |
| LineupSetter.MatchedOrMismatched | src/lineup_setter.py:68-72 | every occupied seat is either matched or mismatched |
| LineupSetter.AverageAttendance | src/lineup_setter.py:56-57 | the average attendance is a fraction in [0, 1] |
| LineupSetter.AverageAttendanceBetween | src/lineup_setter.py:56-57 | the average lies between any lower and upper bound on every rower's attendance, so equal scores average to that score |
| LineupSetter.FullAttendanceAveragesOne | src/lineup_setter.py:56-57 | rowers who all attended every practice average exactly 1 |
| LegacyRowers.FitnessScore | rower.py:38-42 | infinite iff attendance is not positive; otherwise the score times attendance is the erg time |
| LegacyRowers.AttendanceImprovesFitness | rower.py:38-42 | for a positive erg time, better attendance gives a strictly better score, any attendance beats none |
| LegacyRowers.SeatSide | rower.py:93-100 | port exactly on even and starboard exactly on odd positions |
| LegacyRowers.NewBoat | rower.py:77-100 | `Boat(n)` fails unless n is 4 or 8; otherwise n empty seats at positions 1..n with alternating sides |
| LegacyRowers.AssignRower | rower.py:102-106 | fails exactly outside 1..boat_type; otherwise only the target seat's occupant changes |
| LegacyRowers.GetLineup | rower.py:118-120 | one entry per seat, entry `i` being what `get_rower(i + 1)` returns |
| LegacyRowers.AssignThenGet | rower.py:102-112 | after `assign_rower(p, r)`, `get_rower(p)` gives `r` and other positions read as before |
| LegacyRowers.AllOccupied | rower.py:114-116 | `is_full` holds iff every seat has an occupant |
| LegacyRowers.Clear | rower.py:122-125 | every seat is emptied, and the boat is no longer full |
| LegacyRowers.AssignFrom | simulated_annealing.py:53-55 | the assignment loop fails iff the lineup is longer than the boat, else seats it from the bow |
| LegacyRowers.BoatWithLineup | simulated_annealing.py:142-147 | a fresh boat holding the lineup from the bow; fails for sizes other than 4 and 8 or a too long lineup |
| LegacySimulatedAnnealing.ConstructorAdmitsSample | simulated_annealing.py:14-38 | for a non-negative size the constructor accepts exactly the rosters from which the starting sample can be drawn; a negative size passes, though no sample exists |
| LegacySimulatedAnnealing.Fitness | simulated_annealing.py:59-61 | for an attending rower, the finite value of the fitness score |
| LegacySimulatedAnnealing.SideTerm | simulated_annealing.py:63-71 | the side term is never negative and zero iff no seat is mismatched |
| LegacySimulatedAnnealing.VarsityCount | simulated_annealing.py:75 | the varsity count is at most the length, zero iff nobody and the length iff everybody is varsity |
| LegacySimulatedAnnealing.ExperienceTerm | simulated_annealing.py:73-78 | the experience term is never negative and zero iff the boat is split evenly |
| LegacySimulatedAnnealing.ExperienceTermShape | simulated_annealing.py:73-78 | 20 for a single-experience four, 40 for a single-experience eight, at most `5n`, reached exactly for a single-experience boat |
| LegacySimulatedAnnealing.PowerTerm | simulated_annealing.py:80-84 | the power term is never negative, and zero exactly when every rower has the same fitness |
| LegacySimulatedAnnealing.PowerTermOfPair | simulated_annealing.py:80-84 | for two rowers the power term is 0.1 times the variance, a quarter of their squared fitness difference |
| LegacySimulatedAnnealing.CalculateCost | simulated_annealing.py:40-86 | infinite for a lineup of the wrong length; fails exactly for a boat size other than 4 or 8; otherwise finite and at least the fitness total |
| LegacySimulatedAnnealing.CostIsSumOfTerms | simulated_annealing.py:53-86 | a full lineup costs the sum of the four terms, with a seat mismatched exactly when its rower prefers the other fixed side |
| LegacySimulatedAnnealing.PermutationKeepsOrderFreeTerms | simulated_annealing.py:59-84 | fitness total, experience and power terms are the same for every ordering of the same rowers |
| LegacySimulatedAnnealing.PermutationChangesOnlySideTerm | simulated_annealing.py:40-86 | a reordering changes the cost only through the side term |
| LegacySimulatedAnnealing.EitherSideCostInvariant | simulated_annealing.py:57-86 | when everyone rows either side, every ordering costs the same |
| LegacySimulatedAnnealing.Optimize | simulated_annealing.py:95-140 | as for the current optimiser: for an optimiser the constructor built, exactly the best lineup of `Annealed` from the sample, a full rearrangement of it whose finite cost is its own, the least made current and at most the starting one |

## Left out

- Randomness: `random.sample`, `random.shuffle`, `random.randint`, `random.random` and `random.uniform` become parameters. The model proves what holds for every draw, not the distribution.
- `math.exp` and float arithmetic: costs are Dafny reals. The acceptance draw is a boolean per trial. Rounding, overflow and NaN are not modelled.
- Annealing.Anneal: the cooling loop stops when the temperature reaches `min_temp` or when the supplied schedule of draws runs out, whichever comes first. Whether `temperature *= cooling_rate` ever reaches `min_temp` is not proved.
- Annealing.Anneal: a temperature that reaches 0 while still above `min_temp` makes `-delta / temperature` raise `ZeroDivisionError` at src/simulated_annealing.py:140, at simulated_annealing.py:125 and at src/multi_boat_optimizer.py:131. The model lets the random draw decide instead. A negative temperature is likewise left to the draw. In the source it accepts a worse move, because `exp` then gets a positive argument, or it raises `OverflowError` once the cost rise is more than about 709.78 times |temperature|.
- Annealing.GenerateNeighbor: requires two distinct positions. On a lineup shorter than 2, `random.sample(range(len(neighbor)), 2)` raises `ValueError` (src/simulated_annealing.py:106, simulated_annealing.py:91). Inside `optimize` this cannot happen, because such a size fails at the first cost.
- MultiBoatOptimizer.GenerateNeighbor: requires a seat in each chosen boat. On an empty boat, `random.randint(0, -1)` raises `ValueError` (src/multi_boat_optimizer.py:96-97). Inside `optimize` every boat is full, so this cannot happen.
- LegacySimulatedAnnealing.CalculateCost: requires every rower to have positive attendance. With zero attendance the source's infinite fitness turns the cost into NaN, and NaN is not modelled.
- LegacySimulatedAnnealing.Optimize: requires an attending roster, for the same reason.
- MultiBoatOptimizer.Optimize: takes the shuffled roster as a permutation of the roster. The in-place shuffle of the caller's list is an aliasing side effect and is not modelled.
- LineupSetter.BoatsToBuild: requires a size of 4 or 8, the only values the command line accepts.
- `main` in `src/lineup_setter.py`: argument parsing, JSON loading and saving, and all printing are left out. This includes the minutes:seconds erg formatting and the `Boat.__str__` rendering. The runs and the rowers are inputs.
- The average erg score printed at `src/lineup_setter.py:51` is an ordinary mean. Its bounds follow from `Stats.MeanOfBounds` and it has no member of its own.
- `Rower.from_dict`, `Rower.to_dict` and enum parsing from strings: dictionary plumbing.
- `src/gui.py`, `src/optimizer.py` and the root `lineup_setter.py`: user interface, YAML configuration and a duplicate driver, none of them part of this model.
- The legacy modules declare their own `Side`, `Experience`, `Rower`, `Seat` and `Boat`, as the root files do. They share nothing with `Rowers`.
