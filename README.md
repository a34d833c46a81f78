# Merit-order production plan, in Dafny

A model of the production-plan controller of the powerplant coding
challenge (`Powerplant/Controllers/PowerplantController.cs`). Given a
load, fuel prices, the wind percentage and a list of power plants, the
controller works out how much power each plant should deliver. It does so
in three stages:

1. **Calculator** (`calculator.dfy`, module `Calculator`). For each plant
   it derives the minimum and maximum electrical output and the cost of
   one unit of electricity from the plant type (`windturbine`, `gasfired`,
   `turbojet`). When the `UseFactor` setting is on, it derates the maximum
   by `Factor`, clamping at the minimum. It then rounds both bounds to one
   decimal. The pure function `CalculateAll` states the stage. The method
   `CalculateCostsAndGeneratedEnergy` runs it in place over an array of
   plants, as the source's `foreach` does, and is proved equal to that
   function.
2. **Ranking** (`ranking.dfy`, module `Ranking`). A stable sort by
   ascending unit cost, larger maximum first on a tie (`MeritOrder`, an
   insertion sort). Then each plant is tagged with its position inside its
   technology group and with whether it is the last of that group. Groups
   are formed over the whole list, as LINQ `GroupBy` forms them. The
   method `TagGroups` writes the tags with the source's two nested loops
   and is proved equal to the function `TagAll`.
3. **Allocator** (`allocator.dfy`, module `Allocator`). One greedy sweep
   over the ranked plants (`GenerateSuggestions`). It emits one plan line
   per plant. When a plant's minimum would overshoot the load, it rolls
   back what the previous plant added and revises that line in place. The
   sweep is specified as a fold (`SweepFrom`) of a one-plant step
   (`Step`). The method keeps the source's five loop variables and is
   proved equal to the fold.

`controller.dfy` (module `Controller`) chains the stages as
`GenerateProductionPlanResponse` does and turns any failure into a
response with the error flag set and no plan. `models.dfy` holds the
request and response records. `rounding.dfy` holds `Math.Round(x, 1)`
with the .NET default midpoint rule (ties to the even tenth).

The source's `decimal` quantities are exact base-10 numbers; they are
modelled as `real`. Every exception the model keeps is a value of
`Models.Error` (the others are listed under "## Left out"):

- a factor outside (0, 1] while `UseFactor` is on;
- an unknown plant type;
- a division by a zero efficiency for a gas-fired or turbojet plant (C#
  decimal division throws);
- `ElementAt(lastIndex - 1)` with an index outside the response list.

What the sweep does not guarantee is proved as well. A rollback at the
last plant of a group can revise the previous line below zero
(`RollbackGoesNegative`). The running total can also drift away from the
emitted lines. A rollback at a plant that is not last in its group may
emit that plant at its maximum, yet records its minimum as what it added.
A later rollback then subtracts the wrong amount. `DriftMissesLoad` shows
a merit-ordered, correctly tagged input whose plan marks the load of 100 as
reached while delivering 70; `RequestDriftsBelowLoad` reaches the same plan
from a whole request. `AllocationMeetsLoad` proves that when this path is
not taken, a plan that marks the load reached sums to it exactly. Even
without drift, the sweep can end below a load the plants could meet. A
rollback lowers the previous line and that line is never raised again
(`StopsShortWithoutDrift`, and `RequestStopsShort` from a whole request: 95
of 100).

## Model

| member | source | states |
|---|---|---|
| Rounding.RoundTenthsNearest | Powerplant/Controllers/PowerplantController.cs:155-157 | `Math.Round(x, 1)` gives a whole number of tenths at most 0.05 from x, and a midpoint goes to an even number of tenths |
| Rounding.RoundTenthsInTenths | Powerplant/Controllers/PowerplantController.cs:155-157 | every rounded value has at most one decimal place |
| Rounding.RoundTenthsOfTenths | Powerplant/Controllers/PowerplantController.cs:155-157 | a value that already has one decimal place is left unchanged |
| Rounding.RoundTenthsMonotone | Powerplant/Controllers/PowerplantController.cs:155-157 | rounding is monotone, so it never inverts the order of the two bounds |
| Calculator.CalculateCostsAndGeneratedEnergy | Powerplant/Controllers/PowerplantController.cs:100-165 | the in-place loop fails exactly when the stage fails, with the stage's error; on success it leaves every plant with its own calculation; a bad factor leaves every plant untouched |
| Calculator.CalculateEachAllOk | Powerplant/Controllers/PowerplantController.cs:113-158 | when every plant can be calculated, the stage keeps one plant per input plant, each with its own calculation |
| Calculator.CalculateEachFirstError | Powerplant/Controllers/PowerplantController.cs:113-158 | the first plant that fails, in request order, decides the error |
| Calculator.CalculateEachFailsIff | Powerplant/Controllers/PowerplantController.cs:113-158 | the per-plant loop fails if and only if some plant fails |
| Calculator.CalculateAllFailsIff | Powerplant/Controllers/PowerplantController.cs:107-142 | the stage fails if and only if the factor is out of range or some plant fails; a bad factor is reported whatever the plants are |
| Calculator.CalculateAllPointwise | Powerplant/Controllers/PowerplantController.cs:113-158 | on success, position j holds plant j's own calculation |
| Calculator.CalculatePlantFailsIff | Powerplant/Controllers/PowerplantController.cs:115-143 | a plant fails if and only if its type is not one of the three strings or it is thermal with a zero efficiency; an unknown type is reported as such |
| Calculator.EconomicsByType | Powerplant/Controllers/PowerplantController.cs:117-139 | wind: bounds PMin·wind/100 and PMax·wind/100 at cost 0; gas-fired and turbojet: bounds PMin·efficiency and PMax·efficiency at cost gas (resp. kerosene) price / efficiency |
| Calculator.CalculatePlantFromEconomics | Powerplant/Controllers/PowerplantController.cs:145-157 | a calculated plant has the rounded minimum, the rounded derated maximum and the unit cost of its type; its name, type and nameplate data are kept |
| Calculator.DerateBounds | Powerplant/Controllers/PowerplantController.cs:147-153 | the derated maximum is never below the minimum; it is clamped to the minimum if and only if max·factor ≤ min; with a valid factor and 0 ≤ min ≤ max it never exceeds the maximum |
| Calculator.CalculatedMinNotAboveMax | Powerplant/Controllers/PowerplantController.cs:145-157 | after derating and rounding, the minimum does not exceed the maximum |
| Calculator.CalculatedBoundsInTenths | Powerplant/Controllers/PowerplantController.cs:155-157 | both calculated bounds have at most one decimal place |
| Ranking.InsertSortedPermutation | Powerplant/Controllers/PowerplantController.cs:52-54 | inserting into a merit-ordered list keeps it ordered and adds exactly that plant |
| Ranking.InsertTier | Powerplant/Controllers/PowerplantController.cs:52-54 | insertion keeps the relative order of plants with equal sort keys |
| Ranking.MeritOrderSorted | Powerplant/Controllers/PowerplantController.cs:52-54 | the ranking is a permutation of the plants, by ascending unit cost, larger maximum first on equal cost |
| Ranking.MeritOrderSortedPermutation | Powerplant/Controllers/PowerplantController.cs:52-54 | the ranking is sorted and is a permutation of its input |
| Ranking.MeritOrderStable | Powerplant/Controllers/PowerplantController.cs:52-54 | the sort is stable: plants with equal keys keep their input order |
| Ranking.TagGroups | Powerplant/Controllers/PowerplantController.cs:61-74 | the nested loops set every plant's tags as `TagAll` does |
| Ranking.OccurrencesAscending | Powerplant/Controllers/PowerplantController.cs:61-63 | a group lists positions of plants of its type, in ascending order |
| Ranking.OccurrencesPrefix | Powerplant/Controllers/PowerplantController.cs:61-63 | the group of a prefix is a prefix of the group |
| Ranking.OccurrencesComplete | Powerplant/Controllers/PowerplantController.cs:61-63 | every plant appears in its type's group, at its rank |
| Ranking.RankOfOccurrence | Powerplant/Controllers/PowerplantController.cs:61-63 | the j-th member of a group has rank j |
| Ranking.KindsComplete | Powerplant/Controllers/PowerplantController.cs:61-63 | every type present gets exactly one group |
| Ranking.IndexRunsInMeritOrder | Powerplant/Controllers/PowerplantController.cs:65-74 | within each type, `Index` runs 0..n-1 in merit order, and only the (n-1)-th plant is last in its group |
| Ranking.LastInGroupIff | Powerplant/Controllers/PowerplantController.cs:65-74 | a plant is last in its group if and only if no later plant in merit order has its type |
| Ranking.TagAllKeeps | Powerplant/Controllers/PowerplantController.cs:65-74 | tagging changes only `Index` and `IsLastInGroup` |
| Allocator.GenerateSuggestions | Powerplant/Controllers/PowerplantController.cs:173-279 | the loop's result is the fold of one step per plant, including the failing `ElementAt` |
| Allocator.StepShape | Powerplant/Controllers/PowerplantController.cs:180-276 | each step emits one line named after its plant, keeps the earlier names and the position of `lastIndex`, never clears `loadReached`, and after it only appends 0 |
| Allocator.StepFailsIff | Powerplant/Controllers/PowerplantController.cs:200-217 | a step fails if and only if it rolls back while `lastIndex` is 0, and the failing index is -1 |
| Allocator.StepFullCapacity | Powerplant/Controllers/PowerplantController.cs:262-273 | when max + total < load, the plant is emitted at its maximum and the total grows by exactly that |
| Allocator.StepLastInGroupRollback | Powerplant/Controllers/PowerplantController.cs:202-212 | the last plant of a group is emitted at its minimum and the previous line is revised, so the two lines sum to load minus the total left after the rollback |
| Allocator.StepNonLastRollback | Powerplant/Controllers/PowerplantController.cs:214-245 | the previous line drops to the previous minimum; the plant runs at its maximum if it fits, else at its minimum; the load counts as reached if and only if the new total equals it |
| Allocator.StepExactResidual | Powerplant/Controllers/PowerplantController.cs:247-256 | a plant whose minimum fits and maximum reaches the load delivers exactly the rest and closes the sweep |
| Allocator.SweepSplit | Powerplant/Controllers/PowerplantController.cs:180-277 | sweeping a concatenation is sweeping the first part and then the second from where it stopped |
| Allocator.SweepShape | Powerplant/Controllers/PowerplantController.cs:180-277 | a sweep appends one line per plant, named after it, and keeps the position invariant of `lastIndex` |
| Allocator.AllocationOneLinePerPlant | Powerplant/Controllers/PowerplantController.cs:180-277 | the plan has exactly one line per ranked plant, in order, carrying its name |
| Allocator.AllocationLastIndex | Powerplant/Controllers/PowerplantController.cs:178-273 | after any prefix, `lastIndex` lies within the response list, and while the load is not reached it equals the number of lines emitted |
| Allocator.SweepAfterReached | Powerplant/Controllers/PowerplantController.cs:182-186 | once the load is reached, the rest of the sweep appends a 0 line per plant |
| Allocator.AllocationStaysOff | Powerplant/Controllers/PowerplantController.cs:182-186 | once `loadReached` is set, the lines emitted so far are final and every later line is 0 |
| Allocator.SweepNeverFails | Powerplant/Controllers/PowerplantController.cs:200-217 | after one line has been emitted, or the load has been reached, the sweep cannot fail |
| Allocator.AllocationFailsIff | Powerplant/Controllers/PowerplantController.cs:200-217 | the sweep fails if and only if the first plant reaches the load with its maximum and overshoots it with its minimum; the index is then -1 |
| Allocator.SweepFullCapacity | Powerplant/Controllers/PowerplantController.cs:262-273 | while every running maximum stays below the load, each plant runs at its maximum and the total is their sum |
| Allocator.AllocationBelowCapacity | Powerplant/Controllers/PowerplantController.cs:262-273 | with non-negative maxima, when all maxima together stay below the load, every line equals its maximum and nothing fails |
| Allocator.AllocationExactResidual | Powerplant/Controllers/PowerplantController.cs:247-256 | when every earlier plant ran at full capacity and the next one's minimum fits, the plan sums to exactly the load and the rest is off |
| Allocator.StepTracks | Powerplant/Controllers/PowerplantController.cs:200-273 | every step except the drifting rollback keeps the total equal to the sum of the lines, and a step that reaches the load leaves lines summing to it |
| Allocator.SweepTracks | Powerplant/Controllers/PowerplantController.cs:180-277 | a sweep that never drifts keeps that tracking invariant |
| Allocator.AllocationMeetsLoad | Powerplant/Controllers/PowerplantController.cs:180-277 | unless the sweep drifts, a plan that marks the load reached sums to it exactly, and one that does not sums to the running total (which can be below a feasible load) |
| Allocator.DriftMissesLoad | Powerplant/Controllers/PowerplantController.cs:214-260 | a three-plant input in merit order on which the sweep drifts and marks a load of 100 as reached while delivering 70 |
| Allocator.StopsShortWithoutDrift | Powerplant/Controllers/PowerplantController.cs:214-273 | a three-plant input in merit order on which the sweep never drifts, yet ends with the load not reached and 95 of 100 delivered, with 155 available |
| Allocator.RollbackGoesNegative | Powerplant/Controllers/PowerplantController.cs:202-212 | a two-plant input on which the revised line becomes -50 |
| Controller.GenerateProductionPlanResponse | Powerplant/Controllers/PowerplantController.cs:42-92 | the pipeline computes `Plan`: calculate, rank, tag, sweep, with any failure mapped to an error response |
| Controller.PlanErrorIff | Powerplant/Controllers/PowerplantController.cs:83-91 | an error response carries no plan; it arises if and only if the factor is bad, some plant cannot be calculated, or the cheapest plant alone overshoots; a bad factor is the error reported |
| Controller.CalculatedNames | Powerplant/Controllers/PowerplantController.cs:113-158 | the calculator keeps the request's plants and names in order |
| Controller.PermutedNames | Powerplant/Controllers/PowerplantController.cs:52-54 | reordering the plants loses no name |
| Controller.PlanFollowsMeritOrder | Powerplant/Controllers/PowerplantController.cs:52-79 | a plan has one line per request plant, line j naming the j-th plant of the sorted permutation |
| Controller.PlanCoversEveryPlant | Powerplant/Controllers/PowerplantController.cs:42-79 | every line names a request plant and every request plant has a line |
| Controller.WindThenGas | Powerplant/Controllers/PowerplantController.cs:42-92 | a wind turbine at 80% and a gas unit produce the plan wind 80, gas 20 for a load of 100 |
| Controller.RankThree | Powerplant/Controllers/PowerplantController.cs:52-74 | two gas units and a cheaper wind turbine listed out of order are ranked wind first, then gas by descending maximum, and tagged as a wind group of one and a gas group of two |
| Controller.RequestDriftsBelowLoad | Powerplant/Controllers/PowerplantController.cs:42-92 | a whole request whose response carries no error and a plan that delivers 70 of a load of 100 |
| Controller.RequestStopsShort | Powerplant/Controllers/PowerplantController.cs:42-92 | a whole request whose response carries no error and a plan that delivers 95 of a load of 100 without any drift |

## Left out

- The HTTP action `GenerateProductionPlan` (PowerplantController.cs:14-32): routing and the HTTP response are transport. Its null-request check is not modelled, because a request value always exists here.
- The `UseFactor` and `Factor` settings reads (PowerplantController.cs:104-105) are process configuration. They are the `Config` parameter, so a setting that does not parse is not modelled.
- `Powerplant/Scripts/powerplant.js` is browser client code.
- The JSON attributes and property names of the Models records are a serialisation format.
- `Fuels.CO2Price` and `FuelCost` are written but never read by the plan.
- Exception messages become the constructors of `Models.Error`; the message text is not modelled.
- Null values are not modelled: sequences, strings and records always exist here. The source raises a `NullReferenceException`, which its catch turns into an error response, for a null plant list, a null plant entry (its `Type` read at PowerplantController.cs:114), and a request without a `fuels` object (dereferenced at PowerplantController.cs:117-119, 127-128 and 134-136). The model instead calculates a plan for these inputs. A null type string needs no extra case: it falls to the `default` branch and is the unknown-type error.
- Decimal limits (28-29 significant digits, `OverflowException`) are not modelled: quantities are exact `real` numbers.
- The lazy re-enumeration of the LINQ ranking is modelled as one materialised sequence. The sort keys do not change after the calculator runs, and the sort is stable, so every enumeration sees the same order.
- GenerateProductionPlanResponse: the request's plants are taken by value. The calculator updates a copy in place, and the tags are written on a ranked copy, not on the request's shared objects. The aliasing between the request and the ranked list is therefore not modelled; the tags are only read through the ranked list.
- AllocationMeetsLoad: proves an exact sum only for plans that mark the load reached, and only for sweeps without the drifting rollback. The code as written misses the load on the other sweeps (`DriftMissesLoad`).
- The sweep does not meet every load the plants could meet, even without drift. A rollback that leaves the load unreached lowers the previous line for good, so the plan can end below the load (`StopsShortWithoutDrift`). No optimality or feasibility property is claimed.
- CalculatedMinNotAboveMax: claims min ≤ max only with `UseFactor` on, or with PMin ≤ PMax and a non-negative wind percentage or efficiency. The source does not check its input, and without derating nothing orders the two bounds.
