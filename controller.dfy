/** `GenerateProductionPlanResponse` in PowerplantController.cs: calculate the
    derived fields of every plant, rank the plants in merit order, tag the
    technology groups, and sweep the ranked list; any failure on the way is
    turned into an error response with no plan. */
module Controller {
  import opened Models
  import opened Rounding
  import opened Calculator
  import opened Ranking
  import opened Allocator

  /** The response for a failure: the error flag set, the error kept, no plan. */
  function Failed(e: Error): PlanResponse
  {
    PlanResponse(true, Some(e), None)
  }

  /** The response for a request: its load, fuels and plants, under the
      process-wide settings. */
  function Plan(load: real, fuels: Fuels, plants: seq<Plant>, config: Config): PlanResponse
  {
    match CalculateAll(plants, fuels, config)
    case Err(e) => Failed(e)
    case Ok(calculated) =>
      match Allocation(TagAll(MeritOrder(calculated)), load)
      case Err(e) => Failed(e)
      case Ok(lines) => PlanResponse(false, None, Some(lines))
  }

  /** The pipeline as the source runs it: the calculator updates the request's
      plants in place, the ranked plants are tagged in place, and the sweep
      runs over them. The request's list is taken by value. */
  method GenerateProductionPlanResponse(load: real, fuels: Fuels, plants: seq<Plant>, config: Config)
    returns (response: PlanResponse)
    ensures response == Plan(load, fuels, plants, config)
  {
    var request := new Plant[|plants|](i requires 0 <= i < |plants| => plants[i]);
    assert request[..] == plants;
    var failure := CalculateCostsAndGeneratedEnergy(request, fuels, config);
    if failure.Some? {
      return Failed(failure.value);
    }
    var ranked := MeritOrder(request[..]);
    var groups := new Plant[|ranked|](i requires 0 <= i < |ranked| => ranked[i]);
    assert groups[..] == ranked;
    TagGroups(groups);
    var suggestions := GenerateSuggestions(groups, load);
    match suggestions
    case Err(e) =>
      response := Failed(e);
    case Ok(lines) =>
      response := PlanResponse(false, None, Some(lines));
  }

  /** The first plant in merit order reaches the load with its maximum but
      overshoots it with its minimum. */
  predicate FirstOvershoots(ranked: seq<Plant>, load: real)
  {
    |ranked| > 0 && ranked[0].maxGen >= load && ranked[0].minGen > load
  }

  /** The response carries an error exactly when it carries no plan, and that
      happens exactly when the factor is out of range, some plant has an
      unknown type or a zero thermal efficiency, or the cheapest plant alone
      overshoots the load with its minimum. A bad factor is reported first. */
  lemma PlanErrorIff(load: real, fuels: Fuels, plants: seq<Plant>, config: Config)
    ensures var r := Plan(load, fuels, plants, config);
      && (r.hasErrors <==> r.plan.None?)
      && (r.hasErrors <==> r.error.Some?)
      && (r.hasErrors <==>
           || BadFactor(config)
           || (exists j :: 0 <= j < |plants| && CalculatePlant(plants[j], fuels, config).Err?)
           || (CalculateAll(plants, fuels, config).Ok? &&
               FirstOvershoots(MeritOrder(CalculateAll(plants, fuels, config).value), load)))
      && (BadFactor(config) ==> r.error == Some(InvalidFactor(config.factor)))
  {
    CalculateAllFailsIff(plants, fuels, config);
    if CalculateAll(plants, fuels, config).Ok? {
      var ranked := MeritOrder(CalculateAll(plants, fuels, config).value);
      AllocationFailsIff(TagAll(ranked), load);
      if |ranked| > 0 {
        TagAllKeeps(ranked, 0);
      }
    }
  }

  /** The calculator keeps the request's plants and their names in order. */
  lemma CalculatedNames(plants: seq<Plant>, fuels: Fuels, config: Config)
    requires CalculateAll(plants, fuels, config).Ok?
    ensures |CalculateAll(plants, fuels, config).value| == |plants|
    ensures forall i :: 0 <= i < |plants| ==> CalculateAll(plants, fuels, config).value[i].name == plants[i].name
  {
    CalculateAllPointwise(plants, fuels, config);
    forall i | 0 <= i < |plants| ensures CalculateAll(plants, fuels, config).value[i].name == plants[i].name {
      CalculatePlantFromEconomics(plants[i], fuels, config);
    }
  }

  /** Some plant of the list has this name. */
  predicate HasPlant(plants: seq<Plant>, name: string)
  {
    exists i :: 0 <= i < |plants| && plants[i].name == name
  }

  /** Some line of the plan has this name. */
  predicate HasLine(lines: seq<Line>, name: string)
  {
    exists j :: 0 <= j < |lines| && lines[j].name == name
  }

  /** Every plant of a permutation of a has its name in a. */
  lemma PermutedNames(a: seq<Plant>, b: seq<Plant>)
    requires multiset(a) == multiset(b)
    ensures forall j :: 0 <= j < |b| ==> HasPlant(a, b[j].name)
  {
    forall j | 0 <= j < |b| ensures HasPlant(a, b[j].name) {
      assert b[j] in multiset(a);
      assert b[j] in a;
      var i :| 0 <= i < |a| && a[i] == b[j];
      assert a[i].name == b[j].name;
    }
  }

  /** A plan lists the plants in merit order: one line per plant of the
      request, line j naming the j-th plant of the ranking, which is sorted by
      ascending unit cost, larger maximum first on a tie. */
  lemma PlanFollowsMeritOrder(load: real, fuels: Fuels, plants: seq<Plant>, config: Config)
    requires !Plan(load, fuels, plants, config).hasErrors
    ensures CalculateAll(plants, fuels, config).Ok?
    ensures var lines, ranked := Plan(load, fuels, plants, config).plan.value, MeritOrder(CalculateAll(plants, fuels, config).value);
      && |lines| == |plants| == |ranked|
      && Sorted(ranked)
      && multiset(ranked) == multiset(CalculateAll(plants, fuels, config).value)
      && (forall j :: 0 <= j < |lines| ==> lines[j].name == ranked[j].name)
  {
    var calculated := CalculateAll(plants, fuels, config).value;
    var ranked := MeritOrder(calculated);
    var lines := Allocation(TagAll(ranked), load).value;
    assert Plan(load, fuels, plants, config).plan.value == lines;
    CalculatedNames(plants, fuels, config);
    MeritOrderSortedPermutation(calculated);
    MeritOrderSorted(calculated);
    AllocationOneLinePerPlant(TagAll(ranked), load);
    forall j | 0 <= j < |lines| ensures lines[j].name == ranked[j].name {
      TagAllKeeps(ranked, j);
    }
  }

  /** Every line of a plan names a plant of the request, and every plant of
      the request has a line. */
  lemma PlanCoversEveryPlant(load: real, fuels: Fuels, plants: seq<Plant>, config: Config)
    requires !Plan(load, fuels, plants, config).hasErrors
    ensures var lines := Plan(load, fuels, plants, config).plan.value;
      && (forall j :: 0 <= j < |lines| ==> HasPlant(plants, lines[j].name))
      && (forall i :: 0 <= i < |plants| ==> HasLine(lines, plants[i].name))
  {
    PlanFollowsMeritOrder(load, fuels, plants, config);
    CalculatedNames(plants, fuels, config);
    var calculated := CalculateAll(plants, fuels, config).value;
    var ranked := MeritOrder(calculated);
    var lines := Plan(load, fuels, plants, config).plan.value;
    PermutedNames(calculated, ranked);
    PermutedNames(ranked, calculated);
    forall j | 0 <= j < |lines| ensures HasPlant(plants, lines[j].name) {
      assert HasPlant(calculated, ranked[j].name);
      var i :| 0 <= i < |calculated| && calculated[i].name == ranked[j].name;
      assert plants[i].name == lines[j].name;
    }
    forall i | 0 <= i < |plants| ensures HasLine(lines, plants[i].name) {
      assert HasPlant(ranked, calculated[i].name);
      var j :| 0 <= j < |ranked| && ranked[j].name == calculated[i].name;
      assert lines[j].name == plants[i].name;
    }
  }

  // ---------------------------------------------------------------------
  // A request end to end: with 80% wind, a 100 MW wind turbine delivers 80
  // at no cost and a gas-fired unit (20 to 200 MW at 50% efficiency, gas at
  // 10) covers the remaining 20 of a load of 100.

  const SampleFuels := Fuels(10.0, 50.0, 80.0)
  const SampleConfig := Config(false, 1.0)
  const SampleGas := RawPlant("gas", Gas, 0.5, 20, 200)
  const SampleWind := RawPlant("wind", Wind, 1.0, 0, 100)

  lemma WindThenGas()
    ensures Plan(100.0, SampleFuels, [SampleGas, SampleWind], SampleConfig)
      == PlanResponse(false, None, Some([Line("wind", 80.0), Line("gas", 20.0)]))
  {
    var gasC := SampleGas.(minGen := 10.0, maxGen := 100.0, unitCost := 20.0);
    var windC := SampleWind.(minGen := 0.0, maxGen := 80.0, unitCost := 0.0);
    SampleCalculated(gasC, windC);
    SampleRanked(gasC, windC);
    SampleSwept(windC.(index := 0, isLastInGroup := true), gasC.(index := 0, isLastInGroup := true));
  }

  lemma SampleCalculated(gasC: Plant, windC: Plant)
    requires gasC == SampleGas.(minGen := 10.0, maxGen := 100.0, unitCost := 20.0)
    requires windC == SampleWind.(minGen := 0.0, maxGen := 80.0, unitCost := 0.0)
    ensures CalculateAll([SampleGas, SampleWind], SampleFuels, SampleConfig) == Ok([gasC, windC])
  {
    var gas, wind := SampleGas, SampleWind;
    SampleGasCalculated(gasC);
    SampleWindCalculated(windC);
    assert [gas, wind][1..] == [wind] && [wind][1..] == [];
    assert CalculateEach([], SampleFuels, SampleConfig) == Ok([]) && [windC] + [] == [windC];
    assert CalculateEach([wind], SampleFuels, SampleConfig) == Ok([windC]);
    assert [gasC] + [windC] == [gasC, windC];
  }

  lemma SampleGasCalculated(gasC: Plant)
    requires gasC == SampleGas.(minGen := 10.0, maxGen := 100.0, unitCost := 20.0)
    ensures CalculatePlant(SampleGas, SampleFuels, SampleConfig) == Ok(gasC)
  {
    RoundTenthsOfTenths(100);
    RoundTenthsOfTenths(1000);
    assert 20.0 * 0.5 == 100 as real / 10.0 && 200.0 * 0.5 == 1000 as real / 10.0;
  }

  lemma SampleWindCalculated(windC: Plant)
    requires windC == SampleWind.(minGen := 0.0, maxGen := 80.0, unitCost := 0.0)
    ensures CalculatePlant(SampleWind, SampleFuels, SampleConfig) == Ok(windC)
  {
    RoundTenthsOfTenths(800);
    RoundTenthsOfTenths(0);
    assert 100.0 * 80.0 / 100.0 == 800 as real / 10.0 && 0.0 * 80.0 / 100.0 == 0 as real / 10.0;
  }

  lemma SampleRanked(gasC: Plant, windC: Plant)
    requires gasC == SampleGas.(minGen := 10.0, maxGen := 100.0, unitCost := 20.0)
    requires windC == SampleWind.(minGen := 0.0, maxGen := 80.0, unitCost := 0.0)
    ensures TagAll(MeritOrder([gasC, windC])) ==
      [windC.(index := 0, isLastInGroup := true), gasC.(index := 0, isLastInGroup := true)]
  {
    assert [gasC, windC][1..] == [windC] && [windC][1..] == [];
    assert MeritOrder([windC]) == [windC];
    assert Insert(gasC, []) == [gasC] && [windC] + [gasC] == [windC, gasC];
    assert Insert(gasC, [windC]) == [windC, gasC];
    assert MeritOrder([gasC, windC]) == [windC, gasC];
    var ranked := [windC, gasC];
    assert ranked[..0] == [] && ranked[..1] == [windC];
    assert Occurrences([], windC.kind) == [] && Occurrences([], gasC.kind) == [];
    assert Occurrences(ranked, windC.kind) == [0];
    assert Occurrences(ranked, gasC.kind) == [1];
  }

  lemma SampleSwept(windT: Plant, gasT: Plant)
    requires windT.name == "wind" && windT.minGen == 0.0 && windT.maxGen == 80.0
    requires gasT.name == "gas" && gasT.minGen == 10.0 && gasT.maxGen == 100.0 && gasT.isLastInGroup
    ensures Allocation([windT, gasT], 100.0) == Ok([Line("wind", 80.0), Line("gas", 20.0)])
  {
    var s1 := SweepState(false, 80.0, 0.0, 80.0, 1, [Line("wind", 80.0)]);
    var s2 := SweepState(true, 80.0, 10.0, 20.0, 1, [Line("wind", 80.0), Line("gas", 20.0)]);
    assert Start.lines + [Line("wind", 80.0)] == s1.lines;
    assert Step(Start, windT, 100.0) == Ok(s1);
    assert s1.lines + [Line("gas", 20.0)] == s2.lines;
    assert Step(s1, gasT, 100.0) == Ok(s2);
    assert [windT, gasT][1..] == [gasT] && [gasT][1..] == [];
    assert SweepFrom(s1, [gasT], 100.0) == Ok(s2);
  }

  // ---------------------------------------------------------------------
  // The two allocator examples, reached from a request: wind at 100% and
  // gas at 5, so that every gas-fired unit at 50% efficiency costs 10. The
  // request lists the plants out of merit order; the ranking and the group
  // tags turn them into exactly the inputs of the allocator examples.

  const FullWindFuels := Fuels(5.0, 50.0, 100.0)

  /** A wind turbine at 100% wind keeps its nameplate bounds, at no cost. */
  lemma WindAtFull(name: string, pMin: int, pMax: int)
    ensures CalculatePlant(RawPlant(name, Wind, 1.0, pMin, pMax), FullWindFuels, SampleConfig)
      == Ok(RawPlant(name, Wind, 1.0, pMin, pMax).(minGen := pMin as real, maxGen := pMax as real, unitCost := 0.0))
  {
    RoundTenthsOfTenths(pMin * 10);
    RoundTenthsOfTenths(pMax * 10);
    assert pMin as real * 100.0 / 100.0 == (pMin * 10) as real / 10.0 == pMin as real;
    assert pMax as real * 100.0 / 100.0 == (pMax * 10) as real / 10.0 == pMax as real;
  }

  /** A gas-fired unit at 50% efficiency gets half its nameplate bounds, at 10. */
  lemma GasAtHalf(name: string, pMin: int, pMax: int)
    ensures CalculatePlant(RawPlant(name, Gas, 0.5, pMin, pMax), FullWindFuels, SampleConfig)
      == Ok(RawPlant(name, Gas, 0.5, pMin, pMax).(
              minGen := pMin as real * 0.5, maxGen := pMax as real * 0.5, unitCost := 10.0))
  {
    RoundTenthsOfTenths(pMin * 5);
    RoundTenthsOfTenths(pMax * 5);
    assert pMin as real * 0.5 == (pMin * 5) as real / 10.0;
    assert pMax as real * 0.5 == (pMax * 5) as real / 10.0;
  }

  /** Three plants that each calculate are calculated in place, in order. */
  lemma CalculateThree(p: Plant, q: Plant, r: Plant, fuels: Fuels, config: Config)
    requires !BadFactor(config)
    requires CalculatePlant(p, fuels, config).Ok? && CalculatePlant(q, fuels, config).Ok?
    requires CalculatePlant(r, fuels, config).Ok?
    ensures CalculateAll([p, q, r], fuels, config) == Ok([CalculatePlant(p, fuels, config).value,
      CalculatePlant(q, fuels, config).value, CalculatePlant(r, fuels, config).value])
  {
    var pC, qC, rC := CalculatePlant(p, fuels, config).value, CalculatePlant(q, fuels, config).value,
                      CalculatePlant(r, fuels, config).value;
    assert [p, q, r][1..] == [q, r] && [q, r][1..] == [r] && [r][1..] == [];
    assert CalculateEach([], fuels, config) == Ok([]) && [rC] + [] == [rC];
    assert CalculateEach([r], fuels, config) == Ok([rC]);
    assert [qC] + [rC] == [qC, rC];
    assert CalculateEach([q, r], fuels, config) == Ok([qC, rC]);
    assert [pC] + [qC, rC] == [pC, qC, rC];
  }

  /** A second gas unit with a smaller maximum, a wind turbine, and a first gas
      unit with a larger maximum are ranked wind, first gas, second gas, and
      tagged as one wind group and one gas group of two. */
  lemma RankThree(w: Plant, a: Plant, b: Plant)
    requires w.unitCost < a.unitCost && a.unitCost == b.unitCost && a.maxGen > b.maxGen
    requires w.kind != a.kind && a.kind == b.kind
    ensures MeritOrder([b, w, a]) == [w, a, b]
    ensures TagAll([w, a, b]) == [w.(index := 0, isLastInGroup := true),
      a.(index := 0, isLastInGroup := false), b.(index := 1, isLastInGroup := true)]
  {
    SortThree(w, a, b);
    TagThree(w, a, b);
  }

  lemma SortThree(w: Plant, a: Plant, b: Plant)
    requires w.unitCost < a.unitCost && a.unitCost == b.unitCost && a.maxGen > b.maxGen
    ensures MeritOrder([b, w, a]) == [w, a, b]
  {
    assert [b, w, a][1..] == [w, a] && [w, a][1..] == [a] && [a][1..] == [];
    assert MeritOrder([a]) == [a];
    assert Insert(w, [a]) == [w, a];
    assert MeritOrder([w, a]) == [w, a];
    assert Insert(b, []) == [b] && Insert(b, [a]) == [a, b];
    assert Insert(b, [w, a]) == [w] + Insert(b, [a]);
  }

  lemma TagThree(w: Plant, a: Plant, b: Plant)
    requires w.kind != a.kind && a.kind == b.kind
    ensures TagAll([w, a, b]) == [w.(index := 0, isLastInGroup := true),
      a.(index := 0, isLastInGroup := false), b.(index := 1, isLastInGroup := true)]
  {
    var s := [w, a, b];
    assert s[..0] == [] && s[..1] == [w] && s[..2] == [w, a];
    assert [w][..0] == [] && [w, a][..1] == [w];
    assert Occurrences([w], w.kind) == [0] && Occurrences([w], a.kind) == [];
    assert Occurrences([w, a], a.kind) == [1] && Occurrences([w, a], w.kind) == [0];
    assert Occurrences(s, w.kind) == [0] && Occurrences(s, a.kind) == [1, 2];
  }

  /** Drift in a whole request: gas unit B (80 to 140 MW), wind (0 to 60 MW)
      and gas unit A (100 to 160 MW), for a load of 100. The controller
      answers with a plan and no error, but the plan delivers 70. */
  lemma RequestDriftsBelowLoad()
    ensures Plan(100.0, FullWindFuels,
                 [RawPlant("gasB", Gas, 0.5, 80, 140), RawPlant("wind", Wind, 1.0, 0, 60),
                  RawPlant("gasA", Gas, 0.5, 100, 160)],
                 SampleConfig)
      == PlanResponse(false, None, Some(DriftPlan))
    ensures Sum(DriftPlan) == 70.0
  {
    var b, w, a := RawPlant("gasB", Gas, 0.5, 80, 140), RawPlant("wind", Wind, 1.0, 0, 60),
                   RawPlant("gasA", Gas, 0.5, 100, 160);
    GasAtHalf("gasB", 80, 140);
    WindAtFull("wind", 0, 60);
    GasAtHalf("gasA", 100, 160);
    CalculateThree(b, w, a, FullWindFuels, SampleConfig);
    var bC, wC, aC := CalculatePlant(b, FullWindFuels, SampleConfig).value,
                      CalculatePlant(w, FullWindFuels, SampleConfig).value,
                      CalculatePlant(a, FullWindFuels, SampleConfig).value;
    RankThree(wC, aC, bC);
    assert TagAll([wC, aC, bC]) == DriftPlants;
    DriftMissesLoad();
  }

  /** Falling short without drift in a whole request: gas unit B (fixed at 90
      MW), wind (0 to 60 MW) and gas unit A (fixed at 100 MW), for a load of
      100. The controller answers with a plan and no error that delivers 95. */
  lemma RequestStopsShort()
    ensures Plan(100.0, FullWindFuels,
                 [RawPlant("gasB", Gas, 0.5, 90, 90), RawPlant("wind", Wind, 1.0, 0, 60),
                  RawPlant("gasA", Gas, 0.5, 100, 100)],
                 SampleConfig)
      == PlanResponse(false, None, Some(ShortPlan))
    ensures Sum(ShortPlan) == 95.0
  {
    var b, w, a := RawPlant("gasB", Gas, 0.5, 90, 90), RawPlant("wind", Wind, 1.0, 0, 60),
                   RawPlant("gasA", Gas, 0.5, 100, 100);
    GasAtHalf("gasB", 90, 90);
    WindAtFull("wind", 0, 60);
    GasAtHalf("gasA", 100, 100);
    CalculateThree(b, w, a, FullWindFuels, SampleConfig);
    var bC, wC, aC := CalculatePlant(b, FullWindFuels, SampleConfig).value,
                      CalculatePlant(w, FullWindFuels, SampleConfig).value,
                      CalculatePlant(a, FullWindFuels, SampleConfig).value;
    RankThree(wC, aC, bC);
    assert TagAll([wC, aC, bC]) == ShortPlants;
    StopsShortWithoutDrift();
  }
}
