/** The unit economics stage (`CalculateCostsAndGeneratedEnergy` in
    PowerplantController.cs): capacity bounds and unit cost per plant type,
    the optional derating of the maximum, and the rounding to one decimal. */
module Calculator {
  import opened Models
  import opened Rounding

  const Wind := "windturbine"
  const Gas := "gasfired"
  const Jet := "turbojet"

  /** The factor check made before any plant is touched. */
  predicate BadFactor(config: Config)
  {
    config.useFactor && (config.factor <= 0.0 || config.factor > 1.0)
  }

  /** Unrounded bounds and unit cost of one plant, by its type. */
  datatype Economics = Economics(minGen: real, maxGen: real, unitCost: real)

  function UnitEconomics(p: Plant, fuels: Fuels): Result<Economics>
  {
    if p.kind == Wind then
      Ok(Economics(p.pMin as real * fuels.windPercentage / 100.0,
                   p.pMax as real * fuels.windPercentage / 100.0, 0.0))
    else if p.kind == Gas || p.kind == Jet then
      if p.efficiency == 0.0 then Err(DivideByZero)
      else
        var price := if p.kind == Gas then fuels.gasPrice else fuels.kerosenePrice;
        Ok(Economics(p.pMin as real * p.efficiency, p.pMax as real * p.efficiency,
                     price / p.efficiency))
    else Err(InvalidType(p.kind))
  }

  /** The derated maximum: never below the minimum. */
  function Derate(minGen: real, maxGen: real, config: Config): real
  {
    if !config.useFactor then maxGen
    else if maxGen * config.factor <= minGen then minGen
    else maxGen * config.factor
  }

  /** What the loop body does to one plant. */
  function CalculatePlant(p: Plant, fuels: Fuels, config: Config): Result<Plant>
  {
    match UnitEconomics(p, fuels)
    case Err(e) => Err(e)
    case Ok(econ) =>
      Ok(p.(minGen := RoundTenths(econ.minGen),
            maxGen := RoundTenths(Derate(econ.minGen, econ.maxGen, config)),
            unitCost := econ.unitCost))
  }

  /** The plants in request order with their derived fields; the first failing
      plant decides the error. */
  function CalculateEach(plants: seq<Plant>, fuels: Fuels, config: Config): Result<seq<Plant>>
  {
    if plants == [] then Ok([])
    else match CalculatePlant(plants[0], fuels, config)
      case Err(e) => Err(e)
      case Ok(p) =>
        match CalculateEach(plants[1..], fuels, config)
        case Err(e) => Err(e)
        case Ok(rest) => Ok([p] + rest)
  }

  /** The whole stage: the factor check first, then every plant. */
  function CalculateAll(plants: seq<Plant>, fuels: Fuels, config: Config): Result<seq<Plant>>
  {
    if BadFactor(config) then Err(InvalidFactor(config.factor))
    else CalculateEach(plants, fuels, config)
  }

  // ---------------------------------------------------------------------
  // The stage as the source runs it: in place over the request's plants.

  /** Fills in the derived fields of every plant in place; on failure the
      error is returned and the request is abandoned by the caller. */
  method CalculateCostsAndGeneratedEnergy(plants: array<Plant>, fuels: Fuels, config: Config)
    returns (failure: Option<Error>)
    modifies plants
    ensures failure == None <==> CalculateAll(old(plants[..]), fuels, config).Ok?
    ensures failure.Some? ==> failure.value == CalculateAll(old(plants[..]), fuels, config).error
    ensures failure == None ==> plants[..] == CalculateAll(old(plants[..]), fuels, config).value
    ensures BadFactor(config) ==> plants[..] == old(plants[..])
  {
    if BadFactor(config) {
      return Some(InvalidFactor(config.factor));
    }
    ghost var input := plants[..];
    var i := 0;
    while i < plants.Length
      invariant 0 <= i <= plants.Length
      invariant forall j :: 0 <= j < i ==>
        CalculatePlant(input[j], fuels, config).Ok? && plants[j] == CalculatePlant(input[j], fuels, config).value
      invariant plants[i..] == input[i..]
    {
      match CalculatePlant(plants[i], fuels, config)
      case Err(e) =>
        CalculateEachFirstError(input, i, fuels, config);
        return Some(e);
      case Ok(p) =>
        plants[i] := p;
      i := i + 1;
    }
    CalculateEachAllOk(input, fuels, config);
    assert plants[..] == CalculateEach(input, fuels, config).value;
    failure := None;
  }

  // ---------------------------------------------------------------------
  // Properties of the stage.

  /** CalculateEach succeeds exactly when every plant does, and then holds
      each plant's own calculation at its position. */
  lemma {:induction false} CalculateEachAllOk(plants: seq<Plant>, fuels: Fuels, config: Config)
    requires forall j :: 0 <= j < |plants| ==> CalculatePlant(plants[j], fuels, config).Ok?
    ensures CalculateEach(plants, fuels, config).Ok?
    ensures |CalculateEach(plants, fuels, config).value| == |plants|
    ensures forall j :: 0 <= j < |plants| ==>
      CalculateEach(plants, fuels, config).value[j] == CalculatePlant(plants[j], fuels, config).value
  {
    if plants != [] {
      CalculateEachAllOk(plants[1..], fuels, config);
      var rest := CalculateEach(plants[1..], fuels, config).value;
      forall j | 0 <= j < |plants|
        ensures CalculateEach(plants, fuels, config).value[j] == CalculatePlant(plants[j], fuels, config).value
      {
        if j > 0 { assert plants[1..][j - 1] == plants[j]; }
      }
    }
  }

  /** The first plant that fails decides the error of the whole stage. */
  lemma {:induction false} CalculateEachFirstError(plants: seq<Plant>, i: nat, fuels: Fuels, config: Config)
    requires i < |plants|
    requires forall j :: 0 <= j < i ==> CalculatePlant(plants[j], fuels, config).Ok?
    requires CalculatePlant(plants[i], fuels, config).Err?
    ensures CalculateEach(plants, fuels, config) == Err(CalculatePlant(plants[i], fuels, config).error)
  {
    if i > 0 {
      assert forall j :: 0 <= j < i - 1 ==> plants[1..][j] == plants[j + 1];
      CalculateEachFirstError(plants[1..], i - 1, fuels, config);
    }
  }

  /** CalculateEach fails exactly when some plant fails. */
  lemma {:induction false} CalculateEachFailsIff(plants: seq<Plant>, fuels: Fuels, config: Config)
    ensures CalculateEach(plants, fuels, config).Err? <==>
      exists j :: 0 <= j < |plants| && CalculatePlant(plants[j], fuels, config).Err?
  {
    if plants != [] && CalculatePlant(plants[0], fuels, config).Ok? {
      CalculateEachFailsIff(plants[1..], fuels, config);
      if exists j :: 0 <= j < |plants| && CalculatePlant(plants[j], fuels, config).Err? {
        var j :| 0 <= j < |plants| && CalculatePlant(plants[j], fuels, config).Err?;
        assert plants[1..][j - 1] == plants[j];
      }
      if exists j :: 0 <= j < |plants| - 1 && CalculatePlant(plants[1..][j], fuels, config).Err? {
        var j :| 0 <= j < |plants| - 1 && CalculatePlant(plants[1..][j], fuels, config).Err?;
        assert plants[1..][j] == plants[j + 1];
      }
    }
  }

  /** The stage fails exactly when the factor is out of range or some plant
      fails, and a bad factor is reported whatever the plants are. */
  lemma CalculateAllFailsIff(plants: seq<Plant>, fuels: Fuels, config: Config)
    ensures CalculateAll(plants, fuels, config).Err? <==>
      BadFactor(config) || exists j :: 0 <= j < |plants| && CalculatePlant(plants[j], fuels, config).Err?
    ensures BadFactor(config) ==> CalculateAll(plants, fuels, config) == Err(InvalidFactor(config.factor))
  {
    CalculateEachFailsIff(plants, fuels, config);
  }

  /** On success the stage keeps one plant per input plant, in request order,
      each with its own calculation. */
  lemma CalculateAllPointwise(plants: seq<Plant>, fuels: Fuels, config: Config)
    requires CalculateAll(plants, fuels, config).Ok?
    ensures |CalculateAll(plants, fuels, config).value| == |plants|
    ensures forall j :: 0 <= j < |plants| ==>
      (CalculatePlant(plants[j], fuels, config).Ok? &&
       CalculateAll(plants, fuels, config).value[j] == CalculatePlant(plants[j], fuels, config).value)
  {
    CalculateEachFailsIff(plants, fuels, config);
    CalculateEachAllOk(plants, fuels, config);
  }

  /** A plant fails exactly when its type is not one of the three known
      strings, or it is thermal with a zero efficiency. */
  lemma CalculatePlantFailsIff(p: Plant, fuels: Fuels, config: Config)
    ensures CalculatePlant(p, fuels, config).Err? <==>
      (p.kind != Wind && p.kind != Gas && p.kind != Jet) || (p.kind != Wind && p.efficiency == 0.0)
    ensures (p.kind != Wind && p.kind != Gas && p.kind != Jet) ==>
      CalculatePlant(p, fuels, config) == Err(InvalidType(p.kind))
  {
  }

  /** Bounds and cost by type, before derating and rounding: wind scales the
      nameplate bounds by the wind percentage over 100 at no cost; gas-fired
      and turbojet scale them by the efficiency, at the gas (resp. kerosene)
      price over the efficiency. Any other type, and a thermal plant with a
      zero efficiency, fail. */
  lemma EconomicsByType(p: Plant, fuels: Fuels)
    ensures UnitEconomics(p, fuels).Ok? <==> p.kind == Wind || ((p.kind == Gas || p.kind == Jet) && p.efficiency != 0.0)
    ensures p.kind == Wind ==>
      UnitEconomics(p, fuels).value ==
        Economics(p.pMin as real * fuels.windPercentage / 100.0, p.pMax as real * fuels.windPercentage / 100.0, 0.0)
    ensures p.kind == Gas && p.efficiency != 0.0 ==>
      UnitEconomics(p, fuels).value ==
        Economics(p.pMin as real * p.efficiency, p.pMax as real * p.efficiency, fuels.gasPrice / p.efficiency)
    ensures p.kind == Jet && p.efficiency != 0.0 ==>
      UnitEconomics(p, fuels).value ==
        Economics(p.pMin as real * p.efficiency, p.pMax as real * p.efficiency, fuels.kerosenePrice / p.efficiency)
  {
  }

  /** A calculated plant carries the economics of its type with the maximum
      derated and both bounds rounded to one decimal; name, type and
      nameplate data are kept. */
  lemma CalculatePlantFromEconomics(p: Plant, fuels: Fuels, config: Config)
    ensures CalculatePlant(p, fuels, config).Ok? <==> UnitEconomics(p, fuels).Ok?
    ensures CalculatePlant(p, fuels, config).Ok? ==>
      var q, e := CalculatePlant(p, fuels, config).value, UnitEconomics(p, fuels).value;
      && q.minGen == RoundTenths(e.minGen)
      && q.maxGen == RoundTenths(Derate(e.minGen, e.maxGen, config))
      && q.unitCost == e.unitCost
      && q.name == p.name && q.kind == p.kind && q.efficiency == p.efficiency
      && q.pMin == p.pMin && q.pMax == p.pMax && q.index == p.index && q.isLastInGroup == p.isLastInGroup
  {
  }

  /** Derating never lets the maximum fall below the minimum: it clamps to the
      minimum exactly when the derated value would not exceed it. With a
      factor in (0, 1] and 0 <= min <= max it never raises the maximum. */
  lemma DerateBounds(minGen: real, maxGen: real, config: Config)
    requires config.useFactor
    ensures Derate(minGen, maxGen, config) >= minGen
    ensures Derate(minGen, maxGen, config) == minGen <==> maxGen * config.factor <= minGen
    ensures !BadFactor(config) && 0.0 <= minGen <= maxGen ==> Derate(minGen, maxGen, config) <= maxGen
  {
    if !BadFactor(config) && 0.0 <= minGen <= maxGen {
      assert maxGen * config.factor <= maxGen * 1.0;
    }
  }

  /** The share of the nameplate bounds a plant can use: the wind percentage
      for wind, the efficiency otherwise. */
  function Share(p: Plant, fuels: Fuels): real
  {
    if p.kind == Wind then fuels.windPercentage else p.efficiency
  }

  /** After derating and rounding the minimum never exceeds the maximum: with
      derating on for any plant, and without it for a plant whose nameplate
      bounds are ordered and whose share is not negative. */
  lemma CalculatedMinNotAboveMax(p: Plant, fuels: Fuels, config: Config)
    requires CalculatePlant(p, fuels, config).Ok?
    requires config.useFactor || (p.pMin <= p.pMax && Share(p, fuels) >= 0.0)
    ensures CalculatePlant(p, fuels, config).value.minGen <= CalculatePlant(p, fuels, config).value.maxGen
  {
    var e := UnitEconomics(p, fuels).value;
    if config.useFactor {
      DerateBounds(e.minGen, e.maxGen, config);
    } else if p.kind == Wind {
      assert e.minGen <= e.maxGen by {
        assert (p.pMax - p.pMin) as real * fuels.windPercentage >= 0.0;
        assert e.maxGen - e.minGen == (p.pMax - p.pMin) as real * fuels.windPercentage / 100.0;
      }
    } else {
      assert e.minGen <= e.maxGen by {
        assert (p.pMax - p.pMin) as real * p.efficiency >= 0.0;
      }
    }
    RoundTenthsMonotone(e.minGen, Derate(e.minGen, e.maxGen, config));
  }

  /** Both calculated bounds have at most one decimal place. */
  lemma CalculatedBoundsInTenths(p: Plant, fuels: Fuels, config: Config)
    requires CalculatePlant(p, fuels, config).Ok?
    ensures InTenths(CalculatePlant(p, fuels, config).value.minGen)
    ensures InTenths(CalculatePlant(p, fuels, config).value.maxGen)
  {
    var e := UnitEconomics(p, fuels).value;
    RoundTenthsInTenths(e.minGen);
    RoundTenthsInTenths(Derate(e.minGen, e.maxGen, config));
  }
}
