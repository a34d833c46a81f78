/** Records of the production-plan request and response (the Models folder), and the
    error and result types that stand for the controller's exceptions. */
module Models {

  /** Request-level fuel prices and wind availability (Fuels.cs). The CO2 price
      is part of the request but never read by the planner, so it is not kept. */
  datatype Fuels = Fuels(gasPrice: real, kerosenePrice: real, windPercentage: real)

  /** A generating unit (Powerplant.cs). `kind` is the `Type` string of the
      request; the fields from `minGen` on are the derived ones that the
      calculator and the group tagging fill in. */
  datatype Plant = Plant(
    name: string,
    kind: string,
    efficiency: real,
    pMin: int,
    pMax: int,
    minGen: real,        // MinGenElectricalEnergy
    maxGen: real,        // MaxGenElectricalEnergy
    unitCost: real,      // ElectricityUnitCost
    index: int,          // position inside its technology group
    isLastInGroup: bool)

  /** A raw unit as it arrives in a request, with the derived fields at their
      defaults. */
  function RawPlant(name: string, kind: string, efficiency: real, pMin: int, pMax: int): Plant
  {
    Plant(name, kind, efficiency, pMin, pMax, 0.0, 0.0, 0.0, 0, false)
  }

  /** One line of the production plan (PowerplantResponseInfo). */
  datatype Line = Line(name: string, power: real)

  /** The two process-wide settings `UseFactor` and `Factor`. */
  datatype Config = Config(useFactor: bool, factor: real)

  /** What the controller's exceptions stand for: the factor check, the
      unknown plant type, a division by a zero efficiency, and `ElementAt`
      called with an index outside the response list. */
  datatype Error =
    | InvalidFactor(factor: real)
    | InvalidType(kind: string)
    | DivideByZero
    | IndexOutOfRange(index: int)

  datatype Option<T> = None | Some(value: T)

  datatype Result<T> = Ok(value: T) | Err(error: Error)

  /** PowerplantResponse: the error flag, the error, and the plan, which is
      absent (null in the source) whenever there is an error. */
  datatype PlanResponse = PlanResponse(hasErrors: bool, error: Option<Error>, plan: Option<seq<Line>>)

  /** Sum of the delivered power over a list of plan lines. */
  function Sum(lines: seq<Line>): real
  {
    if lines == [] then 0.0 else Sum(lines[..|lines| - 1]) + lines[|lines| - 1].power
  }

  lemma SumAppend(lines: seq<Line>, l: Line)
    ensures Sum(lines + [l]) == Sum(lines) + l.power
  {
    assert (lines + [l])[..|lines|] == lines;
  }

  /** Overwriting one line changes the sum by the difference of the two values. */
  lemma {:induction false} SumUpdate(lines: seq<Line>, i: nat, l: Line)
    requires i < |lines|
    ensures Sum(lines[i := l]) == Sum(lines) - lines[i].power + l.power
  {
    var n := |lines|;
    if i == n - 1 {
      assert lines[i := l][..n - 1] == lines[..n - 1];
    } else {
      SumUpdate(lines[..n - 1], i, l);
      assert lines[i := l][..n - 1] == lines[..n - 1][i := l];
    }
  }
}
