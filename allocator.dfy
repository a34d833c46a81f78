/** The dispatch allocator (`GenerateSuggestions` in PowerplantController.cs):
    one greedy sweep over the ranked plants that emits one plan line per plant
    and, when a plant's minimum would overshoot the load, revises the line
    emitted just before it. */
module Allocator {
  import opened Models

  /** The variables the sweep carries from one plant to the next. */
  datatype SweepState = SweepState(
    loadReached: bool,
    total: real,          // totalGeneratedPower
    prevMinVal: real,
    prevAddedVal: real,
    lastIndex: int,
    lines: seq<Line>)     // the response list

  const Start := SweepState(false, 0.0, 0.0, 0.0, 0, [])

  /** `lines.ElementAt(index).PowerToDeliver = power`: fails when the index is
      outside the list. */
  function Revise(lines: seq<Line>, index: int, power: real): Result<seq<Line>>
  {
    if 0 <= index < |lines| then Ok(lines[index := lines[index].(power := power)])
    else Err(IndexOutOfRange(index))
  }

  /** One iteration of the sweep's loop, for plant p. */
  function Step(st: SweepState, p: Plant, load: real): Result<SweepState>
  {
    if st.loadReached then
      Ok(st.(lines := st.lines + [Line(p.name, 0.0)]))
    else if p.maxGen + st.total >= load then
      if p.minGen + st.total > load then
        var total := st.total - st.prevAddedVal;
        if p.isLastInGroup then
          match Revise(st.lines + [Line(p.name, p.minGen)], st.lastIndex - 1, load - (total + p.minGen))
          case Err(e) => Err(e)
          case Ok(lines) => Ok(SweepState(true, total, p.minGen, load - total, st.lastIndex, lines))
        else
          match Revise(st.lines, st.lastIndex - 1, st.prevMinVal)
          case Err(e) => Err(e)
          case Ok(lines) =>
            var total1 := total + st.prevMinVal;
            var power := if total1 + p.maxGen <= load then p.maxGen else p.minGen;
            var total2 := total1 + power;
            Ok(SweepState(total2 == load, total2, p.minGen, p.minGen, st.lastIndex + 1, lines + [Line(p.name, power)]))
      else
        Ok(SweepState(true, st.total, p.minGen, if p.isLastInGroup then load - st.total else p.minGen,
                      st.lastIndex, st.lines + [Line(p.name, load - st.total)]))
    else
      Ok(SweepState(false, st.total + p.maxGen, p.minGen, p.maxGen, st.lastIndex + 1,
                    st.lines + [Line(p.name, p.maxGen)]))
  }

  /** The sweep over the plants, from a given state. */
  function SweepFrom(st: SweepState, plants: seq<Plant>, load: real): Result<SweepState>
    decreases |plants|
  {
    if plants == [] then Ok(st)
    else match Step(st, plants[0], load)
      case Err(e) => Err(e)
      case Ok(next) => SweepFrom(next, plants[1..], load)
  }

  /** The plan the sweep produces for plants ranked in merit order. */
  function Allocation(plants: seq<Plant>, load: real): Result<seq<Line>>
  {
    match SweepFrom(Start, plants, load)
    case Err(e) => Err(e)
    case Ok(st) => Ok(st.lines)
  }

  /** `GenerateSuggestions`: the loop of the source over the ranked plants. */
  method GenerateSuggestions(plants: array<Plant>, load: real) returns (result: Result<seq<Line>>)
    ensures result == Allocation(plants[..], load)
  {
    var response: seq<Line> := [];
    var loadReached := false;
    var prevMinVal, prevAddedVal, totalGeneratedPower := 0.0, 0.0, 0.0;
    var lastIndex := 0;
    var i := 0;
    while i < plants.Length
      invariant 0 <= i <= plants.Length
      invariant SweepFrom(Start, plants[..], load) ==
        SweepFrom(SweepState(loadReached, totalGeneratedPower, prevMinVal, prevAddedVal, lastIndex, response), plants[i..], load)
    {
      var powerplant := plants[i];
      assert plants[i..][0] == powerplant && plants[i..][1..] == plants[i + 1..];
      if loadReached {
        // the load is met: the remaining plants are turned off
        response := response + [Line(powerplant.name, 0.0)];
      } else if powerplant.maxGen + totalGeneratedPower >= load {
        if powerplant.minGen + totalGeneratedPower > load {
          // even the minimum overshoots: undo what the previous plant added
          totalGeneratedPower := totalGeneratedPower - prevAddedVal;
          if powerplant.isLastInGroup {
            response := response + [Line(powerplant.name, powerplant.minGen)];
            if !(0 <= lastIndex - 1 < |response|) {
              return Err(IndexOutOfRange(lastIndex - 1));
            }
            response := response[lastIndex - 1 := response[lastIndex - 1].(
              power := load - (totalGeneratedPower + powerplant.minGen))];
            loadReached := true;
          } else {
            // drop the previous plant to its minimum
            if !(0 <= lastIndex - 1 < |response|) {
              return Err(IndexOutOfRange(lastIndex - 1));
            }
            response := response[lastIndex - 1 := response[lastIndex - 1].(power := prevMinVal)];
            totalGeneratedPower := totalGeneratedPower + prevMinVal;
            if totalGeneratedPower + powerplant.maxGen <= load {
              response := response + [Line(powerplant.name, powerplant.maxGen)];
              totalGeneratedPower := totalGeneratedPower + powerplant.maxGen;
            } else {
              response := response + [Line(powerplant.name, powerplant.minGen)];
              totalGeneratedPower := totalGeneratedPower + powerplant.minGen;
            }
            if totalGeneratedPower == load {
              loadReached := true;
            }
            lastIndex := lastIndex + 1;
          }
        } else {
          // the plant closes the gap exactly
          response := response + [Line(powerplant.name, load - totalGeneratedPower)];
          loadReached := true;
        }
        prevMinVal := powerplant.minGen;
        prevAddedVal := if powerplant.isLastInGroup then load - totalGeneratedPower else powerplant.minGen;
      } else {
        // the plant runs at full capacity
        response := response + [Line(powerplant.name, powerplant.maxGen)];
        prevMinVal := powerplant.minGen;
        prevAddedVal := powerplant.maxGen;
        totalGeneratedPower := totalGeneratedPower + powerplant.maxGen;
        lastIndex := lastIndex + 1;
      }
      i := i + 1;
    }
    assert plants[i..] == [];
    result := Ok(response);
  }

  // ---------------------------------------------------------------------
  // Shapes of plans used by the properties below.

  /** Every plant at its maximum. */
  function MaxLines(plants: seq<Plant>): seq<Line>
  {
    seq(|plants|, i requires 0 <= i < |plants| => Line(plants[i].name, plants[i].maxGen))
  }

  /** Every plant turned off. */
  function OffLines(plants: seq<Plant>): seq<Line>
  {
    seq(|plants|, i requires 0 <= i < |plants| => Line(plants[i].name, 0.0))
  }

  /** The combined maximum output of the plants. */
  function MaxSum(plants: seq<Plant>): real
  {
    if plants == [] then 0.0 else MaxSum(plants[..|plants| - 1]) + plants[|plants| - 1].maxGen
  }

  /** The combined maximum output of the first k plants. */
  function CapacityUpTo(plants: seq<Plant>, k: nat): real
    requires k <= |plants|
  {
    MaxSum(plants[..k])
  }

  /** `lastIndex` never passes the end of the response list, and while the load
      is not reached it equals the number of lines emitted, so that
      `ElementAt(lastIndex - 1)` is the most recent line. */
  predicate WellFormed(st: SweepState)
  {
    0 <= st.lastIndex <= |st.lines| && (!st.loadReached ==> st.lastIndex == |st.lines|)
  }

  // ---------------------------------------------------------------------
  // One step.

  /** Every step emits one line named after its plant, keeps the names of the
      earlier lines, keeps the position invariant of lastIndex, never clears
      loadReached, and once the load is reached only appends a 0 line. */
  lemma StepShape(st: SweepState, p: Plant, load: real)
    requires Step(st, p, load).Ok?
    ensures var next := Step(st, p, load).value;
      && |next.lines| == |st.lines| + 1
      && next.lines[|st.lines|].name == p.name
      && (forall j :: 0 <= j < |st.lines| ==> next.lines[j].name == st.lines[j].name)
      && (WellFormed(st) ==> WellFormed(next))
      && (st.loadReached ==> next.loadReached && next.lines == st.lines + [Line(p.name, 0.0)])
  {
  }

  /** A step fails only on the rollback path, and there only when lastIndex
      is 0: with a line emitted before, or the load reached, it succeeds. */
  lemma StepFailsIff(st: SweepState, p: Plant, load: real)
    requires WellFormed(st)
    ensures Step(st, p, load).Err? <==>
      !st.loadReached && p.maxGen + st.total >= load && p.minGen + st.total > load && st.lastIndex == 0
    ensures Step(st, p, load).Err? ==> Step(st, p, load).error == IndexOutOfRange(-1)
  {
  }

  /** Full capacity: a plant whose maximum does not reach the load on top of
      the total runs at its maximum, and the total grows by exactly that. */
  lemma StepFullCapacity(st: SweepState, p: Plant, load: real)
    requires !st.loadReached && p.maxGen + st.total < load
    ensures Step(st, p, load).Ok?
    ensures var next := Step(st, p, load).value;
      && next.lines == st.lines + [Line(p.name, p.maxGen)]
      && next.total == st.total + p.maxGen
      && !next.loadReached
      && next.prevAddedVal == p.maxGen && next.prevMinVal == p.minGen
  {
  }

  /** Rollback at the last plant of a group: the total first drops by what
      the previous plant added; the plant runs at its minimum and the line
      before it absorbs the rest, so the two lines together deliver the load
      minus the remaining total. Nothing bounds the revised line from below. */
  lemma StepLastInGroupRollback(st: SweepState, p: Plant, load: real)
    requires WellFormed(st) && !st.loadReached && |st.lines| > 0
    requires p.maxGen + st.total >= load && p.minGen + st.total > load && p.isLastInGroup
    ensures Step(st, p, load).Ok?
    ensures var next, n := Step(st, p, load).value, |st.lines|;
      && next.loadReached
      && |next.lines| == n + 1
      && next.lines[..n - 1] == st.lines[..n - 1]
      && next.lines[n] == Line(p.name, p.minGen)
      && next.lines[n - 1].name == st.lines[n - 1].name
      && next.lines[n - 1].power + next.lines[n].power == load - (st.total - st.prevAddedVal)
  {
    var n := |st.lines|;
    var next := Step(st, p, load).value;
    assert next.lines[..n - 1] == st.lines[..n - 1];
  }

  /** Rollback at a plant that is not the last of its group: the line before
      drops to the previous plant's minimum, the total is recomputed, and the
      plant runs at its maximum when that fits under the load, at its minimum
      otherwise; the load counts as reached exactly when the new total equals
      it. */
  lemma StepNonLastRollback(st: SweepState, p: Plant, load: real)
    requires WellFormed(st) && !st.loadReached && |st.lines| > 0
    requires p.maxGen + st.total >= load && p.minGen + st.total > load && !p.isLastInGroup
    ensures Step(st, p, load).Ok?
    ensures var next, n := Step(st, p, load).value, |st.lines|;
      var total := st.total - st.prevAddedVal + st.prevMinVal;
      var power := if total + p.maxGen <= load then p.maxGen else p.minGen;
      && |next.lines| == n + 1
      && next.lines[..n - 1] == st.lines[..n - 1]
      && next.lines[n - 1] == Line(st.lines[n - 1].name, st.prevMinVal)
      && next.lines[n] == Line(p.name, power)
      && next.total == total + power
      && (next.loadReached <==> total + power == load)
      && next.prevAddedVal == p.minGen
  {
    var n := |st.lines|;
    var next := Step(st, p, load).value;
    assert next.lines[..n - 1] == st.lines[..n - 1];
  }

  /** The exact-residual branch: a plant whose maximum reaches the load and
      whose minimum fits delivers exactly what is missing and closes the
      sweep. */
  lemma StepExactResidual(st: SweepState, p: Plant, load: real)
    requires !st.loadReached && p.maxGen + st.total >= load && p.minGen + st.total <= load
    ensures Step(st, p, load).Ok?
    ensures var next := Step(st, p, load).value;
      && next.lines == st.lines + [Line(p.name, load - st.total)]
      && next.loadReached
  {
  }

  // ---------------------------------------------------------------------
  // The whole sweep.

  lemma {:induction false} SweepSplit(st: SweepState, a: seq<Plant>, b: seq<Plant>, load: real)
    ensures SweepFrom(st, a + b, load) ==
      match SweepFrom(st, a, load)
      case Err(e) => Err(e)
      case Ok(mid) => SweepFrom(mid, b, load)
    decreases |a|
  {
    if a != [] {
      assert (a + b)[0] == a[0] && (a + b)[1..] == a[1..] + b;
      match Step(st, a[0], load)
      case Err(_) =>
      case Ok(next) => SweepSplit(next, a[1..], b, load);
    } else {
      assert a + b == b;
    }
  }

  lemma {:induction false} SweepShape(st: SweepState, plants: seq<Plant>, load: real)
    requires SweepFrom(st, plants, load).Ok?
    ensures var fin := SweepFrom(st, plants, load).value;
      && |fin.lines| == |st.lines| + |plants|
      && (forall j :: 0 <= j < |st.lines| ==> fin.lines[j].name == st.lines[j].name)
      && (forall j :: 0 <= j < |plants| ==> fin.lines[|st.lines| + j].name == plants[j].name)
      && (WellFormed(st) ==> WellFormed(fin))
    decreases |plants|
  {
    if plants != [] {
      var next := Step(st, plants[0], load).value;
      StepShape(st, plants[0], load);
      SweepShape(next, plants[1..], load);
      var fin := SweepFrom(st, plants, load).value;
      forall j | 0 <= j < |plants| ensures fin.lines[|st.lines| + j].name == plants[j].name {
        if j > 0 {
          assert plants[1..][j - 1] == plants[j];
          assert |next.lines| + (j - 1) == |st.lines| + j;
        }
      }
    }
  }

  /** The plan has exactly one line per plant, in merit order, carrying that
      plant's name. */
  lemma AllocationOneLinePerPlant(plants: seq<Plant>, load: real)
    requires Allocation(plants, load).Ok?
    ensures |Allocation(plants, load).value| == |plants|
    ensures forall j :: 0 <= j < |plants| ==> Allocation(plants, load).value[j].name == plants[j].name
  {
    SweepShape(Start, plants, load);
  }

  /** After any number of plants, lastIndex is within the response list and,
      while the load is not reached, equals the number of lines emitted. */
  lemma AllocationLastIndex(plants: seq<Plant>, load: real, k: nat)
    requires k <= |plants| && SweepFrom(Start, plants[..k], load).Ok?
    ensures WellFormed(SweepFrom(Start, plants[..k], load).value)
    ensures !SweepFrom(Start, plants[..k], load).value.loadReached ==>
      SweepFrom(Start, plants[..k], load).value.lastIndex == k
  {
    SweepShape(Start, plants[..k], load);
  }

  lemma {:induction false} SweepAfterReached(st: SweepState, plants: seq<Plant>, load: real)
    requires st.loadReached
    ensures SweepFrom(st, plants, load) == Ok(st.(lines := st.lines + OffLines(plants)))
    decreases |plants|
  {
    if plants != [] {
      var next := st.(lines := st.lines + [Line(plants[0].name, 0.0)]);
      assert Step(st, plants[0], load) == Ok(next);
      assert SweepFrom(st, plants, load) == SweepFrom(next, plants[1..], load);
      SweepAfterReached(next, plants[1..], load);
      assert next.lines + OffLines(plants[1..]) == st.lines + OffLines(plants);
      assert next.(lines := next.lines + OffLines(plants[1..])) == st.(lines := st.lines + OffLines(plants));
    } else {
      assert st.lines + OffLines(plants) == st.lines;
    }
  }

  /** Once loadReached is set it stays set: every later plant gets a 0 line
      and the lines already emitted are final. */
  lemma AllocationStaysOff(plants: seq<Plant>, load: real, k: nat)
    requires k <= |plants| && SweepFrom(Start, plants[..k], load).Ok?
    requires SweepFrom(Start, plants[..k], load).value.loadReached
    ensures Allocation(plants, load) == Ok(SweepFrom(Start, plants[..k], load).value.lines + OffLines(plants[k..]))
  {
    assert plants == plants[..k] + plants[k..];
    SweepSplit(Start, plants[..k], plants[k..], load);
    SweepAfterReached(SweepFrom(Start, plants[..k], load).value, plants[k..], load);
  }

  lemma {:induction false} SweepNeverFails(st: SweepState, plants: seq<Plant>, load: real)
    requires WellFormed(st) && (st.loadReached || |st.lines| > 0)
    ensures SweepFrom(st, plants, load).Ok?
    decreases |plants|
  {
    if plants != [] {
      StepFailsIff(st, plants[0], load);
      StepShape(st, plants[0], load);
      SweepNeverFails(Step(st, plants[0], load).value, plants[1..], load);
    }
  }

  /** The sweep fails exactly when the first plant in merit order reaches the
      load with its maximum but overshoots it with its minimum: the rollback
      then asks for the line at index -1. It never fails later. */
  lemma AllocationFailsIff(plants: seq<Plant>, load: real)
    ensures Allocation(plants, load).Err? <==>
      |plants| > 0 && plants[0].maxGen >= load && plants[0].minGen > load
    ensures Allocation(plants, load).Err? ==> Allocation(plants, load).error == IndexOutOfRange(-1)
  {
    if plants != [] {
      StepFailsIff(Start, plants[0], load);
      if Step(Start, plants[0], load).Ok? {
        StepShape(Start, plants[0], load);
        SweepNeverFails(Step(Start, plants[0], load).value, plants[1..], load);
      }
    }
  }

  lemma {:induction false} SweepFullCapacity(st: SweepState, plants: seq<Plant>, load: real)
    requires !st.loadReached
    requires forall j :: 0 < j <= |plants| ==> st.total + CapacityUpTo(plants, j) < load
    ensures SweepFrom(st, plants, load).Ok?
    ensures var fin := SweepFrom(st, plants, load).value;
      && !fin.loadReached
      && fin.total == st.total + MaxSum(plants)
      && fin.lines == st.lines + MaxLines(plants)
      && fin.lastIndex == st.lastIndex + |plants|
      && (plants != [] ==> fin.prevAddedVal == plants[|plants| - 1].maxGen)
    decreases |plants|
  {
    if plants != [] {
      var p := plants[0];
      assert plants[..1] == [p];
      assert MaxSum([p]) == p.maxGen by { assert [p][..0] == []; }
      assert st.total + CapacityUpTo(plants, 1) < load;
      var next := Step(st, p, load).value;
      forall j | 0 < j <= |plants| - 1 ensures next.total + CapacityUpTo(plants[1..], j) < load {
        MaxSumConcat([p], plants[1..][..j]);
        assert [p] + plants[1..][..j] == plants[..j + 1];
        assert st.total + CapacityUpTo(plants, j + 1) < load;
      }
      SweepFullCapacity(next, plants[1..], load);
      MaxSumConcat([p], plants[1..]);
      assert [p] + plants[1..] == plants;
      assert next.lines + MaxLines(plants[1..]) == st.lines + MaxLines(plants);
      if |plants| > 1 {
        assert plants[1..][|plants[1..]| - 1] == plants[|plants| - 1];
      }
    }
  }

  lemma {:induction false} MaxSumConcat(a: seq<Plant>, b: seq<Plant>)
    ensures MaxSum(a + b) == MaxSum(a) + MaxSum(b)
    decreases |b|
  {
    if b == [] {
      assert a + b == a;
    } else {
      var n := |b|;
      assert (a + b)[..|a + b| - 1] == a + b[..n - 1];
      MaxSumConcat(a, b[..n - 1]);
    }
  }

  lemma {:induction false} MaxSumPrefix(plants: seq<Plant>, k: nat)
    requires k <= |plants|
    requires forall j :: 0 <= j < |plants| ==> plants[j].maxGen >= 0.0
    ensures MaxSum(plants[..k]) <= MaxSum(plants)
    decreases |plants| - k
  {
    if k < |plants| {
      var n := |plants|;
      assert plants[..n - 1][..k] == plants[..k];
      MaxSumPrefix(plants[..n - 1], k);
    } else {
      assert plants[..k] == plants;
    }
  }

  lemma {:induction false} SumConcat(a: seq<Line>, b: seq<Line>)
    ensures Sum(a + b) == Sum(a) + Sum(b)
    decreases |b|
  {
    if b == [] {
      assert a + b == a;
    } else {
      var n := |b|;
      assert (a + b)[..|a + b| - 1] == a + b[..n - 1];
      SumConcat(a, b[..n - 1]);
    }
  }

  lemma {:induction false} SumMaxLines(plants: seq<Plant>)
    ensures Sum(MaxLines(plants)) == MaxSum(plants)
    decreases |plants|
  {
    if plants != [] {
      var n := |plants|;
      assert MaxLines(plants)[..n - 1] == MaxLines(plants[..n - 1]);
      SumMaxLines(plants[..n - 1]);
    }
  }

  lemma {:induction false} SumOffLines(plants: seq<Plant>)
    ensures Sum(OffLines(plants)) == 0.0
    decreases |plants|
  {
    if plants != [] {
      var n := |plants|;
      assert OffLines(plants)[..n - 1] == OffLines(plants[..n - 1]);
      SumOffLines(plants[..n - 1]);
    }
  }

  /** When even all plants at their maximum stay below the load, every plant
      runs at its maximum, the load is never marked reached and nothing fails:
      the plan under-delivers by exactly the missing capacity. */
  lemma AllocationBelowCapacity(plants: seq<Plant>, load: real)
    requires forall j :: 0 <= j < |plants| ==> plants[j].maxGen >= 0.0
    requires MaxSum(plants) < load
    ensures Allocation(plants, load) == Ok(MaxLines(plants))
    ensures !SweepFrom(Start, plants, load).value.loadReached
    ensures Sum(MaxLines(plants)) == MaxSum(plants) < load
  {
    forall j | 0 < j <= |plants| ensures Start.total + CapacityUpTo(plants, j) < load {
      MaxSumPrefix(plants, j);
    }
    SweepFullCapacity(Start, plants, load);
    assert [] + MaxLines(plants) == MaxLines(plants);
    SumMaxLines(plants);
  }

  /** If every plant before the k-th ran at full capacity and the k-th reaches
      the load with its maximum while its minimum fits, the k-th delivers
      exactly the rest, the later plants are off, and the plan meets the load
      exactly (wind 80 then gas 20 for a load of 100). */
  lemma AllocationExactResidual(plants: seq<Plant>, load: real, k: nat)
    requires k < |plants|
    requires forall j :: 0 < j <= k ==> CapacityUpTo(plants, j) < load
    requires plants[k].maxGen + MaxSum(plants[..k]) >= load
    requires plants[k].minGen + MaxSum(plants[..k]) <= load
    ensures Allocation(plants, load) ==
      Ok(MaxLines(plants[..k]) + [Line(plants[k].name, load - MaxSum(plants[..k]))] + OffLines(plants[k + 1..]))
    ensures Sum(Allocation(plants, load).value) == load
  {
    var head, p, tail := plants[..k], plants[k], plants[k + 1..];
    forall j | 0 < j <= |head| ensures Start.total + CapacityUpTo(head, j) < load {
      assert head[..j] == plants[..j];
      assert CapacityUpTo(plants, j) < load;
    }
    SweepFullCapacity(Start, head, load);
    var mid := SweepFrom(Start, head, load).value;
    assert mid.lines == MaxLines(head) by { assert [] + MaxLines(head) == MaxLines(head); }
    StepExactResidual(mid, p, load);
    var next := Step(mid, p, load).value;
    assert SweepFrom(mid, [p] + tail, load) == SweepFrom(next, tail, load) by {
      assert ([p] + tail)[0] == p && ([p] + tail)[1..] == tail;
    }
    SweepAfterReached(next, tail, load);
    assert plants == head + ([p] + tail);
    SweepSplit(Start, head, [p] + tail, load);
    ExactPlanSum(head, p.name, load, tail);
  }

  lemma ExactPlanSum(head: seq<Plant>, name: string, load: real, tail: seq<Plant>)
    ensures Sum(MaxLines(head) + [Line(name, load - MaxSum(head))] + OffLines(tail)) == load
  {
    var line := Line(name, load - MaxSum(head));
    SumConcat(MaxLines(head) + [line], OffLines(tail));
    SumAppend(MaxLines(head), line);
    SumMaxLines(head);
    SumOffLines(tail);
  }

  // ---------------------------------------------------------------------
  // When does the running total match the emitted lines?

  /** The running total equals the sum of the lines and prevAddedVal equals
      the last line while the load is not reached; once it is reached the
      lines sum to the load. */
  predicate Tracks(st: SweepState, load: real)
  {
    && WellFormed(st)
    && (if st.loadReached then Sum(st.lines) == load
        else st.total == Sum(st.lines) && (|st.lines| > 0 ==> st.prevAddedVal == st.lines[|st.lines| - 1].power))
  }

  /** The one path that breaks the tracking: a rollback at a plant that is not
      last in its group emits the plant at its maximum while prevAddedVal is
      set to its minimum. */
  predicate Drift(st: SweepState, p: Plant, load: real)
  {
    && !st.loadReached
    && p.maxGen + st.total >= load && p.minGen + st.total > load && !p.isLastInGroup
    && st.total - st.prevAddedVal + st.prevMinVal + p.maxGen <= load
    && p.maxGen != p.minGen
  }

  /** No step of the sweep from st over the plants takes the drifting path. */
  predicate NoDrift(st: SweepState, plants: seq<Plant>, load: real)
    decreases |plants|
  {
    plants == [] ||
    (!Drift(st, plants[0], load) &&
     (Step(st, plants[0], load).Ok? ==> NoDrift(Step(st, plants[0], load).value, plants[1..], load)))
  }

  /** Every step other than the drifting one keeps the total in step with the
      lines, and a step that reaches the load leaves lines summing to it. */
  lemma StepTracks(st: SweepState, p: Plant, load: real)
    requires Tracks(st, load) && !Drift(st, p, load) && Step(st, p, load).Ok?
    ensures Tracks(Step(st, p, load).value, load)
  {
    StepShape(st, p, load);
    if st.loadReached {
      SumAppend(st.lines, Line(p.name, 0.0));
    } else if p.maxGen + st.total < load {
      SumAppend(st.lines, Line(p.name, p.maxGen));
    } else if p.minGen + st.total <= load {
      SumAppend(st.lines, Line(p.name, load - st.total));
    } else if p.isLastInGroup {
      LastInGroupRollbackTracks(st, p, load);
    } else {
      NonLastRollbackTracks(st, p, load);
    }
  }

  lemma LastInGroupRollbackTracks(st: SweepState, p: Plant, load: real)
    requires Tracks(st, load) && !st.loadReached && |st.lines| > 0
    requires p.maxGen + st.total >= load && p.minGen + st.total > load && p.isLastInGroup
    ensures Step(st, p, load).Ok? && Sum(Step(st, p, load).value.lines) == load
  {
    var n := |st.lines|;
    var total := st.total - st.prevAddedVal;
    var appended := st.lines + [Line(p.name, p.minGen)];
    var revised := appended[n - 1 := appended[n - 1].(power := load - (total + p.minGen))];
    assert Step(st, p, load).value.lines == revised;
    SumAppend(st.lines, Line(p.name, p.minGen));
    SumUpdate(appended, n - 1, appended[n - 1].(power := load - (total + p.minGen)));
  }

  lemma NonLastRollbackTracks(st: SweepState, p: Plant, load: real)
    requires Tracks(st, load) && !st.loadReached && |st.lines| > 0
    requires p.maxGen + st.total >= load && p.minGen + st.total > load && !p.isLastInGroup
    requires !Drift(st, p, load)
    ensures Step(st, p, load).Ok? && Tracks(Step(st, p, load).value, load)
  {
    var n := |st.lines|;
    var revised := st.lines[n - 1 := st.lines[n - 1].(power := st.prevMinVal)];
    SumUpdate(st.lines, n - 1, st.lines[n - 1].(power := st.prevMinVal));
    var total1 := st.total - st.prevAddedVal + st.prevMinVal;
    assert Sum(revised) == total1;
    var power := if total1 + p.maxGen <= load then p.maxGen else p.minGen;
    var next := Step(st, p, load).value;
    assert next.lines == revised + [Line(p.name, power)];
    SumAppend(revised, Line(p.name, power));
    assert power == p.minGen;
  }

  lemma {:induction false} SweepTracks(st: SweepState, plants: seq<Plant>, load: real)
    requires Tracks(st, load) && NoDrift(st, plants, load) && SweepFrom(st, plants, load).Ok?
    ensures Tracks(SweepFrom(st, plants, load).value, load)
    decreases |plants|
  {
    if plants != [] {
      StepTracks(st, plants[0], load);
      SweepTracks(Step(st, plants[0], load).value, plants[1..], load);
    }
  }

  /** Unless the sweep takes the drifting path, a plan that reaches the load
      meets it exactly, and a plan that does not reach it delivers exactly the
      running total. */
  lemma AllocationMeetsLoad(plants: seq<Plant>, load: real)
    requires NoDrift(Start, plants, load) && SweepFrom(Start, plants, load).Ok?
    ensures var fin := SweepFrom(Start, plants, load).value;
      && (fin.loadReached ==> Sum(fin.lines) == load)
      && (!fin.loadReached ==> Sum(fin.lines) == fin.total)
  {
    SweepTracks(Start, plants, load);
  }

  // ---------------------------------------------------------------------
  // Plans that show what the sweep does not guarantee. Each input is in merit
  // order and carries the group tags the ranking gives it.

  /** The drifting path at work, for a load of 100: wind (0 to 60) runs at 60;
      gas unit A (50 to 80, not last in its group) overshoots with its
      minimum, so wind is dropped to 0 and A runs at 80, but prevAddedVal
      records 50; gas unit B (40 to 70, last) overshoots too, the rollback
      subtracts 50 instead of 80 and revises A to 30. The load counts as
      reached although the plan delivers 70, with 210 available. */
  const DriftPlants := [
    Plant("wind", "windturbine", 1.0, 0, 60, 0.0, 60.0, 0.0, 0, true),
    Plant("gasA", "gasfired", 0.5, 100, 160, 50.0, 80.0, 10.0, 0, false),
    Plant("gasB", "gasfired", 0.5, 80, 140, 40.0, 70.0, 10.0, 1, true)]

  const DriftPlan := [Line("wind", 0.0), Line("gasA", 30.0), Line("gasB", 40.0)]

  lemma DriftMissesLoad()
    ensures Allocation(DriftPlants, 100.0) == Ok(DriftPlan)
    ensures SweepFrom(Start, DriftPlants, 100.0).value.loadReached
    ensures Sum(DriftPlan) == 70.0
    ensures MaxSum(DriftPlants) == 210.0
    ensures !NoDrift(Start, DriftPlants, 100.0)
  {
    DriftSweep();
    ThreeLineSum(DriftPlan);
    ThreePlantMaxSum(DriftPlants);
  }

  lemma DriftSweep()
    ensures SweepFrom(Start, DriftPlants, 100.0) == Ok(SweepState(true, 30.0, 40.0, 70.0, 2, DriftPlan))
    ensures Step(Start, DriftPlants[0], 100.0).Ok?
    ensures Drift(Step(Start, DriftPlants[0], 100.0).value, DriftPlants[1], 100.0)
  {
    var wind, gasA, gasB := DriftPlants[0], DriftPlants[1], DriftPlants[2];
    var s1 := SweepState(false, 60.0, 0.0, 60.0, 1, [Line("wind", 60.0)]);
    var s2 := SweepState(false, 80.0, 50.0, 50.0, 2, [Line("wind", 0.0), Line("gasA", 80.0)]);
    var s3 := SweepState(true, 30.0, 40.0, 70.0, 2, DriftPlan);
    assert Start.lines + [Line("wind", 60.0)] == s1.lines;
    assert Step(Start, wind, 100.0) == Ok(s1);
    assert s1.lines[0 := Line("wind", 0.0)] + [Line("gasA", 80.0)] == s2.lines;
    assert Step(s1, gasA, 100.0) == Ok(s2);
    assert (s2.lines + [Line("gasB", 40.0)])[1 := Line("gasA", 30.0)] == s3.lines;
    assert Step(s2, gasB, 100.0) == Ok(s3);
    assert DriftPlants[1..] == [gasA, gasB] && [gasA, gasB][1..] == [gasB] && [gasB][1..] == [];
    assert SweepFrom(s2, [gasB], 100.0) == Ok(s3);
    assert SweepFrom(s1, [gasA, gasB], 100.0) == Ok(s3);
  }

  /** Without any drift the sweep can still stop short of a load the plants
      could meet: for a load of 100, wind (0 to 60) runs at 60; gas unit A
      (fixed at 50, not last in its group) overshoots with its minimum, so
      wind drops to 0 and A runs at 50, leaving a total of 50 and the load
      not reached; gas unit B (fixed at 45, last) then fits at full capacity.
      The plan delivers 95 of 100, although wind at 50 with A at 50 would
      meet the load exactly: the sweep never raises a revised line again. */
  const ShortPlants := [
    Plant("wind", "windturbine", 1.0, 0, 60, 0.0, 60.0, 0.0, 0, true),
    Plant("gasA", "gasfired", 0.5, 100, 100, 50.0, 50.0, 10.0, 0, false),
    Plant("gasB", "gasfired", 0.5, 90, 90, 45.0, 45.0, 10.0, 1, true)]

  const ShortPlan := [Line("wind", 0.0), Line("gasA", 50.0), Line("gasB", 45.0)]

  lemma StopsShortWithoutDrift()
    ensures Allocation(ShortPlants, 100.0) == Ok(ShortPlan)
    ensures !SweepFrom(Start, ShortPlants, 100.0).value.loadReached
    ensures NoDrift(Start, ShortPlants, 100.0)
    ensures Sum(ShortPlan) == 95.0
    ensures MaxSum(ShortPlants) == 155.0
  {
    ShortSweep();
    ThreeLineSum(ShortPlan);
    ThreePlantMaxSum(ShortPlants);
  }

  lemma ShortSweep()
    ensures SweepFrom(Start, ShortPlants, 100.0) == Ok(SweepState(false, 95.0, 45.0, 45.0, 3, ShortPlan))
    ensures NoDrift(Start, ShortPlants, 100.0)
  {
    var wind, gasA, gasB := ShortPlants[0], ShortPlants[1], ShortPlants[2];
    var s1 := SweepState(false, 60.0, 0.0, 60.0, 1, [Line("wind", 60.0)]);
    var s2 := SweepState(false, 50.0, 50.0, 50.0, 2, [Line("wind", 0.0), Line("gasA", 50.0)]);
    var s3 := SweepState(false, 95.0, 45.0, 45.0, 3, ShortPlan);
    assert Start.lines + [Line("wind", 60.0)] == s1.lines;
    assert Step(Start, wind, 100.0) == Ok(s1);
    assert s1.lines[0 := Line("wind", 0.0)] + [Line("gasA", 50.0)] == s2.lines;
    assert Step(s1, gasA, 100.0) == Ok(s2);
    assert s2.lines + [Line("gasB", 45.0)] == s3.lines;
    assert Step(s2, gasB, 100.0) == Ok(s3);
    assert ShortPlants[1..] == [gasA, gasB] && [gasA, gasB][1..] == [gasB] && [gasB][1..] == [];
    assert SweepFrom(s2, [gasB], 100.0) == Ok(s3);
    assert SweepFrom(s1, [gasA, gasB], 100.0) == Ok(s3);
    assert NoDrift(s3, [], 100.0);
    assert NoDrift(s2, [gasB], 100.0);
    assert NoDrift(s1, [gasA, gasB], 100.0);
  }

  /** The sum of a three-line plan. */
  lemma ThreeLineSum(lines: seq<Line>)
    requires |lines| == 3
    ensures Sum(lines) == lines[0].power + lines[1].power + lines[2].power
  {
    assert lines == [] + [lines[0]] + [lines[1]] + [lines[2]];
    SumAppend([], lines[0]);
    SumAppend([lines[0]], lines[1]);
    SumAppend([lines[0], lines[1]], lines[2]);
  }

  /** The combined maximum of three plants. */
  lemma ThreePlantMaxSum(plants: seq<Plant>)
    requires |plants| == 3
    ensures MaxSum(plants) == plants[0].maxGen + plants[1].maxGen + plants[2].maxGen
  {
    assert plants == [plants[0]] + [plants[1]] + [plants[2]];
    MaxSumConcat([plants[0]], [plants[1]]);
    MaxSumConcat([plants[0], plants[1]], [plants[2]]);
    assert [plants[0]][..0] == [] && [plants[1]][..0] == [] && [plants[2]][..0] == [];
  }

  /** The rollback at the last plant of a group puts no lower bound on the
      line it revises: for a load of 100, wind (0 to 60) runs at 60, then a
      gas unit with a minimum of 150 overshoots and wind is revised to -50. */
  lemma RollbackGoesNegative()
    ensures var plants := [
        Plant("wind", "windturbine", 1.0, 0, 60, 0.0, 60.0, 0.0, 0, true),
        Plant("gas", "gasfired", 0.5, 300, 400, 150.0, 200.0, 10.0, 0, true)];
      Allocation(plants, 100.0) == Ok([Line("wind", -50.0), Line("gas", 150.0)])
  {
    var wind := Plant("wind", "windturbine", 1.0, 0, 60, 0.0, 60.0, 0.0, 0, true);
    var gas := Plant("gas", "gasfired", 0.5, 300, 400, 150.0, 200.0, 10.0, 0, true);
    var s1 := SweepState(false, 60.0, 0.0, 60.0, 1, [Line("wind", 60.0)]);
    assert Start.lines + [Line("wind", 60.0)] == s1.lines;
    assert Step(Start, wind, 100.0) == Ok(s1);
    var s2 := SweepState(true, 0.0, 150.0, 100.0, 1, [Line("wind", -50.0), Line("gas", 150.0)]);
    assert (s1.lines + [Line("gas", 150.0)])[0 := Line("wind", -50.0)] == s2.lines;
    assert Step(s1, gas, 100.0) == Ok(s2);
    assert [wind, gas][1..] == [gas] && [gas][1..] == [];
    assert SweepFrom(s1, [gas], 100.0) == Ok(s2);
  }
}
