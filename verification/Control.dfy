/**
 * The control cycle: `Ruckig::update` of ruckig.hpp, called once for every set point. Whether it goes on
 * along its trajectory or computes a new one depends on whether the caller hands the last set point back.
 */
module Control {
  import opened Brake
  import opened Kinematics
  import opened Motion
  import opened Profiles
  import opened RealArithmetic
  import opened Trajectory

  datatype Result = Working | Finished | ErrorPositionalLimits | Failure(code: int)

  /** What the caller hands over: the present state of every axis, and everything else there is to know. */
  datatype Input<Goal> = Input(current: seq<Knot>, goal: Goal)

  /** A trajectory with one section. */
  datatype Path = Path(axes: seq<Axis>, duration: real)

  /** What a calculation returns and the trajectory it leaves. */
  datatype Outcome = Outcome(result: Result, path: Path)

  predicate Succeeds(r: Result) {
    r == Working || r == ErrorPositionalLimits
  }

  predicate PathOk(path: Path) {
    forall d :: 0 <= d < |path.axes| ==> AxisSized(path.axes[d]) && Lasts(path.axes[d]) <= path.duration
  }

  ghost predicate Calculates<Goal(!new)>(calculate: Input<Goal> -> Outcome) {
    forall i :: Succeeds(calculate(i).result) ==> PathOk(calculate(i).path)
  }

  /** The states of all axes at a time of the trajectory. */
  ghost predicate Samples(path: Path, time: real, states: seq<Knot>) {
    |states| == |path.axes| && PathOk(path) && forall d :: 0 <= d < |states| ==> IsState(path.axes[d], time, states[d])
  }

  /** The jerks of all axes there: none from the end on. */
  ghost predicate SamplesJerk(path: Path, time: real, jerks: seq<real>) {
    && |jerks| == |path.axes| && PathOk(path)
    && forall d :: 0 <= d < |jerks| ==>
         if time >= path.duration then jerks[d] == 0.0 else IsAxisJerk(path.axes[d], time, jerks[d])
  }

  function ResultAt(path: Path, time: real, otherwise: Result): Result {
    if time > path.duration then Finished else otherwise
  }

  class Output {
    var path: Path
    var states: seq<Knot>
    var jerks: seq<real>
    var time: real
    var newSection: nat
    var didSectionChange: bool
    var newCalculation: bool

    constructor ()
      ensures time == 0.0 && newSection == 0
    {
      path, states, jerks, time := Path([], 0.0), [], [], 0.0;
      newSection, didSectionChange, newCalculation := 0, false, false;
    }

    /** One step on along the trajectory. */
    method Advance(deltaTime: real)
      requires PathOk(path) && time + deltaTime >= 0.0
      modifies this`time, this`states, this`jerks, this`newSection, this`didSectionChange
      ensures time == old(time) + deltaTime && Samples(path, time, states) && SamplesJerk(path, time, jerks)
      ensures newSection == if time >= path.duration then 1 else 0
      ensures didSectionChange <==> newSection > old(newSection)
    {
      hide IsState, IsAxisJerk, AxisSized, Lasts;
      var oldSection := newSection;
      time := time + deltaTime;
      states, jerks := StateToIntegrateFrom(path.axes, path.duration, time);
      newSection := if time >= path.duration then 1 else 0;
      didSectionChange := newSection > oldSection;
    }
  }

  class Ruckig<Goal(==,!new)> {
    const deltaTime: real
    var currentInput: Input<Goal>
    var initialized: bool

    constructor (deltaTime: real, unused: Input<Goal>)
      requires deltaTime > 0.0
      ensures Ready() && !initialized && this.deltaTime == deltaTime
    {
      this.deltaTime, currentInput, initialized := deltaTime, unused, false;
    }

    predicate Ready() {
      deltaTime > 0.0
    }

    /** The input is not what the last cycle left. */
    predicate Again(input: Input<Goal>)
      reads this
    {
      !initialized || input != currentInput
    }

    method Reset()
      modifies this`initialized
      ensures forall input: Input<Goal> :: Again(input)
    {
      initialized := false;
    }

    /**
     * One cycle. A new input starts a new trajectory, or fails and changes nothing but that; the input that
     * the last cycle left goes one step on.
     */
    method Update(calculate: Input<Goal> -> Outcome, input: Input<Goal>, output: Output) returns (result: Result)
      requires Ready() && Calculates(calculate)
      requires initialized ==> PathOk(output.path) && output.time >= 0.0
      modifies this, output
      ensures old(Again(input)) && !Succeeds(calculate(input).result) ==>
        && result == calculate(input).result && output.path == calculate(input).path && output.time == old(output.time)
        && currentInput == old(currentInput) && initialized == old(initialized) && !output.newCalculation
      ensures old(Again(input)) && Succeeds(calculate(input).result) ==>
        && output.path == calculate(input).path && output.time == deltaTime && output.newCalculation
        && result == ResultAt(output.path, deltaTime, calculate(input).result)
      ensures !old(Again(input)) ==>
        && output.path == old(output.path) && output.time == old(output.time) + deltaTime && !output.newCalculation
        && result == ResultAt(output.path, output.time, Working)
      ensures old(Again(input)) ==> Succeeds(calculate(input).result) == output.newCalculation
      ensures !old(Again(input)) || output.newCalculation ==>
        && initialized && currentInput == Input(output.states, input.goal)
        && Samples(output.path, output.time, output.states) && SamplesJerk(output.path, output.time, output.jerks)
        && output.newSection == (if output.time >= output.path.duration then 1 else 0)
        && (output.didSectionChange <==> output.newSection > old(output.newSection))
    {
      hide Samples, SamplesJerk, PathOk;
      output.newCalculation := false;
      result := Working;
      if !initialized || input != currentInput {
        var outcome := calculate(input);
        output.path := outcome.path;
        result := outcome.result;
        if result != Working && result != ErrorPositionalLimits {
          return;
        }
        currentInput := input;
        initialized := true;
        output.time := 0.0;
        output.newCalculation := true;
      }
      output.Advance(deltaTime);
      currentInput := currentInput.(current := output.states);
      if output.time > output.path.duration {
        result := Finished;
      }
    }
  }

  // ---------------------------------------------------------------- runs

  function Elapsed(k: nat, delta: real): real {
    k as real * delta
  }

  lemma ElapsedStep(k: nat, delta: real)
    requires delta > 0.0
    ensures Elapsed(k + 1, delta) == Elapsed(k, delta) + delta && Elapsed(0, delta) == 0.0 && Elapsed(1, delta) == delta
    ensures Elapsed(k, delta) >= 0.0
  {
    Product(k as real, delta);
    assert (k + 1) as real == k as real + 1.0;
  }

  /**
   * The loop that the library is made for: every set point is handed back as the present state. One
   * calculation serves all cycles; the set points are the samples of its trajectory, one step apart, and the
   * result says that the trajectory is finished exactly from the first sample after its end on.
   */
  method ControlLoop<Goal(==,!new)>(otg: Ruckig<Goal>, output: Output, calculate: Input<Goal> -> Outcome,
                                    input: Input<Goal>,
                                    n: nat) returns (results: seq<Result>, setPoints: seq<seq<Knot>>, calculations: nat)
    requires otg.Ready() && !otg.initialized && Calculates(calculate) && calculate(input).result == Working
    modifies otg, output
    ensures |results| == |setPoints| == n && calculations == if n > 0 then 1 else 0
    ensures forall k :: 0 <= k < n ==> Samples(calculate(input).path, Elapsed(k + 1, otg.deltaTime), setPoints[k])
    ensures forall k :: 0 <= k < n ==>
      results[k] == ResultAt(calculate(input).path, Elapsed(k + 1, otg.deltaTime), Working)
  {
    hide Elapsed, Samples, PathOk;
    results, setPoints, calculations := [], [], 0;
    var inp := input;
    ghost var path := calculate(input).path;
    for k := 0 to n
      invariant |results| == |setPoints| == k && calculations == if k > 0 then 1 else 0
      invariant if k == 0 then inp == input && !otg.initialized
        else otg.initialized && otg.currentInput == inp && output.path == path && PathOk(path)
             && output.time == Elapsed(k, otg.deltaTime) >= 0.0
      invariant forall i :: 0 <= i < k ==> Samples(path, Elapsed(i + 1, otg.deltaTime), setPoints[i])
      invariant forall i :: 0 <= i < k ==> results[i] == ResultAt(path, Elapsed(i + 1, otg.deltaTime), Working)
    {
      ElapsedStep(k, otg.deltaTime);
      ElapsedStep(k + 1, otg.deltaTime);
      var result := otg.Update(calculate, inp, output);
      if output.newCalculation {
        calculations := calculations + 1;
      }
      inp := inp.(current := output.states);
      results, setPoints := results + [result], setPoints + [output.states];
    }
  }

  /**
   * Without handing it back, every cycle starts anew from the same state: all set points are the first one,
   * and a trajectory that takes longer than one step is never finished.
   */
  method WithoutFeedback<Goal(==,!new)>(otg: Ruckig<Goal>, output: Output, calculate: Input<Goal> -> Outcome,
                                        input: Input<Goal>, n: nat)
    returns (results: seq<Result>, setPoints: seq<seq<Knot>>, calculations: nat)
    requires otg.Ready() && !otg.initialized && Calculates(calculate) && calculate(input).result == Working
    requires !Samples(calculate(input).path, otg.deltaTime, input.current)
    modifies otg, output
    ensures |results| == |setPoints| == calculations == n
    ensures forall k :: 0 <= k < n ==> Samples(calculate(input).path, otg.deltaTime, setPoints[k])
    ensures forall k :: 0 <= k < n ==> results[k] == ResultAt(calculate(input).path, otg.deltaTime, Working)
  {
    hide Samples, PathOk;
    results, setPoints, calculations := [], [], 0;
    ghost var path := calculate(input).path;
    for k := 0 to n
      invariant |results| == |setPoints| == calculations == k
      invariant otg.initialized ==>
        output.time >= 0.0 && output.path == path && PathOk(path) && otg.currentInput != input
      invariant forall i :: 0 <= i < k ==> Samples(path, otg.deltaTime, setPoints[i])
      invariant forall i :: 0 <= i < k ==> results[i] == ResultAt(path, otg.deltaTime, Working)
    {
      var result := otg.Update(calculate, input, output);
      if output.newCalculation {
        calculations := calculations + 1;
      }
      results, setPoints := results + [result], setPoints + [output.states];
    }
  }

  /** What the trajectory of every axis has been made from, one instance of the check each. */
  datatype Origin = Origin(jf: real, how: Instance, velocity: Band, acceleration: Band, jerk: real)

  ghost predicate AllMade(path: Path, current: seq<Knot>, origins: seq<Origin>) {
    && |origins| == |current| == |path.axes|
    && forall d :: 0 <= d < |path.axes| ==>
         var o := origins[d]; Made(path.axes[d], current[d], o.jf, o.how, o.velocity, o.acceleration, o.jerk)
  }

  /** In the loop every axis moves from set point to set point, in one step of time each, within its jerk. */
  lemma SetPointsFollow(path: Path, current: seq<Knot>, origins: seq<Origin>, setPoints: seq<seq<Knot>>, delta: real,
                        k: nat, d: nat)
    requires delta > 0.0 && AllMade(path, current, origins) && k < |setPoints| && d < |path.axes|
    requires forall i :: 0 <= i < |setPoints| ==> Samples(path, Elapsed(i + 1, delta), setPoints[i])
    ensures |setPoints[k]| == |path.axes| && (k > 0 ==> |setPoints[k - 1]| == |path.axes|)
    ensures Reaches(if k == 0 then current[d] else setPoints[k - 1][d], setPoints[k][d], delta, origins[d].jerk)
  {
    var x, o := path.axes[d], origins[d];
    ElapsedStep(k, delta);
    hide Elapsed, Reaches, Made, IsState;
    assert Samples(path, Elapsed(k + 1, delta), setPoints[k]);
    if k == 0 {
      FromTheStart(x, current[d], o.jf, o.how, o.velocity, o.acceleration, o.jerk, delta, setPoints[0][d]);
    } else {
      assert Samples(path, Elapsed(k - 1 + 1, delta), setPoints[k - 1]);
      WholeMotion(x, current[d], o.jf, o.how, o.velocity, o.acceleration, o.jerk,
                  Elapsed(k, delta), Elapsed(k + 1, delta), setPoints[k - 1][d], setPoints[k][d]);
    }
  }
}
