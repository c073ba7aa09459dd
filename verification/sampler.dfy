/** The naive grid sampler (src/NaiveGridSampler.cc): the constructor's
    validation, computeSampleSetSize, the two sample-adding functors and
    run, which lays the ellipticity grid out along a ladder of radii.

    The objective is a value of the caller: its linear dimension and a
    total function from the working ellipse to the joint value.  The log
    proposal density log(maxRadius * maxEllipticity^2 * pi) is computed
    with std::log and M_PI in the source; `Run` receives its value. */
module NaiveGridSampler {
  import opened EllipticityGrid

  datatype Point = Point(x: real, y: real)

  /** The (radius, e1, e2) slots, indexed RADIUS, E1, E2 in the source. */
  datatype EllipseCore = EllipseCore(radius: real, e1: real, e2: real)

  datatype Ellipse = Ellipse(center: Point, core: EllipseCore)

  datatype SamplePoint = SamplePoint(parameters: EllipseCore, joint: real, proposal: real)

  datatype SampleSet = SampleSet(nonlinearDim: int, linearDim: int, points: seq<SamplePoint>)

  datatype Objective = Objective(linearDim: int, evaluate: Ellipse -> real)

  datatype Sampler = Sampler(
    center: Point,
    nRadiusSteps: int,
    ellipticityStepSize: real,
    maxRadius: real,
    maxEllipticity: real)
  {
    /** What the constructor establishes. */
    predicate Valid() {
      && nRadiusSteps >= 2
      && maxEllipticity >= 0.0
      && ellipticityStepSize >= 0.0
      && maxRadius >= 0.0
    }

    /** The grid loops terminate: a zero step is only usable with a zero
        maximum ellipticity. */
    predicate Enumerable() {
      Terminates(maxEllipticity, ellipticityStepSize)
    }
  }

  datatype Result<T> = Ok(value: T) | InvalidParameter(message: string)

  const NRadiusStepsMessage: string := "nRadiusSteps must be >= 2"
  const MaxEllipticityMessage: string := "maxEllipticity must be >= 0.0"
  const StepSizeMessage: string := "ellipticityStepSize must be >= 0.0"
  const MaxRadiusMessage: string := "maxRadius must be >= 0.0"
  const ZeroStepMessage: string := "ellipticityStepSize must be > 0.0 when maxEllipticity > 0.0"

  /** The constructor: the checks run in this order and the first failing
      one raises InvalidParameterException; otherwise the inputs are stored
      unchanged. */
  function NewSampler(
    center: Point,
    nRadiusSteps: int,
    ellipticityStepSize: real,
    maxRadius: real,
    maxEllipticity: real
  ): (r: Result<Sampler>)
    ensures r.Ok? <==> Sampler(center, nRadiusSteps, ellipticityStepSize, maxRadius, maxEllipticity).Valid()
    ensures r.Ok? ==> r.value == Sampler(center, nRadiusSteps, ellipticityStepSize, maxRadius, maxEllipticity)
    ensures nRadiusSteps < 2 ==> r == InvalidParameter(NRadiusStepsMessage)
    ensures nRadiusSteps >= 2 && maxEllipticity < 0.0 ==> r == InvalidParameter(MaxEllipticityMessage)
    ensures nRadiusSteps >= 2 && maxEllipticity >= 0.0 && ellipticityStepSize < 0.0 ==>
      r == InvalidParameter(StepSizeMessage)
    ensures nRadiusSteps >= 2 && maxEllipticity >= 0.0 && ellipticityStepSize >= 0.0 && maxRadius < 0.0 ==>
      r == InvalidParameter(MaxRadiusMessage)
  {
    if nRadiusSteps < 2 then InvalidParameter(NRadiusStepsMessage)
    else if maxEllipticity < 0.0 then InvalidParameter(MaxEllipticityMessage)
    else if ellipticityStepSize < 0.0 then InvalidParameter(StepSizeMessage)
    else if maxRadius < 0.0 then InvalidParameter(MaxRadiusMessage)
    else Ok(Sampler(center, nRadiusSteps, ellipticityStepSize, maxRadius, maxEllipticity))
  }

  /** The constructor accepts a zero step with a positive maxEllipticity
      (here 0.5): the resulting sampler cannot enumerate its grid, because
      the axis loop's guard compares a squared ellipticity that stays 0
      with maxEllipticity squared, and so holds at every iteration. */
  lemma ZeroStepAccepted(center: Point, maxRadius: real)
    requires maxRadius >= 0.0
    ensures NewSampler(center, 2, 0.0, maxRadius, 0.5).Ok?
    ensures !NewSampler(center, 2, 0.0, maxRadius, 0.5).value.Enumerable()
    ensures forall k :: Mag2(k, 0.0) < Sq(0.5)
  {
    assert Sq(0.5) == 0.25;
  }

  /** The constructor with the check its loops need: after the four checks
      of the source, a zero step is rejected unless maxEllipticity is 0.
      Its samplers are exactly the ones `Run` accepts. */
  function NewEnumerableSampler(
    center: Point,
    nRadiusSteps: int,
    ellipticityStepSize: real,
    maxRadius: real,
    maxEllipticity: real
  ): (r: Result<Sampler>)
    ensures var s := Sampler(center, nRadiusSteps, ellipticityStepSize, maxRadius, maxEllipticity);
      r.Ok? <==> s.Valid() && s.Enumerable()
    ensures r.Ok? ==> r == NewSampler(center, nRadiusSteps, ellipticityStepSize, maxRadius, maxEllipticity)
    ensures !NewSampler(center, nRadiusSteps, ellipticityStepSize, maxRadius, maxEllipticity).Ok? ==>
      r == NewSampler(center, nRadiusSteps, ellipticityStepSize, maxRadius, maxEllipticity)
    ensures NewSampler(center, nRadiusSteps, ellipticityStepSize, maxRadius, maxEllipticity).Ok? && !r.Ok? ==>
      r == InvalidParameter(ZeroStepMessage)
  {
    var r := NewSampler(center, nRadiusSteps, ellipticityStepSize, maxRadius, maxEllipticity);
    if r.Ok? && !r.value.Enumerable() then InvalidParameter(ZeroStepMessage) else r
  }

  /** computeSampleSetSize: the CountSamples tally times the number of
      radius steps; it equals the length of the enumeration times that
      number. */
  function ComputeSampleSetSize(nRadiusSteps: int, ellipticityStepSize: real, maxEllipticity: real): (n: int)
    requires Terminates(maxEllipticity, ellipticityStepSize)
    ensures n == |GridIndices(maxEllipticity, ellipticityStepSize)| * nRadiusSteps
  {
    CountSamples(maxEllipticity, ellipticityStepSize) * nRadiusSteps
  }

  // ---------------------------------------------------------------------
  // The functors

  /** The state the functors share through pointers: the working sample
      point, the sample set, the working ellipse and the log of objective
      calls (each call's argument). */
  datatype Walk = Walk(p: SamplePoint, samples: seq<SamplePoint>, ellipse: Ellipse, evaluations: seq<Ellipse>)

  function WithEllipticity(c: EllipseCore, e: Ellipticity): EllipseCore {
    c.(e1 := e.e1, e2 := e.e2)
  }

  /** AddConstantSample: overwrite the ellipticity of the working point and
      append a copy; the joint value is left as it is. */
  function AddConstantSample(w: Walk, e: Ellipticity): (r: Walk)
    ensures r.samples == w.samples + [r.p]
    ensures r.p.parameters == EllipseCore(w.p.parameters.radius, e.e1, e.e2)
    ensures r.p.joint == w.p.joint && r.p.proposal == w.p.proposal
    ensures r.ellipse == w.ellipse && r.evaluations == w.evaluations
  {
    var p := w.p.(parameters := WithEllipticity(w.p.parameters, e));
    w.(p := p, samples := w.samples + [p])
  }

  /** AddNewSample: move the working ellipse to (e1, e2), evaluate the
      objective there, and append the point with that joint value. */
  function AddNewSample(objective: Objective, w: Walk, e: Ellipticity): (r: Walk)
    ensures r.ellipse == Ellipse(w.ellipse.center, EllipseCore(w.ellipse.core.radius, e.e1, e.e2))
    ensures r.evaluations == w.evaluations + [r.ellipse]
    ensures r.p == SamplePoint(EllipseCore(w.p.parameters.radius, e.e1, e.e2), objective.evaluate(r.ellipse), w.p.proposal)
    ensures r.samples == w.samples + [r.p]
  {
    var ellipse := w.ellipse.(core := WithEllipticity(w.ellipse.core, e));
    var p := w.p.(parameters := WithEllipticity(w.p.parameters, e), joint := objective.evaluate(ellipse));
    Walk(p, w.samples + [p], ellipse, w.evaluations + [ellipse])
  }

  function NewSampleVisitor(objective: Objective): (Walk, Ellipticity) -> Walk {
    (w: Walk, e: Ellipticity) => AddNewSample(objective, w, e)
  }

  // ---------------------------------------------------------------------
  // The layout run promises

  /** The ellipse at which the objective is evaluated for radius 0. */
  function ZeroEllipse(center: Point): Ellipse {
    Ellipse(center, EllipseCore(0.0, 0.0, 0.0))
  }

  /** The radius of rung i: maxRadius / (nRadiusSteps - 1) * i. */
  function RungRadius(s: Sampler, i: int): real
    requires s.nRadiusSteps >= 2
  {
    s.maxRadius / (s.nRadiusSteps - 1) as real * i as real
  }

  function RungEllipse(center: Point, radius: real, e: Ellipticity): Ellipse {
    Ellipse(center, EllipseCore(radius, e.e1, e.e2))
  }

  /** The sample rung `radius` records at e, with its own objective value. */
  function RungSample(objective: Objective, center: Point, radius: real, proposal: real, e: Ellipticity): SamplePoint {
    var ellipse := RungEllipse(center, radius, e);
    SamplePoint(ellipse.core, objective.evaluate(ellipse), proposal)
  }

  /** Block i of the sample set: at radius 0 every point carries the one
      joint value of the zero ellipse; at rung i >= 1 each point carries
      the objective at its own (radius, e1, e2).  All carry the same
      proposal density. */
  function ExpectedBlock(s: Sampler, objective: Objective, density: real, i: int): (b: seq<SamplePoint>)
    requires s.Valid() && s.Enumerable()
    ensures |b| == |Ellipticities(s.maxEllipticity, s.ellipticityStepSize)|
  {
    var es := Ellipticities(s.maxEllipticity, s.ellipticityStepSize);
    if i == 0 then
      var joint := objective.evaluate(ZeroEllipse(s.center));
      seq(|es|, j requires 0 <= j < |es| => SamplePoint(EllipseCore(0.0, es[j].e1, es[j].e2), joint, density))
    else
      var radius := RungRadius(s, i);
      seq(|es|, j requires 0 <= j < |es| => RungSample(objective, s.center, radius, density, es[j]))
  }

  function Blocks(s: Sampler, objective: Objective, density: real): seq<seq<SamplePoint>>
    requires s.Valid() && s.Enumerable()
  {
    seq(s.nRadiusSteps, i requires 0 <= i < s.nRadiusSteps => ExpectedBlock(s, objective, density, i))
  }

  /** The objective calls of rung i >= 1, one per grid point. */
  function RungEvaluations(s: Sampler): seq<seq<Ellipse>>
    requires s.Valid() && s.Enumerable()
  {
    var es := Ellipticities(s.maxEllipticity, s.ellipticityStepSize);
    seq(s.nRadiusSteps - 1, i requires 0 <= i < s.nRadiusSteps - 1 =>
      seq(|es|, j requires 0 <= j < |es| => RungEllipse(s.center, RungRadius(s, i + 1), es[j])))
  }

  /** Concatenation of blocks in order. */
  function Flatten<T>(blocks: seq<seq<T>>): seq<T> {
    if |blocks| == 0 then [] else Flatten(blocks[..|blocks| - 1]) + blocks[|blocks| - 1]
  }

  /** Radius-major order: all of block 0, then block 1, ... */
  function ExpectedSamples(s: Sampler, objective: Objective, density: real): seq<SamplePoint>
    requires s.Valid() && s.Enumerable()
  {
    Flatten(Blocks(s, objective, density))
  }

  /** One call at the zero ellipse, then one per grid point per rung. */
  function ExpectedEvaluations(s: Sampler): seq<Ellipse>
    requires s.Valid() && s.Enumerable()
  {
    [ZeroEllipse(s.center)] + Flatten(RungEvaluations(s))
  }

  // ---------------------------------------------------------------------
  // The functors over a whole enumeration

  lemma {:induction false} ConstantWalk(w: Walk, es: seq<Ellipticity>)
    ensures Fold(AddConstantSample, w, es).samples ==
      w.samples + seq(|es|, j requires 0 <= j < |es| => w.p.(parameters := WithEllipticity(w.p.parameters, es[j])))
    ensures Fold(AddConstantSample, w, es).ellipse == w.ellipse
    ensures Fold(AddConstantSample, w, es).evaluations == w.evaluations
    ensures Fold(AddConstantSample, w, es).p.parameters.radius == w.p.parameters.radius
    ensures Fold(AddConstantSample, w, es).p.proposal == w.p.proposal
    decreases |es|
  {
    if |es| > 0 {
      var w1 := AddConstantSample(w, es[0]);
      ConstantWalk(w1, es[1..]);
      var tail := seq(|es| - 1, j requires 0 <= j < |es| - 1 => w1.p.(parameters := WithEllipticity(w1.p.parameters, es[1..][j])));
      var all := seq(|es|, j requires 0 <= j < |es| => w.p.(parameters := WithEllipticity(w.p.parameters, es[j])));
      assert all == [w1.p] + tail;
    }
  }

  lemma {:induction false} NewWalk(objective: Objective, w: Walk, es: seq<Ellipticity>)
    requires w.ellipse.core.radius == w.p.parameters.radius
    ensures Fold(NewSampleVisitor(objective), w, es).samples ==
      w.samples + seq(|es|, j requires 0 <= j < |es| =>
        RungSample(objective, w.ellipse.center, w.p.parameters.radius, w.p.proposal, es[j]))
    ensures Fold(NewSampleVisitor(objective), w, es).evaluations ==
      w.evaluations + seq(|es|, j requires 0 <= j < |es| => RungEllipse(w.ellipse.center, w.p.parameters.radius, es[j]))
    ensures Fold(NewSampleVisitor(objective), w, es).ellipse.center == w.ellipse.center
    ensures Fold(NewSampleVisitor(objective), w, es).p.proposal == w.p.proposal
    decreases |es|
  {
    if |es| > 0 {
      var c, r, d := w.ellipse.center, w.p.parameters.radius, w.p.proposal;
      var w1 := AddNewSample(objective, w, es[0]);
      assert NewSampleVisitor(objective)(w, es[0]) == w1;
      NewWalk(objective, w1, es[1..]);
      assert w1.ellipse == RungEllipse(c, r, es[0]);
      assert w1.p == RungSample(objective, c, r, d, es[0]);
      var tail := seq(|es| - 1, j requires 0 <= j < |es| - 1 => RungSample(objective, c, r, d, es[1..][j]));
      var all := seq(|es|, j requires 0 <= j < |es| => RungSample(objective, c, r, d, es[j]));
      assert all == [w1.p] + tail;
      var etail := seq(|es| - 1, j requires 0 <= j < |es| - 1 => RungEllipse(c, r, es[1..][j]));
      var eall := seq(|es|, j requires 0 <= j < |es| => RungEllipse(c, r, es[j]));
      assert eall == [w1.ellipse] + etail;
    }
  }

  // ---------------------------------------------------------------------
  // run

  /** The radius-0 block: one walk of AddConstantSample from the point
      evaluated at the zero ellipse. */
  lemma Radius0Walk(s: Sampler, objective: Objective, density: real)
    requires s.Valid() && s.Enumerable()
    ensures var zero := ZeroEllipse(s.center);
      var p := SamplePoint(zero.core, objective.evaluate(zero), density);
      var w := ForEachEllipticity(AddConstantSample, Walk(p, [], zero, [zero]), s.maxEllipticity, s.ellipticityStepSize);
      && w.samples == Flatten(Blocks(s, objective, density)[..1])
      && w.evaluations == [zero] + Flatten(RungEvaluations(s)[..0])
      && w.ellipse.center == s.center
      && w.p.proposal == density
  {
    var es := Ellipticities(s.maxEllipticity, s.ellipticityStepSize);
    var zero := ZeroEllipse(s.center);
    var p := SamplePoint(zero.core, objective.evaluate(zero), density);
    ConstantWalk(Walk(p, [], zero, [zero]), es);
    var blocks := Blocks(s, objective, density);
    assert blocks[..1] == [blocks[0]];
    assert Flatten(blocks[..1]) == Flatten(blocks[..1][..0]) + blocks[0];
    assert RungEvaluations(s)[..0] == [];
  }

  /** One rung of the ladder appends block i and its objective calls. */
  lemma RungWalk(s: Sampler, objective: Objective, density: real, w: Walk, i: int)
    requires s.Valid() && s.Enumerable()
    requires 1 <= i < s.nRadiusSteps
    requires w.ellipse.core.radius == w.p.parameters.radius == RungRadius(s, i)
    requires w.samples == Flatten(Blocks(s, objective, density)[..i])
    requires w.evaluations == [ZeroEllipse(s.center)] + Flatten(RungEvaluations(s)[..i - 1])
    requires w.ellipse.center == s.center
    requires w.p.proposal == density
    ensures var w' := ForEachEllipticity(NewSampleVisitor(objective), w, s.maxEllipticity, s.ellipticityStepSize);
      && w'.samples == Flatten(Blocks(s, objective, density)[..i + 1])
      && w'.evaluations == [ZeroEllipse(s.center)] + Flatten(RungEvaluations(s)[..i])
      && w'.ellipse.center == s.center
      && w'.p.proposal == density
  {
    var es := Ellipticities(s.maxEllipticity, s.ellipticityStepSize);
    NewWalk(objective, w, es);
    var blocks := Blocks(s, objective, density);
    var calls := RungEvaluations(s);
    assert blocks[..i + 1][..i] == blocks[..i];
    assert Flatten(blocks[..i + 1]) == Flatten(blocks[..i]) + blocks[i];
    assert calls[..i][..i - 1] == calls[..i - 1];
    assert Flatten(calls[..i]) == Flatten(calls[..i - 1]) + calls[i - 1];
  }

  /** run: the radius-0 block from one objective call, then rungs
      1 .. nRadiusSteps-1, each over the enumeration.  `evaluations` is
      the sequence of ellipses the objective was called with. */
  method Run(s: Sampler, objective: Objective, density: real) returns (samples: SampleSet, evaluations: seq<Ellipse>)
    requires s.Valid() && s.Enumerable()
    ensures samples.nonlinearDim == 3 && samples.linearDim == objective.linearDim
    ensures samples.points == ExpectedSamples(s, objective, density)
    ensures evaluations == ExpectedEvaluations(s)
  {
    var maxEll, step := s.maxEllipticity, s.ellipticityStepSize;
    // the default core scaled by 0
    var zero := ZeroEllipse(s.center);
    var p := SamplePoint(zero.core, objective.evaluate(zero), density);
    var w := ForEachEllipticity(AddConstantSample, Walk(p, [], zero, [zero]), maxEll, step);
    Radius0Walk(s, objective, density);
    var radiusStepSize := s.maxRadius / (s.nRadiusSteps - 1) as real;
    var i := 1;
    while i < s.nRadiusSteps
      invariant 1 <= i <= s.nRadiusSteps
      invariant w.samples == Flatten(Blocks(s, objective, density)[..i])
      invariant w.evaluations == [zero] + Flatten(RungEvaluations(s)[..i - 1])
      invariant w.ellipse.center == s.center
      invariant w.p.proposal == density
    {
      var radius := radiusStepSize * i as real;
      w := w.(p := w.p.(parameters := w.p.parameters.(radius := radius)));
      w := w.(ellipse := w.ellipse.(core := w.ellipse.core.(radius := radius)));
      RungWalk(s, objective, density, w, i);
      w := ForEachEllipticity(NewSampleVisitor(objective), w, maxEll, step);
      i := i + 1;
    }
    assert Blocks(s, objective, density)[..i] == Blocks(s, objective, density);
    assert RungEvaluations(s)[..i - 1] == RungEvaluations(s);
    samples := SampleSet(3, objective.linearDim, w.samples);
    evaluations := w.evaluations;
  }

  // ---------------------------------------------------------------------
  // The layout, element by element

  lemma MulLe(a: nat, b: nat, c: nat)
    requires a <= b
    ensures a * c <= b * c
  {
  }

  lemma {:induction false} FlattenUniform<T>(blocks: seq<seq<T>>, c: nat)
    requires forall k :: 0 <= k < |blocks| ==> |blocks[k]| == c
    ensures |Flatten(blocks)| == |blocks| * c
    decreases |blocks|
  {
    if |blocks| > 0 {
      FlattenUniform(blocks[..|blocks| - 1], c);
    }
  }

  /** Element j of block i sits at position i * c + j. */
  lemma {:induction false} FlattenAt<T>(blocks: seq<seq<T>>, c: nat, i: nat, j: nat)
    requires forall k :: 0 <= k < |blocks| ==> |blocks[k]| == c
    requires i < |blocks| && j < c
    ensures i * c + j < |Flatten(blocks)|
    ensures Flatten(blocks)[i * c + j] == blocks[i][j]
    decreases |blocks|
  {
    var n := |blocks|;
    var init := blocks[..n - 1];
    FlattenUniform(init, c);
    FlattenUniform(blocks, c);
    assert Flatten(blocks) == Flatten(init) + blocks[n - 1];
    if i < n - 1 {
      FlattenAt(init, c, i, j);
    } else {
      assert i * c == |Flatten(init)|;
    }
    MulLe(i + 1, n, c);
  }

  lemma {:induction false} FlattenProposal(blocks: seq<seq<SamplePoint>>, density: real)
    requires forall k, x :: 0 <= k < |blocks| && x in blocks[k] ==> x.proposal == density
    ensures forall x :: x in Flatten(blocks) ==> x.proposal == density
    decreases |blocks|
  {
    if |blocks| > 0 {
      FlattenProposal(blocks[..|blocks| - 1], density);
    }
  }

  lemma BlocksUniform(s: Sampler, objective: Objective, density: real)
    requires s.Valid() && s.Enumerable()
    ensures forall k :: 0 <= k < |Blocks(s, objective, density)| ==>
      |Blocks(s, objective, density)[k]| == CountSamples(s.maxEllipticity, s.ellipticityStepSize)
    ensures forall k :: 0 <= k < |RungEvaluations(s)| ==>
      |RungEvaluations(s)[k]| == CountSamples(s.maxEllipticity, s.ellipticityStepSize)
  {
  }

  /** run records computeSampleSetSize samples and calls the objective
      1 + (nRadiusSteps - 1) * count times. */
  lemma RunCounts(s: Sampler, objective: Objective, density: real)
    requires s.Valid() && s.Enumerable()
    ensures |ExpectedSamples(s, objective, density)| ==
      ComputeSampleSetSize(s.nRadiusSteps, s.ellipticityStepSize, s.maxEllipticity)
    ensures |ExpectedEvaluations(s)| ==
      1 + (s.nRadiusSteps - 1) * CountSamples(s.maxEllipticity, s.ellipticityStepSize)
  {
    var c := CountSamples(s.maxEllipticity, s.ellipticityStepSize);
    BlocksUniform(s, objective, density);
    FlattenUniform(Blocks(s, objective, density), c);
    FlattenUniform(RungEvaluations(s), c);
  }

  /** Sample j of the radius-0 block is ellipticity j at radius 0 with the
      joint value of the single zero-ellipse call. */
  lemma Radius0SampleAt(s: Sampler, objective: Objective, density: real, j: nat)
    requires s.Valid() && s.Enumerable()
    requires j < CountSamples(s.maxEllipticity, s.ellipticityStepSize)
    ensures j < |ExpectedSamples(s, objective, density)|
    ensures var e := Ellipticities(s.maxEllipticity, s.ellipticityStepSize)[j];
      ExpectedSamples(s, objective, density)[j] ==
        SamplePoint(EllipseCore(0.0, e.e1, e.e2), objective.evaluate(ZeroEllipse(s.center)), density)
  {
    var c := CountSamples(s.maxEllipticity, s.ellipticityStepSize);
    BlocksUniform(s, objective, density);
    FlattenAt(Blocks(s, objective, density), c, 0, j);
  }

  /** Sample i * count + j, for rung i >= 1, is ellipticity j at the radius
      of rung i with the objective's value there. */
  lemma RungSampleAt(s: Sampler, objective: Objective, density: real, i: nat, j: nat)
    requires s.Valid() && s.Enumerable()
    requires 1 <= i < s.nRadiusSteps && j < CountSamples(s.maxEllipticity, s.ellipticityStepSize)
    ensures i * CountSamples(s.maxEllipticity, s.ellipticityStepSize) + j < |ExpectedSamples(s, objective, density)|
    ensures ExpectedSamples(s, objective, density)[i * CountSamples(s.maxEllipticity, s.ellipticityStepSize) + j] ==
      RungSample(objective, s.center, RungRadius(s, i), density, Ellipticities(s.maxEllipticity, s.ellipticityStepSize)[j])
  {
    var c := CountSamples(s.maxEllipticity, s.ellipticityStepSize);
    BlocksUniform(s, objective, density);
    FlattenAt(Blocks(s, objective, density), c, i, j);
  }

  /** All radius-0 samples share the joint value of the one objective call
      at the zero ellipse, which is the first call run makes. */
  lemma Radius0SharesOneEvaluation(s: Sampler, objective: Objective, density: real)
    requires s.Valid() && s.Enumerable()
    ensures ExpectedEvaluations(s)[0] == ZeroEllipse(s.center)
    ensures forall j :: 0 <= j < CountSamples(s.maxEllipticity, s.ellipticityStepSize) ==>
      && ExpectedSamples(s, objective, density)[j].joint == objective.evaluate(ExpectedEvaluations(s)[0])
      && ExpectedSamples(s, objective, density)[j].parameters.radius == 0.0
  {
    var c := CountSamples(s.maxEllipticity, s.ellipticityStepSize);
    forall j | 0 <= j < c
      ensures ExpectedSamples(s, objective, density)[j].joint == objective.evaluate(ZeroEllipse(s.center))
      ensures ExpectedSamples(s, objective, density)[j].parameters.radius == 0.0
    {
      Radius0SampleAt(s, objective, density, j);
    }
  }

  /** Every sample carries the one proposal density of the run. */
  lemma ProposalShared(s: Sampler, objective: Objective, density: real)
    requires s.Valid() && s.Enumerable()
    ensures forall x :: x in ExpectedSamples(s, objective, density) ==> x.proposal == density
  {
    FlattenProposal(Blocks(s, objective, density), density);
  }

  /** The radius ladder starts at 0, climbs monotonically and ends at
      maxRadius. */
  lemma RadiusLadder(s: Sampler, i: int, j: int)
    requires s.Valid()
    requires 0 <= i <= j < s.nRadiusSteps
    ensures RungRadius(s, 0) == 0.0
    ensures RungRadius(s, s.nRadiusSteps - 1) == s.maxRadius
    ensures 0.0 <= RungRadius(s, i) <= RungRadius(s, j) <= s.maxRadius
  {
    var d := (s.nRadiusSteps - 1) as real;
    var step := s.maxRadius / d;
    DivMul(s.maxRadius, d);
    DivNonnegative(s.maxRadius, d);
    assert 0.0 <= i as real <= j as real <= d;
    ScaleLeft(step, 0.0, i as real);
    ScaleLeft(step, i as real, j as real);
    ScaleLeft(step, j as real, d);
    assert RungRadius(s, 0) == step * 0.0 == 0.0;
    assert RungRadius(s, i) == step * i as real;
    assert RungRadius(s, j) == step * j as real;
    assert RungRadius(s, s.nRadiusSteps - 1) == step * d == s.maxRadius;
  }

  /** With maxEllipticity = 0 and two radius steps the run records exactly
      two samples, (0, 0, 0) and (maxRadius, 0, 0). */
  lemma TwoStepScenario(objective: Objective, density: real)
    ensures Sampler(Point(0.0, 0.0), 2, 1.0, 1.0, 0.0).Valid()
    ensures Sampler(Point(0.0, 0.0), 2, 1.0, 1.0, 0.0).Enumerable()
    ensures ComputeSampleSetSize(2, 1.0, 0.0) == 2
    ensures ExpectedSamples(Sampler(Point(0.0, 0.0), 2, 1.0, 1.0, 0.0), objective, density) ==
      [ SamplePoint(EllipseCore(0.0, 0.0, 0.0), objective.evaluate(ZeroEllipse(Point(0.0, 0.0))), density),
        SamplePoint(EllipseCore(1.0, 0.0, 0.0), objective.evaluate(Ellipse(Point(0.0, 0.0), EllipseCore(1.0, 0.0, 0.0))), density) ]
  {
    var s := Sampler(Point(0.0, 0.0), 2, 1.0, 1.0, 0.0);
    ZeroMaxEllipticity(1.0);
    var es := Ellipticities(0.0, 1.0);
    assert es == [Ellipticity(0.0, 0.0)];
    var blocks := Blocks(s, objective, density);
    assert RungRadius(s, 1) == 1.0;
    assert blocks[..1] == [blocks[0]];
    assert Flatten(blocks) == Flatten(blocks[..1]) + blocks[1];
  }
}
