/** The glue around the Levenberg-Marquardt solver in src/LevMarFitter.cc:
    the LevMarFunction adapter (parameter split, the `_dirty` flag, Jacobian
    assembly), the LevMarFitterResult constructor, and the parameter
    packing and solver choice of LevMarFitter::apply and
    LevMarFitter::checkDerivatives.

    The solver (dlevmar_der, dlevmar_dif, dlevmar_chkjac) is foreign and
    appears as a function parameter from the call it receives to what it
    writes back; the evaluator's model image and derivative matrices are
    functions of its parameter blocks. */
module LevMarFitter {

  /** A dense matrix, row-major: data[r][c]. */
  datatype Matrix = Matrix(cols: nat, data: seq<seq<real>>)
  {
    function Rows(): nat { |data| }

    predicate Wf() {
      forall r :: 0 <= r < |data| ==> |data[r]| == cols
    }
  }

  /** The ModelEvaluator capability: current parameter blocks, weighted
      data, and the model image and derivative matrices as functions of
      the (linear, nonlinear) blocks.  `model` stands for getModel(). */
  datatype Evaluator = Evaluator(
    linear: seq<real>,
    nonlinear: seq<real>,
    weightedData: seq<real>,
    nPixels: nat,
    model: nat,
    modelImage: (seq<real>, seq<real>) -> seq<real>,
    linearDerivative: (seq<real>, seq<real>) -> Matrix,
    nonlinearDerivative: (seq<real>, seq<real>) -> Matrix)
  {
    function ParameterCount(): nat { |linear| + |nonlinear| }
  }

  // ---------------------------------------------------------------------
  // Packing and splitting the parameter vector

  /** The working vector of apply and checkDerivatives: the linear block,
      then the nonlinear block. */
  function Pack(linear: seq<real>, nonlinear: seq<real>): (p: seq<real>)
    ensures |p| == |linear| + |nonlinear|
    ensures forall i :: 0 <= i < |linear| ==> p[i] == linear[i]
    ensures forall i :: |linear| <= i < |p| ==> p[i] == nonlinear[i - |linear|]
  {
    linear + nonlinear
  }

  /** params.start(n): the first n entries. */
  function Head(params: seq<real>, n: nat): seq<real>
    requires n <= |params|
  {
    params[..n]
  }

  /** params.end(n): the last n entries. */
  function Tail(params: seq<real>, n: nat): seq<real>
    requires n <= |params|
  {
    params[|params| - n..]
  }

  /** Splitting a packed vector gives back both blocks. */
  lemma SplitPack(linear: seq<real>, nonlinear: seq<real>)
    ensures Head(Pack(linear, nonlinear), |linear|) == linear
    ensures Tail(Pack(linear, nonlinear), |nonlinear|) == nonlinear
  {
    var p := Pack(linear, nonlinear);
    assert Head(p, |linear|) == linear;
    assert Tail(p, |nonlinear|) == nonlinear;
  }

  /** Packing the two blocks of a vector of the right length gives it back. */
  lemma PackSplit(params: seq<real>, nLinear: nat, nNonlinear: nat)
    requires |params| == nLinear + nNonlinear
    ensures Pack(Head(params, nLinear), Tail(params, nNonlinear)) == params
  {
    assert Head(params, nLinear) + Tail(params, nNonlinear) == params;
  }

  // ---------------------------------------------------------------------
  // The LevMarFunction adapter

  datatype LevMarFunction = LevMarFunction(dirty: bool, evaluator: Evaluator)

  /** The constructor (lines 24-27): `_dirty` starts true, so the first
      callback pushes whatever vector it is given into the evaluator. */
  function NewLevMarFunction(evaluator: Evaluator): (f: LevMarFunction)
    ensures f.dirty && f.evaluator == evaluator
    ensures forall params :: |params| == evaluator.ParameterCount() ==>
      Pack(Prepare(f, params).evaluator.linear, Prepare(f, params).evaluator.nonlinear) == params
  {
    LevMarFunction(true, evaluator)
  }

  /** Whether a candidate vector differs from the evaluator's current
      parameters, compared element by element over both blocks. */
  predicate ParamsChanged(evaluator: Evaluator, params: seq<real>) {
    params != Pack(evaluator.linear, evaluator.nonlinear)
  }

  /** checkParams (lines 73-92) as written.  It returns at once while
      `_dirty` is set.  Otherwise the `return` in each loop body is not
      guarded by the `if`, so the first loop that runs at all decides after
      one comparison; with both blocks empty `_dirty` is cleared. */
  function CheckParams(f: LevMarFunction, params: seq<real>): (g: LevMarFunction)
    requires |params| == f.evaluator.ParameterCount()
    ensures g.evaluator == f.evaluator
    ensures g.dirty ==> f.dirty || ParamsChanged(f.evaluator, params)
    ensures f.dirty ==> g.dirty
    ensures !f.dirty ==>
      (g.dirty <==> |params| > 0 && params[0] != Pack(f.evaluator.linear, f.evaluator.nonlinear)[0])
  {
    if f.dirty then f
    else if |f.evaluator.linear| > 0 then
      f.(dirty := params[0] != f.evaluator.linear[0])
    else if |f.evaluator.nonlinear| > 0 then
      // no linear step was taken, so iNew still points at params[0]
      f.(dirty := params[0] != f.evaluator.nonlinear[0])
    else
      f.(dirty := false)
  }

  /** With `_dirty` clear, checkParams looks at no entry beyond the first:
      two candidates that agree there get the same verdict. */
  lemma CheckParamsReadsOneEntry(f: LevMarFunction, params: seq<real>, other: seq<real>)
    requires |params| == |other| == f.evaluator.ParameterCount()
    requires |params| > 0 ==> params[0] == other[0]
    ensures CheckParams(f, params) == CheckParams(f, other)
  {
  }

  /** The verdict is therefore not the element-by-element comparison: a
      change in the second linear entry goes unseen. */
  lemma CheckParamsMissesLaterChange()
    ensures var e := Evaluator([1.0, 2.0], [], [], 0, 0, (l, n) => [], (l, n) => Matrix(0, []), (l, n) => Matrix(0, []));
      && ParamsChanged(e, [1.0, 5.0])
      && !CheckParams(LevMarFunction(false, e), [1.0, 5.0]).dirty
  {
    var e := Evaluator([1.0, 2.0], [], [], 0, 0, (l, n) => [], (l, n) => Matrix(0, []), (l, n) => Matrix(0, []));
    assert Pack(e.linear, e.nonlinear)[1] == 2.0;
  }

  /** The shared prologue of computeModel and computeJacobian (lines 30-36,
      41-47): checkParams, then, while dirty, push the first nLinear entries
      as the linear parameters and the last nNonlinear as the nonlinear
      ones. */
  function Prepare(f: LevMarFunction, params: seq<real>): (g: LevMarFunction)
    requires |params| == f.evaluator.ParameterCount()
    ensures |g.evaluator.linear| == |f.evaluator.linear|
    ensures |g.evaluator.nonlinear| == |f.evaluator.nonlinear|
    ensures g.evaluator == f.evaluator.(linear := g.evaluator.linear, nonlinear := g.evaluator.nonlinear)
    ensures f.dirty ==> g.dirty && Pack(g.evaluator.linear, g.evaluator.nonlinear) == params
  {
    var checked := CheckParams(f, params);
    if checked.dirty then
      var e := checked.evaluator;
      PackSplit(params, |e.linear|, |e.nonlinear|);
      checked.(evaluator := e.(linear := Head(params, |e.linear|), nonlinear := Tail(params, |e.nonlinear|)))
    else
      checked
  }

  datatype ModelResult = ModelResult(adapter: LevMarFunction, model: seq<real>)

  /** computeModel (lines 29-38): the model image after the prologue. */
  function ComputeModel(f: LevMarFunction, params: seq<real>): (r: ModelResult)
    requires |params| == f.evaluator.ParameterCount()
    ensures r.adapter == Prepare(f, params)
    ensures f.dirty ==> r.model == f.evaluator.modelImage(Head(params, |f.evaluator.linear|), Tail(params, |f.evaluator.nonlinear|))
  {
    var g := Prepare(f, params);
    SplitPack(g.evaluator.linear, g.evaluator.nonlinear);
    ModelResult(g, g.evaluator.modelImage(g.evaluator.linear, g.evaluator.nonlinear))
  }

  /** The shapes Jacobian assembly needs: the blocks have the Jacobian's
      rows and their columns add up to its columns. */
  predicate BlocksFit(jacobian: Matrix, lpd: Matrix, npd: Matrix) {
    && jacobian.Wf() && lpd.Wf() && npd.Wf()
    && lpd.Rows() == jacobian.Rows() && npd.Rows() == jacobian.Rows()
    && jacobian.cols == lpd.cols + npd.cols
  }

  /** Lines 50-52: the first lpd.cols columns become lpd, the remaining
      npd.cols columns become npd. */
  function AssembleJacobian(jacobian: Matrix, lpd: Matrix, npd: Matrix): (r: Matrix)
    requires BlocksFit(jacobian, lpd, npd)
    ensures r.Wf() && r.cols == jacobian.cols && r.Rows() == jacobian.Rows()
    ensures forall i, j :: 0 <= i < r.Rows() && 0 <= j < lpd.cols ==> r.data[i][j] == lpd.data[i][j]
    ensures forall i, j :: 0 <= i < r.Rows() && lpd.cols <= j < r.cols ==> r.data[i][j] == npd.data[i][j - lpd.cols]
  {
    Matrix(jacobian.cols, seq(jacobian.Rows(), i requires 0 <= i < jacobian.Rows() => lpd.data[i] + npd.data[i]))
  }

  /** Columns [from, from + n) of a matrix. */
  function Columns(m: Matrix, from: nat, n: nat): Matrix
    requires m.Wf() && from + n <= m.cols
  {
    Matrix(n, seq(m.Rows(), i requires 0 <= i < m.Rows() => m.data[i][from..from + n]))
  }

  /** The two column blocks of the assembled Jacobian are lpd and npd. */
  lemma AssembleJacobianBlocks(jacobian: Matrix, lpd: Matrix, npd: Matrix)
    requires BlocksFit(jacobian, lpd, npd)
    ensures Columns(AssembleJacobian(jacobian, lpd, npd), 0, lpd.cols) == lpd
    ensures Columns(AssembleJacobian(jacobian, lpd, npd), lpd.cols, npd.cols) == npd
  {
    var r := AssembleJacobian(jacobian, lpd, npd);
    var left := Columns(r, 0, lpd.cols);
    var right := Columns(r, lpd.cols, npd.cols);
    forall i | 0 <= i < r.Rows()
      ensures left.data[i] == lpd.data[i] && right.data[i] == npd.data[i]
    {
      assert r.data[i] == lpd.data[i] + npd.data[i];
    }
  }

  datatype JacobianResult = JacobianResult(adapter: LevMarFunction, jacobian: Matrix)

  /** The derivative blocks the evaluator reports after the prologue. */
  function DerivativesAfter(f: LevMarFunction, params: seq<real>): (Matrix, Matrix)
    requires |params| == f.evaluator.ParameterCount()
  {
    var e := Prepare(f, params).evaluator;
    (e.linearDerivative(e.linear, e.nonlinear), e.nonlinearDerivative(e.linear, e.nonlinear))
  }

  /** computeJacobian (lines 40-53).  The assert at line 50 becomes the
      precondition on the block shapes. */
  function ComputeJacobian(f: LevMarFunction, params: seq<real>, jacobian: Matrix): (r: JacobianResult)
    requires |params| == f.evaluator.ParameterCount()
    requires BlocksFit(jacobian, DerivativesAfter(f, params).0, DerivativesAfter(f, params).1)
    ensures r.adapter == Prepare(f, params)
    ensures r.jacobian.Wf() && r.jacobian.cols == jacobian.cols && r.jacobian.Rows() == jacobian.Rows()
    ensures f.dirty ==>
      var l, n := Head(params, |f.evaluator.linear|), Tail(params, |f.evaluator.nonlinear|);
      && Columns(r.jacobian, 0, f.evaluator.linearDerivative(l, n).cols) == f.evaluator.linearDerivative(l, n)
      && Columns(r.jacobian, f.evaluator.linearDerivative(l, n).cols, f.evaluator.nonlinearDerivative(l, n).cols)
           == f.evaluator.nonlinearDerivative(l, n)
  {
    var g := Prepare(f, params);
    var (lpd, npd) := DerivativesAfter(f, params);
    AssembleJacobianBlocks(jacobian, lpd, npd);
    SplitPack(g.evaluator.linear, g.evaluator.nonlinear);
    JacobianResult(g, AssembleJacobian(jacobian, lpd, npd))
  }

  /** The adapter state after the solver's callbacks with these parameter
      vectors, in order (computeModel and computeJacobian change the state
      alike, through Prepare). */
  function Replay(f: LevMarFunction, calls: seq<seq<real>>): LevMarFunction
    requires forall k :: 0 <= k < |calls| ==> |calls[k]| == f.evaluator.ParameterCount()
    decreases |calls|
  {
    if |calls| == 0 then f
    else
      var g := Prepare(f, calls[0]);
      Replay(g, calls[1..])
  }

  /** `_dirty` is set by the constructor and never cleared: after any
      sequence of callbacks it is still set, and the evaluator holds the
      last vector the solver passed. */
  lemma {:induction false} DirtyStaysSet(f: LevMarFunction, calls: seq<seq<real>>)
    requires f.dirty
    requires forall k :: 0 <= k < |calls| ==> |calls[k]| == f.evaluator.ParameterCount()
    ensures Replay(f, calls).dirty
    ensures |calls| > 0 ==>
      Pack(Replay(f, calls).evaluator.linear, Replay(f, calls).evaluator.nonlinear) == calls[|calls| - 1]
    decreases |calls|
  {
    if |calls| > 0 {
      var g := Prepare(f, calls[0]);
      DirtyStaysSet(g, calls[1..]);
      if |calls| > 1 {
        assert calls[1..][|calls[1..]| - 1] == calls[|calls| - 1];
      }
    }
  }

  /** Hence the early decision of checkParams never matters: on every state
      the adapter reaches from its constructor, checkParams behaves as a
      full comparison would (it keeps `_dirty` set). */
  lemma ReachableCheckParamsIsHarmless(e: Evaluator, calls: seq<seq<real>>, params: seq<real>)
    requires forall k :: 0 <= k < |calls| ==> |calls[k]| == e.ParameterCount()
    requires |params| == e.ParameterCount()
    ensures var f := Replay(NewLevMarFunction(e), calls);
      |params| == f.evaluator.ParameterCount() && CheckParams(f, params) == f && f.dirty
  {
    DirtyStaysSet(NewLevMarFunction(e), calls);
    ReplayKeepsSizes(NewLevMarFunction(e), calls);
  }

  /** Callbacks change nothing but the two parameter blocks, and keep their
      sizes. */
  lemma {:induction false} ReplayKeepsSizes(f: LevMarFunction, calls: seq<seq<real>>)
    requires forall k :: 0 <= k < |calls| ==> |calls[k]| == f.evaluator.ParameterCount()
    ensures |Replay(f, calls).evaluator.linear| == |f.evaluator.linear|
    ensures |Replay(f, calls).evaluator.nonlinear| == |f.evaluator.nonlinear|
    ensures Replay(f, calls).evaluator ==
      f.evaluator.(linear := Replay(f, calls).evaluator.linear, nonlinear := Replay(f, calls).evaluator.nonlinear)
    decreases |calls|
  {
    if |calls| > 0 {
      ReplayKeepsSizes(Prepare(f, calls[0]), calls[1..]);
    }
  }

  /** What a callback sees of the solver's buffer p: VectorMap(p, m), its
      first m entries (lines 56, 63). */
  function View(p: nat -> real, m: nat): (v: seq<real>)
    ensures |v| == m
    ensures forall i :: 0 <= i < m ==> v[i] == p(i)
  {
    seq(m, i requires 0 <= i < m => p(i))
  }

  function Views(buffers: seq<nat -> real>, m: nat): (vs: seq<seq<real>>)
    ensures |vs| == |buffers|
    ensures forall k :: 0 <= k < |vs| ==> vs[k] == View(buffers[k], m)
  {
    seq(|buffers|, k requires 0 <= k < |buffers| => View(buffers[k], m))
  }

  /** The shared evaluator after a solver run that made callbacks with
      these buffers, in order, through a fresh adapter. */
  function AfterCallbacks(evaluator: Evaluator, buffers: seq<nat -> real>): Evaluator {
    Replay(NewLevMarFunction(evaluator), Views(buffers, evaluator.ParameterCount())).evaluator
  }

  /** After the callbacks the evaluator differs from before only in its
      parameter blocks, and holds the vector of the last callback; without
      callbacks it is unchanged. */
  lemma AfterCallbacksState(evaluator: Evaluator, buffers: seq<nat -> real>)
    ensures var e := AfterCallbacks(evaluator, buffers);
      && |e.linear| == |evaluator.linear| && |e.nonlinear| == |evaluator.nonlinear|
      && e == evaluator.(linear := e.linear, nonlinear := e.nonlinear)
      && (|buffers| == 0 ==> e == evaluator)
      && (|buffers| > 0 ==> Pack(e.linear, e.nonlinear) == View(buffers[|buffers| - 1], evaluator.ParameterCount()))
  {
    var f := NewLevMarFunction(evaluator);
    var calls := Views(buffers, evaluator.ParameterCount());
    DirtyStaysSet(f, calls);
    ReplayKeepsSizes(f, calls);
  }

  /** The first callback at the starting vector of apply or
      checkDerivatives pushes the evaluator's own parameters back. */
  lemma StartVectorRoundTrip(evaluator: Evaluator)
    ensures Prepare(NewLevMarFunction(evaluator), Pack(evaluator.linear, evaluator.nonlinear)).evaluator == evaluator
  {
    var g := Prepare(NewLevMarFunction(evaluator), Pack(evaluator.linear, evaluator.nonlinear));
    SplitPack(g.evaluator.linear, g.evaluator.nonlinear);
    SplitPack(evaluator.linear, evaluator.nonlinear);
  }

  // ---------------------------------------------------------------------
  // LevMarFitterResult

  /** LM_INFO_SZ entries of the solver's info array. */
  type Info = s: seq<real> | |s| == 10 witness [0.0, 0.0, 0.0, 0.0, 0.0, 0.0, 0.0, 0.0, 0.0, 0.0]

  /** The solver's stop reasons, codes 1 to 7 of info[6]; any other code
      is kept as it is. */
  datatype Termination =
    | SmallGradient
    | SmallStep
    | MaxIterations
    | SingularMatrix
    | NoFurtherReduction
    | SmallResidual
    | InvalidValues
    | OtherCode(code: int)

  function CodeOf(t: Termination): int {
    match t
    case SmallGradient => 1
    case SmallStep => 2
    case MaxIterations => 3
    case SingularMatrix => 4
    case NoFurtherReduction => 5
    case SmallResidual => 6
    case InvalidValues => 7
    case OtherCode(c) => c
  }

  /** A termination value as the enum cast produces it: OtherCode only for
      codes without a name. */
  predicate Canonical(t: Termination) {
    t.OtherCode? ==> !(1 <= t.code <= 7)
  }

  /** TerminationEnum(code): one-to-one with the solver's codes. */
  function TerminationOf(code: int): (t: Termination)
    ensures CodeOf(t) == code
    ensures Canonical(t)
  {
    if code == 1 then SmallGradient
    else if code == 2 then SmallStep
    else if code == 3 then MaxIterations
    else if code == 4 then SingularMatrix
    else if code == 5 then NoFurtherReduction
    else if code == 6 then SmallResidual
    else if code == 7 then InvalidValues
    else OtherCode(code)
  }

  lemma TerminationRoundTrip(t: Termination)
    requires Canonical(t)
    ensures TerminationOf(CodeOf(t)) == t
  {
  }

  /** C++ conversion of a double to int: truncation toward zero. */
  function TruncateToInt(x: real): (n: int)
    ensures x >= 0.0 ==> n as real <= x < n as real + 1.0
    ensures x < 0.0 ==> n as real - 1.0 < x <= n as real
  {
    if x >= 0.0 then x.Floor else -((-x).Floor)
  }

  lemma TruncateIntegral(k: int)
    ensures TruncateToInt(k as real) == k
  {
  }

  datatype LevMarFitterResult = LevMarFitterResult(
    termination: Termination,
    chisqInitial: real,
    chisqFinal: real,
    maxGradient: real,
    lastStepNorm: real,
    nIterations: int,
    nFunctionEvaluations: int,
    nJacobianEvaluations: int,
    nMatrixFactorizations: int,
    model: nat,
    parameters: seq<real>,
    covariance: Matrix)

  /** Truncation leaves integral values alone, slot by slot. */
  lemma TruncateKeepsIntegral(info: Info)
    ensures forall i :: 0 <= i < 10 && Integral(info[i]) ==> TruncateToInt(info[i]) as real == info[i]
  {
    forall i | 0 <= i < 10 && Integral(info[i])
      ensures TruncateToInt(info[i]) as real == info[i]
    {
      TruncateIntegral(info[i].Floor);
    }
  }

  /** The LevMarFitterResult constructor (lines 97-115). */
  function NewResult(info: Info, model: nat, parameters: seq<real>, covariance: Matrix): (r: LevMarFitterResult)
    ensures r.model == model && r.parameters == parameters && r.covariance == covariance
    ensures InfoOf(r)[..4] == info[..4]
    ensures forall i :: 5 <= i < 10 && Integral(info[i]) ==> InfoOf(r)[i] == info[i]
  {
    TruncateKeepsIntegral(info);
    LevMarFitterResult(
      TerminationOf(TruncateToInt(info[6])),
      info[0], info[1], info[2], info[3],
      TruncateToInt(info[5]),
      TruncateToInt(info[7]), TruncateToInt(info[8]), TruncateToInt(info[9]),
      model, parameters, covariance)
  }

  /** The info array a result was read from, with the unread slot 4 as 0. */
  function InfoOf(r: LevMarFitterResult): Info {
    [ r.chisqInitial, r.chisqFinal, r.maxGradient, r.lastStepNorm, 0.0,
      r.nIterations as real, CodeOf(r.termination) as real,
      r.nFunctionEvaluations as real, r.nJacobianEvaluations as real, r.nMatrixFactorizations as real ]
  }

  predicate Integral(x: real) { x == x.Floor as real }

  /** The result keeps every slot of info except slot 4: reading it back
      recovers the array whenever the count and code slots hold integers. */
  lemma ResultRecordsInfo(info: Info, model: nat, parameters: seq<real>, covariance: Matrix)
    requires forall i :: 5 <= i < 10 ==> Integral(info[i])
    ensures InfoOf(NewResult(info, model, parameters, covariance)) == info[4 := 0.0]
  {
    var r := NewResult(info, model, parameters, covariance);
    TruncateIntegral(info[5].Floor);
    TruncateIntegral(info[6].Floor);
    TruncateIntegral(info[7].Floor);
    TruncateIntegral(info[8].Floor);
    TruncateIntegral(info[9].Floor);
    assert Integral(info[5]) && Integral(info[6]) && Integral(info[7]) && Integral(info[8]) && Integral(info[9]);
    assert InfoOf(r) == info[4 := 0.0];
  }

  /** info[4] is not read. */
  lemma ResultIgnoresSlot4(info: Info, x: real, model: nat, parameters: seq<real>, covariance: Matrix)
    ensures NewResult(info[4 := x], model, parameters, covariance) == NewResult(info, model, parameters, covariance)
  {
  }

  // ---------------------------------------------------------------------
  // LevMarFitter::apply and checkDerivatives

  /** The fitter's settings after the defaults have been merged in. */
  datatype FitterConfig = FitterConfig(
    iterationMax: int,
    tau: real,
    gradientEpsilon: real,
    parameterEpsilon: real,
    residualEpsilon: real,
    delta: real,
    doAnalyticJacobian: bool)

  /** The opts array (lines 170-175, 182).  The initialiser lists four
      values, so opts[4] starts as 0.0; only the finite-difference path
      stores delta there. */
  function Options(config: FitterConfig): (opts: seq<real>)
    ensures |opts| == 5
    ensures opts[..4] == [config.tau, config.gradientEpsilon, config.parameterEpsilon, config.residualEpsilon]
    ensures opts[4] == if config.doAnalyticJacobian then 0.0 else config.delta
  {
    var opts := [config.tau, config.gradientEpsilon, config.parameterEpsilon, config.residualEpsilon, 0.0];
    if config.doAnalyticJacobian then opts else opts[4 := config.delta]
  }

  /** What apply hands the solver: which routine (dlevmar_der with the
      Jacobian callback, or dlevmar_dif), the starting vector, the data,
      the iteration cap, the options and the adapter. */
  datatype SolverCall = SolverCall(
    analytic: bool,
    parameters: seq<real>,
    data: seq<real>,
    itmax: int,
    opts: seq<real>,
    adapter: LevMarFunction)

  /** What the solver writes back: the info array, the entries of the
      parameter and covariance buffers, and the buffers it handed to the
      model and Jacobian callbacks, in call order. */
  datatype SolverOutput = SolverOutput(
    info: Info,
    parameterAt: nat -> real,
    covarianceAt: (nat, nat) -> real,
    callbacks: seq<nat -> real>)

  /** The call apply made, its result, and the state of the shared
      evaluator afterwards. */
  datatype Fit = Fit(call: SolverCall, result: LevMarFitterResult, evaluator: Evaluator)

  /** apply (lines 157-189). */
  function Apply(config: FitterConfig, evaluator: Evaluator, solve: SolverCall -> SolverOutput): (fit: Fit)
    ensures fit.call.parameters == Pack(evaluator.linear, evaluator.nonlinear)
    ensures fit.call.data == evaluator.weightedData
    ensures fit.call.itmax == config.iterationMax
    ensures fit.call.analytic == config.doAnalyticJacobian
    ensures |fit.call.opts| == 5
    ensures fit.call.opts[..4] == [config.tau, config.gradientEpsilon, config.parameterEpsilon, config.residualEpsilon]
    ensures fit.call.opts[4] == if config.doAnalyticJacobian then 0.0 else config.delta
    ensures fit.call.adapter.dirty && fit.call.adapter.evaluator == evaluator
    ensures |fit.result.parameters| == evaluator.ParameterCount()
    ensures fit.result.covariance.Wf()
    ensures fit.result.covariance.cols == fit.result.covariance.Rows() == evaluator.ParameterCount()
    ensures fit.result.model == evaluator.model
    ensures var out := solve(fit.call);
      fit.result.termination == TerminationOf(TruncateToInt(out.info[6])) && fit.result.chisqFinal == out.info[1]
    ensures forall i :: 0 <= i < |fit.result.parameters| ==> fit.result.parameters[i] == solve(fit.call).parameterAt(i)
    ensures forall i, j :: 0 <= i < fit.result.covariance.Rows() && 0 <= j < fit.result.covariance.cols ==>
      fit.result.covariance.data[i][j] == solve(fit.call).covarianceAt(i, j)
    ensures fit.result == NewResult(solve(fit.call).info, evaluator.model, fit.result.parameters, fit.result.covariance)
    ensures fit.evaluator == AfterCallbacks(evaluator, solve(fit.call).callbacks)
  {
    var parameters := Pack(evaluator.linear, evaluator.nonlinear);
    var m := |parameters|;
    var call := SolverCall(config.doAnalyticJacobian, parameters, evaluator.weightedData,
                           config.iterationMax, Options(config), NewLevMarFunction(evaluator));
    var out := solve(call);
    var finalParameters := seq(m, i requires 0 <= i < m => out.parameterAt(i));
    var covariance := Matrix(m, seq(m, i requires 0 <= i < m => seq(m, j requires 0 <= j < m => out.covarianceAt(i, j))));
    Fit(call, NewResult(out.info, evaluator.model, finalParameters, covariance), AfterCallbacks(evaluator, out.callbacks))
  }

  /** apply starts the solver where the evaluator stands: its first
      callback at the starting vector leaves the evaluator as it was. */
  lemma ApplyStartsAtCurrent(config: FitterConfig, evaluator: Evaluator, solve: SolverCall -> SolverOutput)
    ensures var call := Apply(config, evaluator, solve).call;
      && Head(call.parameters, |evaluator.linear|) == evaluator.linear
      && Tail(call.parameters, |evaluator.nonlinear|) == evaluator.nonlinear
      && Prepare(call.adapter, call.parameters).evaluator == evaluator
  {
    SplitPack(evaluator.linear, evaluator.nonlinear);
    StartVectorRoundTrip(evaluator);
  }

  /** apply's result records the solver's info array, all but slot 4,
      whenever the count and code slots hold integers. */
  lemma ApplyRecordsInfo(config: FitterConfig, evaluator: Evaluator, solve: SolverCall -> SolverOutput)
    requires forall i :: 5 <= i < 10 ==> Integral(solve(Apply(config, evaluator, solve).call).info[i])
    ensures InfoOf(Apply(config, evaluator, solve).result) == solve(Apply(config, evaluator, solve).call).info[4 := 0.0]
  {
    var fit := Apply(config, evaluator, solve);
    ResultRecordsInfo(solve(fit.call).info, evaluator.model, fit.result.parameters, fit.result.covariance);
  }

  /** What checkDerivatives hands dlevmar_chkjac: the starting vector, its
      length m, the number of pixels n, and the adapter. */
  datatype ChkjacCall = ChkjacCall(parameters: seq<real>, m: nat, n: nat, adapter: LevMarFunction)

  /** What dlevmar_chkjac writes back: the entries of the result buffer,
      and the buffers it handed to the callbacks, in call order. */
  datatype ChkjacOutput = ChkjacOutput(errorAt: nat -> real, callbacks: seq<nat -> real>)

  datatype DerivativeCheck = DerivativeCheck(call: ChkjacCall, errors: seq<real>, evaluator: Evaluator)

  /** checkDerivatives (lines 139-154). */
  function CheckDerivatives(evaluator: Evaluator, chkjac: ChkjacCall -> ChkjacOutput): (r: DerivativeCheck)
    ensures r.call.m == |r.call.parameters| == evaluator.ParameterCount()
    ensures Head(r.call.parameters, |evaluator.linear|) == evaluator.linear
    ensures Tail(r.call.parameters, |evaluator.nonlinear|) == evaluator.nonlinear
    ensures r.call.adapter.dirty && r.call.adapter.evaluator == evaluator
    ensures r.call.n == evaluator.nPixels == |r.errors|
    ensures forall i :: 0 <= i < |r.errors| ==> r.errors[i] == chkjac(r.call).errorAt(i)
    ensures r.evaluator == AfterCallbacks(evaluator, chkjac(r.call).callbacks)
  {
    var parameters := Pack(evaluator.linear, evaluator.nonlinear);
    SplitPack(evaluator.linear, evaluator.nonlinear);
    var call := ChkjacCall(parameters, |parameters|, evaluator.nPixels, NewLevMarFunction(evaluator));
    var out := chkjac(call);
    var errors := seq(evaluator.nPixels, i requires 0 <= i < evaluator.nPixels => out.errorAt(i));
    DerivativeCheck(call, errors, AfterCallbacks(evaluator, out.callbacks))
  }

  /** The vector checkDerivatives checks at is the evaluator's own: its
      split gives back the blocks, packing them gives back the vector, and
      the first callback there leaves the evaluator as it was. */
  lemma CheckDerivativesStartsAtCurrent(evaluator: Evaluator, chkjac: ChkjacCall -> ChkjacOutput)
    ensures var call := CheckDerivatives(evaluator, chkjac).call;
      && Pack(Head(call.parameters, |evaluator.linear|), Tail(call.parameters, |evaluator.nonlinear|)) == call.parameters
      && Prepare(call.adapter, call.parameters).evaluator == evaluator
  {
    var call := CheckDerivatives(evaluator, chkjac).call;
    PackSplit(call.parameters, |evaluator.linear|, |evaluator.nonlinear|);
    StartVectorRoundTrip(evaluator);
  }
}
