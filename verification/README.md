# Naive grid sampler and Levenberg-Marquardt glue of meas_multifit

This project models two pieces of LSST's `meas_multifit` in Dafny and proves what they promise.

**The naive grid sampler** (`src/NaiveGridSampler.cc`) has these parts:

- **`forEachEllipticity`** enumerates ellipticity pairs (e1, e2) on a square grid of step `ellipticityStepSize` inside the circle of radius `maxEllipticity`.
  - It visits the origin first, then the e2 axis, then the columns e1 = ±k·step.
  - Within each column it visits (±e1, 0) and then four-way groups.
- **`CountSamples`** is the functor that counts that enumeration.
- **The constructor** validates its four inputs.
- **`computeSampleSetSize`** returns the count times `nRadiusSteps`.
- **`run`** lays the grid out along a ladder of radii:
  - At radius 0 the objective is evaluated once, and that value is copied to every grid point (the `AddConstantSample` functor).
  - At each rung `maxRadius/(nRadiusSteps-1)·i` the objective is evaluated at every grid point (the `AddNewSample` functor).

**The adapter around the levmar solver** (`src/LevMarFitter.cc`) has these parts:

- **`LevMarFunction`** splits the solver's parameter vector into the evaluator's linear and nonlinear blocks.
  - Its `_dirty` flag decides whether to push the vector into the evaluator.
  - It assembles the Jacobian from the two derivative blocks.
- **The `LevMarFitterResult` constructor** reads the solver's `info` array.
- **`LevMarFitter::apply` and `checkDerivatives`** pack the parameters, choose the options, and pick the analytic or the finite-difference solver.

Modelling choices:

- A grid vertex is its pair of integer step indices (`EllipticityGrid.GridIndex`). Its ellipticity is exactly k·step as a real. The floating-point sum `e += step` is not modelled.
- `for (e = step; e*e < bound; e += step)` becomes `RunLength`, the number of iterations of that loop.
- The enumerator is only defined when those loops stop: `step != 0 || maxEllipticity == 0` (`Terminates`). The constructor accepts a zero step with a positive `maxEllipticity`, and in that case the loops never end (see Findings).
- A functor is a function from an accumulator and a pair to a new accumulator. `forEachEllipticity` is a left fold (`Fold`) over the enumeration.
- The objective is a value: its linear dimension and a total function of the working ellipse.
- `run` also returns the sequence of ellipses it passed to the objective. Claims about the number and arguments of objective calls are stated over that sequence.
- The log proposal density `log(maxRadius·maxEllipticity²·π)` is an input to `Run`.
- The solver routines of levmar are function parameters. `Apply` records the call it makes (routine, starting vector, data, `itmax`, options, adapter), and the solver maps that call to what it writes back.
- The solver's output lists the buffers it passed to the model and Jacobian callbacks, in call order. The shared evaluator after the call is `AfterCallbacks`: those buffers, viewed as vectors of the parameter count, replayed through a fresh adapter (`Replay`).

`checkParams` is modelled as written. The `return` in each of its two loops is not guarded by the `if`, so a call that finds `_dirty` clear would decide after comparing one entry (`CheckParamsReadsOneEntry`, `CheckParamsMissesLaterChange`). That state is never reached: `_dirty` starts true, and `checkParams` returns before clearing it (`DirtyStaysSet`, `ReachableCheckParamsIsHarmless`). So every callback pushes its vector into the evaluator, and the early decision has no effect.

## Model

| member | source | states |
|---|---|---|
| EllipticityGrid.RunLength | src/NaiveGridSampler.cc:41-44 | The loop `for (e = step; e*e < bound; e += step)` runs n times: every k in 1..n passes the guard, k = n+1 fails it, and a nonpositive bound gives zero iterations |
| EllipticityGrid.RunIff | src/NaiveGridSampler.cc:46-50 | Step k ≥ 1 is visited by such a loop if and only if (k·step)² is below the bound |
| EllipticityGrid.GridIndices | src/NaiveGridSampler.cc:34-57 | The enumeration is never empty and its first vertex is the origin, the unconditional first call `f(0, 0)` |
| EllipticityGrid.Ellipticities | src/NaiveGridSampler.cc:34-57 | The pairs passed to the functor are the visited vertices scaled by the step, one per vertex and in the same order, starting with (0, 0) |
| EllipticityGrid.ForEachEllipticity | src/NaiveGridSampler.cc:34-57 | The functor is called first at (0, 0) and then, in order, at every later pair of the enumeration, threading its state through the calls |
| EllipticityGrid.GridIndicesSpec | src/NaiveGridSampler.cc:34-57 | The enumeration starts at the origin, visits exactly the origin and the vertices strictly inside e1² + e2² < maxEllipticity², visits each once in the order (abs k1, abs k2, k2, k1), and every vertex after the first lies inside the circle |
| EllipticityGrid.MemberIff | src/NaiveGridSampler.cc:37-56 | A vertex is visited if and only if it is the origin or lies strictly inside the circle, in both directions |
| EllipticityGrid.GridIndicesIncreasing | src/NaiveGridSampler.cc:39-55 | The origin comes first, then the e2 axis by increasing magnitude (negative before positive), then the columns by increasing abs e1, each with (±e1, 0) before its four-way groups; the visit order is strictly increasing in that key, so nothing is visited twice |
| EllipticityGrid.GridIndicesInside | src/NaiveGridSampler.cc:37-56 | Every vertex emitted after the first satisfies e1² + e2² < maxEllipticity² |
| EllipticityGrid.EllipticitiesInside | src/NaiveGridSampler.cc:37-56 | As values: the first pair is (0, 0), and every later pair has e1² + e2² < maxEllipticity² |
| EllipticityGrid.GridIndicesSymmetric | src/NaiveGridSampler.cc:42-54 | The visited vertex set is closed under negating k1 and under negating k2 |
| EllipticityGrid.EllipticitiesSymmetric | src/NaiveGridSampler.cc:42-54 | The emitted pairs are closed under negating e1 and under negating e2 |
| EllipticityGrid.ZeroMaxEllipticity | src/NaiveGridSampler.cc:39-46 | With maxEllipticity = 0 exactly one pair, the origin, is emitted, for every step |
| EllipticityGrid.CountSamples | src/NaiveGridSampler.cc:59-65 | Folding the `++n` functor over the enumeration from 0 gives its length |
| NaiveGridSampler.NewSampler | src/NaiveGridSampler.cc:120-156 | Construction succeeds exactly when nRadiusSteps ≥ 2 and maxEllipticity, ellipticityStepSize and maxRadius are all ≥ 0; it then stores the inputs unchanged; otherwise the first failing check, in source order, gives InvalidParameter with the source's message |
| NaiveGridSampler.ZeroStepAccepted | src/NaiveGridSampler.cc:144 | The constructor accepts nRadiusSteps 2, step 0 and maxEllipticity 0.5; that sampler is not enumerable, and the axis loop's guard holds at every iteration since the squared ellipticity stays 0 |
| NaiveGridSampler.NewEnumerableSampler | src/NaiveGridSampler.cc:120-156 | The corrected constructor succeeds exactly when the sampler is valid and its loops terminate; it agrees with the source's constructor on every input but a zero step with positive maxEllipticity, which it rejects with its own message |
| NaiveGridSampler.ComputeSampleSetSize | src/NaiveGridSampler.cc:110-118 | The sample-set size is the number of pairs the enumeration emits times nRadiusSteps |
| NaiveGridSampler.AddConstantSample | src/NaiveGridSampler.cc:67-79 | One call sets e1 and e2 of the working point, keeps its radius, joint and proposal, appends it to the samples, and leaves the ellipse and the objective calls alone |
| NaiveGridSampler.AddNewSample | src/NaiveGridSampler.cc:81-105 | One call moves the working ellipse's core to (e1, e2) at the same radius and center, calls the objective once at that ellipse, and appends the point with that pair and the call's value as joint, keeping its radius and proposal |
| NaiveGridSampler.ConstantWalk | src/NaiveGridSampler.cc:67-79 | Over an enumeration, AddConstantSample appends one copy of the working point per pair with only e1 and e2 replaced (same joint, radius and proposal), and makes no objective call |
| NaiveGridSampler.NewWalk | src/NaiveGridSampler.cc:81-105 | Over an enumeration, AddNewSample calls the objective once per pair, at the working radius and that pair, and appends a point carrying that call's value |
| NaiveGridSampler.Run | src/NaiveGridSampler.cc:158-184 | run returns dimensions (3, objective's linearDim) and the radius-major layout: the radius-0 block, then rungs 1..nRadiusSteps-1 in order, each in enumeration order; its objective calls are the zero ellipse once, then each rung's radius at each pair |
| NaiveGridSampler.RunCounts | src/NaiveGridSampler.cc:172-182 | run records exactly computeSampleSetSize samples and calls the objective 1 + (nRadiusSteps-1)·count times |
| NaiveGridSampler.Radius0SampleAt | src/NaiveGridSampler.cc:164-175 | Sample j of the radius-0 block is pair j of the enumeration at radius 0, carrying the objective's value at the zero ellipse |
| NaiveGridSampler.Radius0SharesOneEvaluation | src/NaiveGridSampler.cc:164-175 | All radius-0 samples carry the same joint value, which is the value of the single first objective call at radius 0 |
| NaiveGridSampler.RungSampleAt | src/NaiveGridSampler.cc:176-181 | Sample i·count + j, for rung i ≥ 1, is pair j at radius maxRadius/(nRadiusSteps-1)·i, carrying the objective's value at that (radius, e1, e2) |
| NaiveGridSampler.ProposalShared | src/NaiveGridSampler.cc:163-168 | Every sample carries the one proposal density computed before the loops |
| NaiveGridSampler.RadiusLadder | src/NaiveGridSampler.cc:176-178 | The rung radii start at 0, are monotone in i, stay in [0, maxRadius], and the last rung equals maxRadius |
| NaiveGridSampler.TwoStepScenario | src/NaiveGridSampler.cc:158-184 | With nRadiusSteps = 2 and maxEllipticity = 0, the size is 2 and run returns exactly (0, 0, 0) with the zero-ellipse value and (maxRadius, 0, 0) with its own value |
| LevMarFitter.Pack | src/LevMarFitter.cc:160-164 | The packed vector has length nLinear + nNonlinear, holds the linear parameters first and the nonlinear ones after them |
| LevMarFitter.SplitPack | src/LevMarFitter.cc:32-35 | Taking the first nLinear and the last nNonlinear entries of a packed vector gives back the two blocks |
| LevMarFitter.PackSplit | src/LevMarFitter.cc:43-46 | Packing the two split blocks of a vector of length nLinear + nNonlinear gives the vector back |
| LevMarFitter.NewLevMarFunction | src/LevMarFitter.cc:24-27 | A new adapter starts dirty around the given evaluator, so the first callback with a vector of the right length puts exactly that vector into the evaluator |
| LevMarFitter.CheckParams | src/LevMarFitter.cc:73-92 | checkParams never touches the evaluator, keeps `_dirty` once set, and sets it only when the candidate differs from the current parameters |
| LevMarFitter.CheckParamsReadsOneEntry | src/LevMarFitter.cc:78-89 | With `_dirty` clear, checkParams reads no entry beyond the first: candidates agreeing in entry 0 get the same verdict |
| LevMarFitter.CheckParamsMissesLaterChange | src/LevMarFitter.cc:78-82 | A candidate differing from the current linear parameters only in entry 1 leaves `_dirty` clear |
| LevMarFitter.Prepare | src/LevMarFitter.cc:29-36 | The prologue keeps the block sizes and changes nothing but the evaluator's two parameter blocks; while dirty, the evaluator afterwards holds exactly the candidate vector |
| LevMarFitter.ComputeModel | src/LevMarFitter.cc:29-38 | While dirty, the model image is the evaluator's image at the first nLinear and last nNonlinear entries of the candidate |
| LevMarFitter.AssembleJacobian | src/LevMarFitter.cc:50-52 | The assembled Jacobian keeps the destination's shape; entry (i, j) is lpd(i, j) for j < lpd.cols and npd(i, j - lpd.cols) after that |
| LevMarFitter.AssembleJacobianBlocks | src/LevMarFitter.cc:50-52 | Cutting the assembled Jacobian at column lpd.cols gives back lpd and npd |
| LevMarFitter.ComputeJacobian | src/LevMarFitter.cc:40-53 | computeJacobian keeps the Jacobian's shape; while dirty, its two column blocks are the evaluator's linear and nonlinear derivatives at the split candidate |
| LevMarFitter.DirtyStaysSet | src/LevMarFitter.cc:24-27 | From a dirty adapter, after any sequence of model or Jacobian callbacks `_dirty` is still set and the evaluator holds the last vector passed |
| LevMarFitter.ReachableCheckParamsIsHarmless | src/LevMarFitter.cc:73-75 | On every state reached from the constructor, checkParams returns at once with `_dirty` set |
| LevMarFitter.AfterCallbacksState | src/LevMarFitter.cc:29-53 | After the solver's callbacks the evaluator keeps its block sizes and everything but its two parameter blocks; with no callback it is unchanged, otherwise it holds the last callback's vector |
| LevMarFitter.StartVectorRoundTrip | src/LevMarFitter.cc:24-36 | A callback through a fresh adapter at the packed current parameters leaves the evaluator exactly as it was |
| LevMarFitter.TerminationOf | src/LevMarFitter.cc:103 | The termination value corresponds one to one with the solver's code: its code is the input, and codes 1 to 7 get their named reasons |
| LevMarFitter.TerminationRoundTrip | src/LevMarFitter.cc:103 | Converting a termination value to its code and back gives the same value |
| LevMarFitter.TruncateToInt | src/LevMarFitter.cc:108 | The double-to-int conversion truncates toward zero: the result is within 1 of the input and not farther from 0 |
| LevMarFitter.NewResult | src/LevMarFitter.cc:97-115 | The result stores the model, parameters and covariance it is given, keeps info[0..3] as the chi-squared, gradient and step values, and keeps each of info[5..9] that is integral |
| LevMarFitter.ResultRecordsInfo | src/LevMarFitter.cc:103-111 | termination, chisqInitial, chisqFinal, maxGradient, lastStepNorm, nIterations and the three counts hold info[6], info[0], info[1], info[2], info[3], info[5], info[7], info[8], info[9]; for integral counts the info array is recovered except slot 4 |
| LevMarFitter.ResultIgnoresSlot4 | src/LevMarFitter.cc:103-111 | info[4] does not influence the result |
| LevMarFitter.Options | src/LevMarFitter.cc:170-182 | opts has five entries: tau, gradientEpsilon, parameterEpsilon and residualEpsilon, then delta on the finite-difference path and 0 (the initialiser's default) on the analytic path |
| LevMarFitter.Apply | src/LevMarFitter.cc:157-189 | apply starts the solver at the packed parameters with the weighted data, iterationMax and those options, and passes a fresh dirty adapter; the result's parameters and covariance are the solver's buffers read back (nLinear + nNonlinear entries, a square covariance of that side), its other fields are the result constructor applied to the solver's info and the evaluator's model, and the evaluator afterwards has seen the solver's callbacks in order |
| LevMarFitter.ApplyStartsAtCurrent | src/LevMarFitter.cc:160-167 | The starting vector splits back into the evaluator's linear and nonlinear parameters, and a first callback there leaves the evaluator as it was |
| LevMarFitter.ApplyRecordsInfo | src/LevMarFitter.cc:168-188 | When the solver writes integral counts and code, apply's result gives back its whole info array except slot 4 |
| LevMarFitter.CheckDerivatives | src/LevMarFitter.cc:139-154 | checkDerivatives hands dlevmar_chkjac the packed current parameters with m their count, n the pixel count and a fresh dirty adapter; it returns one value per pixel, as the check writes them, and the evaluator afterwards has seen the check's callbacks in order |
| LevMarFitter.CheckDerivativesStartsAtCurrent | src/LevMarFitter.cc:142-148 | The checked vector splits into the evaluator's blocks and packs back into itself, and a first callback there leaves the evaluator as it was |
## Left out

- Floating point: e1, e2 and the radii are exact reals, so round-off in `e += step` is not modelled. `std::log` and `M_PI` are not modelled either, and `Run` takes the log density as an input.
- The afw ellipse geometry (`scale`, `setE1`, `setE2`, `setRadius`, `getName`) is a plain (radius, e1, e2) record. `run` evaluates the default core scaled by 0, which is taken to be radius 0 with zero ellipticity. The sample set's core name is not modelled.
- Run: requires `step != 0 || maxEllipticity == 0` in addition to the constructor's checks, because with a zero step and a positive maxEllipticity the source's loops do not terminate (see Findings). `NewEnumerableSampler` builds exactly the samplers `Run` accepts.
- Integer width: `nRadiusSteps`, the count and their product are unbounded integers, so overflow of `int` in `computeSampleSetSize` is not modelled.
- NewResult: the three evaluation counts are assumed to be `int` fields, read with the same truncation as `nIterations`. The header declaring them is not part of this model.
- TerminationOf: codes 1 to 7 are assumed to be levmar's stop reasons, in levmar's order. The header declaring the enum is not part of this model.
- Apply: the levmar routines `dlevmar_der`, `dlevmar_dif` and `dlevmar_chkjac` are foreign. They are parameters from the call to what they write back, and their iterations are not modelled. The buffers they hand to the callbacks are part of what they return, and the evaluator afterwards replays them; which vectors they choose, and the values they read back from the callbacks, are not modelled.
- The `LevMarFitter` constructor's policy loading and merging of defaults (src/LevMarFitter.cc:120-137) is not modelled, because it goes through a configuration library. `FitterConfig` holds the merged values.
- The static `func`/`jacf` trampolines (src/LevMarFitter.cc:55-67) only cast the solver's untyped pointer and forward to `computeModel`/`computeJacobian`. They are not modelled separately.
- ComputeJacobian: the `assert` on the column count, and the row count that Eigen's block assignment needs, are preconditions. Release builds do not check them.
- Files outside the two sources above, such as the projection test, the grid `Object` and `SourceComponent` declarations, the sampling interface and `SimpleInterpreter`, are not part of this model.

## Findings

| source | as written | input that shows it | evidently intended | confidence | as-written member | corrected member |
|---|---|---|---|---|---|---|
| src/NaiveGridSampler.cc:144 | The constructor rejects only a negative ellipticityStepSize, so a zero step passes; with maxEllipticity > 0 the guard of the axis loop at line 41 compares 0 with maxEllipticity squared and holds forever, so `run` and `computeSampleSetSize` never return | nRadiusSteps = 2, ellipticityStepSize = 0, maxRadius = 0 or more, maxEllipticity = 0.5 | Reject a zero step unless maxEllipticity is 0 | high; not executed | NaiveGridSampler.ZeroStepAccepted | NaiveGridSampler.NewEnumerableSampler |
