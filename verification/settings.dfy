/** What and how to optimize on the Go side: the settings record, its validation and the parameter lookup. */
module OptimizationSettings {
  import opened Wrappers
  import opened Seqs
  import opened Numbers
  import opened ParameterDescriptions

  /** The value a cost function reports; lower is better. */
  type Cost = real

  /** The error a cost function may return beside its cost (matched with errors.Is). */
  datatype CostError = NoError | InvalidParameterCombination | OtherError

  datatype CostOutcome = CostOutcome(cost: Cost, err: CostError)

  /** The client's cost function. It reads the service configuration, which is known here
      by the ConfigModifier calls made so far, in order. */
  type CostFunction = seq<ModifierCall> -> CostOutcome

  /** Go's `type InitStrategy int8`: any 8-bit value is representable, five are named. */
  newtype InitStrategy = x: int | -128 <= x < 128

  const LHDMaximin: InitStrategy := 0
  const LHDCorr: InitStrategy := 1
  const AllCorners: InitStrategy := 2
  const LowerCorners: InitStrategy := 3
  const RandCorners: InitStrategy := 4

  datatype MarshalError = UnknownInitStrategy(strategy: InitStrategy)

  /** A JSON string literal (section 7 of RFC 8259) with no escapes: quotes around characters
      that are neither a quotation mark, a reverse solidus nor a control character. */
  predicate IsPlainJsonString(s: string) {
    && |s| >= 2 && s[0] == '"' && s[|s| - 1] == '"'
    && forall i :: 0 < i < |s| - 1 ==> s[i] != '"' && s[i] != '\\' && s[i] >= ' '
  }

  function MarshalJSON(s: InitStrategy): (r: Result<string, MarshalError>)
    ensures r.Failure? <==> !(LHDMaximin <= s <= RandCorners)
    ensures r.Failure? ==> r.error == UnknownInitStrategy(s)
    ensures r.Success? ==> IsPlainJsonString(r.value)
  {
    match s
    case 0 => Success("\"lhd_maximin\"")
    case 1 => Success("\"lhd_corr\"")
    case 2 => Success("\"all_corners\"")
    case 3 => Success("\"lower_corners\"")
    case 4 => Success("\"rand_corners\"")
    case _ => Failure(UnknownInitStrategy(s))
  }

  /** The five named strategies marshal to five different strings, so the encoding can be read back. */
  lemma MarshalJSONInjective(a: InitStrategy, b: InitStrategy)
    requires MarshalJSON(a).Success? && MarshalJSON(a) == MarshalJSON(b)
    ensures a == b
  {
    assert "\"lhd_maximin\""[5] != "\"lhd_corr\""[5];
    assert "\"all_corners\""[1] != "\"lower_corners\""[1];
    assert "\"rand_corners\""[1] != "\"lower_corners\""[1];
  }

  datatype Settings = Settings(
    rootDir: string,
    costFunction: Option<CostFunction>,
    parameters: seq<ParameterDescription>,
    maxEvaluations: nat,
    maxIterations: nat,
    invalidParameterCombinationCost: Cost,
    skipInvalidParameterCombinationOnPlots: bool,
    initStrategy: InitStrategy)

  datatype SettingsError =
    | EmptyRootDir
    | EmptyParameters
    | EmptyCostFunction
    | InvalidParameter(name: string, cause: ParameterError)
    | EmptyMaxEvaluations
    | EmptyMaxIterations
    | TooHighInvalidParameterCombinationCost

  /** Every parameter description passes its own validation. */
  predicate AllParametersValid(ps: seq<ParameterDescription>) {
    forall k :: 0 <= k < |ps| ==> Validate(ps[k]).None?
  }

  /** The checks of `ValidateSettings`, in the order they run. */
  predicate SettingsAcceptable(s: Settings) {
    && |s.rootDir| != 0
    && |s.parameters| != 0
    && s.costFunction.Some?
    && AllParametersValid(s.parameters)
    && s.maxEvaluations != 0
    && s.maxIterations != 0
    && s.invalidParameterCombinationCost != MaxFloat64
  }

  /** An ordered chain of checks: the first one that fails decides the error. */
  function ValidateSettings(s: Settings): (r: Option<SettingsError>)
    ensures r.None? <==> SettingsAcceptable(s)
    ensures r == Some(EmptyRootDir) <==> |s.rootDir| == 0
    ensures r == Some(EmptyParameters) <==> |s.rootDir| != 0 && |s.parameters| == 0
    ensures r == Some(EmptyCostFunction) <==> |s.rootDir| != 0 && |s.parameters| != 0 && s.costFunction.None?
    ensures r.Some? && r.value.InvalidParameter? <==>
      |s.rootDir| != 0 && |s.parameters| != 0 && s.costFunction.Some? && !AllParametersValid(s.parameters)
    ensures r.Some? && r.value.InvalidParameter? ==>
      exists k :: 0 <= k < |s.parameters|
        && Validate(s.parameters[k]) == Some(r.value.cause) && r.value.name == s.parameters[k].name
        && forall j :: 0 <= j < k ==> Validate(s.parameters[j]).None?
    ensures r == Some(EmptyMaxEvaluations) <==>
      |s.rootDir| != 0 && |s.parameters| != 0 && s.costFunction.Some? && AllParametersValid(s.parameters)
      && s.maxEvaluations == 0
    ensures r == Some(EmptyMaxIterations) <==>
      |s.rootDir| != 0 && |s.parameters| != 0 && s.costFunction.Some? && AllParametersValid(s.parameters)
      && s.maxEvaluations != 0 && s.maxIterations == 0
    ensures r == Some(TooHighInvalidParameterCombinationCost) <==>
      |s.rootDir| != 0 && |s.parameters| != 0 && s.costFunction.Some? && AllParametersValid(s.parameters)
      && s.maxEvaluations != 0 && s.maxIterations != 0 && s.invalidParameterCombinationCost == MaxFloat64
  {
    if |s.rootDir| == 0 then Some(EmptyRootDir)
    else if |s.parameters| == 0 then Some(EmptyParameters)
    else if s.costFunction.None? then Some(EmptyCostFunction)
    else match FirstIndexWhere(s.parameters, (p: ParameterDescription) => Validate(p).Some?)
      case Some(k) => Some(InvalidParameter(s.parameters[k].name, Validate(s.parameters[k]).value))
      case None =>
        if s.maxEvaluations == 0 then Some(EmptyMaxEvaluations)
        else if s.maxIterations == 0 then Some(EmptyMaxIterations)
        else if s.invalidParameterCombinationCost == MaxFloat64 then Some(TooHighInvalidParameterCombinationCost)
        else None
  }

  datatype LookupError = ParamDoesNotExist(name: string)

  /** A linear search of the parameters by name. */
  function GetParameterByName(s: Settings, name: string): (r: Result<ParameterDescription, LookupError>)
    ensures r.Failure? <==> forall k :: 0 <= k < |s.parameters| ==> s.parameters[k].name != name
    ensures r.Failure? ==> r.error == ParamDoesNotExist(name)
    ensures r.Success? ==>
      exists k :: 0 <= k < |s.parameters| && s.parameters[k] == r.value && r.value.name == name
        && forall j :: 0 <= j < k ==> s.parameters[j].name != name
  {
    match FirstIndexWhere(s.parameters, (p: ParameterDescription) => p.name == name)
    case Some(k) => Success(s.parameters[k])
    case None => Failure(ParamDoesNotExist(name))
  }

  /** With distinct names, looking up the k-th parameter's name finds exactly that parameter. */
  lemma {:induction false} GetParameterByNameFindsEach(s: Settings, k: nat)
    requires k < |s.parameters|
    requires forall i, j :: 0 <= i < j < |s.parameters| ==> s.parameters[i].name != s.parameters[j].name
    ensures GetParameterByName(s, s.parameters[k].name) == Success(s.parameters[k])
  {
    var r := GetParameterByName(s, s.parameters[k].name);
    var i :| 0 <= i < |s.parameters| && s.parameters[i] == r.value && r.value.name == s.parameters[k].name
      && forall j :: 0 <= j < i ==> s.parameters[j].name != s.parameters[k].name;
    if i < k {
      assert s.parameters[i].name != s.parameters[k].name;
    }
  }

  /** The settings both cases of the repository's Go test pass to Optimize: parameters x, y and z bounded
      by 0 and 10, each with its own ConfigModifier, 25 evaluations and iterations, a ceiling of 10,
      and the field defaults elsewhere. The test leaves the root directory unset; `rootDir` says what it holds. */
  function GoTestSettings(rootDir: string, costFunction: CostFunction): Settings {
    Settings(
      rootDir,
      Some(costFunction),
      [ ParameterDescription(Some(Bound(0, 10)), Some(0), "x"),
        ParameterDescription(Some(Bound(0, 10)), Some(1), "y"),
        ParameterDescription(Some(Bound(0, 10)), Some(2), "z") ],
      25, 25, 10.0, false, LHDMaximin)
  }

  /** As written, the test leaves the root directory empty, so validation refuses its settings before
      any evaluation runs. */
  lemma GoTestSettingsRejected(costFunction: CostFunction)
    ensures ValidateSettings(GoTestSettings("", costFunction)) == Some(EmptyRootDir)
  {
  }

  /** With any root directory set, the same settings pass every check. */
  lemma GoTestSettingsWithRootDirAccepted(rootDir: string, costFunction: CostFunction)
    requires rootDir != ""
    ensures ValidateSettings(GoTestSettings(rootDir, costFunction)) == None
  {
  }
}
