/** The Go-side handler behind the HTTP API: it applies the optimizer's parameter values to the
    service configuration, runs the cost function and keeps the final report. */
module CostEstimation {
  import opened Wrappers
  import opened Seqs
  import opened ParameterDescriptions
  import opened OptimizationSettings
  import opened Reports
  import opened Api
  import opened Numbers

  /** The configuration of the client's service, which the ConfigModifier callbacks write into and
      the cost function reads. It is known by the calls made to it so far, oldest first. */
  class ServiceConfig {
    var applied: seq<ModifierCall>

    constructor ()
      ensures applied == []
    {
      applied := [];
    }
  }

  datatype EstimateError =
    | UnknownParameter(cause: LookupError)
    | CostFunctionFailed
    | TooHighCost(cost: Cost, ceiling: Cost)

  datatype RegisterError = AlreadyRegistered | EmptyReport

  /** Every parameter carries a ConfigModifier. */
  predicate AllHaveModifiers(ps: seq<ParameterDescription>) {
    forall k :: 0 <= k < |ps| ==> ps[k].configModifier.Some?
  }

  /** Validated parameters all carry a ConfigModifier. */
  lemma ValidParametersHaveModifiers(ps: seq<ParameterDescription>)
    requires AllParametersValid(ps)
    ensures AllHaveModifiers(ps)
  {
    forall k | 0 <= k < |ps|
      ensures ps[k].configModifier.Some?
    {
      assert Validate(ps[k]).None?;
    }
  }

  /** A parameter found by name has a ConfigModifier to call when they all do. */
  lemma FoundParameterHasModifier(s: Settings, name: string)
    requires AllHaveModifiers(s.parameters)
    requires GetParameterByName(s, name).Success?
    ensures GetParameterByName(s, name).value.configModifier.Some?
    ensures GetParameterByName(s, name).value.name == name
  {
    var k :| 0 <= k < |s.parameters| && s.parameters[k] == GetParameterByName(s, name).value
      && s.parameters[k].name == name;
  }

  /** The ConfigModifier call that a parameter value with a known name turns into. */
  function CallFor(s: Settings, pv: ParameterValue): ModifierCall
    requires AllHaveModifiers(s.parameters)
    requires GetParameterByName(s, pv.name).Success?
  {
    FoundParameterHasModifier(s, pv.name);
    ModifierCall(GetParameterByName(s, pv.name).value.configModifier.value, pv.value)
  }

  /** Every requested value names some parameter. */
  predicate AllKnown(s: Settings, pvs: seq<ParameterValue>) {
    forall k :: 0 <= k < |pvs| ==> GetParameterByName(s, pvs[k].name).Success?
  }

  /** The calls for a run of parameter values with known names, in request order. */
  function CallsFor(s: Settings, pvs: seq<ParameterValue>): (cs: seq<ModifierCall>)
    requires AllHaveModifiers(s.parameters)
    requires AllKnown(s, pvs)
    ensures |cs| == |pvs|
    ensures forall k :: 0 <= k < |pvs| ==> cs[k] == CallFor(s, pvs[k])
  {
    if pvs == [] then []
    else
      var init := pvs[..|pvs| - 1];
      assert forall k :: 0 <= k < |init| ==> init[k] == pvs[k];
      CallsFor(s, init) + [CallFor(s, pvs[|pvs| - 1])]
  }

  /** Extending a run of known values by one more appends that value's call. */
  lemma CallsForSnoc(s: Settings, pvs: seq<ParameterValue>, i: nat)
    requires AllHaveModifiers(s.parameters)
    requires i < |pvs|
    requires AllKnown(s, pvs[..i]) && GetParameterByName(s, pvs[i].name).Success?
    ensures AllKnown(s, pvs[..i + 1])
    ensures CallsFor(s, pvs[..i + 1]) == CallsFor(s, pvs[..i]) + [CallFor(s, pvs[i])]
  {
    assert pvs[..i + 1][..i] == pvs[..i];
  }

  /** Position of the first requested value whose name no parameter carries. */
  function UnknownAt(s: Settings, pvs: seq<ParameterValue>): (r: Option<nat>)
    ensures r.None? <==> AllKnown(s, pvs)
    ensures r.Some? ==> r.value < |pvs| && GetParameterByName(s, pvs[r.value].name).Failure?
    ensures r.Some? ==> AllKnown(s, pvs[..r.value])
  {
    FirstIndexWhere(pvs, (pv: ParameterValue) => GetParameterByName(s, pv.name).Failure?)
  }

  /** A lookup failure after a run of successes is the first unknown position. */
  lemma UnknownAtFirstFailure(s: Settings, pvs: seq<ParameterValue>, i: nat)
    requires i < |pvs|
    requires AllKnown(s, pvs[..i])
    requires GetParameterByName(s, pvs[i].name).Failure?
    ensures UnknownAt(s, pvs) == Some(i)
  {
  }

  /** The answer to the optimizer once the cost function has produced `out`: other errors fail,
      an invalid combination is reported at the ceiling, and a raw cost at or above the ceiling is refused. */
  function Respond(ceiling: Cost, out: CostOutcome): (r: Result<EstimateCostResponse, EstimateError>)
    ensures out.err == OtherError ==> r == Failure(CostFunctionFailed)
    ensures out.err != OtherError && out.cost >= ceiling ==> r == Failure(TooHighCost(out.cost, ceiling))
    ensures r.Success? <==> out.err != OtherError && out.cost < ceiling
    ensures r.Success? ==> r.value.invalidParameterCombination == (out.err == InvalidParameterCombination)
    ensures r.Success? && r.value.invalidParameterCombination ==> r.value.cost == ceiling
    ensures r.Success? && !r.value.invalidParameterCombination ==> r.value.cost == out.cost < ceiling
  {
    if out.err == OtherError then Failure(CostFunctionFailed)
    else if out.cost >= ceiling then Failure(TooHighCost(out.cost, ceiling))
    else if out.err == InvalidParameterCombination then Success(EstimateCostResponse(ceiling, true))
    else Success(EstimateCostResponse(out.cost, false))
  }

  /** A successful answer never carries a cost above the ceiling, and carries the ceiling itself
      only when it flags an invalid combination or the raw cost was just below it. */
  lemma {:induction false} RespondBelowCeiling(ceiling: Cost, out: CostOutcome)
    requires Respond(ceiling, out).Success?
    ensures Respond(ceiling, out).value.cost <= ceiling
    ensures out.cost < ceiling
  {
  }

  /** An invalid combination reported with cost 0 under a ceiling of 10 is answered with the ceiling,
      whereas one reported with the largest float cost is refused, whatever valid ceiling is configured:
      the raw cost is compared with the ceiling even when the combination is invalid. */
  lemma InvalidCombinationOutcomes(ceiling: Cost)
    requires ceiling < MaxFloat64
    ensures Respond(10.0, CostOutcome(0.0, InvalidParameterCombination)) == Success(EstimateCostResponse(10.0, true))
    ensures Respond(ceiling, CostOutcome(MaxFloat64, InvalidParameterCombination)) ==
      Failure(TooHighCost(MaxFloat64, ceiling))
  {
  }

  class CostEstimator {
    /** Number of cost evaluations the optimizer asked for that got as far as the cost function. */
    var attempts: int
    const settings: Settings
    var finalReport: Option<Report>
    const config: ServiceConfig

    constructor (settings: Settings, config: ServiceConfig)
      ensures this.settings == settings && this.config == config
      ensures attempts == 0 && finalReport.None?
    {
      this.settings := settings;
      this.config := config;
      attempts := 0;
      finalReport := None;
    }

    /** The loop that applies the requested values to the configuration, in request order, stopping
        at the first name that no parameter carries; it reports where it stopped. */
    method ApplyParameterValues(values: seq<ParameterValue>) returns (unknown: Option<nat>)
      requires AllHaveModifiers(settings.parameters)
      modifies config
      ensures unknown == UnknownAt(settings, values)
      ensures unknown.Some? ==> config.applied == old(config.applied) + CallsFor(settings, values[..unknown.value])
      ensures unknown.None? ==> config.applied == old(config.applied) + CallsFor(settings, values)
    {
      var i := 0;
      while i < |values|
        invariant 0 <= i <= |values|
        invariant AllKnown(settings, values[..i])
        invariant config.applied == old(config.applied) + CallsFor(settings, values[..i])
      {
        var pv := values[i];
        var found := GetParameterByName(settings, pv.name);
        if found.Failure? {
          UnknownAtFirstFailure(settings, values, i);
          return Some(i);
        }
        config.applied := config.applied + [CallFor(settings, pv)];
        CallsForSnoc(settings, values, i);
        i := i + 1;
      }
      assert values[..i] == values;
      unknown := None;
    }

    /** Applies every requested value through its parameter's ConfigModifier, in request order,
        then runs the cost function on the configuration that results. */
    method EstimateCost(request: EstimateCostRequest) returns (r: Result<EstimateCostResponse, EstimateError>)
      requires SettingsAcceptable(settings)
      modifies this`attempts, config
      ensures finalReport == old(finalReport)
      ensures UnknownAt(settings, request.parameterValues).Some? ==>
        var n := UnknownAt(settings, request.parameterValues).value;
        && r == Failure(UnknownParameter(ParamDoesNotExist(request.parameterValues[n].name)))
        && attempts == old(attempts)
        && config.applied == old(config.applied) + CallsFor(settings, request.parameterValues[..n])
      ensures UnknownAt(settings, request.parameterValues).None? ==>
        && attempts == old(attempts) + 1
        && config.applied == old(config.applied) + CallsFor(settings, request.parameterValues)
        && r == Respond(settings.invalidParameterCombinationCost, settings.costFunction.value(config.applied))
    {
      ValidParametersHaveModifiers(settings.parameters);
      var unknown := ApplyParameterValues(request.parameterValues);
      if unknown.Some? {
        var name := request.parameterValues[unknown.value].name;
        return Failure(UnknownParameter(ParamDoesNotExist(name)));
      }

      attempts := attempts + 1;
      r := Answer(settings.invalidParameterCombinationCost, settings.costFunction.value(config.applied));
    }

    /** The checks on the cost function's outcome, in the order the service makes them. */
    static method Answer(ceiling: Cost, outcome: CostOutcome) returns (r: Result<EstimateCostResponse, EstimateError>)
      ensures r == Respond(ceiling, outcome)
    {
      var response := EstimateCostResponse(outcome.cost, false);
      if outcome.err != NoError {
        if outcome.err != InvalidParameterCombination {
          r := Failure(CostFunctionFailed);
          return;
        }
        response := EstimateCostResponse(ceiling, true);
      }
      if outcome.cost >= ceiling {
        r := Failure(TooHighCost(outcome.cost, ceiling));
        return;
      }
      r := Success(response);
    }

    /** Accepts the final report once; a second report or a nil one is refused and changes nothing. */
    method RegisterReport(request: RegisterReportRequest) returns (r: Result<RegisterReportResponse, RegisterError>)
      modifies this`finalReport
      ensures old(finalReport).Some? ==> r == Failure(AlreadyRegistered) && finalReport == old(finalReport)
      ensures old(finalReport).None? && request.report.None? ==> r == Failure(EmptyReport) && finalReport.None?
      ensures old(finalReport).None? && request.report.Some? ==>
        r == Success(RegisterReportResponse) && finalReport == request.report
    {
      if finalReport.Some? {
        return Failure(AlreadyRegistered);
      }
      if request.report.None? {
        return Failure(EmptyReport);
      }
      finalReport := request.report;
      r := Success(RegisterReportResponse);
    }
  }
}
