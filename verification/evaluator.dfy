/** The Python wrapper's evaluator: it turns the optimizer's positional vectors into named values,
    asks the Go service for their cost, and keeps the evaluation log and the final report. */
module Evaluation {
  import opened Wrappers
  import opened Numbers
  import opened Seqs
  import opened Reports
  import opened Trials
  import opened WrapperClient

  /** The named parameter values for a positional vector: entry i is named by the i-th parameter
      name and holds `int()` of the i-th raw value. */
  function ParameterValuesOf(names: seq<string>, raw: seq<real>): (pvs: seq<ParameterValue>)
    requires |raw| <= |names|
    ensures |pvs| == |raw|
    ensures forall i :: 0 <= i < |raw| ==> pvs[i].name == names[i] && pvs[i].value == TruncateTowardZero(raw[i])
  {
    if raw == [] then []
    else ParameterValuesOf(names, raw[..|raw| - 1]) + [ParameterValue(names[|raw| - 1], TruncateTowardZero(raw[|raw| - 1]))]
  }

  /** The optimizer proposes integral values for integer parameters; those pass through unchanged. */
  lemma {:induction false} IntegralVectorsConvertExactly(names: seq<string>, raw: seq<real>, i: nat)
    requires |raw| <= |names| && i < |raw|
    requires raw[i] == raw[i].Floor as real
    ensures ParameterValuesOf(names, raw)[i].value as real == raw[i]
  {
    var t := TruncateTowardZero(raw[i]);
    assert ParameterValuesOf(names, raw)[i].value == t;
    var n := raw[i].Floor;
    if raw[i] >= 0.0 {
      assert t as real <= n as real < t as real + 1.0;
    } else {
      assert t as real - 1.0 < n as real <= t as real;
    }
    assert t == n;
  }

  /** The log entry for one evaluation: the raw values under their names, then the cost and the flag,
      which overwrite a parameter of the same name as a utility column. */
  function MakeTrial(names: seq<string>, raw: seq<real>, cost: real, invalid: bool): (t: Trial)
    ensures t.cost == cost && t.invalid == invalid
    ensures CostColumn !in t.parameters && InvalidColumn !in t.parameters
    ensures forall k :: k in t.parameters <==>
      k != CostColumn && k != InvalidColumn && exists i :: 0 <= i < |names| && i < |raw| && names[i] == k
  {
    Trial(ZipToMap(names, raw) - {CostColumn, InvalidColumn}, cost, invalid)
  }

  /** With distinct, non-utility names, the entry holds each raw value, unconverted, under its name. */
  lemma {:induction false} MakeTrialHoldsRawValues(names: seq<string>, raw: seq<real>, cost: real, invalid: bool, i: nat)
    requires Distinct(names)
    requires i < |names| && i < |raw| && names[i] != CostColumn && names[i] != InvalidColumn
    ensures names[i] in MakeTrial(names, raw, cost, invalid).parameters
    ensures MakeTrial(names, raw, cost, invalid).parameters[names[i]] == raw[i]
  {
    ZipToMapAt(names, raw, i);
  }

  /** `dump` needs a report: reading the unset attribute raises AttributeError. */
  datatype DumpError = NoReportRegistered

  class Evaluator {
    const client: Client
    const parameterNames: seq<string>
    /** The evaluation log, in call order. */
    var evaluations: seq<Trial>
    var report: Option<Report>

    constructor (client: Client, parameterNames: seq<string>)
      ensures this.client == client && this.parameterNames == parameterNames
      ensures evaluations == [] && report.None?
    {
      this.client := client;
      this.parameterNames := parameterNames;
      evaluations := [];
      report := None;
    }

    /** Builds the named values by appending one entry per raw value. */
    method ToParameterValues(raw: seq<real>) returns (pvs: seq<ParameterValue>)
      requires |raw| <= |parameterNames|
      ensures pvs == ParameterValuesOf(parameterNames, raw)
    {
      pvs := [];
      var i := 0;
      while i < |raw|
        invariant 0 <= i <= |raw|
        invariant pvs == ParameterValuesOf(parameterNames, raw[..i])
      {
        assert raw[..i + 1][..i] == raw[..i];
        pvs := pvs + [ParameterValue(parameterNames[i], TruncateTowardZero(raw[i]))];
        i := i + 1;
      }
      assert raw[..i] == raw;
    }

    /** Sends the converted values to the service; only once it has answered is one trial appended. */
    method EstimateCost(raw: seq<real>) returns (r: Result<real, ClientError>)
      requires |raw| <= |parameterNames|
      modifies this`evaluations, client`sent
      ensures report == old(report)
      ensures client.sent == old(client.sent) + [EstimateCostCall(ParameterValuesOf(parameterNames, raw))]
      ensures CostReply(client.service(client.sent)).Failure? ==>
        r == Failure(CostReply(client.service(client.sent)).error) && evaluations == old(evaluations)
      ensures CostReply(client.service(client.sent)).Success? ==>
        var (cost, invalid) := CostReply(client.service(client.sent)).value;
        r == Success(cost) && evaluations == old(evaluations) + [MakeTrial(parameterNames, raw, cost, invalid)]
    {
      var parameterValues := ToParameterValues(raw);
      var reply := client.EstimateCost(parameterValues);
      if reply.Failure? {
        return Failure(reply.error);
      }
      var (cost, invalid) := reply.value;
      evaluations := evaluations + [MakeTrial(parameterNames, raw, cost, invalid)];
      r := Success(cost);
    }

    /** Sends the final report; it is kept only once the service has accepted it. */
    method RegisterReport(cost: real, optimum: seq<real>, iterations: int, evaluationCount: int, fastEvaluations: int)
      returns (r: Outcome<ClientError>)
      requires |optimum| <= |parameterNames|
      modifies this`report, client`sent
      ensures evaluations == old(evaluations)
      ensures var built := Report(cost, ParameterValuesOf(parameterNames, optimum), iterations, evaluationCount, fastEvaluations);
        && client.sent == old(client.sent) + [RegisterReportCall(built)]
        && r == RegisterReply(client.service(client.sent))
        && report == (if r.Pass? then Some(built) else old(report))
    {
      var converted := ToParameterValues(optimum);
      var built := Report(cost, converted, iterations, evaluationCount, fastEvaluations);
      r := client.RegisterReport(built);
      if r.Fail? {
        return;
      }
      report := Some(built);
    }

    /** The log in insertion order together with the stored report; fails while no report is stored. */
    method Dump() returns (r: Result<(seq<Trial>, Report), DumpError>)
      ensures report.None? ==> r == Failure(NoReportRegistered)
      ensures report.Some? ==> r == Success((evaluations, report.value))
    {
      if report.None? {
        return Failure(NoReportRegistered);
      }
      r := Success((evaluations, report.value));
    }
  }
}
