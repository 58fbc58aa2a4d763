/** The final report of an optimization run and its parameter values. Both sides of the
    system exchange this record as JSON, so the Go and the Python declarations share one shape. */
module Reports {
  import opened Wrappers
  import opened Seqs

  datatype ParameterValue = ParameterValue(name: string, value: int)

  datatype Report = Report(
    cost: real,
    optimum: seq<ParameterValue>,
    iterations: int,
    evaluations: int,
    fastEvaluations: int)

  /** Python's ValueError raised by `optimum_argument`. */
  datatype ReportError = UnexpectedName(name: string)

  /** No two entries of the optimum carry the same name. */
  predicate UniqueNames(pvs: seq<ParameterValue>) {
    forall i, j :: 0 <= i < j < |pvs| ==> pvs[i].name != pvs[j].name
  }

  /** The value of the first optimum entry named `name`, or an error when none is. */
  function OptimumArgument(report: Report, name: string): (r: Result<int, ReportError>)
    ensures r.Failure? <==> forall k :: 0 <= k < |report.optimum| ==> report.optimum[k].name != name
    ensures r.Failure? ==> r.error == UnexpectedName(name)
    ensures r.Success? ==>
      exists k :: 0 <= k < |report.optimum| && report.optimum[k] == ParameterValue(name, r.value)
        && forall j :: 0 <= j < k ==> report.optimum[j].name != name
  {
    match FirstIndexWhere(report.optimum, (pv: ParameterValue) => pv.name == name)
    case Some(k) => Success(report.optimum[k].value)
    case None => Failure(UnexpectedName(name))
  }

  /** With unique names every optimum entry is found by its own name. */
  lemma {:induction false} OptimumArgumentOfEachEntry(report: Report, k: nat)
    requires UniqueNames(report.optimum)
    requires k < |report.optimum|
    ensures OptimumArgument(report, report.optimum[k].name) == Success(report.optimum[k].value)
  {
    var r := OptimumArgument(report, report.optimum[k].name);
    var i :| 0 <= i < |report.optimum| && report.optimum[i] == ParameterValue(report.optimum[k].name, r.value)
      && forall j :: 0 <= j < i ==> report.optimum[j].name != report.optimum[k].name;
    if i < k {
      assert report.optimum[i].name != report.optimum[k].name;
    }
  }
}
