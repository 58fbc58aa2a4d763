/** Request and response shapes of the Go HTTP API that the Python optimizer talks to. */
module Api {
  import opened Wrappers
  import opened Reports

  datatype EstimateCostRequest = EstimateCostRequest(parameterValues: seq<ParameterValue>)

  datatype EstimateCostResponse = EstimateCostResponse(cost: real, invalidParameterCombination: bool)

  /** The report is a Go pointer, so it may be nil (None). */
  datatype RegisterReportRequest = RegisterReportRequest(report: Option<Report>)

  datatype RegisterReportResponse = RegisterReportResponse
}
