/** The Python wrapper's HTTP client for the Go service. The service itself is an oracle: its
    reply depends on everything it has been sent. */
module WrapperClient {
  import opened Wrappers
  import opened Reports

  const StatusOK: int := 200

  datatype Request =
    | EstimateCostCall(parameterValues: seq<ParameterValue>)
    | RegisterReportCall(report: Report)

  /** The body of a reply: JSON holding the cost fields, other JSON, or text that is not JSON at all
      (the service answers an error with an empty body). */
  datatype ReplyBody = CostBody(cost: real, invalid: bool) | OtherBody | NotJson

  datatype Reply = Reply(status: int, body: ReplyBody)

  /** The JSON decoding error for a body that is not JSON, the ValueError raised for a non-OK status,
      or the KeyError for a body without the cost fields. */
  datatype ClientError = UndecodableBody | InvalidStatusCode(status: int) | MissingCostFields

  /** The remote service: the reply to the latest of the requests it has received so far. */
  type Service = seq<Request> -> Reply

  /** The outcome of a cost request as the client reports it. The body is decoded (to log it) before
      the status is looked at, so a body that is not JSON fails whatever the status. */
  function CostReply(reply: Reply): (r: Result<(real, bool), ClientError>)
    ensures r.Success? <==> reply.status == StatusOK && reply.body.CostBody?
    ensures r.Success? ==> r.value == (reply.body.cost, reply.body.invalid)
    ensures reply.body.NotJson? ==> r == Failure(UndecodableBody)
    ensures !reply.body.NotJson? && reply.status != StatusOK ==> r == Failure(InvalidStatusCode(reply.status))
    ensures reply.status == StatusOK && reply.body.OtherBody? ==> r == Failure(MissingCostFields)
  {
    if reply.body.NotJson? then Failure(UndecodableBody)
    else if reply.status != StatusOK then Failure(InvalidStatusCode(reply.status))
    else match reply.body
      case CostBody(cost, invalid) => Success((cost, invalid))
      case OtherBody => Failure(MissingCostFields)
      case NotJson => Failure(UndecodableBody)
  }

  /** An error the service answers with an empty body never reaches the status test: the client
      reports a decoding failure, not the status. */
  lemma EmptyErrorReplyHidesStatus(status: int)
    requires status != StatusOK
    ensures CostReply(Reply(status, NotJson)) == Failure(UndecodableBody)
    ensures CostReply(Reply(status, NotJson)) != Failure(InvalidStatusCode(status))
  {
  }

  /** The outcome of a report registration as the client reports it. */
  function RegisterReply(reply: Reply): (r: Outcome<ClientError>)
    ensures r.Pass? <==> reply.status == StatusOK
    ensures r.Fail? ==> r.error == InvalidStatusCode(reply.status)
  {
    if reply.status != StatusOK then Fail(InvalidStatusCode(reply.status)) else Pass
  }

  class Client {
    /** The base address every request goes to. */
    const urlHead: string
    const service: Service
    /** Every request sent so far, oldest first. */
    var sent: seq<Request>

    constructor (endpoint: string, service: Service)
      ensures urlHead == "http://" + endpoint
      ensures this.service == service && sent == []
    {
      urlHead := "http://" + endpoint;
      this.service := service;
      sent := [];
    }

    method EstimateCost(parameterValues: seq<ParameterValue>) returns (r: Result<(real, bool), ClientError>)
      modifies this`sent
      ensures sent == old(sent) + [EstimateCostCall(parameterValues)]
      ensures r == CostReply(service(sent))
    {
      sent := sent + [EstimateCostCall(parameterValues)];
      r := CostReply(service(sent));
    }

    method RegisterReport(report: Report) returns (r: Outcome<ClientError>)
      modifies this`sent
      ensures sent == old(sent) + [RegisterReportCall(report)]
      ensures r == RegisterReply(service(sent))
    {
      sent := sent + [RegisterReportCall(report)];
      r := RegisterReply(service(sent));
    }
  }
}
