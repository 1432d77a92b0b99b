/** Completion records read from the completion queue (CQ) and the ways the
    session classifies them. */
module Completions {
  import opened NdStatus

  /** ND2_REQUEST_TYPE: the kind of operation a completion reports on. */
  datatype RequestType = Receive | Send | Bind | Invalidate | Read | Write

  /** An opaque request-context pointer; 0 stands for nullptr. */
  type Context = nat

  const NULL_CONTEXT: Context := 0

  /** The part of an ND2_RESULT this layer reads. */
  datatype Completion = Completion(status: HResult, requestContext: Context, requestType: RequestType)

  /** How WaitForCompletionAndCheckContext judges the record it popped:
      the expected completion, the peer closing the connection (a canceled
      status), any other failed status, or a successful completion of some
      other request. */
  datatype WaitOutcome =
    | Matched
    | RemoteClosed
    | OperationFailed(status: HResult)
    | UnexpectedCompletion(context: Context)

  /** The release-build classification. A canceled status is reported as a
      remote close and any other non-success status as a failure before the
      context is looked at; the context is compared only for successful
      records. */
  function ClassifyCompletion(c: Completion, expected: Context): (o: WaitOutcome)
    ensures o == Matched <==> c.status == ND_SUCCESS && c.requestContext == expected
    ensures o == RemoteClosed <==> c.status == ND_CANCELED
    ensures o.OperationFailed? <==> c.status != ND_SUCCESS && c.status != ND_CANCELED
    ensures o.OperationFailed? ==> o.status == c.status
    ensures o.UnexpectedCompletion? <==> c.status == ND_SUCCESS && c.requestContext != expected
    ensures o.UnexpectedCompletion? ==> o.context == c.requestContext
  {
    if c.status == ND_CANCELED then RemoteClosed
    else if ND_SUCCESS != c.status then OperationFailed(c.status)
    else if expected != c.requestContext then UnexpectedCompletion(c.requestContext)
    else Matched
  }

  /** What Bind hands back (std::variant<HRESULT, ND2_RESULT>): either an
      HRESULT of its own or the completion record of the bind. */
  datatype BindReturn = Immediate(hr: HResult) | Completed(result: Completion)

  /** A bind that completed successfully. */
  predicate BindSucceeded(r: BindReturn) {
    r.Completed? && r.result.status == ND_SUCCESS
  }

  /** Bind's check of its own completion: a successful record for another
      request becomes E_INVALIDARG; every other record is returned as is. */
  function BindReply(c: Completion, context: Context): (r: BindReturn)
    ensures BindSucceeded(r) <==> c.status == ND_SUCCESS && c.requestContext == context
    ensures BindSucceeded(r) <==> ClassifyCompletion(c, context) == Matched
    ensures r.Immediate? ==> r.hr == E_INVALIDARG && c.status == ND_SUCCESS
    ensures r.Completed? ==> r.result == c
  {
    if c.status == ND_SUCCESS && c.requestContext != context then Immediate(E_INVALIDARG)
    else Completed(c)
  }

  /** A status on which ClearOPs stops draining: ND_NO_MORE_ENTRIES, or the
      ND_PENDING that a non-blocking wait reports for an empty CQ. */
  predicate StopsDrain(c: Completion) {
    c.status == ND_NO_MORE_ENTRIES || c.status == ND_PENDING
  }

  /** The number of records ClearOPs removes from a CQ holding cq: every
      record up to and including the first one that stops the drain, or the
      whole queue when none does. */
  function ClearedCount(cq: seq<Completion>): (n: nat)
    ensures n <= |cq|
    ensures cq != [] ==> n > 0
    ensures forall i :: 0 <= i < n - 1 ==> !StopsDrain(cq[i])
    ensures n < |cq| ==> StopsDrain(cq[n - 1])
    ensures (forall i :: 0 <= i < |cq| ==> !StopsDrain(cq[i])) ==> n == |cq|
  {
    if cq == [] then 0
    else if StopsDrain(cq[0]) then 1
    else 1 + ClearedCount(cq[1..])
  }
}
