/** NDSessionBase and its server/client specialisations, as one class with a
    role. The provider (adapter, queue pair, memory region, connector,
    listener) is not modelled: each provider call's answer is a parameter of
    the method that makes the call (the leading parameters of each method),
    and the completion queue is the field cq. The ghost field trace records,
    in order, the heap calls, the memory region and window calls, the posted
    requests, the flush and the connection calls (ProviderCall lists them).
    Opening the adapter, creating objects, polling the CQ and the waits for
    overlapped results other than the deregistration's are not recorded. */
module NdSession {
  import opened NdStatus
  import opened Completions
  import opened ScatterGather
  import opened Wrappers

  type Byte = bv8

  /** NDSessionServerBase or NDSessionClientBase. */
  datatype Role = Server | Client

  /** The process-heap buffer m_Buf points to: its address and its bytes. */
  datatype HeapBuffer = HeapBuffer(address: nat, bytes: seq<Byte>)

  /** The arguments CreateQueuePair receives for the queue pair. */
  datatype QpConfig = QpConfig(
    receiveQueueDepth: nat,
    initiatorQueueDepth: nat,
    maxReceiveRequestSge: nat,
    maxInitiatorRequestSge: nat,
    inlineDataSize: nat)

  /** ND_CQ_NOTIFY_ERRORS, ND_CQ_NOTIFY_ANY, ND_CQ_NOTIFY_SOLICITED. */
  datatype NotifyFlag = NotifyErrors | NotifyAny | NotifySolicited

  /** What CheckForOPs reports. */
  datatype OpsReport = NoPendingOperations | PendingOperations(requestType: RequestType)

  /** The calls the session makes into the provider and the process heap. */
  datatype ProviderCall =
    | DeregisterRegion
    | AwaitDeregistration
    | FreeBuffer(address: nat)
    | AllocateBuffer(length: nat)
    | RegisterRegion(address: nat, length: nat, flags: nat)
    | BindWindow(address: nat, length: nat, flags: nat, context: Context)
    | InvalidateWindow
    | ReceiveRequest(sges: seq<Sge>, context: Context)
    | SendRequest(sges: seq<Sge>, flags: nat, context: Context)
    | RemoteRequest(kind: RequestType, sges: seq<Sge>, remoteAddr: nat, remoteToken: nat, flags: nat, context: Context)
    | FlushQueuePair
    | DisconnectConnection
    | BindListener
    | StartListening(backlog: nat)
    | RequestConnection
    | AcceptConnection(inboundReadLimit: nat, outboundReadLimit: nat, privateData: seq<Byte>)
    | BindConnector
    | ConnectTo(inboundReadLimit: nat, outboundReadLimit: nat, privateData: seq<Byte>)
    | CompleteConnection

  /** A buffer is only ever freed immediately after a deregistration of its
      region was requested, or immediately after waiting for that request,
      whatever the request's result. */
  ghost predicate FreeFollowsDeregister(trace: seq<ProviderCall>) {
    forall i :: 0 <= i < |trace| && trace[i].FreeBuffer? ==>
      0 < i && (trace[i - 1] == DeregisterRegion || trace[i - 1] == AwaitDeregistration)
  }

  /** Appending one call keeps that order when the call is not a free, or
      when it is a free that follows a deregistration. */
  lemma AppendKeepsFreeOrder(trace: seq<ProviderCall>, c: ProviderCall)
    requires FreeFollowsDeregister(trace)
    requires c.FreeBuffer? ==> trace != [] && (trace[|trace| - 1] == DeregisterRegion || trace[|trace| - 1] == AwaitDeregistration)
    ensures FreeFollowsDeregister(trace + [c])
  {
  }

  /** A heap allocation of n bytes with HEAP_ZERO_MEMORY. */
  function Zeros(n: nat): (z: seq<Byte>)
    ensures |z| == n && forall i :: 0 <= i < n ==> z[i] == 0
  {
    seq(n, _ => 0)
  }

  /** The default of m_MaxPerTransfer before the adapter is queried. */
  const DEFAULT_MAX_PER_TRANSFER: nat := 1500

  /** The backlog Listen asks for: one connection request at a time. */
  const LISTEN_BACKLOG: nat := 1

  class Session {
    const role: Role
    var adapterOpen: bool       // m_pAdapter != nullptr
    var eventOpen: bool         // the event in m_Ov.hEvent is open
    var adapterFileOpen: bool   // m_hAdapterFile != nullptr
    var cqCreated: bool         // m_pCq != nullptr
    var qp: Option<QpConfig>    // m_pQp
    var mrCreated: bool         // m_pMr != nullptr
    var mwCreated: bool         // m_pMw != nullptr
    var connectorPresent: bool  // m_pConnector != nullptr
    var listenerPresent: bool   // m_pListen != nullptr (server only)
    var buf: Option<HeapBuffer> // m_Buf
    var bufLen: nat             // m_Buf_Len
    var maxPerTransfer: nat     // m_MaxPerTransfer
    var cq: seq<Completion>     // the records waiting in the completion queue, oldest first
    ghost var trace: seq<ProviderCall>

    ghost predicate Valid()
      reads this
    {
      && (role == Client ==> !listenerPresent)
      && (buf.Some? ==> buf.value.address != 0 && |buf.value.bytes| == bufLen)
      && FreeFollowsDeregister(trace)
    }

    /** The constructors: every handle null, no buffer, m_MaxPerTransfer at
        its default of 1500. */
    constructor (role: Role)
      ensures Valid() && this.role == role
      ensures !adapterOpen && !eventOpen && !adapterFileOpen && !cqCreated && qp.None?
      ensures !mrCreated && !mwCreated && !connectorPresent && !listenerPresent
      ensures buf.None? && bufLen == 0 && maxPerTransfer == DEFAULT_MAX_PER_TRANSFER
      ensures cq == [] && trace == []
    {
      this.role := role;
      adapterOpen, eventOpen, adapterFileOpen := false, false, false;
      cqCreated, qp, mrCreated, mwCreated := false, None, false, false;
      connectorPresent, listenerPresent := false, false;
      buf, bufLen, maxPerTransfer := None, 0, DEFAULT_MAX_PER_TRANSFER;
      cq, trace := [], [];
    }

    /** Initialize: opens the adapter (answer openHr; ND_INVALID_ADDRESS and
        every other failure end it alike), queries it (answer queryHr, which
        on success reports maxTransferLength), creates the event (eventOk)
        and the overlapped file (fileHr). A failed query releases the
        adapter; a failed overlapped file closes the event; a failed event
        leaves the adapter open. */
    method Initialize(openHr: HResult, queryHr: HResult, maxTransferLength: nat, eventOk: bool, fileHr: HResult)
      returns (ok: bool)
      requires Valid()
      modifies this`adapterOpen, this`eventOpen, this`adapterFileOpen, this`maxPerTransfer
      ensures Valid()
      ensures ok <==> !Failed(openHr) && !Failed(queryHr) && eventOk && !Failed(fileHr)
      ensures adapterOpen == (!Failed(openHr) && !Failed(queryHr))
      ensures maxPerTransfer == if adapterOpen then maxTransferLength else old(maxPerTransfer)
      ensures eventOpen == (adapterOpen && eventOk && !Failed(fileHr)) || (!adapterOpen && old(eventOpen))
      ensures adapterFileOpen == (adapterOpen && eventOk && !Failed(fileHr)) || (!(adapterOpen && eventOk) && old(adapterFileOpen))
    {
      if openHr == ND_INVALID_ADDRESS {
        adapterOpen := false;
        return false;
      }
      if Failed(openHr) {
        adapterOpen := false;
        return false;
      }
      adapterOpen := true;
      if Failed(queryHr) {
        adapterOpen := false;
        return false;
      }
      maxPerTransfer := maxTransferLength;
      eventOpen := eventOk;
      if !eventOk {
        return false;
      }
      adapterFileOpen := !Failed(fileHr);
      if Failed(fileHr) {
        eventOpen := false;
        return false;
      }
      return true;
    }

    /** CreateCQ: an empty completion queue on success; the provider's
        answer is returned unchanged. */
    method CreateCQ(hr: HResult, depth: nat) returns (r: HResult)
      requires Valid() && adapterOpen
      modifies this`cqCreated, this`cq
      ensures Valid()
      ensures r == hr && cqCreated == !Failed(hr)
      ensures cqCreated ==> cq == []
    {
      cqCreated := !Failed(hr);
      if cqCreated {
        cq := [];
      }
      r := hr;
    }

    /** CreateQP(queueDepth, nSge, inlineDataSize = 0): the same depth and
        the same SGE limit for both sides of the queue pair. */
    method CreateQP(hr: HResult, queueDepth: nat, nSge: nat, inlineDataSize: nat := 0) returns (r: HResult)
      requires Valid() && adapterOpen
      modifies this`qp
      ensures Valid()
      ensures r == hr
      ensures qp == if Failed(hr) then None else Some(QpConfig(queueDepth, queueDepth, nSge, nSge, inlineDataSize))
    {
      qp := if Failed(hr) then None else Some(QpConfig(queueDepth, queueDepth, nSge, nSge, inlineDataSize));
      r := hr;
    }

    /** CreateQP(receiveQueueDepth, initiatorQueueDepth, maxReceiveRequestSge,
        maxInitiatorRequestSge): as written, the provider is asked for a
        receive queue maxReceiveRequestSge deep; receiveQueueDepth is not
        used. No inline data. */
    method CreateQPWithLimits(hr: HResult, receiveQueueDepth: nat, initiatorQueueDepth: nat,
                              maxReceiveRequestSge: nat, maxInitiatorRequestSge: nat)
      returns (r: HResult)
      requires Valid() && adapterOpen
      modifies this`qp
      ensures Valid()
      ensures r == hr
      ensures !Failed(hr) ==> qp == Some(QpConfig(maxReceiveRequestSge, initiatorQueueDepth,
                                                  maxReceiveRequestSge, maxInitiatorRequestSge, 0))
      ensures Failed(hr) ==> qp.None?
    {
      qp := if Failed(hr) then None
            else Some(QpConfig(maxReceiveRequestSge, initiatorQueueDepth, maxReceiveRequestSge, maxInitiatorRequestSge, 0));
      r := hr;
    }

    /** CreateMR: an unregistered memory region. */
    method CreateMR(hr: HResult) returns (r: HResult)
      requires Valid() && adapterOpen
      modifies this`mrCreated
      ensures Valid()
      ensures r == hr && mrCreated == !Failed(hr)
    {
      mrCreated := !Failed(hr);
      r := hr;
    }

    /** CreateMW: an unbound memory window. */
    method CreateMW(hr: HResult) returns (r: HResult)
      requires Valid() && adapterOpen
      modifies this`mwCreated
      ensures Valid()
      ensures r == hr && mwCreated == !Failed(hr)
    {
      mwCreated := !Failed(hr);
      r := hr;
    }

    /** CreateConnector. */
    method CreateConnector(hr: HResult) returns (r: HResult)
      requires Valid() && adapterOpen
      modifies this`connectorPresent
      ensures Valid()
      ensures r == hr && connectorPresent == !Failed(hr)
    {
      connectorPresent := !Failed(hr);
      r := hr;
    }

    /** RegisterDataBuffer(pBuf, bufferLength, type): registers a buffer the
        caller owns and, if the provider answers ND_PENDING, waits for the
        registration to finish. */
    method RegisterCallerBuffer(regPosted: HResult, regSettled: HResult, pBuf: nat, bufferLength: nat, flags: nat)
      returns (hr: HResult)
      requires Valid() && mrCreated
      modifies this`trace
      ensures Valid()
      ensures hr == Settle(regPosted, regSettled)
      ensures trace == old(trace) + [RegisterRegion(pBuf, bufferLength, flags)]
    {
      trace := trace + [RegisterRegion(pBuf, bufferLength, flags)];
      hr := regPosted;
      if hr == ND_PENDING {
        hr := regSettled;
      }
    }

    /** RegisterDataBuffer(bufferLength, type): replaces the session's own
        buffer by a fresh zeroed one of bufferLength bytes and registers it.
        A buffer already held is deregistered first and freed only then; a
        deregistration that fails at once returns its code and keeps the old
        buffer and length, while one that is pending is waited for and then
        freed whatever its result. The heap answers with the new buffer's
        address, or 0 (NULL), which gives E_OUTOFMEMORY after m_Buf_Len is
        already set. */
    method RegisterDataBuffer(deregPosted: HResult, deregSettled: HResult, allocation: nat,
                              regPosted: HResult, regSettled: HResult, bufferLength: nat, flags: nat)
      returns (hr: HResult)
      requires Valid() && mrCreated
      modifies this`buf, this`bufLen, this`trace
      ensures Valid()
      ensures old(buf).Some? && deregPosted != ND_PENDING && Failed(deregPosted) ==>
        && hr == deregPosted
        && buf == old(buf) && bufLen == old(bufLen)
        && trace == old(trace) + [DeregisterRegion]
      ensures !(old(buf).Some? && deregPosted != ND_PENDING && Failed(deregPosted)) ==>
        && bufLen == bufferLength
        && trace == old(trace)
             + (if old(buf).Some? then
                  [DeregisterRegion]
                  + (if deregPosted == ND_PENDING then [AwaitDeregistration] else [])
                  + [FreeBuffer(old(buf).value.address)]
                else [])
             + [AllocateBuffer(bufferLength)]
             + (if allocation != 0 then [RegisterRegion(allocation, bufferLength, flags)] else [])
        && (allocation == 0 ==> hr == E_OUTOFMEMORY && buf == None)
        && (allocation != 0 ==>
              buf == Some(HeapBuffer(allocation, Zeros(bufferLength)))
              && hr == Settle(regPosted, regSettled))
    {
      // the calls that release the old buffer, as the ensures lists them
      ghost var released := if old(buf).Some? then
                              [DeregisterRegion]
                              + (if deregPosted == ND_PENDING then [AwaitDeregistration] else [])
                              + [FreeBuffer(old(buf).value.address)]
                            else [];
      if buf.Some? {
        AppendKeepsFreeOrder(trace, DeregisterRegion);
        trace := trace + [DeregisterRegion];
        var dr := deregPosted;
        if dr == ND_PENDING {
          AppendKeepsFreeOrder(trace, AwaitDeregistration);
          trace := trace + [AwaitDeregistration];
          dr := deregSettled;  // awaited, but never looked at
        } else if Failed(dr) {
          return dr;
        }
        AppendKeepsFreeOrder(trace, FreeBuffer(buf.value.address));
        trace := trace + [FreeBuffer(buf.value.address)];
        buf := None;
      }
      assert trace == old(trace) + released;

      bufLen := bufferLength;
      AppendKeepsFreeOrder(trace, AllocateBuffer(bufferLength));
      trace := trace + [AllocateBuffer(bufferLength)];
      if allocation == 0 {
        buf := None;
        return E_OUTOFMEMORY;
      }
      buf := Some(HeapBuffer(allocation, Zeros(bufferLength)));

      hr := RegisterCallerBuffer(regPosted, regSettled, allocation, bufLen, flags);
    }

    /** InvalidateMW: posts the invalidation of the memory window. */
    method InvalidateMW(hr: HResult) returns (r: HResult)
      requires Valid() && qp.Some?
      modifies this`trace
      ensures Valid()
      ensures r == hr && trace == old(trace) + [InvalidateWindow]
    {
      trace := trace + [InvalidateWindow];
      r := hr;
    }

    /** WaitForCompletion(notifyFlag, bBlocking = true): takes at most one
        record off the CQ. A record that is there is returned and removed. A
        non-blocking wait on an empty CQ returns a record whose status is
        ND_PENDING (its other fields are left uninitialised by the source)
        and changes nothing. A blocking wait on an empty CQ waits for the
        provider to deliver a record; here it requires that one is there. */
    method WaitForCompletion(notifyFlag: NotifyFlag, bBlocking: bool := true) returns (r: Completion)
      requires Valid() && cqCreated
      requires bBlocking ==> cq != []
      modifies this`cq
      ensures Valid()
      ensures old(cq) == [] ==> r.status == ND_PENDING && cq == old(cq)
      ensures old(cq) != [] ==> r == old(cq)[0] && cq == old(cq)[1..]
    {
      if |cq| >= 1 {
        r := cq[0];
        cq := cq[1..];
      } else {
        // not blocking: the precondition rules out a blocking wait on an empty CQ
        r := Completion(ND_PENDING, NULL_CONTEXT, RequestType.Receive);
      }
    }

    /** WaitForCompletion(): a blocking wait that reports only the status. */
    method WaitForCompletionStatus() returns (hr: HResult)
      requires Valid() && cqCreated && cq != []
      modifies this`cq
      ensures Valid()
      ensures hr == old(cq)[0].status && cq == old(cq)[1..]
    {
      var ndRes := WaitForCompletion(NotifyAny, true);
      hr := ndRes.status;
    }

    /** WaitForCompletionAndCheckContext(expectedContext, notifyFlag =
        ND_CQ_NOTIFY_ANY): a blocking wait that consumes exactly one record
        and reports true only for a successful completion of the expected
        request; a canceled record (the peer closed the connection), any
        other failure and a successful record for another request all give
        false (release build). */
    method WaitForCompletionAndCheckContext(expectedContext: Context, notifyFlag: NotifyFlag := NotifyAny)
      returns (ok: bool)
      requires Valid() && cqCreated && cq != []
      modifies this`cq
      ensures Valid()
      ensures cq == old(cq)[1..]
      ensures ok <==> ClassifyCompletion(old(cq)[0], expectedContext) == Matched
      ensures ok <==> old(cq)[0].status == ND_SUCCESS && old(cq)[0].requestContext == expectedContext
    {
      var ndRes := WaitForCompletion(notifyFlag, true);
      if ndRes.status == ND_CANCELED {
        return false;   // the remote side closed the connection
      }
      if ND_SUCCESS != ndRes.status {
        return false;   // operation failed
      }
      if expectedContext != ndRes.requestContext {
        return false;   // unexpected completion
      }
      return true;
    }

    /** Bind(pBuf, bufferLength, flags, context = nullptr): posts the bind of
        the memory window. An answer other than ND_SUCCESS is returned as is
        and no completion is consumed; otherwise Bind waits for one
        completion and judges it with BindReply. */
    method Bind(qpBindHr: HResult, pBuf: nat, bufferLength: nat, flags: nat, context: Context := NULL_CONTEXT)
      returns (r: BindReturn)
      requires Valid() && qp.Some? && cqCreated
      requires qpBindHr == ND_SUCCESS ==> cq != []
      modifies this`cq, this`trace
      ensures Valid()
      ensures trace == old(trace) + [BindWindow(pBuf, bufferLength, flags, context)]
      ensures qpBindHr != ND_SUCCESS ==> r == Immediate(qpBindHr) && cq == old(cq)
      ensures qpBindHr == ND_SUCCESS ==> r == BindReply(old(cq)[0], context) && cq == old(cq)[1..]
    {
      trace := trace + [BindWindow(pBuf, bufferLength, flags, context)];
      if qpBindHr != ND_SUCCESS {
        return Immediate(qpBindHr);
      }
      var ndRes := WaitForCompletion(NotifyAny, true);
      if ndRes.status == ND_SUCCESS && ndRes.requestContext != context {
        return Immediate(E_INVALIDARG);
      }
      return Completed(ndRes);
    }

    /** Bind(bufferLength, flags, context = nullptr): binds the window to the
        session's own buffer (address 0 when there is none). */
    method BindOwnBuffer(qpBindHr: HResult, bufferLength: nat, flags: nat, context: Context := NULL_CONTEXT)
      returns (r: BindReturn)
      requires Valid() && qp.Some? && cqCreated
      requires qpBindHr == ND_SUCCESS ==> cq != []
      modifies this`cq, this`trace
      ensures Valid()
      ensures trace == old(trace) + [BindWindow(if buf.Some? then buf.value.address else 0, bufferLength, flags, context)]
      ensures qpBindHr != ND_SUCCESS ==> r == Immediate(qpBindHr) && cq == old(cq)
      ensures qpBindHr == ND_SUCCESS ==> r == BindReply(old(cq)[0], context) && cq == old(cq)[1..]
    {
      r := Bind(qpBindHr, if buf.Some? then buf.value.address else 0, bufferLength, flags, context);
    }

    /** PostReceive(sge, nSge, requestContext = nullptr). */
    method PostReceive(hr: HResult, sges: seq<Sge>, requestContext: Context := NULL_CONTEXT) returns (r: HResult)
      requires Valid() && qp.Some?
      modifies this`trace
      ensures Valid()
      ensures r == hr && trace == old(trace) + [ReceiveRequest(sges, requestContext)]
    {
      trace := trace + [ReceiveRequest(sges, requestContext)];
      r := hr;
    }

    /** Send(sge, nSge, flags, requestContext = nullptr). */
    method Send(hr: HResult, sges: seq<Sge>, flags: nat, requestContext: Context := NULL_CONTEXT) returns (r: HResult)
      requires Valid() && qp.Some?
      modifies this`trace
      ensures Valid()
      ensures r == hr && trace == old(trace) + [SendRequest(sges, flags, requestContext)]
    {
      trace := trace + [SendRequest(sges, flags, requestContext)];
      r := hr;
    }

    /** Write(sge, nSge, remoteAddr, remoteToken, flags, requestContext = nullptr). */
    method Write(hr: HResult, sges: seq<Sge>, remoteAddr: nat, remoteToken: nat, flags: nat,
                 requestContext: Context := NULL_CONTEXT)
      returns (r: HResult)
      requires Valid() && qp.Some?
      modifies this`trace
      ensures Valid()
      ensures r == hr && trace == old(trace) + [RemoteRequest(RequestType.Write, sges, remoteAddr, remoteToken, flags, requestContext)]
    {
      trace := trace + [RemoteRequest(RequestType.Write, sges, remoteAddr, remoteToken, flags, requestContext)];
      r := hr;
    }

    /** Read(sge, nSge, remoteAddr, remoteToken, flags, requestContext = nullptr). */
    method Read(hr: HResult, sges: seq<Sge>, remoteAddr: nat, remoteToken: nat, flags: nat,
                requestContext: Context := NULL_CONTEXT)
      returns (r: HResult)
      requires Valid() && qp.Some?
      modifies this`trace
      ensures Valid()
      ensures r == hr && trace == old(trace) + [RemoteRequest(RequestType.Read, sges, remoteAddr, remoteToken, flags, requestContext)]
    {
      trace := trace + [RemoteRequest(RequestType.Read, sges, remoteAddr, remoteToken, flags, requestContext)];
      r := hr;
    }

    /** FlushQP: asks the provider to flush the queue pair. The canceled
        completions it produces reach the CQ through the provider. */
    method FlushQP(hr: HResult) returns (r: HResult)
      requires Valid() && qp.Some?
      modifies this`trace
      ensures Valid()
      ensures r == hr && trace == old(trace) + [FlushQueuePair]
    {
      trace := trace + [FlushQueuePair];
      r := hr;
    }

    /** ClearOPs: flushes the queue pair, then drains the CQ with
        non-blocking waits until one reports ND_NO_MORE_ENTRIES or
        ND_PENDING. Every record up to and including that one is removed; a
        CQ without such a record ends up empty. */
    method ClearOPs(flushHr: HResult)
      requires Valid() && qp.Some? && cqCreated
      modifies this`cq, this`trace
      ensures Valid()
      ensures trace == old(trace) + [FlushQueuePair]
      ensures cq == old(cq)[ClearedCount(old(cq))..]
      ensures (forall i :: 0 <= i < |old(cq)| ==> !StopsDrain(old(cq)[i])) ==> cq == []
    {
      var _ := FlushQP(flushHr);
      ghost var k := 0;
      while true
        invariant Valid() && cqCreated
        invariant trace == old(trace) + [FlushQueuePair]
        invariant k <= |old(cq)| && cq == old(cq)[k..]
        invariant forall i :: 0 <= i < k ==> !StopsDrain(old(cq)[i])
        decreases |cq|
      {
        var result := WaitForCompletion(NotifyAny, false);
        if result.status == ND_NO_MORE_ENTRIES || result.status == ND_PENDING {
          break;
        }
        k := k + 1;
      }
    }

    /** CheckForOPs: a non-blocking wait. It reports no pending operations
        when the CQ was empty (or its head record carries ND_PENDING), and
        otherwise the type of the head record, which it has removed. */
    method CheckForOPs() returns (report: OpsReport)
      requires Valid() && cqCreated
      modifies this`cq
      ensures Valid()
      ensures old(cq) == [] ==> report == NoPendingOperations && cq == old(cq)
      ensures old(cq) != [] ==>
        && cq == old(cq)[1..]
        && report == if old(cq)[0].status == ND_PENDING then NoPendingOperations
                     else PendingOperations(old(cq)[0].requestType)
    {
      var ndRes := WaitForCompletion(NotifyAny, false);
      if ndRes.status != ND_PENDING {
        report := PendingOperations(ndRes.requestType);
      } else {
        report := NoPendingOperations;
      }
    }

    /** DisconnectConnector: disconnects (without waiting) and releases the
        connector if there is one; otherwise does nothing. */
    method DisconnectConnector()
      requires Valid()
      modifies this`connectorPresent, this`trace
      ensures Valid()
      ensures !connectorPresent
      ensures trace == old(trace) + if old(connectorPresent) then [DisconnectConnection] else []
    {
      if connectorPresent {
        trace := trace + [DisconnectConnection];
        connectorPresent := false;
      }
    }

    /** DeregisterMemory: posts the deregistration of the memory region; its
        answer is neither checked nor waited for. */
    method DeregisterMemory()
      requires Valid() && mrCreated
      modifies this`trace
      ensures Valid()
      ensures trace == old(trace) + [DeregisterRegion]
    {
      trace := trace + [DeregisterRegion];
    }

    /** Shutdown: DisconnectConnector, then DeregisterMemory. The connector
        is gone afterwards and a deregistration is always posted. */
    method Shutdown()
      requires Valid() && mrCreated
      modifies this`connectorPresent, this`trace
      ensures Valid()
      ensures !connectorPresent
      ensures trace == old(trace) + (if old(connectorPresent) then [DisconnectConnection] else []) + [DeregisterRegion]
    {
      DisconnectConnector();
      DeregisterMemory();
    }

    /** NDSessionServerBase::CreateListener. */
    method CreateListener(hr: HResult) returns (r: HResult)
      requires Valid() && role == Server && adapterOpen
      modifies this`listenerPresent
      ensures Valid()
      ensures r == hr && listenerPresent == !Failed(hr)
    {
      listenerPresent := !Failed(hr);
      r := hr;
    }

    /** NDSessionServerBase::Listen: binds the listener to the local address
        and, if that did not fail, listens with a backlog of one. */
    method Listen(bindHr: HResult, listenHr: HResult) returns (r: HResult)
      requires Valid() && role == Server && listenerPresent
      modifies this`trace
      ensures Valid()
      ensures Failed(bindHr) ==> r == bindHr && trace == old(trace) + [BindListener]
      ensures !Failed(bindHr) ==> r == listenHr && trace == old(trace) + [BindListener, StartListening(LISTEN_BACKLOG)]
    {
      trace := trace + [BindListener];
      if Failed(bindHr) {
        return bindHr;
      }
      trace := trace + [StartListening(LISTEN_BACKLOG)];
      return listenHr;
    }

    /** NDSessionServerBase::GetConnectionRequest: waits for the next
        inbound request, settled through the overlapped result if pending. */
    method GetConnectionRequest(posted: HResult, settled: HResult) returns (r: HResult)
      requires Valid() && role == Server && listenerPresent
      modifies this`trace
      ensures Valid()
      ensures r == Settle(posted, settled) && trace == old(trace) + [RequestConnection]
    {
      trace := trace + [RequestConnection];
      r := posted;
      if r == ND_PENDING {
        r := settled;
      }
    }

    /** NDSessionServerBase::Accept: accepts the request on the queue pair
        with the given read limits, sending privateData (the cbPrivateData
        bytes at pPrivateData) to the peer. */
    method Accept(posted: HResult, settled: HResult, inboundReadLimit: nat, outboundReadLimit: nat,
                  privateData: seq<Byte>)
      returns (r: HResult)
      requires Valid() && role == Server && connectorPresent && qp.Some?
      modifies this`trace
      ensures Valid()
      ensures r == Settle(posted, settled)
      ensures trace == old(trace) + [AcceptConnection(inboundReadLimit, outboundReadLimit, privateData)]
    {
      trace := trace + [AcceptConnection(inboundReadLimit, outboundReadLimit, privateData)];
      r := posted;
      if r == ND_PENDING {
        r := settled;
      }
    }

    /** NDSessionClientBase::Connect: binds the connector, then connects.
        In a release build a failed bind is not acted on: the connect is
        made anyway and only its result is returned. privateData is sent
        with the request; by default there is none (nullptr, 0 bytes). */
    method Connect(bindPosted: HResult, bindSettled: HResult, connectPosted: HResult, connectSettled: HResult,
                   inboundReadLimit: nat, outboundReadLimit: nat, privateData: seq<Byte> := [])
      returns (r: HResult)
      requires Valid() && role == Client && connectorPresent && qp.Some?
      modifies this`trace
      ensures Valid()
      ensures r == Settle(connectPosted, connectSettled)
      ensures trace == old(trace) + [BindConnector, ConnectTo(inboundReadLimit, outboundReadLimit, privateData)]
    {
      trace := trace + [BindConnector];
      var hr := bindPosted;
      if hr == ND_PENDING {
        hr := bindSettled;
      }
      trace := trace + [ConnectTo(inboundReadLimit, outboundReadLimit, privateData)];
      hr := connectPosted;
      if hr == ND_PENDING {
        hr := connectSettled;
      }
      r := hr;
    }

    /** NDSessionClientBase::CompleteConnect. */
    method CompleteConnect(posted: HResult, settled: HResult) returns (r: HResult)
      requires Valid() && role == Client && connectorPresent
      modifies this`trace
      ensures Valid()
      ensures r == Settle(posted, settled) && trace == old(trace) + [CompleteConnection]
    {
      trace := trace + [CompleteConnection];
      r := posted;
      if r == ND_PENDING {
        r := settled;
      }
    }
  }
}
