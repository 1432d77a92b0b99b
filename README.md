# NDSession: a Dafny model of the NetworkDirect v2 session wrapper

This project models the core of a small RDMA library for Windows. The core is
`NDSessionBase` and its server and client specialisations. It wraps one
NetworkDirect v2 (ND2) adapter, together with the adapter's completion queue
(CQ), queue pair (QP), memory region (MR), memory window (MW), connector and
listener. The project also models the pure helpers of the send/receive
performance driver that uses the session.

The model has five modules:

- `NdStatus` (nd_status.dfy): an HRESULT is a signed 32-bit value, and `FAILED`
  means "negative". It also holds the ND and `E_` result codes the session
  compares against. Their numeric values come from the Windows SDK headers
  (`ndstatus.h`, `winerror.h`), which are not part of this model; they are
  written as unsigned 32-bit codes and reinterpreted as signed values.
- `Completions` (completions.dfy): the completion record (`ND2_RESULT`).
  - How `WaitForCompletionAndCheckContext` classifies a record.
  - How `Bind` judges its own completion.
  - How many records `ClearOPs` drains.
- `ScatterGather` (scatter_gather.dfy): `PrepareSge`, written in place on an
  array of scatter-gather entries. It is proved against a closed form of the
  entry count and of the entry layout. Lemmas show that the entries are
  contiguous and cover the buffer exactly.
- `NdSession` (session.dfy): the session, as one `class Session` with a
  `Role` (`Server` or `Client`) instead of two subclasses. Methods available
  to only one role require it.
  - The provider itself is not modelled. Every provider answer the session
    looks at is a parameter of the method that makes the call, always the
    leading parameters. The connector's Disconnect and the memory region's
    Deregister in `DisconnectConnector`, `DeregisterMemory` and `Shutdown`
    have no parameter, because the source discards their results.
  - The completion queue is the field `cq`: the records waiting in it, oldest
    first.
  - The ghost field `trace` records, in order, these calls the session makes
    (`ProviderCall` lists them):
    - the heap allocation and free of the session buffer;
    - registering and deregistering the memory region, and the wait for a
      pending deregistration;
    - binding and invalidating the memory window;
    - the posted receive, send, write and read requests, and the flush;
    - the connection calls: bind, listen, get a connection request, accept,
      connect, complete the connection and disconnect.

    It does not record:
    - `Initialize`'s calls: opening the adapter, the query, the event and the
      overlapped file;
    - the creation of the CQ, QP, MR, MW, connector and listener;
    - polls of the CQ;
    - the waits for overlapped results other than the deregistration's.
      Their answers are parameters that `Settle` combines with the immediate
      answer.
  - The invariant `Valid` keeps three facts:
    - Only a server has a listener.
    - The session's heap buffer is non-null and `m_Buf_Len` bytes long.
    - A buffer is freed only immediately after a deregistration of its
      memory region was requested, or immediately after waiting for that
      request, whatever the request's result.
  - The C++ default arguments are Dafny default parameter values:
    - `bBlocking = true`.
    - `notifyFlag = ND_CQ_NOTIFY_ANY`.
    - A `requestContext` or bind `context` of `nullptr` (context 0).
- `SendRecvPerf` (send_recv_perf.dfy): the performance driver's helpers.
  - The test-size constants.
  - `FormatBytes`, shown to print a decimal number that reads back as a size.
  - The chunked throughput-send loop.
  - The min/max fold over the round-trip times.
  - The command-line dispatch and exit status of `main`.

The model reproduces three quirks of the code exactly as written:

- The four-argument `CreateQP` asks the provider for a receive queue
  `maxReceiveRequestSge` deep. Its `receiveQueueDepth` argument is never used
  (`Session.CreateQPWithLimits`).
- When `RegisterDataBuffer` replaces its buffer and the deregistration is
  pending, it waits for the deregistration's result but never checks it. The
  old buffer is freed whatever that result is.
- The comment beside `NUM_CHUNKS` says 20 chunks, but the constant is
  `THROUGHPUT_TEST_SIZE / CHUNK_SIZE`, which is 32 (`SendRecvPerf.TestSizes`).

Error paths are modelled in the release build, where the `_DEBUG`-only
`abort()` calls are absent. For example, `Connect` goes on to connect after a
failed bind.

## Model

Unless a cell names another file, source paths are relative to the repository root.

| member | source | states |
|---|---|---|
| `Completions.ClassifyCompletion` | include/Win/MyND2Class/src/NDSession.cpp:278-302 | A record is Matched exactly when its status is ND_SUCCESS and its context is the expected one. It is a remote close exactly when the status is ND_CANCELED. Any other non-success status is a failure that carries that status. A successful record for another context is unexpected and carries that context. |
| `Completions.BindReply` | include/Win/MyND2Class/src/NDSession.cpp:95-100 | A bind succeeds exactly when its completion is successful and carries the bind's context, which is exactly when ClassifyCompletion would call it Matched. A successful completion for another context becomes E_INVALIDARG. Every other record is handed back unchanged. |
| `Completions.ClearedCount` | include/Win/MyND2Class/src/NDSession.cpp:319-325 | The drain removes at least one record from a non-empty queue. No record before its last one stops the drain. If it ends before the queue is empty, its last record stops the drain (ND_NO_MORE_ENTRIES or ND_PENDING). If no record stops the drain, the whole queue is drained. |
| `ScatterGather.SgeCount` | include/Win/MyND2Class/src/NDSession.cpp:192-205 | The entry count is at most nSge. It is zero exactly when the buffer or the array is empty. Fewer than nSge entries cover the whole buffer in headerSize pieces. All entries but the last are full headerSize pieces inside the buffer. |
| `ScatterGather.SgeCountUnique` | include/Win/MyND2Class/src/NDSession.cpp:192-205 | Those four properties determine the count: it is the least number of headerSize pieces that covers the buffer, capped at nSge. |
| `ScatterGather.SgeLayoutPrefix` | include/Win/MyND2Class/src/NDSession.cpp:192-200 | The first k entries (k below the count) describe exactly k * headerSize bytes. |
| `ScatterGather.SgeLayoutContiguous` | include/Win/MyND2Class/src/NDSession.cpp:193-198 | Each entry starts where the entries before it end (buffIdx advances by each entry's length). |
| `ScatterGather.SgeLayoutCovers` | include/Win/MyND2Class/src/NDSession.cpp:187-206 | Once the leftover is added to the last entry, the lengths add up to the whole buffer, and every entry lies inside the buffer. |
| `ScatterGather.PrepareSge` | include/Win/MyND2Class/src/NDSession.cpp:187-206 | Returns SgeCount entries, writes exactly the SgeLayout entries into pSge[0..count) in place, and leaves the other slots untouched. |
| `NdStatus.Settle` | include/Win/MyND2Class/src/NDSession.cpp:68-72 | An immediate answer other than ND_PENDING is final. A pending answer is replaced by the overlapped result, so the settled result is ND_PENDING only if the overlapped result is, and it is a failure only if the immediate answer failed or the overlapped result did. |
| `NdSession.Zeros` | include/Win/MyND2Class/src/NDSession.cpp:58 | A HEAP_ZERO_MEMORY allocation of n bytes holds n zero bytes. |
| `NdSession.Session.constructor` | include/Win/MyND2Class/src/NDSession.cpp:15-20 | Every handle is null, there is no buffer, m_Buf_Len is 0 and m_MaxPerTransfer has its default of 1500 (declared at NDSession.hpp:34). The CQ and the trace are empty, and the invariant holds. |
| `NdSession.Session.Initialize` | include/Win/MyND2Class/src/NDSession.cpp:130-172 | Returns true exactly when the adapter opens, the query succeeds, the event is created and the overlapped file is created. The adapter stays open exactly when the open and the query both succeed. m_MaxPerTransfer takes the adapter's MaxTransferLength only then. A failed overlapped file closes the event. A failed event leaves the adapter open. |
| `NdSession.Session.CreateCQ` | include/Win/MyND2Class/src/NDSession.cpp:103-106 | Returns the provider's answer. On success the CQ exists and is empty. |
| `NdSession.Session.CreateQP` | include/Win/MyND2Class/src/NDSession.cpp:118-122 | Returns the provider's answer. On success the QP has queueDepth for both queue depths, nSge for both SGE limits, and the given inline size (0 by default). |
| `NdSession.Session.CreateQPWithLimits` | include/Win/MyND2Class/src/NDSession.cpp:124-128 | Returns the provider's answer. On success the QP's receive depth is maxReceiveRequestSge, as written, together with the other three limits and no inline data. |
| `NdSession.Session.CreateMR` | include/Win/MyND2Class/src/NDSession.cpp:36-39 | Returns the provider's answer; the MR exists exactly when that answer is not a failure. |
| `NdSession.Session.CreateMW` | include/Win/MyND2Class/src/NDSession.cpp:75-78 | Returns the provider's answer; the MW exists exactly when that answer is not a failure. |
| `NdSession.Session.CreateConnector` | include/Win/MyND2Class/src/NDSession.cpp:113-116 | Returns the provider's answer; the connector exists exactly when that answer is not a failure. |
| `NdSession.Session.RegisterCallerBuffer` | include/Win/MyND2Class/src/NDSession.cpp:67-73 | Registers the caller's buffer. The result is the overlapped result when the provider answers ND_PENDING, and the immediate answer otherwise. |
| `NdSession.Session.RegisterDataBuffer` | include/Win/MyND2Class/src/NDSession.cpp:41-65 | A held buffer is deregistered first. If that fails at once, the failure code is returned and the buffer and its length are kept. Otherwise: a pending deregistration is waited for; the old buffer is freed; m_Buf_Len takes the new length; a zeroed buffer is allocated and registered. A failed allocation (the heap answers NULL, address 0) gives E_OUTOFMEMORY and no buffer. The trace fixes the order of these calls, and a free always comes right after a deregistration. |
| `NdSession.Session.InvalidateMW` | include/Win/MyND2Class/src/NDSession.cpp:80-83 | Posts the invalidation and returns the provider's answer. |
| `NdSession.Session.WaitForCompletion` | include/Win/MyND2Class/src/NDSession.cpp:256-276 | Consumes at most one record. A waiting record is returned and removed. A non-blocking wait on an empty CQ reports ND_PENDING and changes nothing. |
| `NdSession.Session.WaitForCompletionStatus` | include/Win/MyND2Class/src/NDSession.cpp:304-307 | A blocking wait that consumes one record and returns its status. |
| `NdSession.Session.WaitForCompletionAndCheckContext` | include/Win/MyND2Class/src/NDSession.cpp:278-302 | Consumes exactly one record and returns true exactly when ClassifyCompletion calls it Matched, that is, a successful completion of the expected request. |
| `NdSession.Session.Bind` | include/Win/MyND2Class/src/NDSession.cpp:89-101 | Posts the bind. A posting answer other than ND_SUCCESS is returned as is and consumes nothing. Otherwise one completion is consumed and judged by BindReply. |
| `NdSession.Session.BindOwnBuffer` | include/Win/MyND2Class/src/NDSession.cpp:85-87 | Bind applied to the session's own buffer (address 0 when there is none), with the same outcome. |
| `NdSession.Session.PostReceive` | include/Win/MyND2Class/src/NDSession.cpp:229-232 | Posts a receive with the given entries and context (nullptr by default) and returns the provider's answer. |
| `NdSession.Session.Write` | include/Win/MyND2Class/src/NDSession.cpp:234-237 | Posts an RDMA write of the given entries to remoteAddr under remoteToken, with the given flags and context, and returns the provider's answer. |
| `NdSession.Session.Read` | include/Win/MyND2Class/src/NDSession.cpp:239-242 | Posts an RDMA read from remoteAddr under remoteToken into the given entries, with the given flags and context, and returns the provider's answer. |
| `NdSession.Session.Send` | include/Win/MyND2Class/src/NDSession.cpp:244-247 | Posts a send of the given entries with the given flags and context and returns the provider's answer. |
| `NdSession.Session.FlushQP` | include/Win/MyND2Class/src/NDSession.cpp:309-312 | Asks the provider to flush the QP and returns its answer. |
| `NdSession.Session.ClearOPs` | include/Win/MyND2Class/src/NDSession.cpp:319-325 | Flushes the QP, then removes exactly ClearedCount records from the CQ. That is every record up to and including the first ND_NO_MORE_ENTRIES or ND_PENDING record, or the whole queue when there is none. |
| `NdSession.Session.CheckForOPs` | include/Win/NDSession/include/NDSession.hpp:13-20 | A non-blocking wait. An empty CQ, or a head record carrying ND_PENDING, is reported as no pending operations. Otherwise the head record's request type is reported. At most that one record is consumed. |
| `NdSession.Session.DisconnectConnector` | include/Win/MyND2Class/src/NDSession.cpp:208-213 | Afterwards there is no connector. A disconnect is issued only if there was one. |
| `NdSession.Session.DeregisterMemory` | include/Win/MyND2Class/src/NDSession.cpp:215-217 | Posts the MR deregistration. Its answer is neither checked nor waited for. |
| `NdSession.Session.Shutdown` | include/Win/MyND2Class/src/NDSession.cpp:224-227 | Disconnects the connector if there is one, then posts the MR deregistration. |
| `NdSession.Session.CreateListener` | include/Win/MyND2Class/src/NDSession.cpp:333-336 | Server only. Returns the provider's answer; the listener exists exactly when that answer is not a failure. |
| `NdSession.Session.Listen` | include/Win/MyND2Class/src/NDSession.cpp:338-355 | Server only. A failed bind is returned without listening. Otherwise the listener listens with a backlog of 1 and that answer is returned. |
| `NdSession.Session.GetConnectionRequest` | include/Win/MyND2Class/src/NDSession.cpp:357-363 | Server only. Waits for a connection request; a pending answer is settled by the overlapped result. |
| `NdSession.Session.Accept` | include/Win/MyND2Class/src/NDSession.cpp:365-371 | Server only. Accepts with the given read limits and private data; a pending answer is settled by the overlapped result. |
| `NdSession.Session.Connect` | include/Win/MyND2Class/src/NDSession.cpp:376-410 | Client only. Binds the connector, then always connects with the given read limits and private data (none by default). A failed bind is not acted on in a release build. Returns the connect's settled result. |
| `NdSession.Session.CompleteConnect` | include/Win/MyND2Class/src/NDSession.cpp:412-417 | Client only. Completes the connection; a pending answer is settled by the overlapped result. |
| `SendRecvPerf.TestSizes` | examples/send_recv/send_recv_perf.cpp:16-24 | NUM_CHUNKS is 32 (= maxSge), not the 20 its comment says. The chunks add up to THROUGHPUT_TEST_SIZE. The test buffer holds a whole chunk and is at least 512 MiB. The sizes fit a ULONG and a uint64_t. The round-trip message fits the buffer and at least one round trip is measured. |
| `SendRecvPerf.DecimalDigits` | examples/send_recv/send_recv_perf.cpp:59 | std::to_string of an unsigned value is a non-empty run of decimal digits, with a leading '0' only for zero itself. |
| `SendRecvPerf.DecimalRoundTrip` | examples/send_recv/send_recv_perf.cpp:59 | Reading the printed digits back as a decimal number gives the value. |
| `SendRecvPerf.FormatBytes` | examples/send_recv/send_recv_perf.cpp:49-61 | The printed size is a decimal number followed by "B", with a unit letter or a digit before the "B"; it starts with '0' exactly when the size is 0. |
| `SendRecvPerf.FormatBytesInUnit` | examples/send_recv/send_recv_perf.cpp:49-61 | FormatBytes prints the count of whole units of the largest unit (TB, GB, MB, KB) that does not exceed the value, followed by that unit's suffix, or the byte count followed by "B". |
| `SendRecvPerf.FormatBytesReadsBack` | examples/send_recv/send_recv_perf.cpp:49-61 | Every printed size parses back. Its number is bytes divided (rounding down) by the unit's scale, and the unit is the largest that fits: its scale does not exceed bytes, and bytes is below 1024 of it (except for TB). |
| `SendRecvPerf.FormatBytesCountRange` | examples/send_recv/send_recv_perf.cpp:49-61 | A KB, MB or GB size prints a number from 1 to 1023, a TB size a number of at least 1, and a plain byte count a number below 1024. |
| `SendRecvPerf.FormatBytesSmall` | examples/send_recv/send_recv_perf.cpp:58-60 | Below 1024 the byte count itself is printed, followed by "B". |
| `SendRecvPerf.ChunkSends` | examples/send_recv/send_recv_perf.cpp:184-201 | A chunk goes out in the fewest sends of at most bufferSize bytes that can cover it: that many sends cover the chunk, one fewer would not. |
| `SendRecvPerf.ChunkSendsCover` | examples/send_recv/send_recv_perf.cpp:184-201 | The sends of one chunk add up to the chunk. Every send is positive and fits the buffer, and all but the last fill it. |
| `SendRecvPerf.PerfChunkIsOneSend` | examples/send_recv/send_recv_perf.cpp:185 | With the driver's sizes, every chunk goes out in a single send of CHUNK_SIZE bytes. |
| `SendRecvPerf.ThroughputSends` | examples/send_recv/send_recv_perf.cpp:180-204 | The loop sends every one of numChunks chunks as ChunkSends describes, and totalSent ends at numChunks * chunkSize. |
| `SendRecvPerf.RttMinMax` | examples/send_recv/send_recv_perf.cpp:461-469 | Every measurement lies between the minimum and the maximum. For a non-empty list both are measurements; for an empty one they stay UINT64_MAX and 0. |
| `SendRecvPerf.Dispatch` | examples/send_recv/send_recv_perf.cpp:531-547 | The server runs exactly for "-s" with exactly 3 arguments, on argv[2]. The client runs exactly for "-c" with exactly 4 arguments, on argv[2] and argv[3]. Anything else shows the usage. |
| `SendRecvPerf.MainExitCode` | examples/send_recv/send_recv_perf.cpp:531-584 | main exits with 1 exactly when it shows the usage or WSAStartup or NdStartup fails, and with 0 otherwise, including when the session's setup fails. |

## Left out

- The ND2 provider, the process heap and the OS are outside the model. The answers of the adapter, CQ, QP, MR, MW, connector and listener calls, NdOpenAdapter, HeapAlloc, CreateEvent and GetOverlappedResult are method parameters. The CQ's contents are the field `cq`. HeapFree's result is never looked at by the source, so it is no parameter; nor are the results of the connector's Disconnect (NDSession.cpp:210) and of the memory region's Deregister in DeregisterMemory (NDSession.cpp:216), which the source discards. Notify is only called by WaitForEventNotification, which is left out (below).
- The Create rows (CreateCQ, CreateQP, CreateMR, CreateMW, CreateConnector, CreateListener) and `Session.Initialize` (for NdOpenAdapter and CreateOverlappedFile: `adapterOpen` and `adapterFileOpen`) assume the provider's convention that the object exists exactly when its creation does not fail. The source never checks the returned pointer or handle.
- NdSession.Session.WaitForCompletion: a blocking wait on an empty CQ, which loops on event notifications until the provider delivers a record, is not modelled. The method requires a record to be waiting when blocking. The `numRes > 1` abort cannot happen for a one-record request and is left out.
- NdSession.Session.WaitForCompletion: the record returned for a non-blocking wait on an empty CQ specifies only its ND_PENDING status. The source leaves the record's other fields uninitialised.
- NdSession.Session.FlushQP: the canceled completions a flush produces come from the provider, so they are not added to `cq`.
- NdSession.Session.ClearOPs: the model assumes every completion the flush produces is already in `cq` when the drain starts. The flush is asynchronous and the drain does not block, so a completion that arrives after a poll found the CQ empty stays in the CQ; the model does not capture such late completions.
- NdSession.Session.Initialize: WSAStringToAddress parsing and the ND2_ADAPTER_INFO contents are left out; only MaxTransferLength is kept. The ND_INVALID_ADDRESS branch differs from other open failures only in its message.
- GetAdapterInfo is left out. It queries the adapter. On failure it drops the HRESULT and returns a zeroed ND2_ADAPTER_INFO (NDSession.cpp:174-185), and adapter information is not modelled.
- GetResult, Reject and WaitForEventNotification are left out:
  - GetResult is one GetOverlappedResult call whose answer is passed through.
  - Reject is one connector call whose answer is passed through.
  - WaitForEventNotification makes a Notify call, settles it if pending, and discards the result.
- The CreateCQ overload that stores the queue through a caller's pointer is left out. It is the same provider call as `Session.CreateCQ`, writing to another location.
- The destructors and SafeRelease are left out: releasing COM objects and closing handles on teardown.
- The destructor's free of the session buffer (NDSession.cpp:30-33) is left out. It releases the memory region first and frees the buffer without waiting for any deregistration, or with no deregistration at all when a test returns early, so the free-after-deregistration order the model keeps does not cover it.
- All console output (std::cout, std::cerr) is left out, including the message CheckForOPs prints. `OpsReport` stands for that message.
- The client's fixed local port (54322) and the server's TEST_PORT are left out, because addresses are not modelled.
- SendRecvPerf.ThroughputSends: models only the path on which every send succeeds and every completion matches. The source returns from the test at the first failed `Send` or `WaitForCompletionAndCheckContext` (send_recv_perf.cpp:190-197, 337-344), and the model does not capture that early return.
- The other performance-driver code is left out: TestServer/TestClient Setup and Run, the RTT ping-pong choreography, timing with std::chrono, and the floating-point rates and averages (CalculateGbps, CalculateLatencyMicroseconds, the RTT average). It is network I/O and floating point.
- PrintAvailableRdmaAddresses and the other example drivers send_recv.cpp and read_write.cpp are left out. They repeat the same session calls and argument checks.
- rdma.cpp is left out. It is an unfinished sketch of its own connection class written directly over the ND2 interfaces; it does not use the session class, and its main checks no arguments.
- The `_DEBUG` build's abort paths are left out. The release build is modelled.
- Integer widths: DWORD/ULONG counters are unbounded naturals. PrepareSge's arithmetic never exceeds buffSize, so nothing wraps. HRESULTs are signed 32-bit values.
