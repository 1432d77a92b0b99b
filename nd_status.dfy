/** Result codes of the NetworkDirect v2 wrapper.
    An HRESULT is a signed 32-bit value; it signals failure exactly when it is
    negative (the FAILED macro). The ND_ codes are the NTSTATUS values the
    provider reports, reinterpreted as HRESULTs. */
module NdStatus {

  type HResult = x: int | -0x8000_0000 <= x < 0x8000_0000

  /** Reinterprets an unsigned 32-bit code (as written in the Windows headers)
      as the signed HRESULT the program compares against. */
  function FromBits(u: nat): (hr: HResult)
    requires u < 0x1_0000_0000
    ensures (hr - u) % 0x1_0000_0000 == 0
    ensures hr < 0 <==> u >= 0x8000_0000
  {
    if u < 0x8000_0000 then u else u - 0x1_0000_0000
  }

  const ND_SUCCESS: HResult := 0
  const ND_PENDING: HResult := 0x0000_0103
  const ND_NO_MORE_ENTRIES: HResult := FromBits(0x8000_001A)
  const ND_CANCELED: HResult := FromBits(0xC000_0120)
  const ND_INVALID_ADDRESS: HResult := FromBits(0xC000_0141)
  const E_INVALIDARG: HResult := FromBits(0x8007_0057)
  const E_OUTOFMEMORY: HResult := FromBits(0x8007_000E)

  /** The FAILED macro. */
  predicate Failed(hr: HResult) {
    hr < 0
  }

  /** An asynchronous provider call whose immediate answer is ND_PENDING is
      settled by waiting for its overlapped result; any other immediate
      answer is final. */
  function Settle(posted: HResult, settled: HResult): (hr: HResult)
    ensures posted != ND_PENDING ==> hr == posted
    ensures posted == ND_PENDING ==> hr == settled
    ensures hr == ND_PENDING ==> settled == ND_PENDING
    ensures Failed(hr) ==> Failed(posted) || (posted == ND_PENDING && Failed(settled))
  {
    if posted == ND_PENDING then settled else posted
  }
}
