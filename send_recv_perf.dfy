/** The pure helpers of the send/receive performance driver: its size
    constants, FormatBytes, the arithmetic of the chunked throughput send,
    the min/max fold over the round-trip times and the command-line
    dispatch of main. */
module SendRecvPerf {
  import opened Wrappers

  type uint64 = x: nat | x < 0x1_0000_0000_0000_0000

  const UINT64_MAX: uint64 := 0xFFFF_FFFF_FFFF_FFFF

  // ---------------------------------------------------------------------
  // Test sizes

  const CHUNK_SIZE: nat := 655350000
  const TEST_BUFFER_SIZE: nat := Max(536870912, CHUNK_SIZE)
  const MAX_SGE: nat := 32
  const THROUGHPUT_TEST_SIZE: nat := CHUNK_SIZE * MAX_SGE
  const NUM_CHUNKS: nat := THROUGHPUT_TEST_SIZE / CHUNK_SIZE
  const RTT_TEST_SIZE: nat := 1
  const RTT_TEST_ITERATIONS: nat := 10

  /** The throughput test moves NUM_CHUNKS chunks of CHUNK_SIZE bytes, and
      there are 32 of them (the comment beside NUM_CHUNKS says 20). The
      buffer holds a whole chunk, and the sizes fit the casts the driver
      makes: ULONG for the buffer and chunk, uint64 for the total. The
      round-trip message fits the buffer, and the round-trip test takes at
      least one measurement, so RttMinMax reports measured values. */
  lemma TestSizes()
    ensures NUM_CHUNKS == MAX_SGE == 32
    ensures RTT_TEST_SIZE <= TEST_BUFFER_SIZE && RTT_TEST_ITERATIONS > 0
    ensures NUM_CHUNKS * CHUNK_SIZE == THROUGHPUT_TEST_SIZE
    ensures TEST_BUFFER_SIZE >= CHUNK_SIZE && TEST_BUFFER_SIZE >= 536870912
    ensures TEST_BUFFER_SIZE < 0x1_0000_0000 && THROUGHPUT_TEST_SIZE <= UINT64_MAX
  {
  }

  // ---------------------------------------------------------------------
  // Decimal digits, as std::to_string prints an unsigned integer

  predicate IsDigit(c: char) {
    '0' <= c <= '9'
  }

  predicate AllDigits(s: string) {
    forall i :: 0 <= i < |s| ==> IsDigit(s[i])
  }

  function DigitChar(d: nat): (c: char)
    requires d < 10
    ensures IsDigit(c)
  {
    ('0' as int + d) as char
  }

  function DigitValue(c: char): (d: nat)
    requires IsDigit(c)
    ensures d < 10 && DigitChar(d) == c
  {
    c as int - '0' as int
  }

  /** std::to_string of an unsigned value: its decimal digits, with no
      leading zero except for 0 itself. */
  function DecimalDigits(n: nat): (s: string)
    ensures |s| >= 1 && AllDigits(s)
    ensures (s[0] == '0') == (n == 0)
    ensures s[0] == '0' ==> |s| == 1
  {
    if n < 10 then [DigitChar(n)] else DecimalDigits(n / 10) + [DigitChar(n % 10)]
  }

  /** Reads a string of decimal digits back as a number. */
  function ParseDecimal(s: string): nat
    requires AllDigits(s)
  {
    if s == [] then 0 else ParseDecimal(s[..|s| - 1]) * 10 + DigitValue(s[|s| - 1])
  }

  lemma {:induction false} DecimalRoundTrip(n: nat)
    ensures ParseDecimal(DecimalDigits(n)) == n
  {
    var s := DecimalDigits(n);
    if n >= 10 {
      DecimalRoundTrip(n / 10);
      assert s[..|s| - 1] == DecimalDigits(n / 10);
    }
  }

  // ---------------------------------------------------------------------
  // FormatBytes

  datatype Unit = B | KB | MB | GB | TB

  function Scale(u: Unit): nat {
    match u
    case B => 1
    case KB => 1024
    case MB => 1024 * 1024
    case GB => 1024 * 1024 * 1024
    case TB => 1024 * 1024 * 1024 * 1024
  }

  function Suffix(u: Unit): string {
    match u
    case B => "B"
    case KB => "KB"
    case MB => "MB"
    case GB => "GB"
    case TB => "TB"
  }

  predicate IsUnitLetter(c: char) {
    c == 'K' || c == 'M' || c == 'G' || c == 'T'
  }

  /** FormatBytes: the number of whole units of the largest unit that fits
      (TB, GB, MB, KB, in that order), or the plain byte count. */
  function FormatBytes(bytes: uint64): (s: string)
    ensures |s| >= 2 && IsDigit(s[0]) && s[|s| - 1] == 'B'
    ensures IsDigit(s[|s| - 2]) || IsUnitLetter(s[|s| - 2])
    ensures (s[0] == '0') == (bytes == 0)
  {
    if bytes >= 1024 * 1024 * 1024 * 1024 then DecimalDigits(bytes / (1024 * 1024 * 1024 * 1024)) + "TB"
    else if bytes >= 1024 * 1024 * 1024 then DecimalDigits(bytes / (1024 * 1024 * 1024)) + "GB"
    else if bytes >= 1024 * 1024 then DecimalDigits(bytes / (1024 * 1024)) + "MB"
    else if bytes >= 1024 then DecimalDigits(bytes / 1024) + "KB"
    else DecimalDigits(bytes) + "B"
  }

  /** A size as FormatBytes prints it: a count of units. */
  datatype Size = Size(count: nat, unit: Unit)

  function UnitOfLetter(c: char): Unit
    requires IsUnitLetter(c)
  {
    if c == 'K' then KB else if c == 'M' then MB else if c == 'G' then GB else TB
  }

  /** Reads a printed size back: digits, then B, KB, MB, GB or TB. */
  function ParseSize(s: string): Option<Size> {
    if |s| >= 2 && s[|s| - 1] == 'B' && IsUnitLetter(s[|s| - 2]) then
      var digits := s[..|s| - 2];
      if digits != [] && AllDigits(digits) then Some(Size(ParseDecimal(digits), UnitOfLetter(s[|s| - 2]))) else None
    else if |s| >= 1 && s[|s| - 1] == 'B' then
      var digits := s[..|s| - 1];
      if digits != [] && AllDigits(digits) then Some(Size(ParseDecimal(digits), B)) else None
    else None
  }

  /** A printed size with a multi-letter suffix parses back. */
  lemma PrintedUnitSizeParses(q: nat, u: Unit)
    requires u != B
    ensures ParseSize(DecimalDigits(q) + Suffix(u)) == Some(Size(q, u))
  {
    var d := DecimalDigits(q);
    var s := d + Suffix(u);
    assert |s| == |d| + 2 && s[|s| - 1] == 'B' && s[|s| - 2] == Suffix(u)[0];
    assert UnitOfLetter(s[|s| - 2]) == u;
    assert s[..|s| - 2] == d;
    DecimalRoundTrip(q);
  }

  /** A printed byte count parses back. */
  lemma PrintedByteCountParses(q: nat)
    ensures ParseSize(DecimalDigits(q) + "B") == Some(Size(q, B))
  {
    var d := DecimalDigits(q);
    var s := d + "B";
    assert |s| == |d| + 1 && s[|s| - 1] == 'B';
    assert |s| >= 2 ==> s[|s| - 2] == d[|d| - 1] && IsDigit(s[|s| - 2]);
    assert s[..|s| - 1] == d;
    DecimalRoundTrip(q);
  }

  lemma PrintedSizeParses(q: nat, u: Unit)
    ensures ParseSize(DecimalDigits(q) + Suffix(u)) == Some(Size(q, u))
  {
    if u == B {
      PrintedByteCountParses(q);
    } else {
      PrintedUnitSizeParses(q, u);
    }
  }

  /** The unit FormatBytes picks for a byte count. */
  function UnitFor(bytes: nat): Unit {
    if bytes >= Scale(TB) then TB else if bytes >= Scale(GB) then GB
    else if bytes >= Scale(MB) then MB else if bytes >= Scale(KB) then KB else B
  }

  lemma FormatBytesInUnit(bytes: uint64)
    ensures FormatBytes(bytes) == DecimalDigits(bytes / Scale(UnitFor(bytes))) + Suffix(UnitFor(bytes))
  {
  }

  /** FormatBytes prints bytes / Scale(u) in the unit u, where u is the
      largest unit whose scale does not exceed bytes (B below 1024). */
  lemma FormatBytesReadsBack(bytes: uint64)
    ensures ParseSize(FormatBytes(bytes)).Some?
    ensures var size := ParseSize(FormatBytes(bytes)).value;
            && size.count == bytes / Scale(size.unit)
            && (size.unit == B || Scale(size.unit) <= bytes)
            && (size.unit == TB || bytes < 1024 * Scale(size.unit))
  {
    var u := UnitFor(bytes);
    FormatBytesInUnit(bytes);
    PrintedSizeParses(bytes / Scale(u), u);
  }

  /** Below 1024 the byte count itself is printed, followed by "B". */
  lemma FormatBytesSmall(bytes: uint64)
    requires bytes < 1024
    ensures FormatBytes(bytes) == DecimalDigits(bytes) + "B"
  {
  }

  /** Every unit below TB prints a number from 1 to 1023; TB, the largest
      unit, prints any number from 1 up. */
  lemma FormatBytesCountRange(bytes: uint64)
    ensures var size := ParseSize(FormatBytes(bytes)).value;
            && (size.unit != B ==> 1 <= size.count)
            && (size.unit != TB ==> size.count < 1024)
  {
    FormatBytesReadsBack(bytes);
    var size := ParseSize(FormatBytes(bytes)).value;
    var sc := Scale(size.unit);
    if size.unit != TB {
      assert bytes < 1024 * sc;
      DivBelow(bytes, sc, 1024);
    }
    if size.unit != B {
      assert sc <= bytes;
    }
  }

  lemma DivBelow(a: nat, d: nat, k: nat)
    requires d > 0 && a < k * d
    ensures a / d < k
  {
  }

  // ---------------------------------------------------------------------
  // The chunked throughput send

  function Sum(s: seq<nat>): nat {
    if s == [] then 0 else s[0] + Sum(s[1..])
  }

  /** The send sizes that move one chunk of chunkSize bytes through a buffer
      of bufferSize bytes: as much as the buffer holds, then the rest. It
      takes the fewest sends of at most bufferSize bytes that can cover the
      chunk. */
  function ChunkSends(chunkSize: nat, bufferSize: nat): (sends: seq<nat>)
    requires bufferSize > 0
    ensures |sends| * bufferSize >= chunkSize
    ensures |sends| > 0 ==> (|sends| - 1) * bufferSize < chunkSize
    decreases chunkSize
  {
    if chunkSize == 0 then []
    else
      var sendSize := Min(bufferSize, chunkSize);
      var rest := ChunkSends(chunkSize - sendSize, bufferSize);
      assert (|rest| + 1) * bufferSize == |rest| * bufferSize + bufferSize;
      [sendSize] + rest
  }

  /** The sends of a chunk add up to the chunk; each is positive and fits
      the buffer, and all but the last fill it. */
  lemma {:induction false} ChunkSendsCover(chunkSize: nat, bufferSize: nat)
    requires bufferSize > 0
    ensures var sends := ChunkSends(chunkSize, bufferSize);
            && Sum(sends) == chunkSize
            && (forall i :: 0 <= i < |sends| ==> 0 < sends[i] <= bufferSize)
            && (forall i :: 0 <= i < |sends| - 1 ==> sends[i] == bufferSize)
    decreases chunkSize
  {
    if chunkSize > 0 {
      ChunkSendsCover(chunkSize - Min(bufferSize, chunkSize), bufferSize);
    }
  }

  /** With the driver's sizes each chunk goes out in a single send. */
  lemma PerfChunkIsOneSend()
    ensures ChunkSends(CHUNK_SIZE, TEST_BUFFER_SIZE) == [CHUNK_SIZE]
  {
  }

  /** The throughput-send loop of TestServer::Run and TestClient::Run
      without the posting and waiting: the sizes sent for every chunk and
      the final totalSent. Every chunk goes out as ChunkSends describes, so
      (ChunkSendsCover) each send fits the buffer and the sends of a chunk
      add up to the chunk. */
  method ThroughputSends(numChunks: nat, chunkSize: nat, bufferSize: nat)
    returns (sends: seq<seq<nat>>, totalSent: nat)
    requires bufferSize > 0
    ensures |sends| == numChunks
    ensures forall c :: 0 <= c < numChunks ==> sends[c] == ChunkSends(chunkSize, bufferSize)
    ensures totalSent == numChunks * chunkSize
  {
    sends, totalSent := [], 0;
    for chunk := 0 to numChunks
      invariant |sends| == chunk
      invariant forall c :: 0 <= c < chunk ==> sends[c] == ChunkSends(chunkSize, bufferSize)
      invariant totalSent == chunk * chunkSize
    {
      ghost var sentBefore := totalSent;
      var chunkSent := 0;
      var pieces := [];
      while chunkSent < chunkSize
        invariant chunkSent <= chunkSize
        invariant pieces + ChunkSends(chunkSize - chunkSent, bufferSize) == ChunkSends(chunkSize, bufferSize)
        invariant totalSent == sentBefore + chunkSent
        decreases chunkSize - chunkSent
      {
        var sendSize := Min(bufferSize, chunkSize - chunkSent);
        assert ChunkSends(chunkSize - chunkSent, bufferSize)
            == [sendSize] + ChunkSends(chunkSize - chunkSent - sendSize, bufferSize);
        pieces := pieces + [sendSize];
        chunkSent := chunkSent + sendSize;
        totalSent := totalSent + sendSize;
      }
      assert pieces + [] == pieces;
      assert chunk * chunkSize + chunkSize == (chunk + 1) * chunkSize;
      sends := sends + [pieces];
    }
  }

  // ---------------------------------------------------------------------
  // Round-trip statistics

  /** The min/max fold over the round-trip measurements, starting from
      UINT64_MAX and 0: every measurement lies between the two results, and
      each result is one of the measurements (the start values when there
      are none). */
  method RttMinMax(rttMeasurements: seq<uint64>) returns (minRtt: uint64, maxRtt: uint64)
    ensures forall i :: 0 <= i < |rttMeasurements| ==> minRtt <= rttMeasurements[i] <= maxRtt
    ensures rttMeasurements != [] ==> minRtt in rttMeasurements && maxRtt in rttMeasurements
    ensures rttMeasurements == [] ==> minRtt == UINT64_MAX && maxRtt == 0
  {
    minRtt, maxRtt := UINT64_MAX, 0;
    for i := 0 to |rttMeasurements|
      invariant forall j :: 0 <= j < i ==> minRtt <= rttMeasurements[j] <= maxRtt
      invariant i > 0 ==> minRtt in rttMeasurements[..i] && maxRtt in rttMeasurements[..i]
      invariant i == 0 ==> minRtt == UINT64_MAX && maxRtt == 0
    {
      var rtt := rttMeasurements[i];
      minRtt := Min(minRtt, rtt);
      maxRtt := Max(maxRtt, rtt);
    }
    assert rttMeasurements[..|rttMeasurements|] == rttMeasurements;
  }

  // ---------------------------------------------------------------------
  // Command line

  /** What main does with its arguments (argv[0] is the program name). */
  datatype Mode = RunServer(localIp: string) | RunClient(localIp: string, serverIp: string) | ShowUsage

  /** main's argument check: "-s <local_ip>" runs the server and
      "-c <local_ip> <server_ip>" the client; anything else shows usage. */
  function Dispatch(argv: seq<string>): (m: Mode)
    ensures m.RunServer? <==> |argv| == 3 && argv[1] == "-s"
    ensures m.RunClient? <==> |argv| == 4 && argv[1] == "-c"
    ensures m.RunServer? ==> m.localIp == argv[2]
    ensures m.RunClient? ==> m.localIp == argv[2] && m.serverIp == argv[3]
  {
    if |argv| < 3 then ShowUsage
    else if argv[1] == "-s" then
      if |argv| != 3 then ShowUsage else RunServer(argv[2])
    else if argv[1] == "-c" then
      if |argv| != 4 then ShowUsage else RunClient(argv[2], argv[3])
    else ShowUsage
  }

  /** main's exit status: 1 after showing usage or when WSAStartup or
      NdStartup fails, 0 otherwise, including when the session's setup
      fails. */
  function MainExitCode(argv: seq<string>, wsaStartupOk: bool, ndStartupOk: bool): (code: int)
    ensures code == 0 || code == 1
    ensures code == 1 <==> Dispatch(argv) == ShowUsage || !wsaStartupOk || !ndStartupOk
  {
    if Dispatch(argv) == ShowUsage then 1
    else if !wsaStartupOk then 1
    else if !ndStartupOk then 1
    else 0
  }
}
