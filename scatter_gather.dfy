/** PrepareSge: cutting a registered buffer into scatter-gather entries.
    Addresses are byte addresses; the arithmetic never exceeds the initial
    buffer size, so the source's 32-bit ULONG/DWORD counters cannot wrap. */
module ScatterGather {
  import opened Wrappers

  /** One ND2_SGE: buffer address, length and local memory-region token. */
  datatype Sge = Sge(buffer: nat, bufferLength: nat, memoryRegionToken: nat)

  lemma MulMono(a: nat, b: nat, h: nat)
    requires a <= b
    ensures a * h <= b * h
  {
  }

  /** Ceiling division: q pieces of size h cover n, q - 1 do not. */
  lemma CeilDivBounds(n: nat, h: nat)
    requires n > 0 && h > 0
    ensures (n + h - 1) / h > 0
    ensures (n + h - 1) / h * h >= n
    ensures ((n + h - 1) / h - 1) * h < n
  {
    var q, r := (n + h - 1) / h, (n + h - 1) % h;
    assert n + h - 1 == q * h + r;
    assert (q - 1) * h == q * h - h;
  }

  /** The number of entries PrepareSge fills, in closed form: none for an
      empty buffer or an empty array, otherwise as many headerSize pieces as
      the buffer needs, capped at nSge (a zero headerSize never consumes the
      buffer, so it fills all nSge slots). */
  function SgeCount(nSge: nat, buffSize: nat, headerSize: nat): (count: nat)
    ensures count <= nSge
    ensures count == 0 <==> buffSize == 0 || nSge == 0
    ensures count < nSge ==> count * headerSize >= buffSize
    ensures count > 0 ==> (count - 1) * headerSize < buffSize
  {
    if buffSize == 0 || nSge == 0 then 0
    else if headerSize == 0 then nSge
    else
      var q := (buffSize + headerSize - 1) / headerSize;
      CeilDivBounds(buffSize, headerSize);
      if q <= nSge then q
      else
        MulMono(nSge - 1, q - 1, headerSize);
        nSge
  }

  /** The four properties of SgeCount determine it: the count is the least
      number of slots that consumes the buffer, capped at nSge. */
  lemma SgeCountUnique(nSge: nat, buffSize: nat, headerSize: nat, k: nat)
    requires k <= nSge
    requires k == 0 <==> buffSize == 0 || nSge == 0
    requires k < nSge ==> k * headerSize >= buffSize
    requires k > 0 ==> (k - 1) * headerSize < buffSize
    ensures k == SgeCount(nSge, buffSize, headerSize)
  {
    var c := SgeCount(nSge, buffSize, headerSize);
    if k < c {
      MulMono(k, c - 1, headerSize);
    } else if c < k {
      MulMono(c, k - 1, headerSize);
    }
  }

  /** The entries PrepareSge writes, in closed form: entry i starts
      i * headerSize bytes into the buffer; every entry but the last is
      headerSize long and the last one takes all that is left. */
  function SgeLayout(buff: nat, count: nat, buffSize: nat, headerSize: nat, token: nat): (s: seq<Sge>)
    requires count > 0 ==> (count - 1) * headerSize <= buffSize
    ensures |s| == count
  {
    seq(count, i requires 0 <= i < count =>
      Sge(buff + i * headerSize,
          if i < count - 1 then headerSize else buffSize - (count - 1) * headerSize,
          token))
  }

  /** The number of bytes a list of entries describes. */
  function TotalLength(s: seq<Sge>): nat {
    if s == [] then 0 else TotalLength(s[..|s| - 1]) + s[|s| - 1].bufferLength
  }

  /** k entries of length h describe k * h bytes. */
  lemma {:induction false} UniformPrefixLength(s: seq<Sge>, k: nat, h: nat)
    requires k <= |s|
    requires forall i :: 0 <= i < k ==> s[i].bufferLength == h
    ensures TotalLength(s[..k]) == k * h
  {
    if k > 0 {
      UniformPrefixLength(s, k - 1, h);
      assert s[..k][..k - 1] == s[..k - 1];
      assert (k - 1) * h + h == k * h;
    }
  }

  /** The entries before the last of SgeLayout describe k * headerSize bytes. */
  lemma SgeLayoutPrefix(buff: nat, count: nat, buffSize: nat, headerSize: nat, token: nat, k: nat)
    requires count > 0 && (count - 1) * headerSize <= buffSize
    requires k < count
    ensures TotalLength(SgeLayout(buff, count, buffSize, headerSize, token)[..k]) == k * headerSize
  {
    UniformPrefixLength(SgeLayout(buff, count, buffSize, headerSize, token), k, headerSize);
  }

  /** Entries are contiguous: each starts where the ones before it end. */
  lemma SgeLayoutContiguous(buff: nat, nSge: nat, buffSize: nat, headerSize: nat, token: nat, i: nat)
    requires i < SgeCount(nSge, buffSize, headerSize)
    ensures var s := SgeLayout(buff, SgeCount(nSge, buffSize, headerSize), buffSize, headerSize, token);
            s[i].buffer == buff + TotalLength(s[..i])
  {
    SgeLayoutPrefix(buff, SgeCount(nSge, buffSize, headerSize), buffSize, headerSize, token, i);
  }

  /** The entries describe exactly the buffer: their lengths add up to
      buffSize, and every entry lies inside [buff, buff + buffSize). */
  lemma SgeLayoutCovers(buff: nat, nSge: nat, buffSize: nat, headerSize: nat, token: nat)
    requires SgeCount(nSge, buffSize, headerSize) > 0
    ensures var s := SgeLayout(buff, SgeCount(nSge, buffSize, headerSize), buffSize, headerSize, token);
            && TotalLength(s) == buffSize
            && forall i :: 0 <= i < |s| ==> s[i].buffer + s[i].bufferLength <= buff + buffSize
  {
    var count := SgeCount(nSge, buffSize, headerSize);
    var s := SgeLayout(buff, count, buffSize, headerSize, token);
    SgeLayoutPrefix(buff, count, buffSize, headerSize, token, count - 1);
    assert s[..count][..count - 1] == s[..count - 1];
    assert s[..count] == s;
    forall i | 0 <= i < |s|
      ensures s[i].buffer + s[i].bufferLength <= buff + buffSize
    {
      if i < count - 1 {
        MulMono(i + 1, count - 1, headerSize);
        assert (i + 1) * headerSize == i * headerSize + headerSize;
      }
    }
  }

  /** The bytes left to place after k full-length slots. */
  function Remaining(k: nat, buffSize: nat, headerSize: nat): nat {
    if k * headerSize <= buffSize then buffSize - k * headerSize else 0
  }

  /** The entry the loop of PrepareSge writes into slot j, before the
      leftover is folded into the last slot: it starts j * headerSize bytes
      into the buffer and is as long as the smaller of the bytes left and
      headerSize. */
  function LoopEntry(buff: nat, j: nat, buffSize: nat, headerSize: nat, token: nat): Sge {
    Sge(buff + j * headerSize, Min(Remaining(j, buffSize, headerSize), headerSize), token)
  }

  /** One iteration of the loop of PrepareSge, stated through the bytes
      still to place: slot k's entry starts where the placed bytes end, and
      placing it leaves Remaining(k + 1) bytes. */
  lemma LoopStep(k: nat, buff: nat, buffSize: nat, headerSize: nat, token: nat)
    requires Remaining(k, buffSize, headerSize) > 0
    ensures var r := Remaining(k, buffSize, headerSize);
            && LoopEntry(buff, k, buffSize, headerSize, token) == Sge(buff + (buffSize - r), Min(r, headerSize), token)
            && r - Min(r, headerSize) == Remaining(k + 1, buffSize, headerSize)
  {
    assert (k + 1) * headerSize == k * headerSize + headerSize;
  }

  /** When the loop of PrepareSge stops after k slots, k is SgeCount. */
  lemma LoopExit(nSge: nat, buffSize: nat, headerSize: nat, k: nat)
    requires k <= nSge
    requires k > 0 ==> Remaining(k - 1, buffSize, headerSize) > 0
    requires Remaining(k, buffSize, headerSize) == 0 || k == nSge
    ensures k == SgeCount(nSge, buffSize, headerSize)
  {
    SgeCountUnique(nSge, buffSize, headerSize, k);
  }

  /** After the loop: the entry in the last filled slot, grown by the
      leftover, is the last entry of SgeLayout; the others are unchanged. */
  lemma LoopResult(buff: nat, count: nat, buffSize: nat, headerSize: nat, token: nat, j: nat)
    requires 0 < count && Remaining(count - 1, buffSize, headerSize) > 0
    requires j < count
    ensures (count - 1) * headerSize <= buffSize
    ensures var e := LoopEntry(buff, j, buffSize, headerSize, token);
            var l := SgeLayout(buff, count, buffSize, headerSize, token)[j];
            if j < count - 1 then e == l
            else e.(bufferLength := e.bufferLength + Remaining(count, buffSize, headerSize)) == l
  {
    MulMono(j, count - 1, headerSize);
    assert (count - 1) * headerSize + headerSize == count * headerSize;
    if j < count - 1 {
      MulMono(j + 1, count - 1, headerSize);
      assert (j + 1) * headerSize == j * headerSize + headerSize;
    }
  }

  /** NDSessionBase::PrepareSge: fills pSge[0..count) in place and returns
      count. The entries are those of SgeLayout and the slots from count on
      keep their old contents. */
  method PrepareSge(pSge: array<Sge>, nSge: nat, buff: nat, buffSize: nat, headerSize: nat, memoryToken: nat)
    returns (count: nat)
    requires nSge <= pSge.Length
    modifies pSge
    ensures count == SgeCount(nSge, buffSize, headerSize)
    ensures pSge[..count] == SgeLayout(buff, count, buffSize, headerSize, memoryToken)
    ensures pSge[count..] == old(pSge[count..])
  {
    var currSge: nat := 0;
    var buffIdx: nat := 0;
    var remaining: nat := buffSize;  // the source counts its buffSize parameter down
    while remaining != 0 && currSge < nSge
      invariant currSge <= nSge
      invariant currSge > 0 ==> Remaining(currSge - 1, buffSize, headerSize) > 0
      invariant remaining == Remaining(currSge, buffSize, headerSize)
      invariant buffIdx + remaining == buffSize
      invariant forall j :: 0 <= j < currSge ==> pSge[j] == LoopEntry(buff, j, buffSize, headerSize, memoryToken)
      invariant forall j :: currSge <= j < pSge.Length ==> pSge[j] == old(pSge[j])
    {
      LoopStep(currSge, buff, buffSize, headerSize, memoryToken);
      var currLen := Min(remaining, headerSize);
      pSge[currSge] := Sge(buff + buffIdx, currLen, memoryToken);
      remaining := remaining - currLen;
      buffIdx := buffIdx + currLen;
      currSge := currSge + 1;
    }

    if remaining > 0 && currSge > 0 {
      pSge[currSge - 1] := pSge[currSge - 1].(bufferLength := pSge[currSge - 1].bufferLength + remaining);
    }
    count := currSge;

    LoopExit(nSge, buffSize, headerSize, count);
    forall j | 0 <= j < count
      ensures pSge[j] == SgeLayout(buff, count, buffSize, headerSize, memoryToken)[j]
    {
      LoopResult(buff, count, buffSize, headerSize, memoryToken, j);
    }
  }
}
