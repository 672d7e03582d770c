/** The running statistics of internal/storage/badger.go, which keep an average instead of a sum,
    and the statistics recomputed from scratch. */
module Statistics {
  import opened Bytes
  import opened KeyOrder
  import opened Messages

  /** A message as it is queued and stored. */
  datatype Record = Record(
    id: nat, timestamp: Nanos, msgType: MsgType, errorCode: Bytes, errorData: Bytes,
    latencyMS: int, sizeBytes: int, tokenEstimate: int, raw: Bytes)

  datatype Stats = Stats(
    totalMessages: nat, totalRequests: nat, totalErrors: nat, avgLatencyMS: real, totalBytes: int, totalTokens: int)

  const ZERO := Stats(0, 0, 0, 0.0, 0, 0)

  // ---------- as the flush computes them ----------

  function Opened(s: Stats): real {
    if s.totalMessages > 0 then s.avgLatencyMS * s.totalMessages as real else 0.0
  }

  /** One message into the statistics and into the running latency sum. */
  function Count(s: Stats, m: Record): Stats {
    s.(totalMessages := s.totalMessages + 1,
       totalRequests := s.totalRequests + (if m.msgType.Request? then 1 else 0),
       totalErrors := s.totalErrors + (if HasError(m.errorData) then 1 else 0),
       totalBytes := s.totalBytes + m.sizeBytes,
       totalTokens := s.totalTokens + m.tokenEstimate)
  }

  function Lengthen(sum: real, m: Record): real { if m.latencyMS > 0 then sum + m.latencyMS as real else sum }

  function Closed(s: Stats, sum: real): Stats {
    if s.totalMessages > 0 then s.(avgLatencyMS := sum / s.totalMessages as real) else s
  }

  function CountAll(s: Stats, ms: seq<Record>): Stats {
    if ms == [] then s else Count(CountAll(s, ms[..|ms| - 1]), ms[|ms| - 1])
  }

  function LengthenAll(sum: real, ms: seq<Record>): real {
    if ms == [] then sum else Lengthen(LengthenAll(sum, ms[..|ms| - 1]), ms[|ms| - 1])
  }

  function Absorb(s: Stats, batch: seq<Record>): Stats { Closed(CountAll(s, batch), LengthenAll(Opened(s), batch)) }

  // ---------- from scratch ----------

  function Requests(ms: seq<Record>): nat {
    if ms == [] then 0 else Requests(ms[..|ms| - 1]) + (if ms[|ms| - 1].msgType.Request? then 1 else 0)
  }

  function Errors(ms: seq<Record>): nat {
    if ms == [] then 0 else Errors(ms[..|ms| - 1]) + (if HasError(ms[|ms| - 1].errorData) then 1 else 0)
  }

  function TotalBytes(ms: seq<Record>): int {
    if ms == [] then 0 else TotalBytes(ms[..|ms| - 1]) + ms[|ms| - 1].sizeBytes
  }

  function TotalTokens(ms: seq<Record>): int {
    if ms == [] then 0 else TotalTokens(ms[..|ms| - 1]) + ms[|ms| - 1].tokenEstimate
  }

  /** The sum of the positive latencies. */
  function Latency(ms: seq<Record>): nat {
    if ms == [] then 0
    else Latency(ms[..|ms| - 1]) + (if ms[|ms| - 1].latencyMS > 0 then ms[|ms| - 1].latencyMS else 0)
  }

  function Mean(ms: seq<Record>): real { if ms == [] then 0.0 else Latency(ms) as real / |ms| as real }

  function Summary(ms: seq<Record>): Stats {
    Stats(|ms|, Requests(ms), Errors(ms), Mean(ms), TotalBytes(ms), TotalTokens(ms))
  }

  /** What one message adds to the statistics, wherever it comes in; the order does not matter. */
  lemma {:induction false} EachMessageCounts(xs: seq<Record>, m: Record, ys: seq<Record>)
    ensures var s, t := Summary(xs + ys), Summary(xs + [m] + ys);
      && t.totalMessages == s.totalMessages + 1
      && t.totalRequests == s.totalRequests + (if m.msgType == Request then 1 else 0)
      && t.totalErrors == s.totalErrors
           + (if m.errorData == [] || m.errorData == [0x6E, 0x75, 0x6C, 0x6C] then 0 else 1)
      && t.totalBytes == s.totalBytes + m.sizeBytes
      && t.totalTokens == s.totalTokens + m.tokenEstimate
      && Product(t.avgLatencyMS, t.totalMessages)
         == Product(s.avgLatencyMS, s.totalMessages) + (if m.latencyMS > 0 then m.latencyMS else 0) as real
  {
    OneMoreSums(xs, m, ys);
    MeanTimesCount(xs + ys);
    MeanTimesCount(xs + [m] + ys);
  }

  /** An average taken back to the sum it was made from. */
  function Product(average: real, count: nat): real { average * count as real }

  lemma OneMoreSums(xs: seq<Record>, m: Record, ys: seq<Record>)
    ensures Requests(xs + [m] + ys) == Requests(xs + ys) + Requests([m])
    ensures Errors(xs + [m] + ys) == Errors(xs + ys) + Errors([m])
    ensures TotalBytes(xs + [m] + ys) == TotalBytes(xs + ys) + TotalBytes([m])
    ensures TotalTokens(xs + [m] + ys) == TotalTokens(xs + ys) + TotalTokens([m])
    ensures Latency(xs + [m] + ys) == Latency(xs + ys) + Latency([m])
    ensures Requests([m]) == (if m.msgType == Request then 1 else 0)
    ensures Errors([m]) == (if m.errorData == [] || m.errorData == [0x6E, 0x75, 0x6C, 0x6C] then 0 else 1)
    ensures TotalBytes([m]) == m.sizeBytes && TotalTokens([m]) == m.tokenEstimate
    ensures Latency([m]) == if m.latencyMS > 0 then m.latencyMS else 0
  {
    SumsAppend(xs + [m], ys);
    SumsAppend(xs, [m]);
    SumsAppend(xs, ys);
    SumsOfOne(m);
  }

  lemma SumsOfOne(m: Record)
    ensures Requests([m]) == (if m.msgType == Request then 1 else 0)
    ensures Errors([m]) == (if m.errorData == [] || m.errorData == [0x6E, 0x75, 0x6C, 0x6C] then 0 else 1)
    ensures TotalBytes([m]) == m.sizeBytes && TotalTokens([m]) == m.tokenEstimate
    ensures Latency([m]) == if m.latencyMS > 0 then m.latencyMS else 0
  {
    assert [m][..0] == [];
  }

  lemma {:induction false} SumsAppend(xs: seq<Record>, ys: seq<Record>)
    ensures Requests(xs + ys) == Requests(xs) + Requests(ys) && Errors(xs + ys) == Errors(xs) + Errors(ys)
    ensures TotalBytes(xs + ys) == TotalBytes(xs) + TotalBytes(ys)
    ensures TotalTokens(xs + ys) == TotalTokens(xs) + TotalTokens(ys)
    ensures Latency(xs + ys) == Latency(xs) + Latency(ys)
    decreases |ys|
  {
    if ys == [] {
      assert xs + ys == xs;
    } else {
      var n := |ys| - 1;
      SumsAppend(xs, ys[..n]);
      assert (xs + ys)[..|xs + ys| - 1] == xs + ys[..n];
    }
  }

  lemma MeanTimesCount(ms: seq<Record>)
    ensures Product(Mean(ms), |ms|) == Latency(ms) as real
  {
    if ms != [] { DivMul(Latency(ms) as real, |ms| as real); }
  }

  // ---------- they agree ----------

  /** Equal in everything but the average. */
  predicate SameCounts(s: Stats, t: Stats) { s == t.(avgLatencyMS := s.avgLatencyMS) }

  lemma {:induction false} CountsAdd(ms: seq<Record>, batch: seq<Record>, s: Stats)
    requires SameCounts(s, Summary(ms))
    ensures SameCounts(CountAll(s, batch), Summary(ms + batch))
    ensures LengthenAll(Latency(ms) as real, batch) == Latency(ms + batch) as real
    decreases |batch|
  {
    if batch == [] {
      assert ms + batch == ms;
    } else {
      var n := |batch| - 1;
      CountsAdd(ms, batch[..n], s);
      assert (ms + batch)[..|ms + batch| - 1] == ms + batch[..n];
      assert (ms + batch)[|ms + batch| - 1] == batch[n];
    }
  }

  lemma DivMul(a: real, n: real)
    requires n != 0.0
    ensures (a / n) * n == a
  {
  }

  /** The average times the count gives back the sum it was made from. */
  lemma {:induction false} OpenedSummary(ms: seq<Record>)
    ensures Opened(Summary(ms)) == Latency(ms) as real
  {
    if ms != [] { DivMul(Latency(ms) as real, |ms| as real); }
  }

  /** Absorbing a batch into the summary of what came before gives the summary of everything. */
  lemma {:induction false} AbsorbIsSummary(ms: seq<Record>, batch: seq<Record>)
    ensures Absorb(Summary(ms), batch) == Summary(ms + batch)
  {
    OpenedSummary(ms);
    CountsAdd(ms, batch, Summary(ms));
    if ms + batch == [] {
      assert ms == [] && batch == [];
    }
  }

  function AbsorbEach(batches: seq<seq<Record>>): Stats {
    if batches == [] then ZERO else Absorb(AbsorbEach(batches[..|batches| - 1]), batches[|batches| - 1])
  }

  /** However a message sequence was cut into batches, the stored statistics are those of the whole. */
  lemma {:induction false} AnyBatching(batches: seq<seq<Record>>)
    ensures AbsorbEach(batches) == Summary(Flatten(batches))
    decreases |batches|
  {
    if batches != [] {
      var n := |batches| - 1;
      AnyBatching(batches[..n]);
      AbsorbIsSummary(Flatten(batches[..n]), batches[n]);
    }
  }
}
