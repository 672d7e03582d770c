/** The wire encodings of the proxied streams: newline-delimited JSON, JSON text sequences
    (section 2.2 of RFC 7464) and events with one data line (section 9.2.6 of the WHATWG HTML
    standard). */
module Encodings {
  import opened Bytes
  import opened Lines
  import opened Interceptors
  import JsonFramer

  datatype Record =
    | Ndjson(payload: Bytes)
    | JsonSeq(payload: Bytes)
    | Event(name: Bytes, pad: Bytes, payload: Bytes)

  const EVENT: Bytes := [0x65, 0x76, 0x65, 0x6E, 0x74, COLON]

  predicate IsPayload(p: Bytes) { p != [] && LF !in p && JsonFramer.IsOpener(p[0]) && IsTrimmed(p) }

  predicate IsRecord(r: Record) {
    IsPayload(r.payload) && (r.Event? ==> LF !in r.name && LF !in r.pad && Interceptors.IsBlank(r.pad))
  }

  function LinesOf(r: Record): seq<Bytes> {
    match r
    case Ndjson(p) => [p]
    case JsonSeq(p) => [[RS] + p]
    case Event(name, pad, p) => (if name == [] then [] else [EVENT + name]) + [DATA + pad + p, []]
  }

  function Encode(r: Record): Bytes { Unlines(LinesOf(r)) }

  function EncodeAll(rs: seq<Record>): Bytes { if rs == [] then [] else Encode(rs[0]) + EncodeAll(rs[1..]) }

  function AllLinesOf(rs: seq<Record>): seq<Bytes> { if rs == [] then [] else LinesOf(rs[0]) + AllLinesOf(rs[1..]) }

  function Payloads(rs: seq<Record>): seq<Bytes> { seq(|rs|, i requires 0 <= i < |rs| => rs[i].payload) }

  /** Which interceptor understands which encoding. */
  predicate Carries(kind: Kind, r: Record) {
    match r
    case Ndjson(_) => true
    case JsonSeq(_) => !kind.Socket?
    case Event(_, _, _) => kind.Stream?
  }

  lemma TrimNothing(p: Bytes)
    requires IsTrimmed(p) && p != []
    ensures TrimSpace(p) == p
  {
    TrimSpaceIs([], p, []);
    assert [] + p + [] == p;
  }

  /** A line that begins with something visible keeps its beginning. */
  lemma {:induction false} TrimRightKeepsHead(s: Bytes)
    requires s != [] && !IsSpace(s[0])
    ensures TrimRight(s) != [] && TrimRight(s)[0] == s[0] && TrimRight(s) <= s
    decreases |s|
  {
    if IsSpace(s[|s| - 1]) {
      TrimRightKeepsHead(s[..|s| - 1]);
    }
  }

  lemma SelectPlain(kind: Kind, p: Bytes)
    requires IsPayload(p)
    ensures Select(kind, p) == [p]
    ensures Select(kind, [RS] + p) == [if kind.Socket? then [RS] + p else p]
  {
    TrimNothing(p);
    TrimNothing([RS] + p);
    assert ([RS] + p)[1..] == p;
  }

  lemma SelectEvent(kind: Kind, name: Bytes)
    ensures if kind.Stream? then Select(kind, EVENT + name) == []
            else exists o :: Select(kind, EVENT + name) == [o] && o[..1] == [EVENT[0]]
  {
    var s := EVENT + name;
    assert s == [] + s && TrimLeft(s) == s;
    TrimRightKeepsHead(s);
    var o := TrimSpace(s);
    assert o[0] == EVENT[0];
    assert !(DATA <= o);
    assert kind.Stream? || (Select(kind, s) == [o] && o[..1] == [EVENT[0]]);
  }

  lemma SelectData(kind: Kind, pad: Bytes, p: Bytes)
    requires IsPayload(p) && Interceptors.IsBlank(pad)
    ensures Select(kind, DATA + pad + p) == [if kind.Stream? then p else DATA + pad + p]
  {
    var s := DATA + pad + p;
    assert s[0] == DATA[0] && s[|s| - 1] == p[|p| - 1];
    TrimNothing(s);
    assert DATA <= s && s[|DATA|..] == pad + p;
    TrimSpaceIs(pad, p, []);
    assert pad + p + [] == pad + p;
  }

  /** One record is offered as its payload exactly by the interceptors that understand it; what the
      others offer first does not even begin like a payload. */
  lemma RecordOffer(kind: Kind, r: Record)
    requires IsRecord(r)
    ensures if Carries(kind, r) then Offer(kind, LinesOf(r)) == [r.payload]
            else var o := Offer(kind, LinesOf(r)); o != [] && o[0] != [] && !JsonFramer.IsOpener(o[0][0])
  {
    SelectPlain(kind, r.payload);
    match r
    case Ndjson(p) =>
      OfferOne(kind, p);
    case JsonSeq(p) =>
      OfferOne(kind, [RS] + p);
    case Event(name, pad, p) =>
      EventOffer(kind, name, pad, p);
  }

  lemma DataOffer(kind: Kind, pad: Bytes, p: Bytes)
    requires IsPayload(p) && Interceptors.IsBlank(pad)
    ensures Offer(kind, [DATA + pad + p, []]) == [if kind.Stream? then p else DATA + pad + p]
  {
    var data := DATA + pad + p;
    SelectData(kind, pad, p);
    SelectEmpty(kind);
    OfferOne(kind, data);
    OfferOne(kind, []);
    OfferAppend(kind, [data], [[]]);
    assert [data] + [[]] == [data, []];
  }

  lemma EventOffer(kind: Kind, name: Bytes, pad: Bytes, p: Bytes)
    requires IsPayload(p) && Interceptors.IsBlank(pad)
    ensures var o := Offer(kind, LinesOf(Event(name, pad, p)));
            if kind.Stream? then o == [p] else o != [] && o[0] != [] && !JsonFramer.IsOpener(o[0][0])
  {
    var rest := [DATA + pad + p, []];
    DataOffer(kind, pad, p);
    if name == [] {
      assert LinesOf(Event(name, pad, p)) == rest;
    } else {
      SelectEvent(kind, name);
      OfferOne(kind, EVENT + name);
      OfferAppend(kind, [EVENT + name], rest);
      assert LinesOf(Event(name, pad, p)) == [EVENT + name] + rest;
    }
  }

  /** Empty lines, such as reads at the end of the stream add after the last record. */
  function Blanks(n: nat): seq<Bytes> { seq(n, _ => []) }

  function LineFeeds(n: nat): Bytes { seq(n, _ => LF) }

  lemma {:induction false} BlankLines(kind: Kind, n: nat)
    ensures Unlines(Blanks(n)) == LineFeeds(n)
    ensures Offer(kind, Blanks(n)) == []
  {
    if n > 0 {
      BlankLines(kind, n - 1);
      assert Blanks(n)[1..] == Blanks(n - 1) && Blanks(n) == [[]] + Blanks(n - 1);
      assert LineFeeds(n) == [] + [LF] + LineFeeds(n - 1);
      OfferAppend(kind, [[]], Blanks(n - 1));
      OfferOne(kind, []);
      SelectEmpty(kind);
    }
  }

  lemma {:induction false} EncodeAllLines(rs: seq<Record>, n: nat)
    requires AllRecords(rs)
    ensures SplitLines(EncodeAll(rs) + LineFeeds(n)) == Split(AllLinesOf(rs) + Blanks(n), [])
  {
    EncodedLines(rs);
    BlankLines(Body, n);
    UnlinesAppend(AllLinesOf(rs), Blanks(n));
    var input := EncodeAll(rs) + LineFeeds(n);
    assert input + [] == input;
    SplitIs(input, AllLinesOf(rs) + Blanks(n), []);
  }

  lemma {:induction false} EncodedLines(rs: seq<Record>)
    requires AllRecords(rs)
    ensures AllLines(AllLinesOf(rs)) && EncodeAll(rs) == Unlines(AllLinesOf(rs))
  {
    if rs != [] {
      FirstAndRest(Body, rs);
      EncodedLines(rs[1..]);
      LinesOfHaveNoLF(rs[0]);
      UnlinesAppend(LinesOf(rs[0]), AllLinesOf(rs[1..]));
      AllLinesAppend(LinesOf(rs[0]), AllLinesOf(rs[1..]));
    }
  }

  lemma LinesOfHaveNoLF(r: Record)
    requires IsRecord(r)
    ensures AllLines(LinesOf(r))
  {
  }

  lemma AllLinesAppend(xs: seq<Bytes>, ys: seq<Bytes>)
    requires AllLines(xs) && AllLines(ys)
    ensures AllLines(xs + ys)
  {
  }

  predicate AllRecords(rs: seq<Record>) { forall i :: 0 <= i < |rs| ==> IsRecord(rs[i]) }

  predicate AllCarried(kind: Kind, rs: seq<Record>) { forall i :: 0 <= i < |rs| ==> Carries(kind, rs[i]) }

  lemma {:induction false} RecordsOffer(kind: Kind, rs: seq<Record>)
    requires AllRecords(rs)
    ensures Offer(kind, AllLinesOf(rs)) == Payloads(rs) <==> AllCarried(kind, rs)
  {
    if rs != [] {
      var r, rest := rs[0], rs[1..];
      FirstAndRest(kind, rs);
      RecordsOffer(kind, rest);
      OfferAppend(kind, LinesOf(r), AllLinesOf(rest));
      FirstRecord(kind, r, Offer(kind, AllLinesOf(rest)), Payloads(rest));
    }
  }

  lemma FirstAndRest(kind: Kind, rs: seq<Record>)
    requires rs != []
    ensures Payloads(rs) == [rs[0].payload] + Payloads(rs[1..])
    ensures AllCarried(kind, rs) <==> Carries(kind, rs[0]) && AllCarried(kind, rs[1..])
    ensures AllRecords(rs) <==> IsRecord(rs[0]) && AllRecords(rs[1..])
  {
    assert forall i :: 0 <= i < |rs[1..]| ==> rs[1..][i] == rs[i + 1];
    assert forall i :: 1 <= i < |rs| ==> rs[i] == rs[1..][i - 1];
  }

  /** The offers of a list agree with its payloads when those of its first record and its rest do. */
  lemma FirstRecord(kind: Kind, r: Record, offers: seq<Bytes>, payloads: seq<Bytes>)
    requires IsRecord(r)
    ensures Offer(kind, LinesOf(r)) + offers == [r.payload] + payloads <==> Carries(kind, r) && offers == payloads
  {
    RecordOffer(kind, r);
    var o := Offer(kind, LinesOf(r));
    if Carries(kind, r) {
      assert (o + offers)[1..] == offers && ([r.payload] + payloads)[1..] == payloads;
    } else {
      assert (o + offers)[0] == o[0] && ([r.payload] + payloads)[0] == r.payload;
    }
  }

  /** Any mixture of encodings, cut anywhere and followed by any empty lines, is offered payload by
      payload, in order and with nothing left over, exactly when the interceptor understands every
      record. */
  lemma {:induction false} RoundTrip(kind: Kind, rs: seq<Record>, n: nat, parts: seq<Bytes>)
    requires AllRecords(rs)
    requires Flatten(parts) == EncodeAll(rs) + LineFeeds(n)
    ensures FeedAll(kind, parts).buf == []
    ensures FeedAll(kind, parts).offered == Payloads(rs) <==> AllCarried(kind, rs)
  {
    FeedAllSeesOneStream(kind, parts);
    EncodeAllLines(rs, n);
    RecordsOffer(kind, rs);
    BlankLines(kind, n);
    OfferAppend(kind, AllLinesOf(rs), Blanks(n));
    assert Offer(kind, AllLinesOf(rs)) + [] == Offer(kind, AllLinesOf(rs));
  }

  /** The same for the reading interceptors. The end of the stream counts as a line feed each time it
      is read, so it may stand for the last one of the records, or follow it, any number of times. */
  lemma {:induction false} ReadRoundTrip(kind: Kind, rs: seq<Record>, n: nat, ds: seq<Delivery>)
    requires AllRecords(rs)
    requires AllWithin(kind, ds) && Flatten(AllSeen(ds)) == EncodeAll(rs) + LineFeeds(n)
    ensures RunReads(kind, ds).buf == []
    ensures RunReads(kind, ds).offered == Payloads(rs) <==> AllCarried(kind, rs)
  {
    RunIsFeed(kind, ds);
    AcceptedAll(kind, ds);
    RoundTrip(kind, rs, n, AllSeen(ds));
  }

  /** A body of records that ends in their last line feed, read in any chunks, and then `ends` reads at
      the end of the stream; a longest line and a largest chunk fit in the limit together. */
  lemma {:induction false} CompleteBody(kind: Kind, rs: seq<Record>, chunks: seq<Bytes>, ends: nat,
                                        longest: nat, largest: nat)
    requires AllRecords(rs) && Flatten(chunks) == EncodeAll(rs)
    requires longest + largest <= LIMIT
    requires forall i :: 0 <= i < |AllLinesOf(rs)| ==> |AllLinesOf(rs)[i]| <= longest
    requires forall i :: 0 <= i < |chunks| ==> |chunks[i]| <= largest
    ensures var f := RunReads(kind, Reads(chunks) + Ends(ends));
      f.buf == [] && (f.offered == Payloads(rs) <==> AllCarried(kind, rs))
  {
    SeenBody(chunks, ends);
    EncodeAllLines(rs, ends);
    NeverLimited(kind, Reads(chunks) + Ends(ends), longest, largest);
    ReadRoundTrip(kind, rs, ends, Reads(chunks) + Ends(ends));
  }

  function Reads(chunks: seq<Bytes>): seq<Delivery> {
    seq(|chunks|, i requires 0 <= i < |chunks| => Delivery(chunks[i], Nil))
  }

  function Ends(n: nat): seq<Delivery> { seq(n, _ => Delivery([], EOF)) }

  lemma SeenBody(chunks: seq<Bytes>, ends: nat)
    ensures Flatten(AllSeen(Reads(chunks) + Ends(ends))) == Flatten(chunks) + LineFeeds(ends)
  {
    assert [] + [LF] == [LF];
    assert AllSeen(Reads(chunks) + Ends(ends)) == chunks + LoneFeeds(ends);
    FlattenAppend(chunks, LoneFeeds(ends));
    FlattenFeeds(ends);
  }

  function LoneFeeds(n: nat): seq<Bytes> { seq(n, _ => [LF]) }

  lemma {:induction false} FlattenFeeds(n: nat)
    ensures Flatten(LoneFeeds(n)) == LineFeeds(n)
  {
    if n > 0 {
      FlattenFeeds(n - 1);
      assert LoneFeeds(n) == LoneFeeds(n - 1) + [[LF]];
      FlattenSnoc(LoneFeeds(n - 1), [LF]);
    }
  }
}
