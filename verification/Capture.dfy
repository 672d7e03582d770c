/** The event loop of internal/transport/ebpf_linux.go, and the whole path from the kernel hooks
    to the texts handed to the parser. */
module Capture {
  import opened Bytes
  import opened JsonFramer
  import opened Lines
  import opened StreamBuffers
  import opened Tracers
  import JsonText

  datatype Direction = IN | OUT | ERR

  /** What the loop passes on: a text of standard input or output, or a line of standard error. */
  datatype Item = Item(direction: Direction, text: Bytes)

  function Tagged(d: Direction, texts: seq<Bytes>): seq<Item> {
    seq(|texts|, i requires 0 <= i < |texts| => Item(d, texts[i]))
  }

  /** The texts passed on for one direction. */
  function On(items: seq<Item>, d: Direction): seq<Bytes> {
    if items == [] then []
    else
      var n := |items| - 1;
      On(items[..n], d) + (if items[n].direction == d then [items[n].text] else [])
  }

  lemma {:induction false} OnAppend(xs: seq<Item>, ys: seq<Item>, d: Direction)
    ensures On(xs + ys, d) == On(xs, d) + On(ys, d)
    decreases |ys|
  {
    if ys == [] {
      assert xs + ys == xs;
    } else {
      var n := |ys| - 1;
      OnAppend(xs, ys[..n], d);
      assert (xs + ys)[..|xs + ys| - 1] == xs + ys[..n];
    }
  }

  lemma {:induction false} OnTagged(d: Direction, texts: seq<Bytes>, e: Direction)
    ensures On(Tagged(d, texts), e) == if e == d then texts else []
    decreases |texts|
  {
    if texts != [] {
      var n := |texts| - 1;
      OnTagged(d, texts[..n], e);
      assert Tagged(d, texts)[..n] == Tagged(d, texts[..n]);
      assert texts == texts[..n] + [texts[n]];
    }
  }

  lemma OnlyTagged(d: Direction, texts: seq<Bytes>)
    ensures forall e :: On(Tagged(d, texts), e) == if e == d then texts else []
  {
    forall e ensures On(Tagged(d, texts), e) == if e == d then texts else [] {
      OnTagged(d, texts, e);
    }
  }

  function Chunk(e: Event): Bytes
    requires e.size <= PAGE
  {
    e.payload[..e.size]
  }

  predicate AllFit(events: seq<Event>) { forall i :: 0 <= i < |events| ==> events[i].size <= PAGE }

  /** The chunks that arrived on one descriptor, in order. */
  function ChunksOf(events: seq<Event>, fd: nat): seq<Bytes>
    requires AllFit(events)
  {
    if events == [] then []
    else
      var n := |events| - 1;
      ChunksOf(events[..n], fd) + (if events[n].fd == fd then [Chunk(events[n])] else [])
  }

  // ---------- the loop ----------

  /** The loop with its three stream buffers. */
  class EventLoop {
    const inStream: StreamBuffer
    const outStream: StreamBuffer
    const errStream: StreamBuffer

    ghost predicate Valid() {
      inStream != outStream && inStream != errStream && outStream != errStream
    }

    constructor ()
      ensures Valid() && fresh(inStream) && fresh(outStream) && fresh(errStream)
      ensures inStream.buf == [] && outStream.buf == [] && errStream.buf == []
    {
      inStream := new StreamBuffer();
      outStream := new StreamBuffer();
      errStream := new StreamBuffer();
    }

    /** One event: it concerns one descriptor's buffer and leaves the two others alone. */
    method Handle(event: Event) returns (items: seq<Item>)
      requires Valid() && event.size <= PAGE
      modifies inStream, outStream, errStream
      ensures Extracted(old(inStream.buf), event, 0, On(items, IN), inStream.buf)
      ensures Extracted(old(outStream.buf), event, 1, On(items, OUT), outStream.buf)
      ensures Split(On(items, ERR), errStream.buf) == SplitMore(old(errStream.buf), event)
      ensures items == Yield(event, old(inStream.buf), old(outStream.buf), old(errStream.buf))
    {
      items := [];
      var payloadChunk := event.payload[..event.size];
      if event.fd == 0 {
        inStream.Write(payloadChunk);
        var texts := inStream.ExtractJSON();
        items := Tagged(IN, texts);
        OnlyTagged(IN, texts);
        ExtractedNow(old(inStream.buf), event);
      } else if event.fd == 1 {
        outStream.Write(payloadChunk);
        var texts := outStream.ExtractJSON();
        items := Tagged(OUT, texts);
        OnlyTagged(OUT, texts);
        ExtractedNow(old(outStream.buf), event);
      } else if event.fd == 2 {
        errStream.Write(payloadChunk);
        var lines := errStream.ExtractLines();
        items := Tagged(ERR, lines);
        OnlyTagged(ERR, lines);
      }
    }

    /** Over any events, what each descriptor yields is what one pass over its own bytes yields, and all
        comes out in the order of the events that completed it. */
    method HandleAll(events: seq<Event>) returns (items: seq<Item>)
      requires Valid() && AllFit(events)
      requires inStream.buf == [] && outStream.buf == [] && errStream.buf == []
      modifies inStream, outStream, errStream
      ensures On(items, IN) == Collect(Flatten(ChunksOf(events, 0))).texts
      ensures On(items, OUT) == Collect(Flatten(ChunksOf(events, 1))).texts
      ensures On(items, ERR) == DropCRs(SplitLines(Flatten(ChunksOf(events, 2))).lines)
      ensures items == Yields(events)
    {
      items := [];
      for i := 0 to |events|
        invariant Caught(events[..i], items, inStream.buf, outStream.buf, errStream.buf)
        invariant items == Yields(events[..i])
      {
        label Before:
        var more := Handle(events[i]);
        assert events[..i + 1][..i] == events[..i];
        CutAnywhere(ChunksOf(events[..i], 0));
        CutAnywhere(ChunksOf(events[..i], 1));
        CaughtMore(events[..i + 1], items, old@Before(inStream.buf), old@Before(outStream.buf), old@Before(errStream.buf),
                   more, inStream.buf, outStream.buf, errStream.buf);
        items := items + more;
      }
      assert events[..|events|] == events;
      CutAnywhere(ChunksOf(events, 0));
      CutAnywhere(ChunksOf(events, 1));
    }
  }

  /** What one event completes. */
  function Yield(event: Event, ins: Bytes, outs: Bytes, errs: Bytes): seq<Item>
    requires event.size <= PAGE
  {
    match event.fd
    case 0 => Tagged(IN, Collect(ins + Chunk(event)).texts)
    case 1 => Tagged(OUT, Collect(outs + Chunk(event)).texts)
    case 2 => Tagged(ERR, DropCRs(SplitLines(errs + Chunk(event)).lines))
    case _ => []
  }

  /** What the events complete, event by event, each on what its descriptor's earlier bytes left over. */
  function Yields(events: seq<Event>): seq<Item>
    requires AllFit(events)
  {
    if events == [] then []
    else
      var n := |events| - 1;
      var earlier := events[..n];
      Yields(earlier) + Yield(events[n],
        Collect(Flatten(ChunksOf(earlier, 0))).pending, Collect(Flatten(ChunksOf(earlier, 1))).pending,
        SplitLines(Flatten(ChunksOf(earlier, 2))).rest)
  }

  /** What was passed on and what is buffered, after these events. */
  ghost predicate Caught(events: seq<Event>, items: seq<Item>, ins: Bytes, outs: Bytes, errs: Bytes)
    requires AllFit(events)
  {
    && Drain(On(items, IN), ins) == DrainChunks(ChunksOf(events, 0))
    && Drain(On(items, OUT), outs) == DrainChunks(ChunksOf(events, 1))
    && Split(On(items, ERR), errs)
       == var s := SplitLines(Flatten(ChunksOf(events, 2))); Split(DropCRs(s.lines), s.rest)
  }

  lemma CaughtMore(events: seq<Event>, items: seq<Item>, ins: Bytes, outs: Bytes, errs: Bytes,
                   more: seq<Item>, ins': Bytes, outs': Bytes, errs': Bytes)
    requires events != [] && AllFit(events)
    requires Caught(events[..|events| - 1], items, ins, outs, errs)
    requires Extracted(ins, events[|events| - 1], 0, On(more, IN), ins')
    requires Extracted(outs, events[|events| - 1], 1, On(more, OUT), outs')
    requires Split(On(more, ERR), errs') == SplitMore(errs, events[|events| - 1])
    ensures Caught(events, items + more, ins', outs', errs')
  {
    OnAppend(items, more, IN);
    OnAppend(items, more, OUT);
    OnAppend(items, more, ERR);
    ChunksStep(events, 0);
    ChunksStep(events, 1);
    SplitStep(events);
  }

  /** The effect of an event on the buffer of a descriptor with JSON texts. */
  predicate Extracted(buf: Bytes, event: Event, fd: nat, texts: seq<Bytes>, after: Bytes)
    requires event.size <= PAGE
  {
    if event.fd == fd then Drain(texts, after) == Extract(Drain([], buf), Chunk(event))
    else texts == [] && after == buf
  }

  lemma ExtractedNow(buf: Bytes, event: Event)
    requires event.size <= PAGE
    ensures var c := Collect(buf + Chunk(event)); Extracted(buf, event, event.fd, c.texts, c.pending)
  {
    var c := Collect(buf + Chunk(event));
    assert [] + c.texts == c.texts;
  }

  /** The effect of an event on the buffer of standard error. */
  function SplitMore(buf: Bytes, event: Event): Split
    requires event.size <= PAGE
  {
    if event.fd == 2 then var s := SplitLines(buf + Chunk(event)); Split(DropCRs(s.lines), s.rest)
    else Split([], buf)
  }

  lemma ChunksStep(events: seq<Event>, fd: nat)
    requires events != [] && AllFit(events)
    ensures var n := |events| - 1;
            var d := DrainChunks(ChunksOf(events[..n], fd));
            DrainChunks(ChunksOf(events, fd)) == if events[n].fd == fd then
              var e := Extract(Drain([], d.residual), Chunk(events[n])); Drain(d.texts + e.texts, e.residual) else d
  {
    var n := |events| - 1;
    var cs := ChunksOf(events[..n], fd);
    if events[n].fd == fd {
      assert (cs + [Chunk(events[n])])[..|cs|] == cs;
      var c := Collect(DrainChunks(cs).residual + Chunk(events[n]));
      assert [] + c.texts == c.texts;
    } else {
      assert cs + [] == cs;
    }
  }

  lemma SplitStep(events: seq<Event>)
    requires events != [] && AllFit(events)
    ensures var n := |events| - 1;
            var s, t := SplitLines(Flatten(ChunksOf(events[..n], 2))), SplitLines(Flatten(ChunksOf(events, 2)));
            var m := SplitMore(s.rest, events[n]);
            DropCRs(t.lines) == DropCRs(s.lines) + m.lines && t.rest == m.rest
  {
    var n := |events| - 1;
    var cs := ChunksOf(events[..n], 2);
    if events[n].fd == 2 {
      FlattenSnoc(cs, Chunk(events[n]));
      SplitDropped(Flatten(cs), Chunk(events[n]));
    } else {
      assert cs + [] == cs;
      assert DropCRs(SplitLines(Flatten(cs)).lines) + [] == DropCRs(SplitLines(Flatten(cs)).lines);
    }
  }

  lemma SplitDropped(a: Bytes, b: Bytes)
    ensures var s, t := SplitLines(a), SplitLines(a + b);
            var u := SplitLines(s.rest + b);
            DropCRs(t.lines) == DropCRs(s.lines) + DropCRs(u.lines) && t.rest == u.rest
  {
    SplitAppend(a, b);
    var s := SplitLines(a);
    var u := SplitLines(s.rest + b);
    DropCRsAppend(s.lines, u.lines);
  }

  // ---------- from the system calls to the texts ----------

  function Data(t: Transfer): Bytes { ProbeRead(t.mem, t.addr, t.len) }

  /** The bytes the target moved over one descriptor, call by call. */
  function Moved(ts: seq<Transfer>, fd: nat): seq<Bytes> {
    if ts == [] then []
    else
      var n := |ts| - 1;
      Moved(ts[..n], fd) + (if ts[n].fd == fd then [Data(ts[n])] else [])
  }

  /** Every transfer on the descriptor is shorter than a page; the others do not matter. */
  predicate ShortOn(ts: seq<Transfer>, fd: nat) {
    forall i :: 0 <= i < |ts| && ts[i].fd == fd ==> ts[i].len < 4096
  }

  /** A transfer arrives whole exactly when it is shorter than a page. */
  lemma WholeIffShort(t: Transfer, e: Event)
    requires Reports([t], [e])
    ensures e.size < 4096 && (Chunk(e) == Data(t) <==> t.len < 4096)
  {
    assert [e][0] == e && [t][0] == t;
    assert e.size == t.len % PAGE;
    if t.len < PAGE {
      assert e.size == t.len;
    } else {
      assert |Chunk(e)| < |Data(t)|;
    }
  }

  /** What user space receives on a descriptor is what was moved over it, exactly when every transfer
      on that descriptor is shorter than a page. */
  lemma {:induction false} ChunksAreMoved(ts: seq<Transfer>, es: seq<Event>, fd: nat)
    requires Reports(ts, es) && AllFit(es)
    ensures |ChunksOf(es, fd)| == |Moved(ts, fd)|
    ensures ChunksOf(es, fd) == Moved(ts, fd) <==> ShortOn(ts, fd)
    decreases |ts|
  {
    if ts != [] {
      var n := |ts| - 1;
      ChunksAreMoved(ts[..n], es[..n], fd);
      assert Reports([ts[n]], [es[n]]);
      WholeIffShort(ts[n], es[n]);
      ShortOnSnoc(ts, fd);
      var cs, ms := ChunksOf(es[..n], fd), Moved(ts[..n], fd);
      assert es[n].fd == ts[n].fd;
      if ts[n].fd == fd {
        SnocEqual(cs, Chunk(es[n]), ms, Data(ts[n]));
        assert ChunksOf(es, fd) == cs + [Chunk(es[n])] && Moved(ts, fd) == ms + [Data(ts[n])];
      } else {
        assert ChunksOf(es, fd) == cs && Moved(ts, fd) == ms;
      }
    }
  }

  lemma ShortOnSnoc(ts: seq<Transfer>, fd: nat)
    requires ts != []
    ensures var n := |ts| - 1;
      ShortOn(ts, fd) <==> ShortOn(ts[..n], fd) && (ts[n].fd == fd ==> ts[n].len < 4096)
  {
    assert forall i :: 0 <= i < |ts| - 1 ==> ts[..|ts| - 1][i] == ts[i];
  }

  lemma SnocEqual(xs: seq<Bytes>, x: Bytes, ys: seq<Bytes>, y: Bytes)
    requires |xs| == |ys|
    ensures xs + [x] == ys + [y] <==> xs == ys && x == y
  {
    if xs + [x] == ys + [y] {
      assert xs == (xs + [x])[..|xs|] && ys == (ys + [y])[..|xs|];
      assert (xs + [x])[|xs|] == x && (ys + [y])[|xs|] == y;
    }
  }

  /** Whatever the interleaving of threads, the calls on a descriptor reach the loop as one chunk per
      call, each as it was moved, if and only if all of them are shorter than a page. */
  lemma {:induction false} HooksToChunks(target: nat, hs: seq<Hook>, fd: nat)
    requires Alternating(hs) && Room(target, hs)
    ensures AllFit(Run(target, hs).events)
    ensures ChunksOf(Run(target, hs).events, fd) == Moved(Transfers(target, hs), fd)
      <==> ShortOn(Transfers(target, hs), fd)
  {
    EveryRun(target, hs);
    ReportsTransfers(target, hs);
    ChunksAreMoved(Transfers(target, hs), Run(target, hs).events, fd);
  }

  /** The bytes the target moved over a descriptor. */
  function BytesOn(target: nat, hs: seq<Hook>, fd: nat): Bytes { Flatten(Moved(Transfers(target, hs), fd)) }

  /** The tracer and the event loop together: what is passed on for a descriptor is what one pass over
      the bytes moved on it gives, if its own transfers are short, whatever the other two carry. */
  method Watch(target: nat, hs: seq<Hook>) returns (items: seq<Item>)
    requires Alternating(hs) && Room(target, hs)
    ensures ShortOn(Transfers(target, hs), 0) ==> On(items, IN) == Collect(BytesOn(target, hs, 0)).texts
    ensures ShortOn(Transfers(target, hs), 1) ==> On(items, OUT) == Collect(BytesOn(target, hs, 1)).texts
    ensures ShortOn(Transfers(target, hs), 2) ==> On(items, ERR) == DropCRs(SplitLines(BytesOn(target, hs, 2)).lines)
  {
    var tracer := new Tracer(target);
    for i := 0 to |hs|
      invariant tracer.View() == Run(target, hs[..i])
    {
      assert hs[..i + 1][..i] == hs[..i];
      match hs[i]
      case Write(cpu, id, fd, addr, count, mem) => tracer.TraceWrite(cpu, id, fd, addr, count, mem);
      case ReadEnter(id, fd, addr) => tracer.TraceReadEnter(id, fd, addr);
      case ReadExit(cpu, id, ret, mem) => tracer.TraceReadExit(cpu, id, ret, mem);
    }
    assert hs[..|hs|] == hs;
    HooksToChunks(target, hs, 0);
    HooksToChunks(target, hs, 1);
    HooksToChunks(target, hs, 2);
    var eventLoop := new EventLoop();
    items := eventLoop.HandleAll(tracer.events);
  }

  /** Objects and arrays that the target moves over a descriptor, printed, in any pieces and with any
      other output between them, are the texts passed on, with nothing left buffered, exactly when the
      other output has no opening bracket. */
  lemma CapturedTexts(target: nat, hs: seq<Hook>, fd: nat, gaps: seq<Bytes>, values: seq<JsonText.Json>)
    requires Alternating(hs) && Room(target, hs) && ShortOn(Transfers(target, hs), fd)
    requires |gaps| == |values| + 1
    requires forall i :: 0 <= i < |values| ==> JsonText.IsJson(values[i]) && (values[i].Arr? || values[i].Obj?)
    requires BytesOn(target, hs, fd) == Weave(gaps, JsonText.PrintAll(values))
    ensures var c := Collect(BytesOn(target, hs, fd));
      c.texts == JsonText.PrintAll(values) && c.pending == [] <==> forall i :: 0 <= i < |gaps| ==> IsGap(gaps[i])
    ensures AllFit(Run(target, hs).events)
    ensures DrainChunks(ChunksOf(Run(target, hs).events, fd)) == Drain(JsonText.PrintAll(values), [])
      <==> forall i :: 0 <= i < |gaps| ==> IsGap(gaps[i])
  {
    HooksToChunks(target, hs, fd);
    JsonText.RoundTrip(gaps, values, Moved(Transfers(target, hs), fd));
    CutAnywhere(Moved(Transfers(target, hs), fd));
  }

  /** Over descriptor `fd` the target moves these objects and arrays, printed, in calls shorter than a
      page, with bracket-free output before, between and after them. */
  predicate Moves(target: nat, hs: seq<Hook>, fd: nat, gaps: seq<Bytes>, values: seq<JsonText.Json>) {
    && ShortOn(Transfers(target, hs), fd)
    && |gaps| == |values| + 1
    && (forall i :: 0 <= i < |gaps| ==> IsGap(gaps[i]))
    && (forall i :: 0 <= i < |values| ==> JsonText.IsJson(values[i]) && (values[i].Arr? || values[i].Obj?))
    && BytesOn(target, hs, fd) == Weave(gaps, JsonText.PrintAll(values))
  }

  /** To standard error the target writes these lines and an unfinished one, in calls shorter than a page. */
  predicate Writes(target: nat, hs: seq<Hook>, lines: seq<Bytes>, rest: Bytes) {
    && ShortOn(Transfers(target, hs), 2)
    && AllLines(lines) && LF !in rest && BytesOn(target, hs, 2) == Unlines(lines) + rest
  }

  /** End to end, on the items themselves and for each descriptor on its own: printed texts are passed
      on text by text, and lines of standard error, ended by LF or by CR and LF, line by line. */
  method WatchPrinted(target: nat, hs: seq<Hook>,
                      ghost inGaps: seq<Bytes>, ghost ins: seq<JsonText.Json>,
                      ghost outGaps: seq<Bytes>, ghost outs: seq<JsonText.Json>,
                      ghost lines: seq<Bytes>, ghost texts: seq<Bytes>, ghost rest: Bytes)
    returns (items: seq<Item>)
    requires Alternating(hs) && Room(target, hs)
    ensures Moves(target, hs, 0, inGaps, ins) ==> On(items, IN) == JsonText.PrintAll(ins)
    ensures Moves(target, hs, 1, outGaps, outs) ==> On(items, OUT) == JsonText.PrintAll(outs)
    ensures Writes(target, hs, lines, rest) ==> On(items, ERR) == DropCRs(lines)
    ensures Writes(target, hs, lines, rest) && Terminates(lines, texts) ==> On(items, ERR) == texts
  {
    items := Watch(target, hs);
    if Moves(target, hs, 0, inGaps, ins) { CapturedTexts(target, hs, 0, inGaps, ins); }
    if Moves(target, hs, 1, outGaps, outs) { CapturedTexts(target, hs, 1, outGaps, outs); }
    if Writes(target, hs, lines, rest) {
      SplitIs(BytesOn(target, hs, 2), lines, rest);
      if Terminates(lines, texts) { DropCRsAre(lines, texts); }
    }
  }
}
