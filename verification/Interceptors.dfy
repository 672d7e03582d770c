/** The line framers of internal/transport/proxy.go and internal/transport/socket.go. */
module Interceptors {
  import opened Bytes
  import opened Lines
  import JsonFramer

  const RS: Byte := 0x1E
  const LIMIT := 10 * 1024 * 1024

  // ---------- what is done with one line ----------

  predicate IsSpace(b: Byte) { 9 <= b <= 13 || b == SPACE }

  /** Tab, line feed, vertical tab, form feed, carriage return and space. */
  lemma WhiteSpace(b: Byte)
    ensures IsSpace(b) <==> b == 0x09 || b == 0x0A || b == 0x0B || b == 0x0C || b == 0x0D || b == 0x20
  {
  }

  predicate IsBlank(s: Bytes) { forall i :: 0 <= i < |s| ==> IsSpace(s[i]) }

  predicate IsTrimmed(s: Bytes) { s == [] || (!IsSpace(s[0]) && !IsSpace(s[|s| - 1])) }

  function TrimLeft(s: Bytes): Bytes { if s != [] && IsSpace(s[0]) then TrimLeft(s[1..]) else s }

  function TrimRight(s: Bytes): Bytes { if s != [] && IsSpace(s[|s| - 1]) then TrimRight(s[..|s| - 1]) else s }

  function TrimSpace(s: Bytes): Bytes { TrimRight(TrimLeft(s)) }

  lemma {:induction false} TrimLeftBlank(l: Bytes, t: Bytes)
    requires IsBlank(l) && (t == [] || !IsSpace(t[0]))
    ensures TrimLeft(l + t) == t
  {
    if l == [] {
      assert l + t == t;
    } else {
      assert (l + t)[1..] == l[1..] + t;
      TrimLeftBlank(l[1..], t);
    }
  }

  lemma {:induction false} TrimRightBlank(t: Bytes, r: Bytes)
    requires IsBlank(r) && (t == [] || !IsSpace(t[|t| - 1]))
    ensures TrimRight(t + r) == t
    decreases |r|
  {
    if r == [] {
      assert t + r == t;
    } else {
      var n := |r| - 1;
      assert (t + r)[..|t + r| - 1] == t + r[..n];
      TrimRightBlank(t, r[..n]);
    }
  }

  /** TrimSpace strips exactly the blanks around a trimmed text. */
  lemma TrimSpaceIs(l: Bytes, t: Bytes, r: Bytes)
    requires IsBlank(l) && IsTrimmed(t) && t != [] && IsBlank(r)
    ensures TrimSpace(l + t + r) == t
  {
    assert l + t + r == l + (t + r);
    TrimLeftBlank(l, t + r);
    TrimRightBlank(t, r);
  }

  function DropRS(s: Bytes): Bytes { if s != [] && s[0] == RS then s[1..] else s }

  const DATA: Bytes := [0x64, 0x61, 0x74, 0x61, COLON]

  datatype Kind = Body | Stream | Socket

  /** The text a line offers to the parser, if any. */
  function Select(kind: Kind, lineBytes: Bytes): seq<Bytes> {
    var trimmed := TrimSpace(lineBytes);
    var line := if kind.Socket? then trimmed else DropRS(trimmed);
    if line == [] then []
    else if !kind.Stream? then [line]
    else
      var payload := if DATA <= line then TrimSpace(line[|DATA|..]) else line;
      if payload != [] && JsonFramer.IsOpener(payload[0]) then [payload] else []
  }

  // ---------- what that is, kind by kind ----------

  /** Blanks around a line do not matter to anyone, and a blank line offers nothing. */
  lemma {:induction false} BlanksDoNotMatter(kind: Kind, l: Bytes, t: Bytes, r: Bytes)
    requires IsBlank(l) && IsBlank(r) && IsTrimmed(t)
    ensures Select(kind, l + t + r) == Select(kind, t)
    ensures t == [] ==> Select(kind, t) == []
  {
    if t == [] {
      assert l + t + r == l + r;
      TrimBlank(l + r);
    } else {
      TrimSpaceIs(l, t, r);
      TrimSpaceIs([], t, []);
      assert [] + t + [] == t;
    }
  }

  lemma {:induction false} TrimBlank(s: Bytes)
    requires IsBlank(s)
    ensures TrimSpace(s) == [] && TrimSpace([]) == []
  {
    TrimLeftBlank(s, []);
    assert s + [] == s;
  }

  lemma Trimmed(t: Bytes)
    requires IsTrimmed(t) && t != []
    ensures TrimSpace(t) == t
  {
    TrimSpaceIs([], t, []);
    assert [] + t + [] == t;
  }

  /** The socket framer offers every visible line as it is; the body reader too, but without the record
      separator it may begin with. */
  lemma SelectWhole(t: Bytes)
    requires IsTrimmed(t) && t != []
    ensures Select(Socket, t) == [t]
    ensures t[0] != 0x1E ==> Select(Body, t) == [t]
    ensures t[0] == 0x1E ==> Select(Body, t) == if |t| == 1 then [] else [t[1..]]
  {
    Trimmed(t);
  }

  /** The stream reader drops a record separator, then "data:" with the blanks behind it, and offers what
      is left if it begins like an object or an array. */
  lemma SelectStreamed(t: Bytes, pad: Bytes, p: Bytes)
    requires IsTrimmed(t) && t != []
    requires IsBlank(pad) && IsTrimmed(p) && p != []
    ensures var body := [0x64, 0x61, 0x74, 0x61, 0x3A] + pad + p;
      var kept := if p[0] == 0x7B || p[0] == 0x5B then [p] else [];
      && (t == p && p[0] != 0x1E && !([0x64, 0x61, 0x74, 0x61, 0x3A] <= p) ==> Select(Stream, t) == kept)
      && (t == [0x1E] + p && !([0x64, 0x61, 0x74, 0x61, 0x3A] <= p) ==> Select(Stream, t) == kept)
      && (t == body || t == [0x1E] + body ==> Select(Stream, t) == kept)
      && (t == [0x64, 0x61, 0x74, 0x61, 0x3A] || t == [0x1E] ==> Select(Stream, t) == [])
  {
    Trimmed(t);
    var body := [0x64, 0x61, 0x74, 0x61, 0x3A] + pad + p;
    assert DATA <= body && body[|DATA|..] == pad + p;
    TrimSpaceIs(pad, p, []);
    assert pad + p + [] == pad + p;
    assert ([0x1E] + body)[1..] == body && ([0x1E] + p)[1..] == p;
    TrimBlank([]);
    assert DATA[|DATA|..] == [];
  }

  function Selections(kind: Kind, lines: seq<Bytes>): seq<seq<Bytes>> {
    seq(|lines|, i requires 0 <= i < |lines| => Select(kind, lines[i]))
  }

  /** What a list of lines offers to the parser, in order. */
  function Offer(kind: Kind, lines: seq<Bytes>): seq<Bytes> { Flatten(Selections(kind, lines)) }

  lemma OfferAppend(kind: Kind, xs: seq<Bytes>, ys: seq<Bytes>)
    ensures Offer(kind, xs + ys) == Offer(kind, xs) + Offer(kind, ys)
  {
    assert Selections(kind, xs + ys) == Selections(kind, xs) + Selections(kind, ys);
    FlattenAppend(Selections(kind, xs), Selections(kind, ys));
  }

  lemma OfferOne(kind: Kind, line: Bytes)
    ensures Offer(kind, [line]) == Select(kind, line)
  {
    assert Selections(kind, [line]) == [Select(kind, line)];
    FlattenSnoc([], Select(kind, line));
    assert [] + [Select(kind, line)] == [Select(kind, line)];
    assert [] + Select(kind, line) == Select(kind, line);
  }

  // ---------- the reference: a line framer over values ----------

  datatype Framer = Framer(buf: Bytes, offered: seq<Bytes>)

  const EMPTY := Framer([], [])

  function Feed(kind: Kind, f: Framer, part: Bytes): Framer {
    var s := SplitLines(f.buf + part);
    Framer(s.rest, f.offered + Offer(kind, s.lines))
  }

  function FeedAll(kind: Kind, parts: seq<Bytes>): Framer {
    if parts == [] then EMPTY else Feed(kind, FeedAll(kind, parts[..|parts| - 1]), parts[|parts| - 1])
  }

  /** What is offered and what stays buffered depend on the concatenated bytes alone. */
  lemma {:induction false} FeedAllSeesOneStream(kind: Kind, parts: seq<Bytes>)
    ensures var s := SplitLines(Flatten(parts)); FeedAll(kind, parts) == Framer(s.rest, Offer(kind, s.lines))
    decreases |parts|
  {
    if parts != [] {
      var n := |parts| - 1;
      FeedAllSeesOneStream(kind, parts[..n]);
      SplitAppend(Flatten(parts[..n]), parts[n]);
      var x := SplitLines(Flatten(parts[..n]));
      OfferAppend(kind, x.lines, SplitLines(x.rest + parts[n]).lines);
    }
  }

  // ---------- reading with a bounded buffer ----------

  datatype Err = Nil | EOF | LimitExceeded | Other

  /** What the wrapped reader hands to one call of Read. */
  datatype Delivery = Delivery(got: Bytes, err: Err)

  predicate Accepts(buf: Bytes, d: Delivery) { d.got == [] || |buf| + |d.got| <= LIMIT }

  /** The end of the stream counts as one last line feed. */
  function Seen(d: Delivery): Bytes { if d.err == EOF then d.got + [LF] else d.got }

  function ReadStep(kind: Kind, f: Framer, d: Delivery): Framer {
    if Accepts(f.buf, d) then Feed(kind, f, Seen(d)) else f
  }

  function RunReads(kind: Kind, ds: seq<Delivery>): Framer {
    if ds == [] then EMPTY else ReadStep(kind, RunReads(kind, ds[..|ds| - 1]), ds[|ds| - 1])
  }

  /** The call for delivery `i` does not report the limit error. */
  predicate Within(kind: Kind, ds: seq<Delivery>, i: nat)
    requires i < |ds|
  {
    Accepts(RunReads(kind, ds[..i]).buf, ds[i])
  }

  /** The parts of the stream that were not refused. */
  function Accepted(kind: Kind, ds: seq<Delivery>): seq<Bytes> {
    if ds == [] then []
    else
      var n := |ds| - 1;
      Accepted(kind, ds[..n]) + (if Within(kind, ds, n) then [Seen(ds[n])] else [])
  }

  function AllSeen(ds: seq<Delivery>): seq<Bytes> { seq(|ds|, i requires 0 <= i < |ds| => Seen(ds[i])) }

  lemma {:induction false} RunIsFeed(kind: Kind, ds: seq<Delivery>)
    ensures RunReads(kind, ds) == FeedAll(kind, Accepted(kind, ds))
    decreases |ds|
  {
    if ds != [] {
      var n := |ds| - 1;
      RunIsFeed(kind, ds[..n]);
      var xs := Accepted(kind, ds[..n]);
      assert ds[..n] + [ds[n]] == ds;
      if Within(kind, ds, n) {
        FeedAllSnoc(kind, xs, Seen(ds[n]));
      } else {
        assert xs + [] == xs;
      }
    }
  }

  lemma FeedAllSnoc(kind: Kind, parts: seq<Bytes>, part: Bytes)
    ensures FeedAll(kind, parts + [part]) == Feed(kind, FeedAll(kind, parts), part)
  {
    assert (parts + [part])[..|parts|] == parts;
  }

  /** Every run, with or without limit errors, acts on the concatenation of what was accepted. */
  lemma {:induction false} ReadsSeeOneStream(kind: Kind, ds: seq<Delivery>)
    ensures var s := SplitLines(Flatten(Accepted(kind, ds))); RunReads(kind, ds) == Framer(s.rest, Offer(kind, s.lines))
  {
    RunIsFeed(kind, ds);
    FeedAllSeesOneStream(kind, Accepted(kind, ds));
  }

  predicate AllWithin(kind: Kind, ds: seq<Delivery>) { forall i :: 0 <= i < |ds| ==> Within(kind, ds, i) }

  lemma AllWithinPrefix(kind: Kind, ds: seq<Delivery>, n: nat)
    requires n <= |ds| && AllWithin(kind, ds)
    ensures AllWithin(kind, ds[..n])
  {
    forall i | 0 <= i < n ensures Within(kind, ds[..n], i) {
      assert ds[..n][..i] == ds[..i] && Within(kind, ds, i);
    }
  }

  lemma {:induction false} AcceptedAll(kind: Kind, ds: seq<Delivery>)
    requires AllWithin(kind, ds)
    ensures Accepted(kind, ds) == AllSeen(ds)
    decreases |ds|
  {
    if ds != [] {
      var n := |ds| - 1;
      AllWithinPrefix(kind, ds, n);
      AcceptedAll(kind, ds[..n]);
      assert Within(kind, ds, n);
      assert AllSeen(ds) == AllSeen(ds[..n]) + [Seen(ds[n])];
    }
  }

  /** Without a limit error, how the stream was cut into deliveries is invisible. */
  lemma CutAnywhere(kind: Kind, ds: seq<Delivery>, es: seq<Delivery>)
    requires AllWithin(kind, ds) && AllWithin(kind, es)
    requires Flatten(AllSeen(ds)) == Flatten(AllSeen(es))
    ensures RunReads(kind, ds) == RunReads(kind, es)
  {
    ReadsSeeOneStream(kind, ds);
    ReadsSeeOneStream(kind, es);
    AcceptedAll(kind, ds);
    AcceptedAll(kind, es);
  }

  lemma FeedLF(kind: Kind, f: Framer)
    requires LF !in f.buf
    ensures Feed(kind, f, [LF]) == Framer([], f.offered + Select(kind, f.buf))
  {
    LastLine(f.buf);
    OfferOne(kind, f.buf);
  }

  lemma FeedTwice(kind: Kind, f: Framer, a: Bytes, b: Bytes)
    ensures Feed(kind, f, a + b) == Feed(kind, Feed(kind, f, a), b)
  {
    var x := SplitLines(f.buf + a);
    var y := SplitLines(x.rest + b);
    assert f.buf + (a + b) == (f.buf + a) + b;
    SplitAppend(f.buf + a, b);
    OfferAppend(kind, x.lines, y.lines);
    AppendAssociates(f.offered, Offer(kind, x.lines), Offer(kind, y.lines));
  }

  lemma AppendAssociates(a: seq<Bytes>, b: seq<Bytes>, c: seq<Bytes>)
    ensures a + (b + c) == (a + b) + c
  {
  }

  lemma FeedRest(kind: Kind, f: Framer, part: Bytes)
    ensures LF !in Feed(kind, f, part).buf && |Feed(kind, f, part).buf| <= |f.buf| + |part|
  {
    SplitPartitions(f.buf + part);
  }

  /** The end of the stream flushes the last line, and seeing the end again changes nothing. */
  lemma EndIsSeenOnce(kind: Kind, f: Framer, d: Delivery, again: Delivery)
    requires d.err == EOF && Accepts(f.buf, d)
    requires again == Delivery([], EOF)
    ensures ReadStep(kind, f, d).buf == []
    ensures ReadStep(kind, ReadStep(kind, f, d), again) == ReadStep(kind, f, d)
  {
    var e := Feed(kind, f, d.got);
    FeedTwice(kind, f, d.got, [LF]);
    FeedRest(kind, f, d.got);
    FeedLF(kind, e);
    FlushAgain(kind, ReadStep(kind, f, d));
  }

  lemma FlushAgain(kind: Kind, g: Framer)
    requires g.buf == []
    ensures ReadStep(kind, g, Delivery([], EOF)) == g
  {
    assert Seen(Delivery([], EOF)) == [LF];
    FeedLF(kind, g);
    SelectEmpty(kind);
    assert g.offered + [] == g.offered;
  }

  lemma SelectEmpty(kind: Kind)
    ensures Select(kind, []) == []
  {
  }

  lemma LastLine(rest: Bytes)
    requires LF !in rest
    ensures SplitLines(rest + [LF]) == Split([rest], [])
  {
    UnlinesSnoc([], rest);
    assert [] + [rest] == [rest];
    SplitIs(rest + [LF], [rest], []);
  }

  // ---------- when the bound never bites ----------

  predicate LinesWithin(input: Bytes, max: nat) {
    var s := SplitLines(input);
    |s.rest| <= max && forall i :: 0 <= i < |s.lines| ==> |s.lines[i]| <= max
  }

  lemma LinesWithinPrefix(a: Bytes, b: Bytes, max: nat)
    requires LinesWithin(a + b, max)
    ensures LinesWithin(a, max)
  {
    var x := SplitLines(a);
    var y := SplitLines(x.rest + b);
    SplitAppend(a, b);
    RestGrows(x.rest, b);
    var ls := x.lines + y.lines;
    assert forall i :: 0 <= i < |x.lines| ==> ls[i] == x.lines[i];
    if y.lines != [] { assert ls[|x.lines|] == y.lines[0]; }
    SplitPartitions(a);
  }

  /** The start of an unfinished line stays at the start of the line that it becomes. */
  lemma RestGrows(rest: Bytes, more: Bytes)
    ensures var y := SplitLines(rest + more);
      LF !in rest ==> |rest| <= if y.lines == [] then |y.rest| else |y.lines[0]|
  {
    var s := rest + more;
    var y := SplitLines(s);
    SplitPartitions(s);
    if y.lines == [] {
      assert s == y.rest;
    } else {
      assert s[|y.lines[0]|] == LF;
      assert LF !in rest ==> |y.lines[0]| >= |rest| by {
        assert forall i :: 0 <= i < |rest| ==> s[i] == rest[i];
      }
    }
  }

  /** When a longest line and a largest delivery fit together, no run reports the limit error. */
  lemma {:induction false} NeverLimited(kind: Kind, ds: seq<Delivery>, longest: nat, largest: nat)
    requires longest + largest <= LIMIT
    requires LinesWithin(Flatten(AllSeen(ds)), longest)
    requires forall i :: 0 <= i < |ds| ==> |ds[i].got| <= largest
    ensures AllWithin(kind, ds)
    decreases |ds|
  {
    if ds != [] {
      var n := |ds| - 1;
      StreamSoFar(ds, longest);
      NeverLimited(kind, ds[..n], longest, largest);
      BufferWithinLine(kind, ds[..n], longest);
      AllWithinSnoc(kind, ds);
    }
  }

  lemma AllWithinSnoc(kind: Kind, ds: seq<Delivery>)
    requires ds != [] && AllWithin(kind, ds[..|ds| - 1]) && Within(kind, ds, |ds| - 1)
    ensures AllWithin(kind, ds)
  {
    var es := ds[..|ds| - 1];
    forall i | 0 <= i < |es| ensures Within(kind, ds, i) {
      assert Within(kind, es, i) && es[..i] == ds[..i];
    }
  }

  lemma BufferWithinLine(kind: Kind, ds: seq<Delivery>, longest: nat)
    requires AllWithin(kind, ds) && LinesWithin(Flatten(AllSeen(ds)), longest)
    ensures |RunReads(kind, ds).buf| <= longest
  {
    ReadsSeeOneStream(kind, ds);
    AcceptedAll(kind, ds);
  }

  lemma StreamSoFar(ds: seq<Delivery>, longest: nat)
    requires ds != [] && LinesWithin(Flatten(AllSeen(ds)), longest)
    ensures LinesWithin(Flatten(AllSeen(ds[..|ds| - 1])), longest)
  {
    var n := |ds| - 1;
    var before := AllSeen(ds[..n]);
    assert AllSeen(ds) == before + [Seen(ds[n])];
    FlattenSnoc(before, Seen(ds[n]));
    LinesWithinPrefix(Flatten(before), Seen(ds[n]), longest);
  }

  /** No run makes the buffer longer than the limit. */
  lemma {:induction false} BufferBounded(kind: Kind, ds: seq<Delivery>)
    ensures |RunReads(kind, ds).buf| <= 10_485_760 && LF !in RunReads(kind, ds).buf
    decreases |ds|
  {
    if ds != [] {
      var n := |ds| - 1;
      BufferBounded(kind, ds[..n]);
      StepBounded(kind, RunReads(kind, ds[..n]), ds[n]);
    }
  }

  lemma StepBounded(kind: Kind, f: Framer, d: Delivery)
    requires |f.buf| <= LIMIT && LF !in f.buf
    ensures |ReadStep(kind, f, d).buf| <= LIMIT && LF !in ReadStep(kind, f, d).buf
  {
    if Accepts(f.buf, d) {
      FeedRest(kind, f, d.got);
      if d.err == EOF {
        FeedTwice(kind, f, d.got, [LF]);
        FeedLF(kind, Feed(kind, f, d.got));
      }
    }
  }

  // ---------- the implementation ----------

  lemma NextLine(kind: Kind, lines: seq<Bytes>, buf: Bytes, idx: nat)
    requires idx < |buf| && buf[idx] == LF
    ensures Unlines(lines) + buf == Unlines(lines + [buf[..idx]]) + buf[idx + 1..]
    ensures Offer(kind, lines + [buf[..idx]]) == Offer(kind, lines) + Select(kind, buf[..idx])
  {
    var line := buf[..idx];
    UnlinesSnoc(lines, line);
    assert buf == line + [LF] + buf[idx + 1..];
    assert Unlines(lines) + (line + [LF] + buf[idx + 1..]) == Unlines(lines) + line + [LF] + buf[idx + 1..];
    OfferAppend(kind, lines, [line]);
    OfferOne(kind, line);
  }

  /** bodyInterceptor and streamInterceptor (Read) and socketInterceptor (Write). They differ in
      what they select from a line; only the reading ones have a limit and an end of stream. */
  class Interceptor {
    const kind: Kind
    var buf: Bytes

    ghost predicate Valid()
      reads this
    {
      LF !in buf && (!kind.Socket? ==> |buf| <= LIMIT)
    }

    constructor (kind: Kind)
      ensures Valid() && this.kind == kind && buf == []
    {
      this.kind := kind;
      buf := [];
    }

    /** The loop all three share: cut off line after line and offer what is selected. */
    method TakeLines() returns (offered: seq<Bytes>)
      modifies this`buf
      ensures offered == Offer(kind, SplitLines(old(buf)).lines)
      ensures buf == SplitLines(old(buf)).rest
    {
      offered := [];
      ghost var lines: seq<Bytes> := [];
      while true
        invariant AllLines(lines) && old(buf) == Unlines(lines) + buf
        invariant offered == Offer(kind, lines)
        decreases |buf|
      {
        var idx := IndexByte(buf, LF);
        if idx == -1 {
          break;
        }
        var line := buf[..idx];
        NextLine(kind, lines, buf, idx);
        buf := buf[idx + 1..];
        lines := lines + [line];
        offered := offered + Select(kind, line);
      }
      SplitIs(old(buf), lines, buf);
    }

    /** One read of the wrapped stream, which delivered `d`. */
    method Read(d: Delivery) returns (n: nat, err: Err, offered: seq<Bytes>)
      requires Valid() && !kind.Socket?
      modifies this`buf
      ensures Valid()
      ensures (n, err) ==
        if d.got == [] || |old(buf)| + |d.got| <= 10_485_760 then (|d.got|, d.err) else (0, LimitExceeded)
      ensures Framer(buf, offered) == ReadStep(kind, Framer(old(buf), []), d)
    {
      offered := [];
      n, err := |d.got|, d.err;
      ghost var f := Framer(buf, []);
      StepBounded(kind, f, d);
      if n > 0 {
        if |buf| + n > LIMIT {
          return 0, LimitExceeded, [];
        }
        buf := buf + d.got;
        offered := TakeLines();
      }
      FeedNow(kind, f.buf, d.got);
      assert Framer(buf, offered) == Feed(kind, f, d.got);
      if err == EOF {
        SeenEnd(kind, f, d);
        if |buf| > 0 {
          offered := offered + Select(kind, buf);
          buf := [];
        }
      }
    }

    /** One write, of which the wrapped writer forwarded `forwarded`. */
    method Write(forwarded: Bytes) returns (offered: seq<Bytes>)
      requires Valid() && kind.Socket?
      modifies this`buf
      ensures Valid()
      ensures Framer(buf, offered) == Feed(kind, Framer(old(buf), []), forwarded)
    {
      offered := [];
      FeedNow(kind, buf, forwarded);
      FeedRest(kind, Framer(buf, []), forwarded);
      if |forwarded| > 0 {
        buf := buf + forwarded;
        offered := TakeLines();
      }
    }
  }

  /** Feeding is splitting the buffer with the new bytes; without new bytes it does nothing. */
  lemma FeedNow(kind: Kind, buf: Bytes, got: Bytes)
    requires LF !in buf
    ensures var s := SplitLines(buf + got); Feed(kind, Framer(buf, []), got) == Framer(s.rest, Offer(kind, s.lines))
    ensures got == [] ==> Feed(kind, Framer(buf, []), got) == Framer(buf, [])
  {
    assert [] + Offer(kind, SplitLines(buf + got).lines) == Offer(kind, SplitLines(buf + got).lines);
    if got == [] {
      assert buf + got == buf == Unlines([]) + buf;
      SplitIs(buf, [], buf);
    }
  }

  lemma SeenEnd(kind: Kind, f: Framer, d: Delivery)
    requires d.err == EOF
    ensures var e := Feed(kind, f, d.got);
      Feed(kind, f, Seen(d)) == Framer([], if e.buf == [] then e.offered else e.offered + Select(kind, e.buf))
  {
    var e := Feed(kind, f, d.got);
    FeedTwice(kind, f, d.got, [LF]);
    FeedRest(kind, f, d.got);
    FeedLF(kind, e);
    SelectEmpty(kind);
    assert e.offered + [] == e.offered;
  }
}
