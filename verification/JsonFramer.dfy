/** The framer of internal/transport/ebpf_parser.go that cuts a byte stream into
    bracket-balanced texts, rescanning its buffer from the start at every call. */
module JsonFramer {
  import opened Bytes

  // ---------- the scanner ----------

  datatype Scanner = Scanner(depth: int, inString: bool, escape: bool)

  const START := Scanner(0, false, false)

  predicate IsOpener(b: Byte) { b == LBRACE || b == LBRACKET }
  predicate IsCloser(b: Byte) { b == RBRACE || b == RBRACKET }

  function Step(s: Scanner, b: Byte): Scanner {
    if s.escape then s.(escape := false)
    else if b == BACKSLASH then s.(escape := true)
    else if b == QUOTE then s.(inString := !s.inString)
    else if s.inString then s
    else if IsOpener(b) then s.(depth := s.depth + 1)
    else if IsCloser(b) then s.(depth := s.depth - 1)
    else s
  }

  function Scan(s: Scanner, t: Bytes): Scanner {
    if t == [] then s else Step(Scan(s, t[..|t| - 1]), t[|t| - 1])
  }

  lemma {:induction false} ScanSnoc(s: Scanner, t: Bytes, b: Byte)
    ensures Scan(s, t + [b]) == Step(Scan(s, t), b)
  {
    assert (t + [b])[..|t|] == t;
  }

  lemma {:induction false} ScanAppend(s: Scanner, t: Bytes, u: Bytes)
    ensures Scan(s, t + u) == Scan(Scan(s, t), u)
    decreases |u|
  {
    if u == [] {
      assert t + u == t;
    } else {
      var n := |u| - 1;
      ScanAppend(s, t, u[..n]);
      assert t + u == (t + u[..n]) + [u[n]];
      ScanSnoc(s, t + u[..n], u[n]);
    }
  }

  /** A backslash, inside a string or outside, hides the next byte, whatever it is. */
  lemma BackslashHides(s: Scanner, b: Byte)
    requires !s.escape
    ensures Scan(s, [0x5C, b]) == s
  {
    var t: Bytes := [0x5C, b];
    assert t[..1] == [0x5C] && t[..1][..0] == [];
    assert Scan(s, t[..1]) == Step(s, 0x5C);
  }

  /** Between quotes brackets do not count, and outside any closer undoes any opener. */
  lemma BracketsCount(depth: int, open: Byte, close: Byte)
    requires open == 0x7B || open == 0x5B
    requires close == 0x7D || close == 0x5D
    ensures var s := Scanner(depth, false, false);
      && Scan(s, [open]).depth == depth + 1 && Scan(s, [open, close]) == s
      && Scan(s, [0x22, open, 0x22]) == s && Scan(s, [0x22, close, 0x22]) == s
  {
    var s := Scanner(depth, false, false);
    ScanTwo(s, open, close);
    ScanThree(s, 0x22, open, 0x22);
    ScanThree(s, 0x22, close, 0x22);
  }

  /** All bytes but quotes, backslashes and the four brackets pass the scanner by and belong to a gap. */
  lemma OtherBytesPass(s: Scanner, b: Byte)
    requires !s.escape && b != 0x22 && b != 0x5C && b != 0x7B && b != 0x7D && b != 0x5B && b != 0x5D
    ensures Scan(s, [b]) == s && IsGap([b])
  {
    assert [b][..0] == [];
  }

  lemma ScanTwo(s: Scanner, a: Byte, b: Byte)
    ensures Scan(s, [a]) == Step(s, a) && Scan(s, [a, b]) == Step(Step(s, a), b)
  {
    assert [a, b][..1] == [a] && [a][..0] == [];
  }

  lemma ScanThree(s: Scanner, a: Byte, b: Byte, c: Byte)
    ensures Scan(s, [a, b, c]) == Step(Step(Step(s, a), b), c)
  {
    ScanTwo(s, a, b);
    assert [a, b, c][..2] == [a, b];
  }

  // ---------- what a correct framing is ----------

  predicate IsGap(g: Bytes) { forall i :: 0 <= i < |g| ==> !IsOpener(g[i]) }

  /** The scanner stays inside the brackets on every nonempty prefix of `t` up to length `n`. */
  ghost predicate Inside(t: Bytes, n: nat)
    requires n <= |t|
  {
    forall k :: 0 < k <= n ==> Scan(START, t[..k]).depth > 0
  }

  /** A text begins at an opener and ends where the depth is zero for the first time. */
  ghost predicate IsText(t: Bytes) {
    t != [] && IsOpener(t[0]) && Scan(START, t).depth == 0 && Inside(t, |t| - 1)
  }

  /** What may stay buffered: nothing, or an opener whose bracket never closes. */
  ghost predicate IsPartial(r: Bytes) {
    r == [] || (IsOpener(r[0]) && Inside(r, |r|))
  }

  /** gap, text, gap, text, ..., gap */
  function Weave(gaps: seq<Bytes>, texts: seq<Bytes>): Bytes
    requires |gaps| == |texts| + 1
    decreases |texts|
  {
    if texts == [] then gaps[0] else gaps[0] + texts[0] + Weave(gaps[1..], texts[1..])
  }

  /** `input` is an ordered partition into gaps, texts and a residual. */
  ghost predicate Partition(input: Bytes, gaps: seq<Bytes>, texts: seq<Bytes>, residual: Bytes) {
    && |gaps| == |texts| + 1
    && (forall i :: 0 <= i < |gaps| ==> IsGap(gaps[i]))
    && (forall i :: 0 <= i < |texts| ==> IsText(texts[i]))
    && IsPartial(residual)
    && input == Weave(gaps, texts) + residual
  }

  ghost predicate Frames(input: Bytes, texts: seq<Bytes>, residual: Bytes) {
    exists gaps :: Partition(input, gaps, texts, residual)
  }

  lemma FramesNil(g: Bytes, r: Bytes)
    requires IsGap(g) && IsPartial(r)
    ensures Frames(g + r, [], r)
  {
    assert Partition(g + r, [g], [], r);
  }

  lemma FramesCons(g: Bytes, t: Bytes, rest: Bytes, texts: seq<Bytes>, r: Bytes)
    requires IsGap(g) && IsText(t) && Frames(rest, texts, r)
    ensures Frames(g + t + rest, [t] + texts, r)
  {
    var gaps :| Partition(rest, gaps, texts, r);
    assert ([g] + gaps)[1..] == gaps && ([t] + texts)[1..] == texts;
    assert g + t + (Weave(gaps, texts) + r) == (g + t + Weave(gaps, texts)) + r;
    assert Partition(g + t + rest, [g] + gaps, [t] + texts, r);
  }

  // ---------- there is only one framing ----------

  /** A gap followed by an opener ends exactly there. */
  lemma SameGap(g: Bytes, x: Bytes, h: Bytes, y: Bytes)
    requires IsGap(g) && IsGap(h) && g + x == h + y
    requires x != [] && IsOpener(x[0])
    requires y == [] || IsOpener(y[0])
    ensures g == h && x == y
  {
    var s := g + x;
    assert s[|g|] == x[0] && (y != [] ==> s[|h|] == y[0]);
    assert forall i :: 0 <= i < |g| ==> s[i] == g[i];
    assert forall i :: 0 <= i < |h| ==> s[i] == h[i];
    assert |g| == |h|;
    assert g == (g + x)[..|g|] && h == (h + y)[..|h|];
    assert x == (g + x)[|g|..] && y == (h + y)[|h|..];
  }

  /** No text is a proper prefix of another, nor a prefix of something unbalanced. */
  lemma TextIsShortest(t: Bytes, x: Bytes, n: nat)
    requires IsText(t) && t <= x && n <= |x| && Inside(x, n)
    ensures n < |t|
  {
    assert x[..|t|] == t;
  }

  /** Two partitions that both find a text find the same one in the same place. */
  lemma SameFirstText(g: Bytes, t: Bytes, x: Bytes, h: Bytes, u: Bytes, y: Bytes)
    requires IsGap(g) && IsText(t) && IsGap(h) && IsText(u)
    requires g + t + x == h + u + y
    ensures g == h && t == u && x == y
  {
    assert g + (t + x) == g + t + x && h + (u + y) == h + u + y;
    SameGap(g, t + x, h, u + y);
    var s := t + x;
    assert forall k :: 0 <= k <= |t| ==> s[..k] == t[..k];
    assert forall k :: 0 <= k <= |u| ==> (u + y)[..k] == u[..k];
    assert t <= s && u <= s;
    TextIsShortest(t, s, |u| - 1);
    TextIsShortest(u, s, |t| - 1);
    assert t == s[..|t|] && u == s[..|u|] && x == s[|t|..] && y == s[|u|..];
  }

  lemma TextAgainstPartial(g: Bytes, t: Bytes, x: Bytes, h: Bytes, r: Bytes)
    requires IsGap(g) && IsText(t) && IsGap(h)
    requires g + t + x == h + r
    ensures !IsPartial(r)
  {
    if IsPartial(r) {
      assert g + (t + x) == g + t + x;
      SameGap(g, t + x, h, r);
      TextIsShortest(t, r, |r|);
    }
  }

  lemma {:induction false} FramesUnique(input: Bytes, ts: seq<Bytes>, r: Bytes, us: seq<Bytes>, q: Bytes)
    requires Frames(input, ts, r) && Frames(input, us, q)
    ensures ts == us && r == q
    decreases |ts|
  {
    var gs :| Partition(input, gs, ts, r);
    var hs :| Partition(input, hs, us, q);
    if ts == [] && us == [] {
      if r != [] { SameGap(gs[0], r, hs[0], q); }
      else if q != [] { SameGap(hs[0], q, gs[0], r); }
    } else if ts == [] {
      PeelFirst(input, hs, us, q);
      TextAgainstPartial(hs[0], us[0], Weave(hs[1..], us[1..]) + q, gs[0], r);
    } else if us == [] {
      PeelFirst(input, gs, ts, r);
      TextAgainstPartial(gs[0], ts[0], Weave(gs[1..], ts[1..]) + r, hs[0], q);
    } else {
      var x, y := Weave(gs[1..], ts[1..]) + r, Weave(hs[1..], us[1..]) + q;
      PeelFirst(input, gs, ts, r);
      PeelFirst(input, hs, us, q);
      SameFirstText(gs[0], ts[0], x, hs[0], us[0], y);
      FramesUnique(x, ts[1..], r, us[1..], q);
      assert ts == [ts[0]] + ts[1..] && us == [us[0]] + us[1..];
    }
  }

  lemma PeelFirst(input: Bytes, gs: seq<Bytes>, ts: seq<Bytes>, r: Bytes)
    requires ts != [] && Partition(input, gs, ts, r)
    ensures var rest := Weave(gs[1..], ts[1..]) + r;
            input == gs[0] + ts[0] + rest && Partition(rest, gs[1..], ts[1..], r) && Frames(rest, ts[1..], r)
  {
    var rest := Weave(gs[1..], ts[1..]) + r;
    assert gs[0] + ts[0] + rest == (gs[0] + ts[0] + Weave(gs[1..], ts[1..])) + r;
    assert Partition(rest, gs[1..], ts[1..], r);
  }

  // ---------- the stream may be cut anywhere ----------

  /** A gap in front joins the first gap. */
  lemma FramesGap(g: Bytes, input: Bytes, us: seq<Bytes>, q: Bytes)
    requires IsGap(g) && Frames(input, us, q)
    ensures Frames(g + input, us, q)
  {
    var hs :| Partition(input, hs, us, q);
    var ks := [g + hs[0]] + hs[1..];
    assert ks[1..] == hs[1..];
    WeaveGap(g, hs, ks, us);
    assert g + input == g + (Weave(hs, us) + q) == (g + Weave(hs, us)) + q;
    assert Partition(g + input, ks, us, q);
  }

  lemma Regroup(g: Bytes, h: Bytes, u: Bytes, w: Bytes)
    ensures (g + h) + u + w == g + (h + u + w)
  {
  }

  lemma WeaveGap(g: Bytes, hs: seq<Bytes>, ks: seq<Bytes>, us: seq<Bytes>)
    requires |hs| == |us| + 1 && |ks| == |hs| && ks[0] == g + hs[0] && ks[1..] == hs[1..]
    ensures Weave(ks, us) == g + Weave(hs, us)
  {
    if us != [] {
      Regroup(g, hs[0], us[0], Weave(hs[1..], us[1..]));
    }
  }

  lemma {:induction false} FramesAppend(a: Bytes, ts: seq<Bytes>, r: Bytes, b: Bytes, us: seq<Bytes>, q: Bytes)
    requires Frames(a, ts, r) && Frames(r + b, us, q)
    ensures Frames(a + b, ts + us, q)
    decreases |ts|
  {
    var gs :| Partition(a, gs, ts, r);
    if ts == [] {
      FramesGap(gs[0], r + b, us, q);
      assert a + b == gs[0] + (r + b) && ts + us == us;
    } else {
      var rest := Weave(gs[1..], ts[1..]) + r;
      PeelFirst(a, gs, ts, r);
      FramesAppend(rest, ts[1..], r, b, us, q);
      FramesCons(gs[0], ts[0], rest + b, ts[1..] + us, q);
      assert a + b == gs[0] + ts[0] + (rest + b);
      assert ts + us == [ts[0]] + (ts[1..] + us);
    }
  }

  // ---------- the one-pass reference ----------

  /** A framer that looks at each byte once and carries the scanner from byte to byte. */
  datatype Collector = Collector(texts: seq<Bytes>, pending: Bytes, scanner: Scanner)

  function Feed(c: Collector, b: Byte): Collector {
    if c.pending == [] && !IsOpener(b) then c
    else
      var p, s := c.pending + [b], Step(c.scanner, b);
      if s.depth == 0 then Collector(c.texts + [p], [], START) else Collector(c.texts, p, s)
  }

  function Collect(input: Bytes): Collector {
    if input == [] then Collector([], [], START)
    else Feed(Collect(input[..|input| - 1]), input[|input| - 1])
  }

  lemma InsideSnoc(p: Bytes, b: Byte)
    requires Inside(p, |p|)
    ensures Inside(p + [b], |p|)
  {
    forall k | 0 < k <= |p| ensures Scan(START, (p + [b])[..k]).depth > 0 {
      assert (p + [b])[..k] == p[..k];
    }
  }

  lemma InsidePrefix(t: Bytes, n: nat, u: Bytes)
    requires u <= t && n <= |u| && Inside(t, n)
    ensures Inside(u, n)
  {
    assert forall k :: 0 <= k <= |u| ==> u[..k] == t[..k];
  }

  /** One more byte after a partial text: still a gap, a complete text, or still partial. */
  lemma GrowPartial(p: Bytes, b: Byte)
    requires IsPartial(p) && (p == [] ==> IsOpener(b))
    ensures Scan(START, p + [b]) == Step(Scan(START, p), b)
    ensures if Scan(START, p + [b]).depth == 0 then IsText(p + [b]) else IsPartial(p + [b])
  {
    var q := p + [b];
    ScanSnoc(START, p, b);
    InsideSnoc(p, b);
    assert IsOpener(q[0]) && p[..|p|] == p && q[..|q|] == q;
    assert p != [] ==> Scan(START, p).depth > 0;
  }

  lemma FeedFrames(p: Bytes, b: Byte)
    requires IsPartial(p)
    ensures var c := Feed(Collector([], p, Scan(START, p)), b);
            Frames(p + [b], c.texts, c.pending) && c.scanner == Scan(START, c.pending)
  {
    var q, e: Bytes := p + [b], [];
    FramesNil(e, e);
    assert e + e == e && e + q == q && q + e == q;
    if p == [] && !IsOpener(b) {
      FramesNil(q, e);
    } else {
      GrowPartial(p, b);
      if Scan(START, q).depth == 0 {
        FramesCons(e, q, e, [], e);
        assert [q] + [] == [q] && [] + [q] == [q];
      } else {
        FramesNil(e, q);
      }
    }
  }

  lemma FeedKeepsTexts(c: Collector, b: Byte)
    ensures Feed(c, b) == var d := Feed(c.(texts := []), b); d.(texts := c.texts + d.texts)
  {
    assert c.texts + [] == c.texts;
    var p := c.pending + [b];
    assert [] + [p] == [p];
  }

  /** The one-pass reference computes the framing of its input. */
  lemma {:induction false} CollectFrames(input: Bytes)
    ensures var c := Collect(input);
            Frames(input, c.texts, c.pending) && c.scanner == Scan(START, c.pending)
    decreases |input|
  {
    if input == [] {
      FramesNil([], []);
      assert [] + input == input;
    } else {
      var n := |input| - 1;
      CollectFrames(input[..n]);
      var c := Collect(input[..n]);
      CollectOneMore(input[..n], c, input[n]);
      assert input == input[..n] + [input[n]];
    }
  }

  lemma CollectOneMore(input: Bytes, c: Collector, b: Byte)
    requires Frames(input, c.texts, c.pending) && c.scanner == Scan(START, c.pending)
    ensures var d := Feed(c, b);
            Frames(input + [b], d.texts, d.pending) && d.scanner == Scan(START, d.pending)
  {
    var gs :| Partition(input, gs, c.texts, c.pending);
    var d := Feed(c.(texts := []), b);
    FeedFrames(c.pending, b);
    FeedKeepsTexts(c, b);
    FramesAppend(input, c.texts, c.pending, [b], d.texts, d.pending);
  }

  lemma FramesCollect(input: Bytes, texts: seq<Bytes>, residual: Bytes)
    requires Frames(input, texts, residual)
    ensures texts == Collect(input).texts && residual == Collect(input).pending
  {
    CollectFrames(input);
    FramesUnique(input, texts, residual, Collect(input).texts, Collect(input).pending);
  }

  /** A second call right after the first finds nothing and keeps the buffer. */
  lemma {:induction false} SecondCallIsIdle(input: Bytes)
    ensures Collect(Collect(input).pending) == Collect(input).(texts := [])
  {
    var c := Collect(input);
    var d := Collect(c.pending);
    CollectFrames(input);
    CollectFrames(c.pending);
    FramesNil([], c.pending);
    assert [] + c.pending == c.pending;
    FramesUnique(c.pending, [], c.pending, d.texts, d.pending);
  }

  // ---------- one extraction after every chunk ----------

  datatype Drain = Drain(texts: seq<Bytes>, residual: Bytes)

  /** Appending one chunk to the residual and extracting again. */
  function Extract(d: Drain, chunk: Bytes): Drain {
    var c := Collect(d.residual + chunk);
    Drain(d.texts + c.texts, c.pending)
  }

  function DrainChunks(chunks: seq<Bytes>): Drain {
    if chunks == [] then Drain([], []) else Extract(DrainChunks(chunks[..|chunks| - 1]), chunks[|chunks| - 1])
  }

  /** However the stream was cut, rescanning gives what one pass over the whole stream gives. */
  lemma {:induction false} CutAnywhere(chunks: seq<Bytes>)
    ensures var c := Collect(Flatten(chunks)); DrainChunks(chunks) == Drain(c.texts, c.pending)
    decreases |chunks|
  {
    if chunks != [] {
      var n := |chunks| - 1;
      var before := Flatten(chunks[..n]);
      CutAnywhere(chunks[..n]);
      var d := DrainChunks(chunks[..n]);
      var c := Collect(d.residual + chunks[n]);
      CollectFrames(before);
      CollectFrames(d.residual + chunks[n]);
      FramesAppend(before, d.texts, d.residual, chunks[n], c.texts, c.pending);
      FramesCollect(Flatten(chunks), d.texts + c.texts, c.pending);
    }
  }
}
