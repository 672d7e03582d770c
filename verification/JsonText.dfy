/** JSON texts as sections 2 and 7 of RFC 8259 print them, and their way through the framer. */
module JsonText {
  import opened Bytes
  import opened JsonFramer

  /** One character of a string: as it is, `\` and a letter, or `\u` and four hex digits. */
  datatype Glyph = Raw(b: Byte) | Short(b: Byte) | Unicode(hex: Bytes)

  /** A value together with the whitespace its printer chose. */
  datatype Json =
    | Token(text: Bytes)
    | Str(glyphs: seq<Glyph>)
    | Arr(lead: Bytes, elems: seq<Elem>)
    | Obj(lead: Bytes, members: seq<Member>)
  datatype Elem = Elem(before: Bytes, value: Json, after: Bytes)
  datatype Member = Member(before: Bytes, key: seq<Glyph>, beforeColon: Bytes, elem: Elem)

  // ---------- the grammar ----------

  predicate IsWhitespace(s: Bytes) {
    forall i :: 0 <= i < |s| ==> s[i] == SPACE || s[i] == 0x09 || s[i] == LF || s[i] == CR
  }

  predicate IsHex(b: Byte) { IsDigit(b) || 0x41 <= b <= 0x46 || 0x61 <= b <= 0x66 }

  /** Digits, sign, point and exponent mark in any order: every number of the RFC and more. */
  predicate IsNumber(s: Bytes) {
    s != [] && forall i :: 0 <= i < |s| ==>
      IsDigit(s[i]) || s[i] == 0x2B || s[i] == 0x2D || s[i] == 0x2E || s[i] == 0x45 || s[i] == 0x65
  }

  const TRUE: Bytes := [0x74, 0x72, 0x75, 0x65]
  const FALSE: Bytes := [0x66, 0x61, 0x6C, 0x73, 0x65]

  predicate IsGlyph(g: Glyph) {
    match g
    case Raw(b) => b >= 0x20 && b != QUOTE && b != BACKSLASH
    case Short(b) =>
      b == QUOTE || b == BACKSLASH || b == 0x2F || b == 0x62 || b == 0x66 || b == 0x6E || b == 0x72 || b == 0x74
    case Unicode(hex) => |hex| == 4 && forall i :: 0 <= i < 4 ==> IsHex(hex[i])
  }

  predicate IsJson(j: Json) {
    match j
    case Token(text) => text == NULL || text == TRUE || text == FALSE || IsNumber(text)
    case Str(glyphs) => forall g <- glyphs :: IsGlyph(g)
    case Arr(lead, elems) => IsWhitespace(lead) && forall e <- elems :: IsElem(e)
    case Obj(lead, members) =>
      IsWhitespace(lead) && forall m <- members :: IsMember(m)
  }

  predicate IsElem(e: Elem) { IsWhitespace(e.before) && IsJson(e.value) && IsWhitespace(e.after) }

  predicate IsMember(m: Member) {
    IsWhitespace(m.before) && (forall g <- m.key :: IsGlyph(g)) && IsWhitespace(m.beforeColon) && IsElem(m.elem)
  }

  // ---------- the printer ----------

  function PrintGlyph(g: Glyph): Bytes {
    match g
    case Raw(b) => [b]
    case Short(b) => [BACKSLASH, b]
    case Unicode(hex) => [BACKSLASH, 0x75] + hex
  }

  function PrintGlyphs(gs: seq<Glyph>): Bytes {
    if gs == [] then [] else PrintGlyph(gs[0]) + PrintGlyphs(gs[1..])
  }

  function PrintString(gs: seq<Glyph>): Bytes { [QUOTE] + PrintGlyphs(gs) + [QUOTE] }

  function Print(j: Json): Bytes {
    match j
    case Token(text) => text
    case Str(glyphs) => PrintString(glyphs)
    case Arr(lead, elems) => [LBRACKET] + (lead + PrintElems(elems)) + [RBRACKET]
    case Obj(lead, members) => [LBRACE] + (lead + PrintMembers(members)) + [RBRACE]
  }

  function PrintElem(e: Elem): Bytes { e.before + Print(e.value) + e.after }

  function CommaIf(more: bool): Bytes { if more then [COMMA] else [] }

  function PrintElems(es: seq<Elem>): Bytes {
    if es == [] then [] else PrintElem(es[0]) + CommaIf(|es| > 1) + PrintElems(es[1..])
  }

  function PrintMembers(ms: seq<Member>): Bytes {
    if ms == [] then [] else PrintMember(ms[0]) + CommaIf(|ms| > 1) + PrintMembers(ms[1..])
  }

  function PrintMember(m: Member): Bytes {
    m.before + PrintString(m.key) + m.beforeColon + [COLON] + PrintElem(m.elem)
  }

  function PrintAll(js: seq<Json>): seq<Bytes> { seq(|js|, i requires 0 <= i < |js| => Print(js[i])) }

  // ---------- what printing does to the scanner ----------

  /** Scanning `t` goes from `s` to `e` and never leaves the brackets open in `s`. */
  ghost predicate Passes(s: Scanner, t: Bytes, e: Scanner) {
    Scan(s, t) == e && forall k :: 0 <= k <= |t| ==> Scan(s, t[..k]).depth >= s.depth
  }

  lemma PassesThen(s: Scanner, t: Bytes, m: Scanner, u: Bytes, e: Scanner)
    requires Passes(s, t, m) && Passes(m, u, e)
    ensures Passes(s, t + u, e)
  {
    ScanAppend(s, t, u);
    assert t[..|t|] == t;
    forall k | 0 <= k <= |t + u| ensures Scan(s, (t + u)[..k]).depth >= s.depth {
      if k <= |t| {
        assert (t + u)[..k] == t[..k];
      } else {
        assert (t + u)[..k] == t + u[..k - |t|];
        ScanAppend(s, t, u[..k - |t|]);
      }
    }
  }

  lemma PassesOne(s: Scanner, b: Byte)
    requires Step(s, b).depth >= s.depth
    ensures Passes(s, [b], Step(s, b))
  {
    assert [b][..0] == [];
    assert Scan(s, [b]) == Step(Scan(s, []), b);
    assert [b][..1] == [b];
  }

  /** Bytes that the scanner does not react to outside strings. */
  predicate IsPlain(t: Bytes) {
    forall i :: 0 <= i < |t| ==> t[i] != BACKSLASH && t[i] != QUOTE && !IsOpener(t[i]) && !IsCloser(t[i])
  }

  lemma {:induction false} PlainPasses(d: nat, t: Bytes)
    requires IsPlain(t)
    ensures Passes(Scanner(d, false, false), t, Scanner(d, false, false))
    decreases |t|
  {
    var s := Scanner(d, false, false);
    if t == [] {
    } else {
      PlainPasses(d, t[..|t| - 1]);
      PassesOne(s, t[|t| - 1]);
      PassesThen(s, t[..|t| - 1], s, [t[|t| - 1]], s);
      assert t == t[..|t| - 1] + [t[|t| - 1]];
    }
  }

  lemma GlyphPasses(d: nat, g: Glyph)
    requires IsGlyph(g)
    ensures Passes(Scanner(d, true, false), PrintGlyph(g), Scanner(d, true, false))
  {
    var s, e := Scanner(d, true, false), Scanner(d, true, true);
    PassesOne(s, BACKSLASH);
    match g
    case Raw(b) =>
      PassesOne(s, b);
    case Short(b) =>
      PassesOne(e, b);
      PassesThen(s, [BACKSLASH], e, [b], s);
      assert [BACKSLASH] + [b] == [BACKSLASH, b];
    case Unicode(hex) =>
      PassesOne(e, 0x75);
      PassesThen(s, [BACKSLASH], e, [0x75], s);
      assert [BACKSLASH] + [0x75] == [BACKSLASH, 0x75];
      HexPasses(d, hex);
      PassesThen(s, [BACKSLASH, 0x75], s, hex, s);
  }

  lemma {:induction false} HexPasses(d: nat, hex: Bytes)
    requires forall i :: 0 <= i < |hex| ==> IsHex(hex[i])
    ensures Passes(Scanner(d, true, false), hex, Scanner(d, true, false))
    decreases |hex|
  {
    var s := Scanner(d, true, false);
    if hex != [] {
      var n := |hex| - 1;
      HexPasses(d, hex[..n]);
      PassesOne(s, hex[n]);
      PassesThen(s, hex[..n], s, [hex[n]], s);
      assert hex == hex[..n] + [hex[n]];
    }
  }

  lemma {:induction false} GlyphsPass(d: nat, gs: seq<Glyph>)
    requires forall g <- gs :: IsGlyph(g)
    ensures Passes(Scanner(d, true, false), PrintGlyphs(gs), Scanner(d, true, false))
  {
    var s := Scanner(d, true, false);
    if gs != [] {
      GlyphPasses(d, gs[0]);
      GlyphsPass(d, gs[1..]);
      PassesThen(s, PrintGlyph(gs[0]), s, PrintGlyphs(gs[1..]), s);
    }
  }

  lemma StringPasses(d: nat, gs: seq<Glyph>)
    requires forall g <- gs :: IsGlyph(g)
    ensures Passes(Scanner(d, false, false), PrintString(gs), Scanner(d, false, false))
  {
    var s, e := Scanner(d, false, false), Scanner(d, true, false);
    PassesOne(s, QUOTE);
    GlyphsPass(d, gs);
    PassesThen(s, [QUOTE], e, PrintGlyphs(gs), e);
    PassesOne(e, QUOTE);
    PassesThen(s, [QUOTE] + PrintGlyphs(gs), e, [QUOTE], s);
  }

  /** Brackets around something that keeps the scanner inside them. */
  lemma BracketsPass(d: nat, open: Byte, t: Bytes, close: Byte)
    requires IsOpener(open) && IsCloser(close)
    requires Passes(Scanner(d + 1, false, false), t, Scanner(d + 1, false, false))
    ensures Passes(Scanner(d, false, false), [open] + t + [close], Scanner(d, false, false))
    ensures d == 0 ==> IsText([open] + t + [close])
  {
    var s, e := Scanner(d, false, false), Scanner(d + 1, false, false);
    PassesOne(s, open);
    PassesThen(s, [open], e, t, e);
    var u := [open] + t;
    assert u[..|u|] == u;
    forall k | 0 < k <= |u| ensures Scan(s, u[..k]).depth > d {
      assert u[..k] == [open] + t[..k - 1];
      ScanAppend(s, [open], t[..k - 1]);
      assert Scan(s, [open]) == e;
    }
    ScanSnoc(s, u, close);
    var v := u + [close];
    assert v[..|v|] == v;
    assert forall k :: 0 <= k <= |u| ==> v[..k] == u[..k];
    assert Scan(s, u[..0]) == s;
  }

  lemma ThenPlain(d: nat, t: Bytes, p: Bytes)
    requires Passes(Scanner(d, false, false), t, Scanner(d, false, false)) && IsPlain(p)
    ensures Passes(Scanner(d, false, false), t + p, Scanner(d, false, false))
    ensures Passes(Scanner(d, false, false), p + t, Scanner(d, false, false))
  {
    var s := Scanner(d, false, false);
    PlainPasses(d, p);
    PassesThen(s, t, s, p, s);
    PassesThen(s, p, s, t, s);
  }

  /** Printing any value at any depth returns the scanner to that depth, never going below it. */
  lemma {:induction false} JsonPasses(d: nat, j: Json)
    requires IsJson(j)
    ensures Passes(Scanner(d, false, false), Print(j), Scanner(d, false, false))
    ensures d == 0 && (j.Arr? || j.Obj?) ==> IsText(Print(j))
    decreases j, 1
  {
    match j
    case Token(text) =>
      PlainPasses(d, text);
    case Str(glyphs) =>
      StringPasses(d, glyphs);
    case Arr(lead, elems) =>
      ElemsPass(d + 1, elems);
      ThenPlain(d + 1, PrintElems(elems), lead);
      BracketsPass(d, LBRACKET, lead + PrintElems(elems), RBRACKET);
    case Obj(lead, members) =>
      MembersPass(d + 1, members);
      ThenPlain(d + 1, PrintMembers(members), lead);
      BracketsPass(d, LBRACE, lead + PrintMembers(members), RBRACE);
  }

  lemma {:induction false} ElemPasses(d: nat, e: Elem)
    requires IsElem(e)
    ensures Passes(Scanner(d, false, false), PrintElem(e), Scanner(d, false, false))
    decreases e, 1
  {
    JsonPasses(d, e.value);
    ThenPlain(d, Print(e.value), e.before);
    ThenPlain(d, e.before + Print(e.value), e.after);
  }

  lemma {:induction false} ElemsPass(d: nat, es: seq<Elem>)
    requires forall e <- es :: IsElem(e)
    ensures Passes(Scanner(d, false, false), PrintElems(es), Scanner(d, false, false))
    decreases es, 0
  {
    var s := Scanner(d, false, false);
    if es == [] {
      PlainPasses(d, []);
    } else {
      ElemPasses(d, es[0]);
      ThenPlain(d, PrintElem(es[0]), CommaIf(|es| > 1));
      ElemsPass(d, es[1..]);
      PassesThen(s, PrintElem(es[0]) + CommaIf(|es| > 1), s, PrintElems(es[1..]), s);
    }
  }

  lemma {:induction false} MemberPasses(d: nat, m: Member)
    requires IsMember(m)
    ensures Passes(Scanner(d, false, false), PrintMember(m), Scanner(d, false, false))
    decreases m, 1
  {
    var s := Scanner(d, false, false);
    var name := m.before + PrintString(m.key);
    StringPasses(d, m.key);
    ThenPlain(d, PrintString(m.key), m.before);
    ThenPlain(d, name, m.beforeColon);
    ThenPlain(d, name + m.beforeColon, [COLON]);
    ElemPasses(d, m.elem);
    PassesThen(s, name + m.beforeColon + [COLON], s, PrintElem(m.elem), s);
  }

  lemma {:induction false} MembersPass(d: nat, ms: seq<Member>)
    requires forall m <- ms :: IsMember(m)
    ensures Passes(Scanner(d, false, false), PrintMembers(ms), Scanner(d, false, false))
    decreases ms, 0
  {
    var s := Scanner(d, false, false);
    if ms == [] {
      PlainPasses(d, []);
    } else {
      MemberPasses(d, ms[0]);
      ThenPlain(d, PrintMember(ms[0]), CommaIf(|ms| > 1));
      MembersPass(d, ms[1..]);
      PassesThen(s, PrintMember(ms[0]) + CommaIf(|ms| > 1), s, PrintMembers(ms[1..]), s);
    }
  }

  // ---------- the round trip ----------

  function Openers(s: Bytes): nat {
    if s == [] then 0 else (if IsOpener(s[0]) then 1 else 0) + Openers(s[1..])
  }

  lemma {:induction false} OpenersAppend(s: Bytes, t: Bytes)
    ensures Openers(s + t) == Openers(s) + Openers(t)
  {
    if s == [] {
      assert s + t == t;
    } else {
      OpenersAppend(s[1..], t);
      assert (s + t)[1..] == s[1..] + t;
    }
  }

  lemma {:induction false} NoOpeners(s: Bytes)
    ensures Openers(s) == 0 <==> IsGap(s)
  {
    if s != [] {
      NoOpeners(s[1..]);
      assert s == [s[0]] + s[1..];
      assert IsGap(s) <==> !IsOpener(s[0]) && IsGap(s[1..]);
    }
  }

  function OpenersIn(parts: seq<Bytes>): nat {
    if parts == [] then 0 else Openers(parts[0]) + OpenersIn(parts[1..])
  }

  lemma {:induction false} NoOpenersIn(parts: seq<Bytes>)
    ensures OpenersIn(parts) == 0 <==> forall i :: 0 <= i < |parts| ==> IsGap(parts[i])
  {
    if parts != [] {
      NoOpenersIn(parts[1..]);
      NoOpeners(parts[0]);
      assert forall i :: 0 < i < |parts| ==> parts[i] == parts[1..][i - 1];
    }
  }

  lemma {:induction false} WeaveOpeners(gaps: seq<Bytes>, texts: seq<Bytes>)
    requires |gaps| == |texts| + 1
    ensures Openers(Weave(gaps, texts)) == OpenersIn(gaps) + OpenersIn(texts)
    decreases |texts|
  {
    if texts == [] {
      assert gaps[1..] == [];
    } else {
      WeaveOpeners(gaps[1..], texts[1..]);
      OpenersAppend(gaps[0], texts[0]);
      OpenersAppend(gaps[0] + texts[0], Weave(gaps[1..], texts[1..]));
    }
  }

  /** Printed objects and arrays with other output between them come back exactly as printed,
      in order and with nothing left buffered, wherever the stream was cut into chunks, if and
      only if the other output has no opening bracket. */
  lemma {:induction false} RoundTrip(gaps: seq<Bytes>, values: seq<Json>, chunks: seq<Bytes>)
    requires |gaps| == |values| + 1
    requires forall i :: 0 <= i < |values| ==> IsJson(values[i]) && (values[i].Arr? || values[i].Obj?)
    requires Flatten(chunks) == Weave(gaps, PrintAll(values))
    ensures DrainChunks(chunks) == Drain(PrintAll(values), [])
      <==> forall i :: 0 <= i < |gaps| ==> IsGap(gaps[i])
  {
    var input, texts := Flatten(chunks), PrintAll(values);
    assert input + [] == input;
    CutAnywhere(chunks);
    if forall i :: 0 <= i < |gaps| ==> IsGap(gaps[i]) {
      forall i | 0 <= i < |texts| ensures IsText(texts[i]) {
        JsonPasses(0, values[i]);
      }
      assert Partition(input, gaps, texts, []);
      FramesCollect(input, texts, []);
    }
    if DrainChunks(chunks) == Drain(texts, []) {
      CollectFrames(input);
      var hs :| Partition(input, hs, texts, []);
      assert input == Weave(hs, texts);
      WeaveOpeners(gaps, texts);
      WeaveOpeners(hs, texts);
      NoOpenersIn(hs);
      NoOpenersIn(gaps);
    }
  }
}
