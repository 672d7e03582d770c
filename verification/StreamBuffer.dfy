/** The buffer of internal/transport/ebpf_parser.go and its two extractors. */
module StreamBuffers {
  import opened Bytes
  import opened JsonFramer
  import opened Lines

  /** Go's bytes.IndexAny(data, "{["). */
  function IndexOpener(s: Bytes): (i: int)
    ensures -1 <= i < |s|
    ensures i == -1 <==> IsGap(s)
    ensures i >= 0 ==> IsOpener(s[i]) && IsGap(s[..i])
  {
    if s == [] then -1
    else if IsOpener(s[0]) then 0
    else
      var i := IndexOpener(s[1..]);
      assert forall k :: 0 < k < |s| ==> s[k] == s[1..][k - 1];
      assert i >= 0 ==> forall k :: 0 < k < i + 1 ==> s[k] == s[1..][..i][k - 1];
      if i == -1 then -1 else i + 1
  }

  /** A line without the carriage return that may end it. */
  function DropCR(line: Bytes): Bytes {
    if line != [] && line[|line| - 1] == CR then line[..|line| - 1] else line
  }

  /** The text has no carriage return at its end. */
  predicate EndsPlain(text: Bytes) { text != [] ==> text[|text| - 1] != 0x0D }

  /** One carriage return goes, if there is one, and nothing else. */
  lemma DropCRIs(text: Bytes)
    ensures DropCR(text + [0x0D]) == text
    ensures EndsPlain(text) ==> DropCR(text) == text
  {
    assert (text + [0x0D])[..|text|] == text;
  }

  /** Each line is its text, or its text and a carriage return. */
  predicate Terminates(lines: seq<Bytes>, texts: seq<Bytes>) {
    |lines| == |texts| && forall i :: 0 <= i < |texts| ==>
      (lines[i] == texts[i] && EndsPlain(texts[i])) || lines[i] == texts[i] + [0x0D]
  }

  lemma DropCRsAre(lines: seq<Bytes>, texts: seq<Bytes>)
    requires Terminates(lines, texts)
    ensures DropCRs(lines) == texts
  {
    forall i | 0 <= i < |texts| ensures DropCRs(lines)[i] == texts[i] {
      DropCRIs(texts[i]);
    }
  }

  function DropCRs(lines: seq<Bytes>): seq<Bytes> { seq(|lines|, i requires 0 <= i < |lines| => DropCR(lines[i])) }

  lemma DropCRsAppend(xs: seq<Bytes>, ys: seq<Bytes>)
    ensures DropCRs(xs + ys) == DropCRs(xs) + DropCRs(ys)
  {
    assert DropCRs(xs + ys) == DropCRs(xs) + DropCRs(ys);
  }

  lemma OneMoreLine(raw: seq<Bytes>, buf: Bytes, idx: nat)
    requires idx < |buf| && buf[idx] == LF
    ensures Unlines(raw) + buf == Unlines(raw + [buf[..idx]]) + buf[idx + 1..]
    ensures DropCRs(raw + [buf[..idx]]) == DropCRs(raw) + [DropCR(buf[..idx])]
  {
    var line, rest := buf[..idx], buf[idx + 1..];
    UnlinesSnoc(raw, line);
    assert buf == line + [LF] + rest;
    assert Unlines(raw) + (line + [LF] + rest) == Unlines(raw) + line + [LF] + rest;
    DropCRsAppend(raw, [line]);
  }

  /** Framing `buf` from here on completes the framing of `input`. */
  ghost predicate Resumes(input: Bytes, messages: seq<Bytes>, buf: Bytes) {
    forall ts, r :: Frames(buf, ts, r) ==> Frames(input, messages + ts, r)
  }

  lemma ResumesAtStart(input: Bytes)
    ensures Resumes(input, [], input)
  {
    assert forall ts: seq<Bytes> :: [] + ts == ts;
  }

  lemma ResumesAfter(input: Bytes, messages: seq<Bytes>, g: Bytes, t: Bytes, rest: Bytes)
    requires Resumes(input, messages, g + t + rest) && IsGap(g) && IsText(t)
    ensures Resumes(input, messages + [t], rest)
  {
    forall ts, r | Frames(rest, ts, r) ensures Frames(input, messages + [t] + ts, r) {
      FramesCons(g, t, rest, ts, r);
      assert messages + [t] + ts == messages + ([t] + ts);
    }
  }

  lemma ResumesAtEnd(input: Bytes, messages: seq<Bytes>, g: Bytes, r: Bytes)
    requires Resumes(input, messages, g + r) && IsGap(g) && IsPartial(r)
    ensures Frames(input, messages, r)
  {
    FramesNil(g, r);
    assert messages + [] == messages;
  }

  /** The scanner after one more byte: a text is complete, or is still inside its brackets. */
  lemma OneMoreByte(data: Bytes, i: nat)
    requires i < |data| && IsOpener(data[0]) && Inside(data, i)
    ensures var s := Step(Scan(START, data[..i]), data[i]);
      && Scan(START, data[..i + 1]) == s && s.depth >= 0
      && if s.depth == 0 then IsText(data[..i + 1]) else Inside(data, i + 1)
  {
    ScanSnoc(START, data[..i], data[i]);
    assert data[..i] + [data[i]] == data[..i + 1];
    assert if i == 0 then data[..i] == [] else Scan(START, data[..i]).depth > 0;
    InsidePrefix(data, i, data[..i + 1]);
  }

  class StreamBuffer {
    var buf: Bytes

    constructor ()
      ensures buf == []
    {
      buf := [];
    }

    method Write(chunk: Bytes)
      modifies this
      ensures buf == old(buf) + chunk
    {
      buf := buf + chunk;
    }

    /** The framing of the old buffer is the messages returned and the buffer left behind. */
    method ExtractJSON() returns (messages: seq<Bytes>)
      modifies this
      ensures Frames(old(buf), messages, buf)
      ensures messages == Collect(old(buf)).texts && buf == Collect(old(buf)).pending
    {
      messages := [];
      ResumesAtStart(buf);
      while buf != []
        invariant Resumes(old(buf), messages, buf)
        decreases |buf|
      {
        var data := buf;
        var startIdx := IndexOpener(data);
        if startIdx == -1 {
          assert buf + [] == buf;
          ResumesAtEnd(old(buf), messages, buf, []);
          FramesCollect(old(buf), messages, []);
          buf := [];
          return;
        }
        if startIdx > 0 {
          buf := buf[startIdx..];
        }
        assert data == data[..startIdx] + buf;
        var end := TextEnd(buf);
        if end == 0 {
          ResumesAtEnd(old(buf), messages, data[..startIdx], buf);
          FramesCollect(old(buf), messages, buf);
          return;
        }
        assert buf == buf[..end] + buf[end..];
        assert data == data[..startIdx] + buf[..end] + buf[end..];
        ResumesAfter(old(buf), messages, data[..startIdx], buf[..end], buf[end..]);
        messages := messages + [buf[..end]];
        buf := buf[end..];
      }
      ResumesAtEnd(old(buf), messages, [], []);
      FramesCollect(old(buf), messages, []);
    }

    /** The scan of one pass of the loop: where the text at the start of `data` ends, or 0. */
    method TextEnd(data: Bytes) returns (end: nat)
      requires data != [] && IsOpener(data[0])
      ensures end <= |data|
      ensures if end == 0 then IsPartial(data) else IsText(data[..end])
    {
      var depth, inString, escape := 0, false, false;
      for i := 0 to |data|
        invariant Scanner(depth, inString, escape) == Scan(START, data[..i]) && Inside(data, i)
      {
        var b := data[i];
        OneMoreByte(data, i);
        if escape {
          escape := false;
        } else if b == BACKSLASH {
          escape := true;
        } else if b == QUOTE {
          inString := !inString;
        } else if IsOpener(b) {
          if !inString {
            depth := depth + 1;
          }
        } else if IsCloser(b) {
          if !inString {
            depth := depth - 1;
            if depth == 0 {
              return i + 1;
            }
          }
        }
      }
      assert data[..|data|] == data;
      return 0;
    }

    /** The lines of the old buffer, each without its line end, and the unterminated rest. */
    method ExtractLines() returns (lines: seq<Bytes>)
      modifies this
      ensures lines == DropCRs(SplitLines(old(buf)).lines)
      ensures buf == SplitLines(old(buf)).rest
    {
      lines := [];
      ghost var raw: seq<Bytes> := [];
      while buf != []
        invariant AllLines(raw) && old(buf) == Unlines(raw) + buf
        invariant lines == DropCRs(raw)
        decreases |buf|
      {
        var idx := IndexByte(buf, LF);
        if idx == -1 {
          break;
        }
        var line := buf[..idx];
        OneMoreLine(raw, buf, idx);
        raw := raw + [line];
        buf := buf[idx + 1..];
        if |line| > 0 && line[|line| - 1] == CR {
          line := line[..|line| - 1];
        }
        lines := lines + [line];
      }
      SplitIs(old(buf), raw, buf);
    }
  }
}
