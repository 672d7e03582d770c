/** Splitting a byte stream at line feeds, the framing shared by `extractLines` and the proxies. */
module Lines {
  import opened Bytes

  /** Go's bytes.IndexByte: the first position of `b`, or -1. */
  function IndexByte(s: Bytes, b: Byte): (i: int)
    ensures -1 <= i < |s|
    ensures i == -1 <==> b !in s
    ensures i >= 0 ==> s[i] == b && b !in s[..i]
  {
    if s == [] then -1
    else if s[0] == b then 0
    else
      var i := IndexByte(s[1..], b);
      assert s == [s[0]] + s[1..];
      assert i >= 0 ==> s[..i + 1] == [s[0]] + s[1..][..i];
      if i == -1 then -1 else i + 1
  }

  predicate AllLines(lines: seq<Bytes>) { forall i :: 0 <= i < |lines| ==> LF !in lines[i] }

  /** Every line with its line feed. */
  function Unlines(lines: seq<Bytes>): Bytes {
    if lines == [] then [] else lines[0] + [LF] + Unlines(lines[1..])
  }

  /** `input` is exactly these lines, each with its line feed, and then an unterminated rest. */
  predicate LinePartition(input: Bytes, lines: seq<Bytes>, rest: Bytes) {
    AllLines(lines) && LF !in rest && input == Unlines(lines) + rest
  }

  /** The line-by-line reference: it looks at each byte once. */
  datatype Split = Split(lines: seq<Bytes>, rest: Bytes)

  function SplitLines(input: Bytes): Split {
    if input == [] then Split([], [])
    else
      var n := |input| - 1;
      var r := SplitLines(input[..n]);
      if input[n] == LF then Split(r.lines + [r.rest], []) else Split(r.lines, r.rest + [input[n]])
  }

  /** The reference does partition its input. */
  lemma {:induction false} SplitPartitions(input: Bytes)
    ensures LinePartition(input, SplitLines(input).lines, SplitLines(input).rest)
    decreases |input|
  {
    if input != [] {
      var n := |input| - 1;
      SplitPartitions(input[..n]);
      var r := SplitLines(input[..n]);
      UnlinesSnoc(r.lines, r.rest);
      assert input == input[..n] + [input[n]];
      assert input == Unlines(r.lines) + r.rest + [input[n]];
      assert Unlines(r.lines) + r.rest + [input[n]] == Unlines(r.lines) + (r.rest + [input[n]]);
    }
  }

  lemma {:induction false} UnlinesAppend(xs: seq<Bytes>, ys: seq<Bytes>)
    ensures Unlines(xs + ys) == Unlines(xs) + Unlines(ys)
  {
    if xs == [] {
      assert xs + ys == ys;
    } else {
      UnlinesAppend(xs[1..], ys);
      assert (xs + ys)[1..] == xs[1..] + ys;
    }
  }

  lemma UnlinesSnoc(lines: seq<Bytes>, line: Bytes)
    ensures Unlines(lines + [line]) == Unlines(lines) + line + [LF]
  {
    UnlinesAppend(lines, [line]);
    assert [line][1..] == [];
    assert Unlines([line]) == line + [LF];
  }

  /** There is only one way to cut a stream into lines. */
  lemma {:induction false} LinePartitionUnique(input: Bytes, xs: seq<Bytes>, p: Bytes, ys: seq<Bytes>, q: Bytes)
    requires LinePartition(input, xs, p) && LinePartition(input, ys, q)
    ensures xs == ys && p == q
  {
    assert [] + p == p && [] + q == q;
    assert xs != [] ==> input[|xs[0]|] == LF;
    assert ys != [] ==> input[|ys[0]|] == LF;
    if xs != [] {
      var x, y := Unlines(xs[1..]) + p, Unlines(ys[1..]) + q;
      assert input == xs[0] + ([LF] + x) == ys[0] + ([LF] + y);
      assert input[|xs[0]|] == LF && input[|ys[0]|] == LF;
      assert forall i :: 0 <= i < |xs[0]| ==> input[i] == xs[0][i];
      assert forall i :: 0 <= i < |ys[0]| ==> input[i] == ys[0][i];
      assert |xs[0]| == |ys[0]|;
      assert xs[0] == input[..|xs[0]|] == ys[0];
      assert x == input[|xs[0]| + 1..] == y;
      LinePartitionUnique(x, xs[1..], p, ys[1..], q);
      assert xs == [xs[0]] + xs[1..] && ys == [ys[0]] + ys[1..];
    }
  }

  lemma SplitIs(input: Bytes, lines: seq<Bytes>, rest: Bytes)
    requires LinePartition(input, lines, rest)
    ensures SplitLines(input) == Split(lines, rest)
  {
    SplitPartitions(input);
    LinePartitionUnique(input, lines, rest, SplitLines(input).lines, SplitLines(input).rest);
  }

  /** Cutting `a + b` is cutting `a` and then what `a` left over followed by `b`. */
  lemma {:induction false} SplitAppend(a: Bytes, b: Bytes)
    ensures var x := SplitLines(a);
            var y := SplitLines(x.rest + b);
            SplitLines(a + b) == Split(x.lines + y.lines, y.rest)
  {
    var x := SplitLines(a);
    var y := SplitLines(x.rest + b);
    SplitPartitions(a);
    SplitPartitions(x.rest + b);
    UnlinesAppend(x.lines, y.lines);
    assert a + b == Unlines(x.lines + y.lines) + y.rest by {
      Regroup(Unlines(x.lines), x.rest, b, Unlines(y.lines), y.rest);
    }
    SplitIs(a + b, x.lines + y.lines, y.rest);
  }

  lemma Regroup(u: Bytes, p: Bytes, b: Bytes, v: Bytes, q: Bytes)
    requires p + b == v + q
    ensures (u + p) + b == (u + v) + q
  {
    assert (u + p) + b == u + (p + b);
    assert (u + v) + q == u + (v + q);
  }
}
