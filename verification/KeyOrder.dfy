/** The byte order of BadgerDB keys and the message keys of internal/storage/badger.go. */
module KeyOrder {
  import opened Bytes

  // ---------- byte-wise lexicographic order ----------

  predicate Less(a: Bytes, b: Bytes) {
    b != [] && (a == [] || a[0] < b[0] || (a[0] == b[0] && Less(a[1..], b[1..])))
  }

  lemma {:induction false} LessTotal(a: Bytes, b: Bytes)
    ensures (if Less(a, b) then 1 else 0) + (if Less(b, a) then 1 else 0) + (if a == b then 1 else 0) == 1
  {
    if a != [] && b != [] {
      LessTotal(a[1..], b[1..]);
      assert a == [a[0]] + a[1..] && b == [b[0]] + b[1..];
    }
  }

  lemma {:induction false} LessTransitive(a: Bytes, b: Bytes, c: Bytes)
    requires Less(a, b) && Less(b, c)
    ensures Less(a, c)
  {
    if a != [] && a[0] == b[0] && b[0] == c[0] {
      LessTransitive(a[1..], b[1..], c[1..]);
    }
  }

  /** After parts of one length, the parts decide unless they are equal. */
  lemma {:induction false} LessParts(a: Bytes, x: Bytes, b: Bytes, y: Bytes)
    requires |a| == |b|
    ensures Less(a + x, b + y) <==> Less(a, b) || (a == b && Less(x, y))
  {
    if a == [] {
      assert a + x == x && b + y == y;
    } else {
      assert (a + x)[1..] == a[1..] + x && (b + y)[1..] == b[1..] + y;
      assert a == [a[0]] + a[1..] && b == [b[0]] + b[1..];
      LessParts(a[1..], x, b[1..], y);
    }
  }

  // ---------- decimal numbers ----------

  function Pow10(n: nat): nat { if n == 0 then 1 else 10 * Pow10(n - 1) }

  predicate IsDigits(s: Bytes) { forall i :: 0 <= i < |s| ==> IsDigit(s[i]) }

  function Value(s: Bytes): int {
    if s == [] then 0 else 10 * Value(s[..|s| - 1]) + (s[|s| - 1] as int - 0x30)
  }

  /** fmt's %0wd: decimal digits, at least `w` of them. */
  function Pad(w: nat, n: nat): Bytes
    decreases n, w
  {
    if w <= 1 && n < 10 then [0x30 + n]
    else Pad(if w == 0 then 0 else w - 1, n / 10) + [0x30 + n % 10]
  }

  lemma {:induction false} PadValue(w: nat, n: nat)
    ensures IsDigits(Pad(w, n)) && Value(Pad(w, n)) == n
    decreases n, w
  {
    if w <= 1 && n < 10 {
      assert Pad(w, n)[..0] == [];
    } else {
      var v := if w == 0 then 0 else w - 1;
      PadValue(v, n / 10);
      assert Pad(w, n)[..|Pad(w, n)| - 1] == Pad(v, n / 10);
    }
  }

  /** The width is `w`, or that of the number without leading zeros. */
  lemma {:induction false} PadWidth(w: nat, n: nat)
    requires w > 0
    ensures var k := |Pad(w, n)|;
            k >= w && n < Pow10(k) && (k > w ==> Pow10(k - 1) <= n)
    decreases n, w
  {
    if w > 1 {
      PadWidth(w - 1, n / 10);
    } else if n >= 10 {
      PadZero(n / 10);
      PadWidth(1, n / 10);
      assert Pow10(0) == 1;
    }
  }

  lemma {:induction false} PadZero(n: nat)
    ensures Pad(0, n) == Pad(1, n)
  {
  }

  lemma {:induction false} Pow10Grows(m: nat, n: nat)
    requires m <= n
    ensures 1 <= Pow10(m) <= Pow10(n)
    decreases n
  {
    if m < n { Pow10Grows(m, n - 1); } else if n > 0 { Pow10Grows(n - 1, n - 1); }
  }

  lemma PadFits(w: nat, n: nat)
    requires w > 0
    ensures |Pad(w, n)| == w <==> n < Pow10(w)
  {
    PadWidth(w, n);
    if |Pad(w, n)| > w {
      Pow10Grows(w, |Pad(w, n)| - 1);
    }
  }

  /** Digit strings of one length are ordered like the numbers they write. */
  lemma {:induction false} LessIsSmaller(a: Bytes, b: Bytes)
    requires |a| == |b| && IsDigits(a) && IsDigits(b)
    ensures Less(a, b) <==> Value(a) < Value(b)
    decreases |a|
  {
    if a != [] {
      var n := |a| - 1;
      LessIsSmaller(a[..n], b[..n]);
      LessIsSmaller(b[..n], a[..n]);
      LessTotal(a[..n], b[..n]);
      assert a == a[..n] + [a[n]] && b == b[..n] + [b[n]];
      LessParts(a[..n], [a[n]], b[..n], [b[n]]);
      assert Less([a[n]], [b[n]]) <==> a[n] < b[n];
    }
  }

  lemma {:induction false} ValueAppend(a: Bytes, b: Bytes)
    ensures Value(a + b) == Value(a) * Pow10(|b|) + Value(b)
    decreases |b|
  {
    if b == [] {
      assert a + b == a;
    } else {
      var n := |b| - 1;
      ValueAppend(a, b[..n]);
      assert (a + b)[..|a + b| - 1] == a + b[..n];
      assert 10 * (Value(a) * Pow10(n)) == Value(a) * (10 * Pow10(n));
    }
  }

  /** A shorter digit string against a longer one: the shorter is first when, filled up with zeros,
      it is not larger. */
  lemma LessShorter(a: Bytes, b: Bytes)
    requires |a| < |b| && IsDigits(a) && IsDigits(b)
    ensures Less(a, b) <==> Value(a) * Pow10(|b| - |a|) <= Value(b)
  {
    var p, q := b[..|a|], b[|a|..];
    assert b == p + q && a == a + [];
    LessParts(a, [], p, q);
    LessIsSmaller(a, p);
    LessIsSmaller(p, a);
    LessTotal(a, p);
    ValueAppend(p, q);
    ValueBelow(q);
    ScaledCompare(Value(a), Value(p), Value(q), Pow10(|q|));
  }

  lemma ScaledCompare(v: int, p: int, q: int, w: int)
    requires 0 <= q < w
    ensures v * w <= p * w + q <==> v <= p
  {
    if v <= p {
      assert v * w <= p * w;
    } else {
      assert v * w >= (p + 1) * w == p * w + w;
    }
  }

  lemma {:induction false} ValueBelow(s: Bytes)
    requires IsDigits(s)
    ensures 0 <= Value(s) < Pow10(|s|)
    decreases |s|
  {
    if s != [] { ValueBelow(s[..|s| - 1]); }
  }

  // ---------- message keys ----------

  const MAX_NANOS := 0x8000_0000_0000_0000

  /** A nonnegative UnixNano value. */
  type Nanos = t: int | 0 <= t < MAX_NANOS

  const MSG: Bytes := [0x6D, 0x73, 0x67, COLON]

  const STATS: Bytes := [0x73, 0x74, 0x61, 0x74, 0x73]

  function Key(timestamp: Nanos, id: nat): Bytes { MSG + Pad(19, timestamp) + [COLON] + Pad(6, id) }

  lemma NanosFit(t: Nanos)
    ensures |Pad(19, t)| == 19
  {
    assert Pow10(10) == 10_000_000_000;
    assert Pow10(19) == 10_000_000_000_000_000_000;
    PadFits(19, t);
  }

  /** A key can be read back: "msg:", 19 digits of the time, a colon, and the id in six digits or more. */
  lemma {:induction false} KeyLayout(t: Nanos, i: nat)
    ensures var k := Key(t, i);
      && |k| >= 30 && (|k| == 30 <==> i < 1_000_000)
      && k[..4] == [0x6D, 0x73, 0x67, 0x3A] && k[23] == 0x3A
      && IsDigits(k[4..23]) && Value(k[4..23]) == t
      && IsDigits(k[24..]) && Value(k[24..]) == i
  {
    NanosFit(t);
    PadValue(19, t);
    PadValue(6, i);
    PadWidth(6, i);
    PadFits(6, i);
    assert Pow10(6) == 1_000_000;
    FourParts(MSG, Pad(19, t), [COLON], Pad(6, i));
  }

  lemma FourParts(a: Bytes, b: Bytes, c: Bytes, d: Bytes)
    requires |a| == 4 && |b| == 19 && |c| == 1
    ensures var k := a + b + c + d;
      |k| == 24 + |d| && k[..4] == a && k[4..23] == b && k[23] == c[0] && k[24..] == d
  {
  }

  /** Keys are ordered by time, and at equal times by the digits of the id. */
  lemma KeyLess(t: Nanos, i: nat, u: Nanos, j: nat)
    ensures Less(Key(t, i), Key(u, j)) <==> t < u || (t == u && Less(Pad(6, i), Pad(6, j)))
  {
    NanosFit(t);
    NanosFit(u);
    PadValue(19, t);
    PadValue(19, u);
    LessIsSmaller(Pad(19, t), Pad(19, u));
    var x, y := [COLON] + Pad(6, i), [COLON] + Pad(6, j);
    assert Key(t, i) == MSG + (Pad(19, t) + x) && Key(u, j) == MSG + (Pad(19, u) + y);
    LessTotal(MSG, MSG);
    LessParts(MSG, Pad(19, t) + x, MSG, Pad(19, u) + y);
    LessParts(Pad(19, t), x, Pad(19, u), y);
    LessTotal([COLON], [COLON]);
    LessParts([COLON], Pad(6, i), [COLON], Pad(6, j));
  }

  /** Different (time, id) pairs have different keys. */
  lemma KeyInjective(t: Nanos, i: nat, u: Nanos, j: nat)
    requires Key(t, i) == Key(u, j)
    ensures t == u && i == j
  {
    KeyLess(t, i, u, j);
    KeyLess(u, j, t, i);
    LessTotal(Key(t, i), Key(u, j));
    assert t == u;
    LessTotal(Pad(6, i), Pad(6, j));
    PadValue(6, i);
    PadValue(6, j);
  }

  lemma PadGrows(w: nat, i: nat, j: nat)
    requires w > 0 && i <= j
    ensures |Pad(w, i)| <= |Pad(w, j)|
  {
    PadWidth(w, i);
    PadWidth(w, j);
    if |Pad(w, i)| > |Pad(w, j)| { Pow10Grows(|Pad(w, j)|, |Pad(w, i)| - 1); }
  }

  lemma LessPads(w: nat, i: nat, j: nat)
    requires w > 0 && i < j && |Pad(w, i)| <= |Pad(w, j)|
    ensures Less(Pad(w, i), Pad(w, j)) <==> i * Pow10(|Pad(w, j)| - |Pad(w, i)|) <= j
  {
    var a, b := Pad(w, i), Pad(w, j);
    PadValue(w, i);
    PadValue(w, j);
    if |a| == |b| {
      LessIsSmaller(a, b);
      assert Pow10(0) == 1;
    } else {
      LessShorter(a, b);
    }
  }

  /** At one time, ids are in key order exactly when padding the smaller one with zeros to the width of
      the larger does not make it larger: always below a million, but not across that line. */
  lemma IdOrder(t: Nanos, i: nat, j: nat)
    requires i < j
    ensures |Pad(6, i)| <= |Pad(6, j)|
    ensures Less(Key(t, i), Key(t, j)) <==> i * Pow10(|Pad(6, j)| - |Pad(6, i)|) <= j
    ensures j < 1_000_000 ==> Less(Key(t, i), Key(t, j))
  {
    KeyLess(t, i, t, j);
    PadGrows(6, i, j);
    LessPads(6, i, j);
    if j < 1_000_000 { BelowMillion(i, j); }
  }

  lemma BelowMillion(i: nat, j: nat)
    requires i < j < 1_000_000
    ensures |Pad(6, i)| == |Pad(6, j)| && i * Pow10(|Pad(6, j)| - |Pad(6, i)|) <= j
  {
    assert Pow10(6) == 1_000_000;
    PadFits(6, i);
    PadFits(6, j);
    assert Pow10(0) == 1;
  }

  /** The millionth id of one instant sorts before the one issued just before it. */
  lemma MillionthIdIsMisplaced(t: Nanos)
    ensures Less(Key(t, 1_000_000), Key(t, 999_999))
  {
    var i, j := 999_999, 1_000_000;
    assert Pow10(6) == 1_000_000;
    PadFits(6, i);
    PadWidth(6, j);
    IdOrder(t, i, j);
    Pow10Grows(1, |Pad(6, j)| - 6);
    assert Pow10(1) == 10;
    LessTotal(Key(t, i), Key(t, j));
    if Key(t, i) == Key(t, j) {
      KeyInjective(t, i, t, j);
    }
  }
}
