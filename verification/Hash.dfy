/** The slot of a request id: hashString of internal/engine/correlator.go, modulo the table size. */
module Hash {
  import opened Bytes

  const NUM_SLOTS := 4096
  const WORD := 0x1_0000_0000

  /** The base-31 polynomial of the bytes, over the integers. */
  function Poly(s: Bytes): nat {
    if s == [] then 0 else Poly(s[..|s| - 1]) * 31 + s[|s| - 1]
  }

  function Slot(s: Bytes): nat { Poly(s) % NUM_SLOTS }

  /** 32-bit wrapping at every step is invisible in the end. */
  method HashString(s: Bytes) returns (h: nat)
    ensures h < WORD
    ensures h == Poly(s) % WORD
    ensures h % NUM_SLOTS == Slot(s)
  {
    h := 0;
    for i := 0 to |s|
      invariant h < WORD && h == Poly(s[..i]) % WORD
    {
      assert s[..i + 1][..i] == s[..i];
      WrapStep(Poly(s[..i]), s[i], h);
      h := (h * 31 + s[i]) % WORD;
    }
    assert s[..|s|] == s;
    WrappedSlot(Poly(s));
  }

  lemma WrapStep(p: nat, b: Byte, h: nat)
    requires h == p % WORD
    ensures (h * 31 + b) % WORD == (p * 31 + b) % WORD
  {
    var q := p / WORD;
    assert p == h + WORD * q;
    assert p * 31 + b == (h * 31 + b) + WORD * (31 * q);
    AddMultiple(h * 31 + b, 31 * q, WORD);
  }

  lemma WrappedSlot(p: nat)
    ensures (p % WORD) % NUM_SLOTS == p % NUM_SLOTS
  {
    var q := p / WORD;
    assert p == p % WORD + NUM_SLOTS * (0x10_0000 * q);
    AddMultiple(p % WORD, 0x10_0000 * q, NUM_SLOTS);
  }

  lemma AddMultiple(a: int, k: int, m: nat)
    requires m > 0
    ensures (a + m * k) % m == a % m
  {
    var q, r := a / m, a % m;
    assert a + m * k == m * (q + k) + r by {
      assert m * (q + k) == m * q + m * k;
    }
    DivModUnique(a + m * k, m, q + k, r);
  }

  lemma DivModUnique(a: int, m: nat, q: int, r: int)
    requires m > 0 && 0 <= r < m && a == m * q + r
    ensures a % m == r && a / m == q
  {
    var d := a / m - q;
    assert (d >= 1 ==> m * d >= m) && (d <= -1 ==> m * d <= 0 - m);
    assert m * (a / m) + a % m == a;
    assert m * d == r - a % m by { assert m * d == m * (a / m) - m * q; }
  }

  /** The slot can be computed byte by byte within the table size, and starts at 0. */
  lemma SlotByByte(s: Bytes, b: Byte)
    ensures Slot([]) == 0
    ensures Slot(s + [b]) == (Slot(s) * 31 + b) % 4096
  {
    assert (s + [b])[..|s|] == s;
    var p, q := Poly(s), Poly(s) / NUM_SLOTS;
    assert p * 31 + b == (Slot(s) * 31 + b) + NUM_SLOTS * (31 * q);
    AddMultiple(Slot(s) * 31 + b, 31 * q, NUM_SLOTS);
  }

  // ---------- which ids can share a slot ----------

  function Pow31(n: nat): nat { if n == 0 then 1 else 31 * Pow31(n - 1) }

  lemma {:induction false} PolyAppend(a: Bytes, b: Bytes)
    ensures Poly(a + b) == Poly(a) * Pow31(|b|) + Poly(b)
    decreases |b|
  {
    if b == [] {
      assert a + b == a;
    } else {
      var n := |b| - 1;
      PolyAppend(a, b[..n]);
      assert (a + b)[..|a + b| - 1] == a + b[..n];
      Distribute(Poly(a), Pow31(n), Poly(b[..n]));
    }
  }

  lemma Distribute(a: int, w: int, b: int)
    ensures (a * w + b) * 31 == a * (31 * w) + b * 31
  {
  }

  /** 31 is invertible modulo the table size: 31 * 3039 == 1 + 4096 * 23. */
  lemma Cancel31(x: int)
    ensures (31 * x) % NUM_SLOTS == 0 <==> x % NUM_SLOTS == 0
  {
    if (31 * x) % NUM_SLOTS == 0 {
      var k := 31 * x / NUM_SLOTS;
      assert 31 * x == NUM_SLOTS * k;
      assert x == NUM_SLOTS * (3039 * k - 23 * x);
      AddMultiple(0, 3039 * k - 23 * x, NUM_SLOTS);
    }
    if x % NUM_SLOTS == 0 {
      var k := x / NUM_SLOTS;
      assert 31 * x == NUM_SLOTS * (31 * k);
      AddMultiple(0, 31 * k, NUM_SLOTS);
    }
  }

  lemma {:induction false} CancelPow31(x: int, n: nat)
    ensures (x * Pow31(n)) % NUM_SLOTS == 0 <==> x % NUM_SLOTS == 0
  {
    if n > 0 {
      CancelPow31(x, n - 1);
      Cancel31(x * Pow31(n - 1));
      assert x * Pow31(n) == 31 * (x * Pow31(n - 1));
    }
  }

  lemma SameResidue(a: int, b: int)
    ensures a % NUM_SLOTS == b % NUM_SLOTS <==> (a - b) % NUM_SLOTS == 0
  {
    var q := a / NUM_SLOTS - b / NUM_SLOTS;
    assert a - b == (a % NUM_SLOTS - b % NUM_SLOTS) + NUM_SLOTS * q;
    AddMultiple(a % NUM_SLOTS - b % NUM_SLOTS, q, NUM_SLOTS);
  }

  lemma PolyWindow(p: Bytes, x: Bytes, s: Bytes)
    ensures Poly(p + x + s) == (Poly(p) * Pow31(|x|) + Poly(x)) * Pow31(|s|) + Poly(s)
  {
    PolyAppend(p + x, s);
    PolyAppend(p, x);
  }

  /** Ids of one length that agree outside a window share a slot exactly when the windows do. */
  lemma SlotOfWindow(p: Bytes, x: Bytes, y: Bytes, s: Bytes)
    requires |x| == |y|
    ensures Slot(p + x + s) == Slot(p + y + s) <==> Slot(x) == Slot(y)
  {
    PolyWindow(p, x, s);
    PolyWindow(p, y, s);
    var c, w := Poly(p) * Pow31(|x|), Pow31(|s|);
    var d := Poly(x) - Poly(y);
    assert (c + Poly(x)) * w - (c + Poly(y)) * w == d * w by { Factor(c + Poly(x), c + Poly(y), w); }
    CancelPow31(d, |s|);
    SameResidue(Poly(p + x + s), Poly(p + y + s));
    SameResidue(Poly(x), Poly(y));
  }

  lemma Factor(a: int, b: int, w: int)
    ensures a * w - b * w == (a - b) * w
  {
  }

  /** Ids of one length that differ in exactly one byte never share a slot. */
  lemma OneByteApart(a: Bytes, b: Bytes, i: nat)
    requires |a| == |b| && i < |a| && a[i] != b[i]
    requires forall j :: 0 <= j < |a| && j != i ==> a[j] == b[j]
    ensures Slot(a) != Slot(b)
  {
    var p, s := a[..i], a[i + 1..];
    assert a == p + [a[i]] + s && b == p + [b[i]] + s;
    SlotOfWindow(p, [a[i]], [b[i]], s);
    assert Poly([a[i]]) == a[i] && Poly([b[i]]) == b[i];
  }

  lemma PolyOfTwo(s: Bytes)
    requires |s| == 2
    ensures Poly(s) == 31 * s[0] as int + s[1] as int
  {
    assert s[..1][..0] == [];
    assert Poly(s[..1]) == s[0];
  }

  /** Nor do ids that differ only in two neighbouring decimal digits, the last two for instance. */
  lemma TwoDigitsApart(a: Bytes, b: Bytes, i: nat)
    requires |a| == |b| && i + 1 < |a| && a != b
    requires forall j :: i <= j <= i + 1 ==> IsDigit(a[j]) && IsDigit(b[j])
    requires forall j :: 0 <= j < |a| && (j < i || j > i + 1) ==> a[j] == b[j]
    ensures Slot(a) != Slot(b)
  {
    var p, s, x, y := a[..i], a[i + 2..], a[i..i + 2], b[i..i + 2];
    assert p == b[..i] && s == b[i + 2..];
    assert a == p + x + s && b == p + y + s;
    SlotOfWindow(p, x, y, s);
    assert IsDigit(x[0]) && IsDigit(x[1]) && IsDigit(y[0]) && IsDigit(y[1]);
    DigitPairsApart(x, y);
  }

  lemma DigitPairsApart(x: Bytes, y: Bytes)
    requires |x| == 2 && |y| == 2 && x != y
    requires IsDigit(x[0]) && IsDigit(x[1]) && IsDigit(y[0]) && IsDigit(y[1])
    ensures Slot(x) != Slot(y)
  {
    SlotOfDigits(x);
    SlotOfDigits(y);
    assert x == [x[0], x[1]] && y == [y[0], y[1]];
  }

  lemma SlotOfDigits(s: Bytes)
    requires |s| == 2 && IsDigit(s[0]) && IsDigit(s[1])
    ensures Slot(s) == 31 * s[0] as int + s[1] as int
  {
    PolyOfTwo(s);
    var p := Poly(s);
    assert p < NUM_SLOTS;
    DivModUnique(p, NUM_SLOTS, 0, p);
  }

  /** Three digits are too many: 000 and 484 share a slot in any surroundings. */
  lemma ThreeDigitsCollide(p: Bytes, s: Bytes)
    ensures Slot(p + [0x30, 0x30, 0x30] + s) == Slot(p + [0x34, 0x38, 0x34] + s)
  {
    var x: Bytes, y: Bytes := [0x30, 0x30, 0x30], [0x34, 0x38, 0x34];
    SlotOfWindow(p, x, y, s);
    PolyOfTwo([0x30, 0x30]);
    PolyOfTwo([0x34, 0x38]);
    assert x[..2] == [0x30, 0x30] && y[..2] == [0x34, 0x38];
    assert Poly(x) == Poly(x[..2]) * 31 + 0x30 && Poly(y) == Poly(y[..2]) * 31 + 0x34;
  }
}
