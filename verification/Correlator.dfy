/** The request/response correlator of internal/engine/correlator.go: a direct-mapped table in
    which a colliding request silently replaces the one that waits. */
module Correlators {
  import opened Bytes
  import opened Hash
  import opened Messages

  datatype Span = NoSpan | Span(number: nat)

  /** The zero value has the empty id. */
  datatype PendingSlot = PendingSlot(id: Bytes, sentAt: int, methodName: Bytes, span: Span)

  const FREE := PendingSlot([], 0, [], NoSpan)

  /** A message as it reaches Process, with the clock reading at which a response is handled. */
  datatype Event = Event(msgType: MsgType, id: Bytes, timestamp: int, now: int, methodName: Bytes, failed: bool)

  datatype Ended = Ended(span: Span, failed: bool)

  /** The slots, how many spans were started, and the spans ended, in order. */
  datatype Table = Table(slots: seq<PendingSlot>, started: nat, ended: seq<Ended>)

  function NewTable(): (t: Table)
    ensures |t.slots| == NUM_SLOTS && forall i :: 0 <= i < NUM_SLOTS ==> t.slots[i] == FREE
  {
    Table(seq(NUM_SLOTS, _ => FREE), 0, [])
  }

  /** What Process writes into a response it can place. */
  datatype Match = NoMatch | Match(latencyMS: int, methodName: Bytes)

  /** Nanoseconds to milliseconds; Go's division truncates toward zero. */
  function Millis(d: int): (ms: int)
    ensures if d >= 0 then 0 <= d - ms * 1_000_000 < 1_000_000 else -1_000_000 < d - ms * 1_000_000 <= 0
  {
    if d >= 0 then d / 1_000_000 else -((-d) / 1_000_000)
  }

  function MatchOf(e: Event, sentAt: int, methodName: Bytes): Match {
    Match(Millis(e.now - sentAt), if e.methodName == [] then methodName else e.methodName)
  }

  predicate IsRequest(e: Event) { e.msgType.Request? && e.id != [] }
  predicate IsResponse(e: Event) { e.msgType.Response? && e.id != [] }

  function Process(t: Table, e: Event): Table
    requires |t.slots| == NUM_SLOTS
  {
    var idx := Slot(e.id);
    if IsRequest(e) then
      t.(slots := t.slots[idx := PendingSlot(e.id, e.timestamp, e.methodName, Span(t.started))], started := t.started + 1)
    else if IsResponse(e) && t.slots[idx].id == e.id then
      t.(slots := t.slots[idx := FREE], ended := t.ended + [Ended(t.slots[idx].span, e.failed)])
    else t
  }

  function Outcome(t: Table, e: Event): Match
    requires |t.slots| == NUM_SLOTS
  {
    var slot := t.slots[Slot(e.id)];
    if IsResponse(e) && slot.id == e.id then MatchOf(e, slot.sentAt, slot.methodName) else NoMatch
  }

  function Run(h: seq<Event>): (t: Table)
    ensures |t.slots| == NUM_SLOTS
  {
    if h == [] then NewTable() else Process(Run(h[..|h| - 1]), h[|h| - 1])
  }

  // ---------- the implementation ----------

  class Message {
    const msgType: MsgType
    const id: Bytes
    const timestamp: int
    const errorCode: Bytes
    const errorData: Bytes
    var methodName: Bytes
    var latencyMS: int

    constructor (msgType: MsgType, id: Bytes, timestamp: int, methodName: Bytes, errorCode: Bytes, errorData: Bytes)
      ensures this.msgType == msgType && this.id == id && this.timestamp == timestamp
      ensures this.methodName == methodName && this.errorCode == errorCode && this.errorData == errorData
      ensures latencyMS == 0
    {
      this.msgType, this.id, this.timestamp, this.methodName := msgType, id, timestamp, methodName;
      this.errorCode, this.errorData, latencyMS := errorCode, errorData, 0;
    }

    predicate Failed() { errorCode != [] || HasError(errorData) }

    function At(now: int): Event
      reads this
    {
      Event(msgType, id, timestamp, now, methodName, Failed())
    }
  }

  class Correlator {
    const slots: array<PendingSlot>
    var started: nat
    var ended: seq<Ended>

    ghost predicate Valid()
      reads this
    {
      slots.Length == NUM_SLOTS
    }

    ghost function View(): Table
      reads this, slots
    {
      Table(slots[..], started, ended)
    }

    constructor ()
      ensures Valid() && fresh(slots) && View() == NewTable()
    {
      slots := new PendingSlot[NUM_SLOTS](_ => FREE);
      started, ended := 0, [];
      new;
      assert slots[..] == NewTable().slots;
    }

    method ProcessMessage(msg: Message, now: int)
      requires Valid()
      modifies this, slots, msg
      ensures View() == Process(old(View()), old(msg.At(now)))
      ensures match Outcome(old(View()), old(msg.At(now)))
              case NoMatch => msg.latencyMS == old(msg.latencyMS) && msg.methodName == old(msg.methodName)
              case Match(latency, name) => msg.latencyMS == latency && msg.methodName == name
    {
      if msg.id == [] {
        return;
      }
      var h := HashString(msg.id);
      var idx := h % NUM_SLOTS;
      if msg.msgType == Request {
        var span := Span(started);
        started := started + 1;
        slots[idx] := PendingSlot(msg.id, msg.timestamp, msg.methodName, span);
      } else if msg.msgType == Response {
        var slot := slots[idx];
        if slot.id == msg.id {
          msg.latencyMS := Millis(now - slot.sentAt);
          if msg.methodName == [] {
            msg.methodName := slot.methodName;
          }
          ended := ended + [Ended(slot.span, msg.Failed())];
          slots[idx] := FREE;
        }
      }
    }
  }

  // ---------- the whole history decides ----------

  /** The request at `i` with id `x` still sits in its slot after `h`: no later request went to that
      slot and no later response answered `x`. */
  predicate HeldAt(h: seq<Event>, x: Bytes, i: nat) {
    && i < |h| && IsRequest(h[i]) && h[i].id == x
    && forall j :: i < j < |h| ==> Spares(h[j], x)
  }

  function RequestsIn(h: seq<Event>): nat {
    if h == [] then 0 else RequestsIn(h[..|h| - 1]) + (if IsRequest(h[|h| - 1]) then 1 else 0)
  }

  /** The slot contents the request at `i` puts in place. */
  function SlotFor(h: seq<Event>, i: nat): PendingSlot
    requires i < |h|
  {
    PendingSlot(h[i].id, h[i].timestamp, h[i].methodName, Span(RequestsIn(h[..i])))
  }

  /** The event leaves every other id's request where it is. */
  predicate Spares(e: Event, x: Bytes) {
    !(IsRequest(e) && Slot(e.id) == Slot(x)) && !(IsResponse(e) && e.id == x)
  }

  lemma HeldBefore(h: seq<Event>, x: Bytes, i: nat)
    requires i < |h| - 1
    ensures HeldAt(h, x, i) <==> (HeldAt(h[..|h| - 1], x, i) && Spares(h[|h| - 1], x))
    ensures SlotFor(h, i) == SlotFor(h[..|h| - 1], i)
  {
    var n := |h| - 1;
    assert h[..n][..i] == h[..i];
    assert forall j :: 0 <= j < n ==> h[..n][j] == h[j];
  }

  lemma {:induction false} StartedCounts(h: seq<Event>)
    ensures Run(h).started == RequestsIn(h)
    decreases |h|
  {
    if h != [] { StartedCounts(h[..|h| - 1]); }
  }

  /** The slot of `x` holds `x` exactly when some request for `x` is held, and then holds its data. */
  ghost predicate Explained(h: seq<Event>, x: Bytes, slot: PendingSlot) {
    && (slot.id == x <==> exists i: nat :: HeldAt(h, x, i))
    && (forall i: nat :: HeldAt(h, x, i) ==> slot == SlotFor(h, i))
  }

  /** The table after any history. */
  lemma {:induction false} SlotHistory(h: seq<Event>, x: Bytes)
    requires x != []
    ensures Explained(h, x, Run(h).slots[Slot(x)])
    decreases |h|
  {
    if h != [] {
      var n := |h| - 1;
      var e, t := h[n], Run(h[..n]);
      SlotHistory(h[..n], x);
      HeldAfter(h, x);
      if IsRequest(e) && e.id == x {
        StartedCounts(h[..n]);
        assert HeldAt(h, x, n);
        assert SlotFor(h, n) == Process(t, e).slots[Slot(x)];
      } else if Spares(e, x) {
        SlotSpared(t, e, x);
        ExplainedStill(h, x, t.slots[Slot(x)], Process(t, e).slots[Slot(x)]);
      } else {
        SlotLost(t, e, x);
      }
    }
  }

  lemma HeldAfter(h: seq<Event>, x: Bytes)
    requires h != []
    ensures var n := |h| - 1;
      if IsRequest(h[n]) && h[n].id == x then forall i: nat :: HeldAt(h, x, i) <==> i == n
      else if Spares(h[n], x) then forall i: nat :: HeldAt(h, x, i) <==> HeldAt(h[..n], x, i)
      else forall i: nat :: !HeldAt(h, x, i)
  {
    var n := |h| - 1;
    forall i: nat | i < n ensures HeldAt(h, x, i) <==> (HeldAt(h[..n], x, i) && Spares(h[n], x)) {
      HeldBefore(h, x, i);
    }
  }

  lemma ExplainedStill(h: seq<Event>, x: Bytes, before: PendingSlot, after: PendingSlot)
    requires h != [] && Explained(h[..|h| - 1], x, before)
    requires forall i: nat :: HeldAt(h, x, i) <==> HeldAt(h[..|h| - 1], x, i)
    requires after == before || (before.id != x && after.id != x)
    ensures Explained(h, x, after)
  {
    var g := h[..|h| - 1];
    if i: nat :| HeldAt(g, x, i) { assert HeldAt(h, x, i); }
    forall i: nat | HeldAt(h, x, i) ensures after == SlotFor(h, i) {
      assert HeldAt(h[..|h| - 1], x, i);
      HeldBefore(h, x, i);
    }
  }

  lemma SlotSpared(t: Table, e: Event, x: Bytes)
    requires |t.slots| == NUM_SLOTS && x != [] && Spares(e, x)
    ensures var before, after := t.slots[Slot(x)], Process(t, e).slots[Slot(x)];
      after == before || (before.id != x && after.id != x)
  {
  }

  lemma SlotLost(t: Table, e: Event, x: Bytes)
    requires |t.slots| == NUM_SLOTS && x != [] && !Spares(e, x) && !(IsRequest(e) && e.id == x)
    ensures Process(t, e).slots[Slot(x)].id != x
  {
  }

  /** A response is placed exactly when its request is held, and gets that request's data. */
  lemma {:induction false} MatchHistory(h: seq<Event>, e: Event)
    requires IsResponse(e)
    ensures Outcome(Run(h), e) != NoMatch <==> exists i: nat :: HeldAt(h, e.id, i)
    ensures forall i: nat :: HeldAt(h, e.id, i) ==> Outcome(Run(h), e) == MatchOf(e, h[i].timestamp, h[i].methodName)
  {
    SlotHistory(h, e.id);
  }

  /** A response whose request was not displaced and not answered before gets the whole milliseconds
      that went by since that request, and the request's method name if it has none itself. */
  lemma {:induction false} MatchedLatency(h: seq<Event>, i: nat, e: Event)
    requires i < |h| && h[i].msgType == Request && e.msgType == Response && h[i].id == e.id && e.id != []
    requires forall j :: i < j < |h| && h[j].msgType == Request && h[j].id != [] ==> Slot(h[j].id) != Slot(e.id)
    requires forall j :: i < j < |h| && h[j].msgType == Response ==> h[j].id != e.id
    ensures var o := Outcome(Run(h), e);
      && o.Match?
      && (e.now >= h[i].timestamp ==> 0 <= e.now - h[i].timestamp - o.latencyMS * 1_000_000 < 1_000_000)
      && (e.now < h[i].timestamp ==> -1_000_000 < e.now - h[i].timestamp - o.latencyMS * 1_000_000 <= 0)
      && (e.methodName != [] ==> o.methodName == e.methodName)
      && (e.methodName == [] ==> o.methodName == h[i].methodName)
  {
    forall j | i < j < |h| ensures Spares(h[j], e.id) {
    }
    assert HeldAt(h, e.id, i);
    MatchHistory(h, e);
  }

  /** Messages without an id, and all but requests and responses, leave the table and themselves alone. */
  lemma OthersChangeNothing(t: Table, e: Event)
    requires |t.slots| == NUM_SLOTS
    requires e.id == [] || (e.msgType != Request && e.msgType != Response)
    ensures Process(t, e) == t && Outcome(t, e) == NoMatch
  {
  }

  /** A message reports a failure when it has an error code, or an error text other than `null`; the rest
      of what Process looks at is as it stands in the message. */
  lemma FailureOf(msg: Message, now: int)
    ensures var e := msg.At(now);
      && e.msgType == msg.msgType && e.id == msg.id && e.methodName == msg.methodName
      && e.timestamp == msg.timestamp && e.now == now
    ensures msg.errorCode != [] ==> msg.At(now).failed
    ensures msg.errorCode == [] && (msg.errorData == [] || msg.errorData == [0x6E, 0x75, 0x6C, 0x6C])
      ==> !msg.At(now).failed
    ensures msg.errorData != [] && msg.errorData != [0x6E, 0x75, 0x6C, 0x6C] ==> msg.At(now).failed
  {
  }

  /** No request is matched by two responses. */
  lemma {:induction false} MatchedOnce(h: seq<Event>, i: nat, j: nat, k: nat)
    requires j < k < |h| && IsResponse(h[j]) && IsResponse(h[k])
    requires HeldAt(h[..j], h[j].id, i)
    ensures !HeldAt(h[..k], h[k].id, i)
  {
    assert h[..j][i] == h[i] == h[..k][i];
    assert h[..k][j] == h[j];
  }

  // ---------- the table against an unbounded map ----------

  /** What the table stands for: one entry per id, never lost to another id. */
  datatype Ideal = Ideal(pending: map<Bytes, PendingSlot>, started: nat)

  function IdealProcess(m: Ideal, e: Event): Ideal {
    if IsRequest(e) then
      Ideal(m.pending[e.id := PendingSlot(e.id, e.timestamp, e.methodName, Span(m.started))], m.started + 1)
    else if IsResponse(e) then m.(pending := m.pending - {e.id})
    else m
  }

  function IdealOutcome(m: Ideal, e: Event): Match {
    if IsResponse(e) && e.id in m.pending then MatchOf(e, m.pending[e.id].sentAt, m.pending[e.id].methodName) else NoMatch
  }

  function IdealRun(h: seq<Event>): Ideal {
    if h == [] then Ideal(map[], 0) else IdealProcess(IdealRun(h[..|h| - 1]), h[|h| - 1])
  }

  /** The request at `i` with id `x` is unanswered and not repeated. */
  predicate OpenAt(h: seq<Event>, x: Bytes, i: nat) {
    && i < |h| && IsRequest(h[i]) && h[i].id == x
    && forall j :: i < j < |h| ==> !((IsRequest(h[j]) || IsResponse(h[j])) && h[j].id == x)
  }

  lemma OpenBefore(h: seq<Event>, x: Bytes, i: nat)
    requires i < |h| - 1
    ensures OpenAt(h, x, i) <==>
      (OpenAt(h[..|h| - 1], x, i) && !((IsRequest(h[|h| - 1]) || IsResponse(h[|h| - 1])) && h[|h| - 1].id == x))
    ensures SlotFor(h, i) == SlotFor(h[..|h| - 1], i)
  {
    var n := |h| - 1;
    assert h[..n][..i] == h[..i];
    assert forall j :: 0 <= j < n ==> h[..n][j] == h[j];
  }

  lemma {:induction false} IdealHistory(h: seq<Event>, x: Bytes)
    requires x != []
    ensures var m := IdealRun(h);
            && (x in m.pending <==> exists i: nat :: OpenAt(h, x, i))
            && (forall i: nat :: OpenAt(h, x, i) ==> m.pending[x] == SlotFor(h, i))
            && m.started == RequestsIn(h)
    decreases |h|
  {
    if h != [] {
      var n := |h| - 1;
      var e := h[n];
      IdealHistory(h[..n], x);
      forall i | 0 <= i < n
        ensures OpenAt(h, x, i) <==> (OpenAt(h[..n], x, i) && !((IsRequest(e) || IsResponse(e)) && e.id == x))
        ensures SlotFor(h, i) == SlotFor(h[..n], i)
      {
        OpenBefore(h, x, i);
      }
      assert OpenAt(h, x, n) <==> IsRequest(e) && e.id == x;
    }
  }

  lemma HeldIsOpen(h: seq<Event>, x: Bytes, i: nat)
    requires HeldAt(h, x, i)
    ensures OpenAt(h, x, i)
  {
    forall j | i < j < |h| ensures !((IsRequest(h[j]) || IsResponse(h[j])) && h[j].id == x) {
      assert Spares(h[j], x);
    }
  }

  /** At every point of every run, what the table holds is part of what the ideal map holds, in the
      slot of its own id. */
  lemma {:induction false} TableWithinIdeal(h: seq<Event>, k: nat)
    requires k < NUM_SLOTS && Run(h).slots[k].id != []
    ensures var slot := Run(h).slots[k];
            Slot(slot.id) == k && slot.id in IdealRun(h).pending && IdealRun(h).pending[slot.id] == slot
  {
    var slot := Run(h).slots[k];
    OwnSlot(h, k);
    SlotHistory(h, slot.id);
    IdealHistory(h, slot.id);
    var i: nat :| HeldAt(h, slot.id, i);
    HeldIsOpen(h, slot.id, i);
  }

  lemma {:induction false} OwnSlot(h: seq<Event>, k: nat)
    requires k < NUM_SLOTS
    ensures Run(h).slots[k].id != [] ==> Slot(Run(h).slots[k].id) == k
    ensures Run(h).slots[k].id == [] ==> Run(h).slots[k] == FREE
    decreases |h|
  {
    if h != [] {
      OwnSlot(h[..|h| - 1], k);
    }
  }

  /** The open request for `x` lost its slot to a later request with another id. */
  ghost predicate Evicted(h: seq<Event>, x: Bytes) {
    exists i: nat, j: nat :: OpenAt(h, x, i) && TakenAt(h, x, i, j)
  }

  predicate TakenAt(h: seq<Event>, x: Bytes, i: nat, j: nat) {
    i < j < |h| && IsRequest(h[j]) && Slot(h[j].id) == Slot(x)
  }

  /** A response fares as with the ideal map exactly when its request was not evicted. */
  lemma {:induction false} AgreesUnlessEvicted(h: seq<Event>, e: Event)
    requires IsResponse(e)
    ensures Outcome(Run(h), e) == IdealOutcome(IdealRun(h), e) <==> !Evicted(h, e.id)
    ensures Outcome(Run(h), e) != NoMatch ==> Outcome(Run(h), e) == IdealOutcome(IdealRun(h), e)
  {
    var x := e.id;
    MatchHistory(h, e);
    IdealHistory(h, x);
    if i: nat :| HeldAt(h, x, i) {
      HeldIsOpen(h, x, i);
      forall k: nat, j: nat | OpenAt(h, x, k) ensures !TakenAt(h, x, k, j) {
        OpenIsUnique(h, x, i, k);
        assert i < j < |h| ==> Spares(h[j], x);
      }
    } else if i: nat :| OpenAt(h, x, i) {
      assert !HeldAt(h, x, i);
      var j: nat :| i < j < |h| && !Spares(h[j], x);
      assert TakenAt(h, x, i, j);
    }
  }

  lemma OpenIsUnique(h: seq<Event>, x: Bytes, i: nat, k: nat)
    requires OpenAt(h, x, i) && OpenAt(h, x, k)
    ensures i == k
  {
  }

  /** The request at `j` overwrites a slot in which another id waits. */
  predicate Replaces(h: seq<Event>, j: nat)
    requires j < |h|
  {
    var slot := Run(h[..j]).slots[Slot(h[j].id)];
    IsRequest(h[j]) && slot.id != [] && slot.id != h[j].id
  }

  lemma {:induction false} EvictedBySomeRequest(h: seq<Event>, x: Bytes, i: nat, j: nat)
    requires OpenAt(h, x, i) && TakenAt(h, x, i, j)
    ensures exists k: nat :: i < k <= j && Replaces(h, k)
    decreases j
  {
    if HeldAt(h[..j], x, i) {
      SlotHistory(h[..j], x);
      assert Replaces(h, j);
    } else {
      var k: nat :| i < k < j && !Spares(h[..j][k], x);
      assert h[..j][k] == h[k];
      EvictedBySomeRequest(h, x, i, k);
    }
  }

  lemma EvictedMeansReplaced(h: seq<Event>, n: nat, x: Bytes)
    requires n <= |h| && Evicted(h[..n], x)
    ensures exists k: nat :: k < n && Replaces(h, k)
  {
    var i: nat, j: nat :| OpenAt(h[..n], x, i) && TakenAt(h[..n], x, i, j);
    EvictedBySomeRequest(h[..n], x, i, j);
    var k: nat :| i < k <= j && Replaces(h[..n], k);
    assert h[..n][..k] == h[..k] && Replaces(h, k);
  }

  /** In a run in which no request overwrites another id's slot, table and ideal map cannot be told
      apart by any response. */
  lemma {:induction false} NoReplacement(h: seq<Event>, n: nat)
    requires n < |h| && IsResponse(h[n])
    requires forall j :: 0 <= j < |h| ==> !Replaces(h, j)
    ensures Outcome(Run(h[..n]), h[n]) == IdealOutcome(IdealRun(h[..n]), h[n])
  {
    AgreesUnlessEvicted(h[..n], h[n]);
    if Evicted(h[..n], h[n].id) {
      EvictedMeansReplaced(h, n, h[n].id);
    }
  }

  // ---------- spans ----------

  function Live(slots: seq<PendingSlot>): set<nat> { set k | 0 <= k < |slots| && slots[k].id != [] }

  /** Requests that took a slot in which some request, of whatever id, still waited. */
  function Overwrites(h: seq<Event>): nat {
    if h == [] then 0
    else
      var n := |h| - 1;
      Overwrites(h[..n]) + (if IsRequest(h[n]) && Run(h[..n]).slots[Slot(h[n].id)].id != [] then 1 else 0)
  }

  /** Every span is in one place at most: ended once, or waiting in one slot. */
  ghost predicate SpansApart(t: Table) {
    && (forall i :: 0 <= i < |t.ended| ==> t.ended[i].span.Span? && t.ended[i].span.number < t.started)
    && (forall i, j :: 0 <= i < j < |t.ended| ==> t.ended[i].span != t.ended[j].span)
    && (forall k <- Live(t.slots) :: t.slots[k].span.Span? && t.slots[k].span.number < t.started)
    && (forall k, l :: k in Live(t.slots) && l in Live(t.slots) && k != l ==> t.slots[k].span != t.slots[l].span)
    && (forall i, k :: 0 <= i < |t.ended| && k in Live(t.slots) ==> t.ended[i].span != t.slots[k].span)
  }

  /** Started spans are ended, waiting, or lost to an overwrite: the lost ones are never ended. */
  lemma {:induction false} SpanConservation(h: seq<Event>)
    ensures var t := Run(h);
            SpansApart(t) && t.started == |t.ended| + |Live(t.slots)| + Overwrites(h)
    decreases |h|
  {
    if h == [] {
      assert Live(Run(h).slots) == {};
    } else {
      var n := |h| - 1;
      SpanConservation(h[..n]);
      SpanStep(Run(h[..n]), h[n]);
    }
  }

  lemma SpanStep(t: Table, e: Event)
    requires |t.slots| == NUM_SLOTS && SpansApart(t)
    ensures var u := Process(t, e);
            && SpansApart(u)
            && u.started - |u.ended| - |Live(u.slots)|
               == t.started - |t.ended| - |Live(t.slots)|
                  + (if IsRequest(e) && t.slots[Slot(e.id)].id != [] then 1 else 0)
  {
    var u, k := Process(t, e), Slot(e.id);
    if IsRequest(e) {
      LiveUpdate(t.slots, k, u.slots[k]);
      RequestKeepsApart(t, e);
    } else if IsResponse(e) && t.slots[k].id == e.id {
      LiveUpdate(t.slots, k, FREE);
      ResponseKeepsApart(t, e);
    }
  }

  lemma LiveUpdate(slots: seq<PendingSlot>, k: nat, slot: PendingSlot)
    requires k < |slots|
    ensures Live(slots[k := slot]) == if slot.id == [] then Live(slots) - {k} else Live(slots) + {k}
    ensures |Live(slots[k := slot])| - |Live(slots)|
      == (if slot.id == [] then 0 else 1) - (if slots[k].id == [] then 0 else 1)
  {
    var after := slots[k := slot];
    if slot.id == [] {
      assert Live(after) == Live(slots) - {k};
    } else {
      assert Live(after) == Live(slots) + {k};
    }
    assert k in Live(slots) <==> slots[k].id != [];
  }

  lemma RequestKeepsApart(t: Table, e: Event)
    requires |t.slots| == NUM_SLOTS && SpansApart(t) && IsRequest(e)
    ensures SpansApart(Process(t, e))
  {
    var u, k := Process(t, e), Slot(e.id);
    forall l <- Live(u.slots) ensures l == k || (l in Live(t.slots) && u.slots[l] == t.slots[l]) {
    }
  }

  lemma ResponseKeepsApart(t: Table, e: Event)
    requires |t.slots| == NUM_SLOTS && SpansApart(t) && IsResponse(e) && t.slots[Slot(e.id)].id == e.id
    ensures SpansApart(Process(t, e))
  {
    var u, k := Process(t, e), Slot(e.id);
    assert k in Live(t.slots);
    forall l <- Live(u.slots) ensures l != k && l in Live(t.slots) && u.slots[l] == t.slots[l] {
    }
  }

  // ---------- whose span is ended ----------

  /** The response at `j` answers the request at `i`. */
  predicate Answers(h: seq<Event>, i: nat, j: nat) {
    i < j < |h| && IsResponse(h[j]) && HeldAt(h[..j], h[j].id, i)
  }

  /** The span started for the request at `i`. */
  function SpanOf(h: seq<Event>, i: nat): Span
    requires i < |h|
  {
    Span(RequestsIn(h[..i]))
  }

  lemma {:induction false} RequestsGrow(h: seq<Event>, i: nat, k: nat)
    requires i <= k <= |h|
    ensures RequestsIn(h[..i]) <= RequestsIn(h[..k])
    ensures i < k && IsRequest(h[i]) ==> RequestsIn(h[..i]) < RequestsIn(h[..k])
    decreases k
  {
    if i < k {
      RequestsGrow(h, i, k - 1);
      assert h[..k][..k - 1] == h[..k - 1] && h[..k][k - 1] == h[k - 1];
    }
  }

  /** Different requests have different spans. */
  lemma {:induction false} SpanOfInjective(h: seq<Event>, i: nat, k: nat)
    requires i < |h| && k < |h| && IsRequest(h[i]) && IsRequest(h[k]) && SpanOf(h, i) == SpanOf(h, k)
    ensures i == k
  {
    RequestsGrow(h, i, if i < k then k else i);
    RequestsGrow(h, k, if i < k then k else i);
  }

  lemma AnswersBefore(h: seq<Event>, n: nat, i: nat, j: nat)
    requires n <= |h| && j < n
    ensures Answers(h, i, j) <==> Answers(h[..n], i, j)
    ensures i < n ==> SpanOf(h, i) == SpanOf(h[..n], i)
  {
    assert h[..n][..j] == h[..j];
    if i < n { assert h[..n][..i] == h[..i]; }
  }

  /** Each answer ends the span of its request, with the outcome it reports. */
  lemma {:induction false} AnswerEnds(h: seq<Event>, i: nat, j: nat)
    requires Answers(h, i, j)
    ensures Ended(SpanOf(h, i), h[j].failed) in Run(h).ended
    decreases |h|
  {
    var n := |h| - 1;
    var t := Run(h[..n]);
    if j < n {
      AnswersBefore(h, n, i, j);
      assert h[..n][j] == h[j];
      AnswerEnds(h[..n], i, j);
      assert t.ended <= Run(h).ended;
    } else {
      SlotHistory(h[..n], h[n].id);
      assert h[..n][..i] == h[..i] && h[..n][i] == h[i];
      assert Run(h).ended[|t.ended|] == Ended(SpanOf(h, i), h[n].failed);
    }
  }

  /** And no span is ended otherwise. */
  lemma {:induction false} EndedByAnswer(h: seq<Event>, k: nat) returns (i: nat, j: nat)
    requires k < |Run(h).ended|
    ensures Answers(h, i, j) && IsRequest(h[i]) && Run(h).ended[k] == Ended(SpanOf(h, i), h[j].failed)
    decreases |h|
  {
    var n := |h| - 1;
    var t := Run(h[..n]);
    if k < |t.ended| {
      i, j := EndedByAnswer(h[..n], k);
      AnswersBefore(h, n, i, j);
      assert h[..n][j] == h[j] && h[..n][i] == h[i];
    } else {
      SlotHistory(h[..n], h[n].id);
      i :| HeldAt(h[..n], h[n].id, i);
      j := n;
      assert h[..n][..i] == h[..i] && h[..n][i] == h[i];
    }
  }

  /** The span of a request is ended if and only if some response answers that request, and it carries
      that response's outcome. */
  lemma {:induction false} SpanFate(h: seq<Event>, i: nat)
    requires i < |h| && IsRequest(h[i])
    ensures (exists k :: 0 <= k < |Run(h).ended| && Run(h).ended[k].span == SpanOf(h, i))
      <==> (exists j: nat :: Answers(h, i, j))
    ensures forall k, j: nat ::
      (0 <= k < |Run(h).ended| && Run(h).ended[k].span == SpanOf(h, i) && Answers(h, i, j)
       ==> Run(h).ended[k].failed == h[j].failed)
  {
    forall k | 0 <= k < |Run(h).ended| && Run(h).ended[k].span == SpanOf(h, i)
      ensures exists j: nat :: Answers(h, i, j) && Run(h).ended[k].failed == h[j].failed
    {
      var i', j := EndedByAnswer(h, k);
      SpanOfInjective(h, i, i');
    }
    if j: nat :| Answers(h, i, j) {
      AnswerEnds(h, i, j);
    }
    forall j: nat, l: nat | Answers(h, i, j) && Answers(h, i, l) ensures j == l {
      AnsweredOnce(h, i, j, l);
    }
  }

  lemma {:induction false} AnsweredOnce(h: seq<Event>, i: nat, j: nat, l: nat)
    requires Answers(h, i, j) && Answers(h, i, l)
    ensures j == l
  {
    if j < l { MatchedOnce(h, i, j, l); }
    if l < j { MatchedOnce(h, i, l, j); }
  }

  /** A request that lost its slot while it waited keeps its span open forever. */
  lemma {:induction false} ReplacedSpanStaysOpen(h: seq<Event>, i: nat, r: nat)
    requires i < r < |h| && HeldAt(h[..r], h[i].id, i)
    requires IsRequest(h[r]) && Slot(h[r].id) == Slot(h[i].id)
    ensures forall k :: 0 <= k < |Run(h).ended| ==> Run(h).ended[k].span != SpanOf(h, i)
  {
    assert h[..r][i] == h[i];
    forall j: nat ensures !Answers(h, i, j) {
      NoAnswerAfterLoss(h, i, r, j);
    }
    SpanFate(h, i);
  }

  lemma {:induction false} NoAnswerAfterLoss(h: seq<Event>, i: nat, r: nat, j: nat)
    requires i < r < |h| && HeldAt(h[..r], h[i].id, i)
    requires IsRequest(h[r]) && Slot(h[r].id) == Slot(h[i].id)
    ensures !Answers(h, i, j)
  {
    if i < j < |h| {
      assert h[..j][i] == h[i];
      if j < r { assert h[..r][j] == h[j]; }
      if r < j { assert h[..j][r] == h[r]; }
    }
  }
}
