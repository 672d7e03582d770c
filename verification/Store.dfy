/** The store of internal/storage/badger.go as a machine of atomic steps: a bounded queue, a batch
    that the drain loop fills, and transactions that write messages and statistics together. */
module StoreModel {
  import opened Bytes
  import opened KeyOrder
  import opened Statistics
  import opened OrderedMap

  const QUEUE := 4096
  const BATCH := 256

  type Db = seq<Entry>

  // ---------- one transaction ----------

  /** Whether a transaction commits, or fails at message `n` (at the end when there are fewer). */
  datatype Fate = Commits | FailsAt(n: nat)

  function ReadStats(db: Db): Stats {
    if db == [] then ZERO
    else if db[0].key == STATS && db[0].value.StatsValue? then db[0].value.stats
    else ReadStats(db[1..])
  }

  /** The batch with the ids that follow `counter`. */
  function Numbered(batch: seq<Record>, counter: nat): seq<Record> {
    seq(|batch|, i requires 0 <= i < |batch| => batch[i].(id := counter + i + 1))
  }

  function KeyOf(m: Record): Bytes { Key(m.timestamp, m.id) }

  function PutMessages(db: Db, ms: seq<Record>): Db {
    if ms == [] then db
    else
      var n := |ms| - 1;
      Put(PutMessages(db, ms[..n]), KeyOf(ms[n]), MessageValue(ms[n]))
  }

  function Commit(db: Db, ms: seq<Record>): Db {
    Put(PutMessages(db, ms), STATS, StatsValue(Absorb(ReadStats(db), ms)))
  }

  // ---------- the steps ----------

  datatype Core = Core(db: Db, queue: seq<Record>, batch: seq<Record>, idCounter: nat)

  /** What happened so far: messages taken into the queue and not lost in a restart, messages turned
      away, messages lost in a restart, messages handed to a flush, messages stored since the last Clear
      with their ids, ids used up by failed flushes since the counter was last set, and how many of
      those before the last stored message. */
  datatype Log = Log(
    accepted: seq<Record>, dropped: nat, lost: nat, flushed: seq<Record>, stored: seq<Record>,
    burnt: nat, burntBelow: nat)

  datatype State = State(core: Core, log: Log)

  /** Clear sets the counter first; then dropping everything may fail, or writing empty statistics. */
  datatype Outcome = Cleared | DropFails | ResetFails

  /** Restart is the end of the process and New on the database it left behind. */
  datatype Op = Insert(message: Record) | Receive(fate: Fate) | Tick(fate: Fate) | Clear(outcome: Outcome) | Restart

  function IdsUsed(batch: seq<Record>, fate: Fate): nat {
    if fate.FailsAt? && fate.n < |batch| then fate.n + 1 else |batch|
  }

  function FlushCore(c: Core, fate: Fate): Core {
    c.(db := if fate.Commits? then Commit(c.db, Numbered(c.batch, c.idCounter)) else c.db,
       idCounter := c.idCounter + IdsUsed(c.batch, fate),
       batch := [])
  }

  function Flush(s: State, fate: Fate): State {
    var c, g := s.core, s.log;
    State(FlushCore(c, fate),
      if fate.Commits? then
        g.(flushed := g.flushed + c.batch, stored := g.stored + Numbered(c.batch, c.idCounter), burntBelow := g.burnt)
      else
        g.(flushed := g.flushed + c.batch, burnt := g.burnt + IdsUsed(c.batch, fate)))
  }

  /** New on an existing or an empty database. */
  function Open(db: Db): Core {
    if HasKey(db, STATS) then Core(db, [], [], ReadStats(db).totalMessages)
    else Core(Put(db, STATS, StatsValue(ZERO)), [], [], 0)
  }

  function Received(s: State): State
    requires s.core.queue != []
  {
    var c := s.core;
    s.(core := c.(queue := c.queue[1..], batch := c.batch + [c.queue[0]]))
  }

  function Step(s: State, op: Op): State {
    var c, g := s.core, s.log;
    match op
    case Insert(m) =>
      if |c.queue| < QUEUE then State(c.(queue := c.queue + [m]), g.(accepted := g.accepted + [m]))
      else s.(log := g.(dropped := g.dropped + 1))
    case Receive(fate) =>
      if c.queue == [] then s
      else if |c.batch| + 1 >= BATCH then Flush(Received(s), fate) else Received(s)
    case Tick(fate) => if |c.batch| > 0 then Flush(s, fate) else s
    case Clear(outcome) =>
      if outcome.DropFails? then State(c.(idCounter := 0), g.(burnt := 0))
      else
        State(c.(db := if outcome.Cleared? then [Entry(STATS, StatsValue(ZERO))] else [], idCounter := 0),
              g.(stored := [], burnt := 0, burntBelow := 0))
    case Restart =>
      State(Open(c.db), g.(accepted := g.flushed, lost := g.lost + |c.batch| + |c.queue|, burnt := 0))
  }

  /** The effect of a step on the store itself, which the log does not influence. */
  function After(c: Core, op: Op): Core { Step(State(c, NOTHING), op).core }

  lemma StepCore(s: State, op: Op)
    ensures Step(s, op).core == After(s.core, op)
  {
  }

  const NOTHING := Log([], 0, 0, [], [], 0, 0)

  function Run(ops: seq<Op>): State {
    if ops == [] then State(Open([]), NOTHING) else Step(Run(ops[..|ops| - 1]), ops[|ops| - 1])
  }

  // ---------- what a query lists ----------

  function Row(e: Entry): seq<Record> { if e.value.MessageValue? then [e.value.message] else [] }

  function Listed(db: Db): seq<Record> { if db == [] then [] else Row(db[0]) + Listed(db[1..]) }

  lemma ListedCons(e: Entry, db: Db)
    ensures Listed([e] + db) == Row(e) + Listed(db)
  {
    assert ([e] + db)[1..] == db;
  }

  /** Keys are in order, and keys and values belong together. */
  ghost predicate WellFormed(db: Db) { Sorted(db) && forall e <- db :: Fits(e.key, e.value) }

  predicate Fits(k: Bytes, v: Value) {
    match v
    case StatsValue(_) => k == STATS
    case MessageValue(m) => k == KeyOf(m)
  }

  lemma KeyIsNotStats(m: Record)
    ensures KeyOf(m) != STATS && Less(KeyOf(m), STATS)
  {
    assert KeyOf(m)[0] == MSG[0];
  }

  lemma {:induction false} PutKeepsForm(db: Db, k: Bytes, v: Value)
    requires WellFormed(db) && Fits(k, v)
    ensures WellFormed(Put(db, k, v))
  {
    PutSorted(db, k, v);
    PutContents(db, k, v);
  }

  /** Byte order puts every message before the statistics, so the messages are all but that entry. */
  lemma {:induction false} RowsInOrder(db: Db)
    requires WellFormed(db)
    ensures var n := |Listed(db)|;
            && n <= |db| <= n + 1
            && (forall i :: 0 <= i < n ==> db[i].value == MessageValue(Listed(db)[i]))
            && (n < |db| ==> db[n].value.StatsValue?)
  {
    if db != [] {
      if db[0].value.StatsValue? {
        StatsAreLast(db);
      } else {
        var rest := db[1..];
        FormOfRest(db);
        RowsInOrder(rest);
        assert Listed(db) == [db[0].value.message] + Listed(rest);
        forall i | 0 <= i < |Listed(db)| ensures db[i].value == MessageValue(Listed(db)[i]) {
          if i > 0 { assert db[i] == rest[i - 1] && Listed(db)[i] == Listed(rest)[i - 1]; }
        }
      }
    }
  }

  lemma FormOfRest(db: Db)
    requires WellFormed(db) && db != []
    ensures WellFormed(db[1..])
  {
    assert forall e <- db[1..] :: e in db;
  }

  lemma {:induction false} StatsAreLast(db: Db)
    requires WellFormed(db) && db != [] && db[0].value.StatsValue?
    ensures |db| == 1 && Listed(db) == []
  {
    assert db[0] in db;
    if |db| > 1 {
      assert Less(STATS, db[1].key) && db[1] in db;
      if db[1].value.MessageValue? { KeyIsNotStats(db[1].value.message); }
      LessTotal(db[1].key, STATS);
      LessTotal(STATS, STATS);
      assert false;
    }
  }

  /** A message under a new key is listed once more. */
  lemma {:induction false} PutLists(db: Db, k: Bytes, m: Record)
    requires forall e <- db :: e.key != k
    ensures multiset(Listed(Put(db, k, MessageValue(m)))) == multiset(Listed(db)) + multiset{m}
  {
    var e := Entry(k, MessageValue(m));
    if db == [] || Less(k, db[0].key) {
      ListedCons(e, db);
      assert db == [] ==> [e] + db == [e];
    } else {
      assert db == [db[0]] + db[1..];
      PutLists(db[1..], k, m);
      ListedCons(db[0], Put(db[1..], k, MessageValue(m)));
    }
  }

  /** Statistics are never listed. */
  lemma {:induction false} PutStatsLists(db: Db, s: Stats)
    requires WellFormed(db)
    ensures Listed(Put(db, STATS, StatsValue(s))) == Listed(db)
    ensures ReadStats(Put(db, STATS, StatsValue(s))) == s
  {
    if db != [] {
      assert db == [db[0]] + db[1..];
      PutStatsLists(db[1..], s);
      if db[0].value.MessageValue? { KeyIsNotStats(db[0].value.message); }
      LessTotal(db[0].key, STATS);
    }
  }

  lemma {:induction false} PutMessageStats(db: Db, m: Record)
    ensures ReadStats(Put(db, KeyOf(m), MessageValue(m))) == ReadStats(db)
  {
    KeyIsNotStats(m);
    if db != [] {
      PutMessageStats(db[1..], m);
    }
  }

  lemma {:induction false} PutHasKey(db: Db, k: Bytes, v: Value)
    ensures HasKey(Put(db, k, v), k)
  {
    if db == [] || db[0].key == k || Less(k, db[0].key) {
      assert Put(db, k, v)[0].key == k;
    } else {
      PutHasKey(db[1..], k, v);
      var i :| 0 <= i < |Put(db[1..], k, v)| && Put(db[1..], k, v)[i].key == k;
      assert Put(db, k, v)[i + 1].key == k;
    }
  }

  /** Without a statistics entry the statistics are empty. */
  lemma {:induction false} NoStats(db: Db)
    requires !HasKey(db, STATS)
    ensures ReadStats(db) == ZERO
  {
    if db != [] {
      assert db[0].key != STATS;
      assert forall i :: 0 <= i < |db[1..]| ==> db[1..][i] == db[i + 1];
      NoStats(db[1..]);
    }
  }

  // ---------- messages that share a key ----------

  /** No two messages have the same time and id. */
  ghost predicate DistinctKeys(ms: seq<Record>) {
    forall i, j :: 0 <= i < j < |ms| ==> KeyOf(ms[i]) != KeyOf(ms[j])
  }

  /** Only messages from `ms` are in the database. */
  ghost predicate Within(db: Db, ms: seq<Record>) {
    forall e <- db :: e.value.MessageValue? ==> e.value.message in ms
  }

  /** The listing is complete, as far as keys allow. */
  ghost predicate Complete(db: Db, ms: seq<Record>) {
    DistinctKeys(ms) ==> multiset(Listed(db)) == multiset(ms)
  }

  /** The database holds these messages. */
  ghost predicate Holds(db: Db, ms: seq<Record>) { WellFormed(db) && Within(db, ms) && Complete(db, ms) }

  lemma {:induction false} PutMessagesKeep(db: Db, before: seq<Record>, ms: seq<Record>)
    requires Holds(db, before)
    ensures var r := PutMessages(db, ms);
            && Holds(r, before + ms)
            && ReadStats(r) == ReadStats(db)
    decreases |ms|
  {
    if ms == [] {
      assert before + ms == before;
    } else {
      var n := |ms| - 1;
      PutMessagesKeep(db, before, ms[..n]);
      PutNext(PutMessages(db, ms[..n]), before + ms[..n], ms[n]);
      LastOf(before, ms);
    }
  }

  lemma LastOf(before: seq<Record>, ms: seq<Record>)
    requires ms != []
    ensures before + ms == before + ms[..|ms| - 1] + [ms[|ms| - 1]]
  {
  }

  lemma {:induction false} PutNext(db: Db, before: seq<Record>, m: Record)
    requires Holds(db, before)
    ensures var r := Put(db, KeyOf(m), MessageValue(m));
            && Holds(r, before + [m])
            && ReadStats(r) == ReadStats(db)
  {
    PutKeepsForm(db, KeyOf(m), MessageValue(m));
    PutContents(db, KeyOf(m), MessageValue(m));
    PutMessageStats(db, m);
    if DistinctKeys(before + [m]) {
      FreshKey(db, before, m);
      PutLists(db, KeyOf(m), m);
      assert multiset(before + [m]) == multiset(before) + multiset{m};
    }
  }

  lemma {:induction false} FreshKey(db: Db, before: seq<Record>, m: Record)
    requires WellFormed(db) && Within(db, before) && DistinctKeys(before + [m])
    ensures DistinctKeys(before)
    ensures forall e <- db :: e.key != KeyOf(m)
  {
    var all := before + [m];
    assert forall i :: 0 <= i < |before| ==> all[i] == before[i];
    forall i | 0 <= i < |before| ensures KeyOf(before[i]) != KeyOf(m) {
      assert KeyOf(all[i]) != KeyOf(all[|before|]);
    }
    KeyIsNotStats(m);
  }

  lemma {:induction false} ListedDistinct(db: Db)
    requires WellFormed(db)
    ensures DistinctKeys(Listed(db))
  {
    RowsInOrder(db);
    forall i, j | 0 <= i < j < |Listed(db)| ensures KeyOf(Listed(db)[i]) != KeyOf(Listed(db)[j]) {
      assert db[i] in db && db[j] in db && Less(db[i].key, db[j].key);
      LessTotal(db[i].key, db[j].key);
    }
  }

  /** Two different places of a list hold what two different places of any rearrangement hold. */
  lemma {:induction false} TwoPlaces(a: seq<Record>, x: Record, y: Record) returns (p: nat, q: nat)
    requires multiset{x, y} <= multiset(a)
    ensures p < |a| && q < |a| && p != q && a[p] == x && a[q] == y
  {
    assert multiset{x, y}[x] >= 1 && multiset{x, y}[y] >= 1;
    assert x in multiset(a) && y in multiset(a);
    p :| 0 <= p < |a| && a[p] == x;
    var rest := a[..p] + a[p + 1..];
    assert a == a[..p] + [x] + a[p + 1..];
    assert multiset(a) == multiset(rest) + multiset{x};
    assert y in multiset(rest);
    var r :| 0 <= r < |rest| && rest[r] == y;
    q := if r < p then r else r + 1;
  }

  lemma {:induction false} DistinctRearranged(a: seq<Record>, b: seq<Record>)
    requires multiset(a) == multiset(b) && DistinctKeys(a)
    ensures DistinctKeys(b)
  {
    forall i, j | 0 <= i < j < |b| ensures KeyOf(b[i]) != KeyOf(b[j]) {
      assert b == b[..i] + [b[i]] + b[i + 1..j] + [b[j]] + b[j + 1..];
      assert multiset{b[i], b[j]} <= multiset(b);
      var p, q := TwoPlaces(a, b[i], b[j]);
      assert KeyOf(a[p]) != KeyOf(a[q]) by { assert p < q || q < p; }
    }
  }

  /** A committed batch joins the stored messages, in the database and in the statistics. */
  lemma {:induction false} CommitKeeps(db: Db, before: seq<Record>, ms: seq<Record>)
    requires Holds(db, before) && ReadStats(db) == Summary(before)
    ensures var r := Commit(db, ms);
            && Holds(r, before + ms)
            && ReadStats(r) == Summary(before + ms) && HasKey(r, STATS)
  {
    PutMessagesKeep(db, before, ms);
    var r, s := PutMessages(db, ms), Absorb(ReadStats(db), ms);
    AbsorbIsSummary(before, ms);
    PutStatsKeeps(r, before + ms, s);
  }

  lemma {:induction false} PutStatsKeeps(db: Db, ms: seq<Record>, s: Stats)
    requires Holds(db, ms)
    ensures var r := Put(db, STATS, StatsValue(s));
            && Holds(r, ms) && ReadStats(r) == s && HasKey(r, STATS)
  {
    PutStatsLists(db, s);
    PutKeepsForm(db, STATS, StatsValue(s));
    PutContents(db, STATS, StatsValue(s));
    PutHasKey(db, STATS, StatsValue(s));
  }

  // ---------- what holds over every run, whatever fails ----------

  /** Nothing accepted is lost or reordered on its way to a flush. */
  ghost predicate Conserved(c: Core, g: Log) {
    |c.queue| <= QUEUE && g.accepted == g.flushed + (c.batch + c.queue)
  }

  /** The database agrees with the messages stored since the last Clear. */
  ghost predicate Agrees(db: Db, stored: seq<Record>) {
    Holds(db, stored) && ReadStats(db) == Summary(stored)
  }

  ghost predicate Inv(s: State) {
    Conserved(s.core, s.log) && |s.core.batch| < BATCH && Agrees(s.core.db, s.log.stored)
  }

  lemma {:induction false} FlushInv(s: State, fate: Fate)
    requires Conserved(s.core, s.log) && Agrees(s.core.db, s.log.stored)
    ensures Inv(Flush(s, fate))
  {
    var c, g := s.core, s.log;
    assert g.flushed + (c.batch + c.queue) == (g.flushed + c.batch) + ([] + c.queue);
    if fate.Commits? { CommitKeeps(c.db, g.stored, Numbered(c.batch, c.idCounter)); }
  }

  lemma {:induction false} InsertInv(s: State, m: Record)
    requires Inv(s)
    ensures Inv(Step(s, Insert(m)))
  {
    var c, g := s.core, s.log;
    assert g.flushed + (c.batch + c.queue) + [m] == g.flushed + (c.batch + (c.queue + [m]));
  }

  lemma {:induction false} ReceivedConserves(s: State)
    requires Conserved(s.core, s.log) && s.core.queue != []
    ensures Conserved(Received(s).core, s.log)
  {
    var c := s.core;
    assert c.batch + c.queue == (c.batch + [c.queue[0]]) + c.queue[1..];
  }

  lemma EmptyAgrees()
    ensures Agrees([], []) && Agrees([Entry(STATS, StatsValue(ZERO))], [])
  {
    var db := [Entry(STATS, StatsValue(ZERO))];
    assert db[1..] == [] && Listed(db) == [];
  }

  lemma {:induction false} OpenAgrees(db: Db, stored: seq<Record>)
    requires Agrees(db, stored)
    ensures Agrees(Open(db).db, stored) && Open(db).idCounter == |stored| && HasKey(Open(db).db, STATS)
  {
    if !HasKey(db, STATS) {
      NoStats(db);
      PutStatsKeeps(db, stored, ZERO);
    }
  }

  lemma {:induction false} RestartInv(s: State)
    requires Inv(s)
    ensures Inv(Step(s, Restart))
  {
    OpenAgrees(s.core.db, s.log.stored);
    assert s.log.flushed + ([] + []) == s.log.flushed;
  }

  lemma ReceiveInv(s: State, fate: Fate)
    requires Inv(s)
    ensures Inv(Step(s, Receive(fate)))
  {
    if s.core.queue != [] {
      ReceivedConserves(s);
      if |s.core.batch| + 1 >= BATCH { FlushInv(Received(s), fate); }
    }
  }

  lemma ClearInv(s: State, outcome: Outcome)
    requires Inv(s)
    ensures Inv(Step(s, Clear(outcome)))
  {
    EmptyAgrees();
  }

  lemma {:induction false} StepInv(s: State, op: Op)
    requires Inv(s)
    ensures Inv(Step(s, op))
  {
    match op
    case Insert(m) => InsertInv(s, m);
    case Receive(fate) => ReceiveInv(s, fate);
    case Tick(fate) => if |s.core.batch| > 0 { FlushInv(s, fate); }
    case Clear(outcome) => ClearInv(s, outcome);
    case Restart => RestartInv(s);
  }

  /** Any steps in any order, with any failures and any restarts. */
  lemma {:induction false} EveryRun(ops: seq<Op>)
    ensures Inv(Run(ops))
    decreases |ops|
  {
    if ops == [] {
      EmptyAgrees();
    } else {
      EveryRun(ops[..|ops| - 1]);
      StepInv(Run(ops[..|ops| - 1]), ops[|ops| - 1]);
    }
  }

  function Inserts(ops: seq<Op>): nat {
    if ops == [] then 0 else Inserts(ops[..|ops| - 1]) + (if ops[|ops| - 1].Insert? then 1 else 0)
  }

  lemma {:induction false} InsertsCounted(ops: seq<Op>)
    ensures var g := Run(ops).log; Inserts(ops) == g.dropped + g.lost + |g.accepted|
    decreases |ops|
  {
    if ops != [] {
      var n := |ops| - 1;
      InsertsCounted(ops[..n]);
      EveryRun(ops[..n]);
      InsertCounts(Run(ops[..n]), ops[n]);
    }
  }

  lemma InsertCounts(s: State, op: Op)
    requires Conserved(s.core, s.log)
    ensures var g, h := s.log, Step(s, op).log;
      h.dropped + h.lost + |h.accepted| == g.dropped + g.lost + |g.accepted| + (if op.Insert? then 1 else 0)
  {
  }

  /** Every message inserted was turned away, was in flight at a restart, waits in the queue or the
      batch, or went to a flush. */
  lemma {:induction false} Conservation(ops: seq<Op>)
    ensures var c, g := Run(ops).core, Run(ops).log;
            && Inserts(ops) == g.dropped + g.lost + |c.queue| + |c.batch| + |g.flushed|
            && g.accepted == g.flushed + c.batch + c.queue
            && |c.queue| <= QUEUE && |c.batch| < BATCH
  {
    EveryRun(ops);
    InsertsCounted(ops);
    var c, g := Run(ops).core, Run(ops).log;
    assert g.flushed + c.batch + c.queue == g.flushed + (c.batch + c.queue);
  }

  /** Over every run the statistics are those of the stored messages, recomputed, and a query lists only
      stored messages. It lists all of them, each once, if and only if no two have the same time and id. */
  lemma {:induction false} StoredIsWhatIsCounted(ops: seq<Op>)
    ensures var db, stored := Run(ops).core.db, Run(ops).log.stored;
            && ReadStats(db) == Summary(stored)
            && (forall m <- Listed(db) :: m in stored)
            && (multiset(Listed(db)) == multiset(stored) <==> DistinctKeys(stored))
  {
    EveryRun(ops);
    var db, stored := Run(ops).core.db, Run(ops).log.stored;
    RowsInOrder(db);
    forall i | 0 <= i < |Listed(db)| ensures Listed(db)[i] in stored {
      assert db[i] in db;
    }
    if multiset(Listed(db)) == multiset(stored) {
      ListedDistinct(db);
      DistinctRearranged(Listed(db), stored);
    }
  }

  // ---------- the same run told by its steps alone ----------

  /** What a step hands to a flush: the whole batch at a tick, and with its 256th message at a receive. */
  function Handed(c: Core, op: Op): seq<Record> {
    match op
    case Receive(_) => if c.queue != [] && |c.batch| >= 255 then c.batch + [c.queue[0]] else []
    case Tick(_) => c.batch
    case _ => []
  }

  function Before(ops: seq<Op>): Core
    requires ops != []
  {
    Run(ops[..|ops| - 1]).core
  }

  /** All that was ever handed to a flush, in order. */
  function HandedOver(ops: seq<Op>): seq<Record> {
    if ops == [] then [] else HandedOver(ops[..|ops| - 1]) + Handed(Before(ops), ops[|ops| - 1])
  }

  /** The messages inserted while the queue was not full, without those in flight at a restart. */
  function Admitted(ops: seq<Op>): seq<Record> {
    if ops == [] then []
    else
      var earlier := ops[..|ops| - 1];
      match ops[|ops| - 1]
      case Insert(m) => Admitted(earlier) + (if |Before(ops).queue| < 4096 then [m] else [])
      case Restart => HandedOver(earlier)
      case _ => Admitted(earlier)
  }

  /** How many were inserted into a full queue. */
  function TurnedAway(ops: seq<Op>): nat {
    if ops == [] then 0
    else TurnedAway(ops[..|ops| - 1]) + (if ops[|ops| - 1].Insert? && |Before(ops).queue| >= 4096 then 1 else 0)
  }

  /** How many were in batch and queue just before each restart. */
  function LostInRestarts(ops: seq<Op>): nat {
    if ops == [] then 0
    else
      LostInRestarts(ops[..|ops| - 1])
      + (if ops[|ops| - 1].Restart? then |Before(ops).batch| + |Before(ops).queue| else 0)
  }

  predicate FlushFails(op: Op) { (op.Receive? || op.Tick?) && op.fate.FailsAt? }

  /** Ids that a step takes: one per message, up to the one at which the flush fails. */
  function IdsTaken(c: Core, op: Op): nat {
    if FlushFails(op) && op.fate.n < |Handed(c, op)| then op.fate.n + 1 else |Handed(c, op)|
  }

  /** The counter: zero after any Clear, the number of stored messages after a restart. */
  function Counter(ops: seq<Op>): nat {
    if ops == [] then 0
    else
      var earlier := ops[..|ops| - 1];
      match ops[|ops| - 1]
      case Clear(_) => 0
      case Restart => |Committed(earlier)|
      case op => Counter(earlier) + IdsTaken(Before(ops), op)
  }

  /** The messages of the flushes that did not fail, with the ids that follow the counter, since the last
      Clear that dropped what was stored. */
  function Committed(ops: seq<Op>): seq<Record> {
    if ops == [] then []
    else
      var earlier := ops[..|ops| - 1];
      match ops[|ops| - 1]
      case Clear(outcome) => if outcome.DropFails? then Committed(earlier) else []
      case op => Committed(earlier) + (if FlushFails(op) then [] else Numbered(Handed(Before(ops), op), Counter(earlier)))
  }

  /** Every run does what its steps say, with the full queue at 4096 and the full batch at 256. */
  lemma {:induction false} Accounts(ops: seq<Op>)
    ensures var c, g := Run(ops).core, Run(ops).log;
      && g.accepted == Admitted(ops) && g.flushed == HandedOver(ops) && g.stored == Committed(ops)
      && g.dropped == TurnedAway(ops) && g.lost == LostInRestarts(ops)
      && c.idCounter == Counter(ops)
    decreases |ops|
  {
    if ops != [] {
      Accounts(ops[..|ops| - 1]);
      EveryRun(ops[..|ops| - 1]);
      AccountsFlushed(ops);
      AccountsQueue(ops);
      AccountsStored(ops);
    }
  }

  /** The step ends with a flush. */
  predicate Flushes(c: Core, op: Op) {
    match op case Receive(_) => c.queue != [] && |c.batch| >= 255 case Tick(_) => c.batch != [] case _ => false
  }

  lemma StepFlushes(s: State, op: Op)
    requires Flushes(s.core, op)
    ensures var t := if op.Receive? then Received(s) else s;
      t.core.batch == Handed(s.core, op) && t.core.idCounter == s.core.idCounter && t.log == s.log
      && Step(s, op) == Flush(t, op.fate)
  {
  }

  lemma StepNoFlush(s: State, op: Op)
    requires !Flushes(s.core, op)
    ensures Handed(s.core, op) == [] && Step(s, op).log.flushed == s.log.flushed
    ensures op.Receive? || op.Tick? ==> Step(s, op).log == s.log && Step(s, op).core.idCounter == s.core.idCounter
  {
  }

  lemma AccountsFlushed(ops: seq<Op>)
    requires ops != [] && Run(ops[..|ops| - 1]).log.flushed == HandedOver(ops[..|ops| - 1])
    ensures Run(ops).log.flushed == HandedOver(ops)
  {
    StepHands(Run(ops[..|ops| - 1]), ops[|ops| - 1]);
  }

  lemma StepHands(s: State, op: Op)
    ensures Step(s, op).log.flushed == s.log.flushed + Handed(s.core, op)
  {
    if Flushes(s.core, op) { StepFlushes(s, op); } else { StepNoFlush(s, op); }
  }

  lemma AccountsQueue(ops: seq<Op>)
    requires ops != []
    requires var p := ops[..|ops| - 1];
      var g := Run(p).log;
      && g.accepted == Admitted(p) && g.flushed == HandedOver(p)
      && g.dropped == TurnedAway(p) && g.lost == LostInRestarts(p)
    ensures var g := Run(ops).log;
      g.accepted == Admitted(ops) && g.dropped == TurnedAway(ops) && g.lost == LostInRestarts(ops)
  {
    var n := |ops| - 1;
    var s := Run(ops[..n]);
    if Flushes(s.core, ops[n]) { StepFlushes(s, ops[n]); } else { StepNoFlush(s, ops[n]); }
    assert s.log.accepted + [] == s.log.accepted;
  }

  lemma AccountsStored(ops: seq<Op>)
    requires ops != []
    requires var p := ops[..|ops| - 1];
      Inv(Run(p)) && Run(p).log.stored == Committed(p) && Run(p).core.idCounter == Counter(p)
    ensures Run(ops).log.stored == Committed(ops) && Run(ops).core.idCounter == Counter(ops)
  {
    var n := |ops| - 1;
    var s, op := Run(ops[..n]), ops[n];
    assert s.log.stored + [] == s.log.stored && Numbered([], s.core.idCounter) == [];
    if Flushes(s.core, op) { StepFlushes(s, op); } else { StepNoFlush(s, op); }
    if op.Restart? { OpenAgrees(s.core.db, s.log.stored); }
  }

  /** Every admitted message is handed to a flush or still waits, in the order of arrival, and an inserted
      one that was not admitted met a full queue. */
  lemma {:induction false} MessageFlow(ops: seq<Op>)
    ensures var c := Run(ops).core;
      && Admitted(ops) == HandedOver(ops) + c.batch + c.queue
      && Inserts(ops) == TurnedAway(ops) + LostInRestarts(ops) + |Admitted(ops)|
      && |c.queue| <= 4096 && |c.batch| < 256
  {
    Accounts(ops);
    Conservation(ops);
  }

  // ---------- ids ----------

  /** The step at `i` flushes the batch. */
  predicate FlushesAt(ops: seq<Op>, i: nat)
    requires i < |ops|
  {
    var c := Run(ops[..i]).core;
    match ops[i]
    case Receive(_) => c.queue != [] && |c.batch| + 1 >= BATCH
    case Tick(_) => |c.batch| > 0
    case _ => false
  }

  predicate FailsIn(ops: seq<Op>, i: nat) { i < |ops| && FlushesAt(ops, i) && !ops[i].fate.Commits? }

  predicate CommitsIn(ops: seq<Op>, i: nat) { i < |ops| && FlushesAt(ops, i) && ops[i].fate.Commits? }

  /** The counter is not set again after step `i`, neither by a Clear nor by a restart. */
  predicate Undisturbed(ops: seq<Op>, i: nat) {
    forall k :: i < k < |ops| ==> !ops[k].Clear? && !ops[k].Restart?
  }

  predicate Wasted(ops: seq<Op>, i: nat) { FailsIn(ops, i) && Undisturbed(ops, i) }

  /** A failed flush used up ids, and a later one stored messages above them. */
  predicate Mishap(ops: seq<Op>, i: nat, j: nat) { i < j && Wasted(ops, i) && CommitsIn(ops, j) }

  ghost predicate HasMishap(ops: seq<Op>) { exists i: nat, j: nat :: Mishap(ops, i, j) }

  /** Restarts only without a mishap, and no Clear that sets the counter to zero and then fails to drop
      what is stored. */
  ghost predicate Orderly(ops: seq<Op>) {
    forall i :: 0 <= i < |ops| ==> OrderlyStep(ops, i)
  }

  ghost predicate OrderlyStep(ops: seq<Op>, i: nat)
    requires i < |ops|
  {
    && (ops[i].Restart? ==> !HasMishap(ops[..i]))
    && (ops[i] == Clear(DropFails) ==> Run(ops[..i]).log.stored == [])
  }

  lemma OrderlySnoc(ops: seq<Op>)
    requires ops != []
    ensures Orderly(ops) <==> Orderly(ops[..|ops| - 1]) && OrderlyStep(ops, |ops| - 1)
  {
    var n := |ops| - 1;
    var p := ops[..n];
    forall i | 0 <= i < n ensures OrderlyStep(p, i) <==> OrderlyStep(ops, i) {
      assert p[..i] == ops[..i];
    }
  }

  /** Ids rise in the order of flushing and skip exactly those used up by failed flushes. */
  ghost predicate Counted(c: Core, g: Log) {
    && c.idCounter == |g.stored| + g.burnt
    && g.burntBelow <= g.burnt
    && (forall i :: 0 <= i < |g.stored| ==> i + 1 <= g.stored[i].id <= i + 1 + g.burntBelow)
    && (forall i, j :: 0 <= i < j < |g.stored| ==> g.stored[i].id < g.stored[j].id)
    && (if g.stored == [] then g.burntBelow == 0 else g.stored[|g.stored| - 1].id == |g.stored| + g.burntBelow)
  }

  lemma {:induction false} FlushCounts(s: State, fate: Fate)
    requires Counted(s.core, s.log) && s.core.batch != []
    ensures Counted(Flush(s, fate).core, Flush(s, fate).log)
  {
    var c, g, t := s.core, s.log, Flush(s, fate);
    var ms := Numbered(c.batch, c.idCounter);
    if fate.Commits? {
      assert t.log.stored == g.stored + ms;
    }
  }

  lemma {:induction false} StepCounts(s: State, op: Op)
    requires Counted(s.core, s.log) && !op.Restart?
    requires op == Clear(DropFails) ==> s.log.stored == []
    ensures Counted(Step(s, op).core, Step(s, op).log)
  {
    match op
    case Insert(_) =>
    case Receive(fate) =>
      if s.core.queue != [] && |s.core.batch| + 1 >= BATCH { FlushCounts(Received(s), fate); }
    case Tick(fate) => if |s.core.batch| > 0 { FlushCounts(s, fate); }
    case Clear(_) =>
  }

  lemma {:induction false} RestartCounts(s: State)
    requires Counted(s.core, s.log) && Agrees(s.core.db, s.log.stored) && s.log.burntBelow == 0
    ensures Counted(Step(s, Restart).core, Step(s, Restart).log)
  {
    OpenAgrees(s.core.db, s.log.stored);
    var t := Step(s, Restart);
    assert t.core.idCounter == |t.log.stored| && t.log.stored == s.log.stored;
  }

  lemma {:induction false} WastedBefore(ops: seq<Op>, i: nat, j: nat)
    requires ops != []
    ensures var n := |ops| - 1;
      var calm := !ops[n].Clear? && !ops[n].Restart?;
      && (i < n ==> (Wasted(ops, i) <==> Wasted(ops[..n], i) && calm))
      && (j < n ==> (Mishap(ops, i, j) <==> Mishap(ops[..n], i, j) && calm))
      && (Wasted(ops, n) <==> FailsIn(ops, n))
      && (Mishap(ops, i, n) <==> Wasted(ops[..n], i) && CommitsIn(ops, n))
  {
    var n := |ops| - 1;
    var p := ops[..n];
    assert forall k :: 0 <= k < n ==> p[k] == ops[k];
    if i < n { assert p[..i] == ops[..i]; }
    if j < n { assert p[..j] == ops[..j]; }
  }

  /** In an orderly run, ids were used up exactly if some flush failed and the counter was not set since;
      and some of them lie below a stored message exactly after a mishap. */
  lemma {:induction false} OrderlyRun(ops: seq<Op>)
    requires Orderly(ops)
    ensures Counted(Run(ops).core, Run(ops).log)
    ensures Run(ops).log.burnt > 0 <==> exists i: nat :: Wasted(ops, i)
    ensures Run(ops).log.burntBelow > 0 <==> HasMishap(ops)
    decreases |ops|
  {
    if ops != [] {
      var n := |ops| - 1;
      var p := ops[..n];
      OrderlySnoc(ops);
      OrderlyRun(p);
      EveryRun(p);
      if ops[n].Restart? { RestartCounts(Run(p)); } else { StepCounts(Run(p), ops[n]); }
      BurntStep(ops);
    }
  }

  lemma {:induction false} BurntStep(ops: seq<Op>)
    requires ops != [] && OrderlyStep(ops, |ops| - 1)
    requires var p := ops[..|ops| - 1];
      && Counted(Run(p).core, Run(p).log)
      && (Run(p).log.burnt > 0 <==> exists i: nat :: Wasted(p, i))
      && (Run(p).log.burntBelow > 0 <==> HasMishap(p))
    ensures Run(ops).log.burnt > 0 <==> exists i: nat :: Wasted(ops, i)
    ensures Run(ops).log.burntBelow > 0 <==> HasMishap(ops)
  {
    var n := |ops| - 1;
    var p := ops[..n];
    var g, h := Run(p).log, Run(ops).log;
    WastedAfter(ops);
    if ops[n].Clear? || ops[n].Restart? {
      assert h.burnt == 0 && h.burntBelow == 0;
    } else if CommitsIn(ops, n) {
      assert h.burnt == g.burnt && h.burntBelow == g.burnt;
    } else if FailsIn(ops, n) {
      assert h.burnt > 0 && h.burntBelow == g.burntBelow;
    } else {
      assert h.burnt == g.burnt && h.burntBelow == g.burntBelow;
    }
  }

  lemma {:induction false} WastedAfter(ops: seq<Op>)
    requires ops != []
    ensures var n := |ops| - 1;
      var p := ops[..n];
      var calm := !ops[n].Clear? && !ops[n].Restart?;
      && ((exists i: nat :: Wasted(ops, i)) <==> (calm && exists i: nat :: Wasted(p, i)) || FailsIn(ops, n))
      && (HasMishap(ops) <==> (calm && HasMishap(p)) || (CommitsIn(ops, n) && exists i: nat :: Wasted(p, i)))
  {
    var n := |ops| - 1;
    var p := ops[..n];
    WastedBefore(ops, 0, 0);
    if i: nat :| Wasted(p, i) {
      WastedBefore(ops, i, 0);
      assert Wasted(ops, i) || ops[n].Clear? || ops[n].Restart?;
      assert Mishap(ops, i, n) <==> CommitsIn(ops, n);
    }
    if i: nat, j: nat :| Mishap(p, i, j) {
      WastedBefore(ops, i, j);
      assert Mishap(ops, i, j) || ops[n].Clear? || ops[n].Restart?;
    }
    if i: nat :| Wasted(ops, i) {
      WastedBefore(ops, i, 0);
      assert i == n || Wasted(p, i);
    }
    if i: nat, j: nat :| Mishap(ops, i, j) {
      WastedBefore(ops, i, j);
      assert Wasted(p, i) && (j == n || Mishap(p, i, j));
    }
    assert FailsIn(ops, n) ==> Wasted(ops, n);
  }

  /** Ids that rise are distinct, so nothing an orderly run stores hides anything else: a query lists
      every stored message once, and as many as are counted. */
  lemma {:induction false} OrderlyListing(ops: seq<Op>)
    requires Orderly(ops)
    ensures var db, stored := Run(ops).core.db, Run(ops).log.stored;
      multiset(Listed(db)) == multiset(stored) && |Listed(db)| == ReadStats(db).totalMessages
  {
    OrderlyRun(ops);
    EveryRun(ops);
    var db, stored := Run(ops).core.db, Run(ops).log.stored;
    forall i, j | 0 <= i < j < |stored| ensures KeyOf(stored[i]) != KeyOf(stored[j]) {
      if KeyOf(stored[i]) == KeyOf(stored[j]) {
        KeyInjective(stored[i].timestamp, stored[i].id, stored[j].timestamp, stored[j].id);
      }
    }
    assert |multiset(Listed(db))| == |Listed(db)| && |multiset(stored)| == |stored|;
  }

  /** After an orderly run, opening the database again starts above every stored id if and only if no
      failed flush was followed by one that stored messages, with no Clear or restart after it. */
  lemma {:induction false} OrderlyReopening(ops: seq<Op>)
    requires Orderly(ops)
    ensures var c, g := Run(ops).core, Run(ops).log;
      (forall m <- g.stored :: m.id <= Open(c.db).idCounter) <==> !HasMishap(ops)
  {
    OrderlyRun(ops);
    EveryRun(ops);
    var g := Run(ops).log;
    OpenAgrees(Run(ops).core.db, g.stored);
    if g.stored != [] {
      assert g.stored[|g.stored| - 1] in g.stored;
    }
  }

  /** The next id is above every stored one. */
  ghost predicate NextIsFresh(s: State) { forall m <- s.log.stored :: m.id <= s.core.idCounter }

  /** It is all the time. */
  ghost predicate StaysFresh(ops: seq<Op>) { forall n: nat :: n <= |ops| ==> FreshAt(ops, n) }

  ghost predicate FreshAt(ops: seq<Op>, n: nat)
    requires n <= |ops|
  {
    NextIsFresh(Run(ops[..n]))
  }

  lemma FreshSnoc(ops: seq<Op>)
    requires ops != []
    ensures StaysFresh(ops) <==> StaysFresh(ops[..|ops| - 1]) && FreshAt(ops, |ops|)
  {
    var p := ops[..|ops| - 1];
    forall n: nat | n <= |p| ensures FreshAt(p, n) <==> FreshAt(ops, n) {
      assert p[..n] == ops[..n];
    }
  }

  /** The one step that can go wrong after an orderly run. */
  lemma {:induction false} FreshStep(ops: seq<Op>)
    requires ops != [] && Orderly(ops[..|ops| - 1])
    ensures FreshAt(ops, |ops|) <==> OrderlyStep(ops, |ops| - 1)
  {
    assert ops[..|ops|] == ops;
    var n := |ops| - 1;
    var p := ops[..n];
    OrderlySnoc(ops);
    OrderlyRun(p);
    if OrderlyStep(ops, n) {
      OrderlyRun(ops);
      var g := Run(ops).log;
      forall m <- g.stored ensures m.id <= Run(ops).core.idCounter {
        var i :| 0 <= i < |g.stored| && g.stored[i] == m;
        assert m.id <= g.stored[|g.stored| - 1].id;
      }
    } else if ops[n].Restart? {
      OrderlyReopening(p);
    } else {
      assert Run(p).log.stored[0] in Run(ops).log.stored;
    }
  }

  /** Over every run: the next id was above every stored one all the time if and only if no restart came
      after a failed flush that a committed one had followed, and no Clear failed to drop stored messages. */
  lemma {:induction false} FreshIffOrderly(ops: seq<Op>)
    ensures StaysFresh(ops) <==> Orderly(ops)
    decreases |ops|
  {
    if ops == [] {
      assert FreshAt(ops, 0);
    } else {
      FreshIffOrderly(ops[..|ops| - 1]);
      FreshSnoc(ops);
      OrderlySnoc(ops);
      if Orderly(ops[..|ops| - 1]) { FreshStep(ops); }
    }
  }

  /** A restart keeps ids fresh if and only if no failed flush was followed by a committed one since the
      counter was last set. */
  lemma {:induction false} RestartIsSafe(ops: seq<Op>)
    ensures StaysFresh(ops + [Restart]) <==> StaysFresh(ops) && !HasMishap(ops)
  {
    var more := ops + [Restart];
    assert more[..|ops|] == ops;
    FreshIffOrderly(ops);
    FreshIffOrderly(more);
    OrderlySnoc(more);
  }

  /** A Clear keeps ids fresh if and only if it drops the messages or there are none. */
  lemma {:induction false} ClearIsSafe(ops: seq<Op>, outcome: Outcome)
    ensures StaysFresh(ops + [Clear(outcome)])
      <==> StaysFresh(ops) && (outcome.DropFails? ==> Run(ops).log.stored == [])
  {
    var more := ops + [Clear(outcome)];
    assert more[..|ops|] == ops;
    FreshIffOrderly(ops);
    FreshIffOrderly(more);
    OrderlySnoc(more);
  }

  predicate NoFailures(ops: seq<Op>) {
    forall i :: 0 <= i < |ops| ==>
      match ops[i]
      case Receive(fate) => fate.Commits?
      case Tick(fate) => fate.Commits?
      case Clear(outcome) => outcome.Cleared?
      case _ => true
  }

  lemma {:induction false} NoFailuresIsOrderly(ops: seq<Op>)
    requires NoFailures(ops)
    ensures Orderly(ops) && !HasMishap(ops) && forall i: nat :: !Wasted(ops, i)
  {
    forall k, i: nat, j: nat | 0 <= k < |ops| ensures !Mishap(ops[..k], i, j) {
      if i < k { assert ops[..k][i] == ops[i]; }
    }
  }

  lemma {:induction false} StatsPresent(ops: seq<Op>)
    requires NoFailures(ops)
    ensures HasKey(Run(ops).core.db, STATS)
    decreases |ops|
  {
    if ops == [] {
      assert Open([]).db[0].key == STATS;
    } else {
      var n := |ops| - 1;
      StatsPresent(ops[..n]);
      var s := Run(ops[..n]);
      match ops[n]
      case Insert(_) =>
      case Receive(_) =>
        if s.core.queue != [] { CommitHasStats(Received(s).core); }
      case Tick(_) => CommitHasStats(s.core);
      case Clear(_) => assert Run(ops).core.db[0].key == STATS;
      case Restart =>
    }
  }

  lemma {:induction false} CommitHasStats(c: Core)
    ensures HasKey(FlushCore(c, Commits).db, STATS)
  {
    var ms := Numbered(c.batch, c.idCounter);
    PutHasKey(PutMessages(c.db, ms), STATS, StatsValue(Absorb(ReadStats(c.db), ms)));
  }

  /** Without failures, whatever restarts there are: ids since the last Clear are 1, 2, 3, ... in flush
      order, the counter is the number of messages, and closing and opening the database with nothing in
      flight changes nothing at all. */
  lemma {:induction false} IdsWithoutFailures(ops: seq<Op>)
    requires NoFailures(ops)
    ensures var c, g := Run(ops).core, Run(ops).log;
            && c.idCounter == ReadStats(c.db).totalMessages == |g.stored|
            && (forall i :: 0 <= i < |g.stored| ==> g.stored[i].id == i + 1)
            && (c.queue == [] && c.batch == [] ==> Open(c.db) == c)
  {
    NoFailuresIsOrderly(ops);
    OrderlyRun(ops);
    EveryRun(ops);
    StatsPresent(ops);
  }

  // ---------- what goes wrong otherwise ----------

  /** One failed flush, one good one and a restart: the next message gets the id of the one before. If
      it also has its time, it takes its place, and one of two counted messages is listed. */
  lemma {:induction false} RestartReusesId(m: Record, late: Record) returns (ops: seq<Op>)
    ensures var stored := Run(ops).log.stored;
      && |stored| == 2 && stored[0] == m.(id := 2) && stored[1] == late.(id := 2)
      && (m.timestamp == late.timestamp <==> multiset(Listed(Run(ops).core.db)) != multiset(stored))
  {
    ops := FailCommitReopen(m);
    ops := Pass(ops, late, Commits);
    SameIdTwice(ops, m.(id := 2), late.(id := 2));
  }

  lemma {:induction false} FailCommitReopen(m: Record) returns (ops: seq<Op>)
    ensures Idle(Run(ops)) && Run(ops).log.stored == [m.(id := 2)] && Run(ops).core.idCounter == 1
  {
    ops := Pass([], m, FailsAt(0));
    ops := Pass(ops, m, Commits);
    ops := Reopen(ops);
  }

  lemma {:induction false} Reopen(ops: seq<Op>) returns (more: seq<Op>)
    ensures Idle(Run(more)) && Run(more).log.stored == Run(ops).log.stored
    ensures Run(more).core.idCounter == |Run(ops).log.stored|
  {
    EveryRun(ops);
    OpenAgrees(Run(ops).core.db, Run(ops).log.stored);
    more := Then(ops, Restart);
  }

  lemma {:induction false} SameIdTwice(ops: seq<Op>, a: Record, b: Record)
    requires Run(ops).log.stored == [a, b] && a.id == b.id
    ensures a.timestamp == b.timestamp <==> multiset(Listed(Run(ops).core.db)) != multiset([a, b])
  {
    StoredIsWhatIsCounted(ops);
    TwoKeys(a, b);
    if KeyOf(a) == KeyOf(b) { KeyInjective(a.timestamp, a.id, b.timestamp, b.id); }
  }

  lemma TwoKeys(a: Record, b: Record)
    ensures DistinctKeys([a, b]) <==> KeyOf(a) != KeyOf(b)
  {
    var ab := [a, b];
    assert ab[0] == a && ab[1] == b;
  }

  /** A Clear that cannot drop what is stored starts again at id 1 above it. */
  lemma {:induction false} FailedClearReusesId(m: Record, late: Record) returns (ops: seq<Op>)
    ensures var stored := Run(ops).log.stored;
      |stored| == 2 && stored[0] == m.(id := 1) && stored[1] == late.(id := 1)
  {
    ops := Pass([], m, Commits);
    ops := Then(ops, Clear(DropFails));
    ops := Pass(ops, late, Commits);
  }

  predicate Idle(s: State) { s.core.queue == [] && s.core.batch == [] }

  /** Insert, receive and flush one message from an idle state. */
  lemma {:induction false} Pass(ops: seq<Op>, m: Record, fate: Fate) returns (more: seq<Op>)
    requires Idle(Run(ops))
    ensures Idle(Run(more)) && Run(more).core.idCounter == Run(ops).core.idCounter + 1
    ensures Run(more).log.stored
      == Run(ops).log.stored + (if fate.Commits? then [m.(id := Run(ops).core.idCounter + 1)] else [])
  {
    var s := Run(ops);
    more := Then(ops, Insert(m));
    assert Run(more).core.queue == [m];
    more := Then(more, Receive(fate));
    assert [m][1..] == [] && Run(more).core.batch == [m];
    assert Run(more).core == s.core.(batch := [m]) && Run(more).log.stored == s.log.stored;
    more := Then(more, Tick(fate));
    assert Numbered([m], s.core.idCounter) == [m.(id := s.core.idCounter + 1)];
    assert s.log.stored + [] == s.log.stored;
  }

  lemma {:induction false} Then(ops: seq<Op>, op: Op) returns (more: seq<Op>)
    ensures more == ops + [op] && Run(more) == Step(Run(ops), op)
  {
    more := ops + [op];
    assert more[..|ops|] == ops;
  }
}
