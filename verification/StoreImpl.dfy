/** The store's own code: New, Insert, the two arms of the drain loop, flush, Clear and the queries. */
module Stores {
  import opened Bytes
  import opened KeyOrder
  import opened Statistics
  import opened OrderedMap
  import opened StoreModel

  // ---------- queries and the order of keys ----------

  /** A query lists messages by time, and those of one instant by the digits of their ids: by id
      itself as long as ids stay below a million. */
  lemma {:induction false} Chronological(db: Db, i: nat, j: nat)
    requires WellFormed(db) && i < j < |Listed(db)|
    ensures var m, n := Listed(db)[i], Listed(db)[j];
            && (m.timestamp < n.timestamp || (m.timestamp == n.timestamp && Less(Pad(6, m.id), Pad(6, n.id))))
            && (m.id < 1_000_000 && n.id < 1_000_000 ==>
                  m.timestamp < n.timestamp || (m.timestamp == n.timestamp && m.id < n.id))
  {
    RowsInOrder(db);
    var m, n := Listed(db)[i], Listed(db)[j];
    assert db[i] in db && db[j] in db;
    KeyLess(m.timestamp, m.id, n.timestamp, n.id);
    if m.id < 1_000_000 && n.id < 1_000_000 && m.timestamp == n.timestamp && n.id <= m.id {
      LessTotal(KeyOf(m), KeyOf(n));
      if n.id < m.id { IdOrder(m.timestamp, n.id, m.id); }
    }
  }

  /** The last `k` messages in reverse. */
  function Backwards(ms: seq<Record>, k: nat): (r: seq<Record>)
    requires k <= |ms|
    ensures |r| == k
  {
    seq(k, i requires 0 <= i < k => ms[|ms| - 1 - i])
  }

  lemma BackwardsMore(ms: seq<Record>, k: nat)
    requires k < |ms|
    ensures Backwards(ms, k + 1) == Backwards(ms, k) + [ms[|ms| - 1 - k]]
  {
  }

  lemma PrefixOfKey(m: Record)
    ensures MSG <= KeyOf(m) && !Less(KeyOf(m), MSG) && Less(KeyOf(m), MSG + [0xFF])
  {
    var rest := Pad(19, m.timestamp) + [COLON] + Pad(6, m.id);
    assert KeyOf(m) == MSG + rest && MSG == MSG + [];
    LessTotal(MSG, MSG);
    LessParts(MSG, rest, MSG, []);
    LessParts(MSG, rest, MSG, [0xFF]);
    PadValue(19, m.timestamp);
    NanosFit(m.timestamp);
    assert rest[0] == Pad(19, m.timestamp)[0];
  }

  /** Rows of messages carry the prefix and lie between the two seek positions; other rows do not. */
  lemma KeyBounds(db: Db, i: nat)
    requires WellFormed(db) && i < |db|
    ensures !Less(db[i].key, MSG)
    ensures MSG <= db[i].key <==> db[i].value.MessageValue?
    ensures Less(MSG + [0xFF], db[i].key) <==> db[i].value.StatsValue?
  {
    var e := db[i];
    assert e in db;
    match e.value
    case MessageValue(m) =>
      PrefixOfKey(m);
      LessTotal(KeyOf(m), MSG + [0xFF]);
    case StatsValue(_) =>
      StatsAfterMessages();
  }

  lemma RowBounds(db: Db)
    requires WellFormed(db)
    ensures forall i :: 0 <= i < |db| ==>
      && !Less(db[i].key, MSG)
      && (MSG <= db[i].key <==> db[i].value.MessageValue?)
      && (Less(MSG + [0xFF], db[i].key) <==> db[i].value.StatsValue?)
  {
    forall i | 0 <= i < |db|
      ensures !Less(db[i].key, MSG)
      ensures MSG <= db[i].key <==> db[i].value.MessageValue?
      ensures Less(MSG + [0xFF], db[i].key) <==> db[i].value.StatsValue?
    {
      KeyBounds(db, i);
    }
  }

  lemma RowAt(db: Db, i: nat)
    requires WellFormed(db) && i < |Listed(db)|
    ensures i < |db| && MSG <= db[i].key && db[i].value == MessageValue(Listed(db)[i])
  {
    RowsInOrder(db);
    KeyBounds(db, i);
  }

  /** The last position at or before the reverse seek key is the last message. */
  lemma LastRow(db: Db, i: int)
    requires WellFormed(db) && -1 <= i < |db|
    requires forall j :: i < j < |db| ==> Less(MSG + [0xFF], db[j].key)
    requires i >= 0 ==> !Less(MSG + [0xFF], db[i].key)
    ensures i == |Listed(db)| - 1
  {
    RowsInOrder(db);
    var n := |Listed(db)|;
    if i >= 0 { KeyBounds(db, i); }
    if n < |db| { KeyBounds(db, n); }
    assert i < n;
    if n > 0 { KeyBounds(db, n - 1); }
  }

  lemma StatsAfterMessages()
    ensures !(MSG <= STATS) && !Less(STATS, MSG) && Less(MSG + [0xFF], STATS)
  {
    assert STATS[0] > MSG[0] && (MSG + [0xFF])[0] == MSG[0];
  }

  /** The transaction's own copy and the running figures after the messages `done`. */
  predicate Progress(db: Db, done: seq<Record>, txn: Db, stats: Stats, sum: real) {
    && txn == PutMessages(db, done)
    && stats == CountAll(ReadStats(db), done)
    && sum == LengthenAll(Opened(ReadStats(db)), done)
  }

  lemma ProgressMore(db: Db, all: seq<Record>, i: nat, txn: Db, stats: Stats, sum: real)
    requires i < |all| && Progress(db, all[..i], txn, stats, sum)
    ensures var m := all[i];
      Progress(db, all[..i + 1], Put(txn, KeyOf(m), MessageValue(m)), Count(stats, m), Lengthen(sum, m))
  {
    assert all[..i + 1][..i] == all[..i];
  }

  class Store {
    var db: Db
    var queue: seq<Record>
    var batch: seq<Record>     // local to the drain loop
    var idCounter: nat

    ghost function View(): Core
      reads this
    {
      Core(db, queue, batch, idCounter)
    }

    constructor (existing: Db)
      ensures View() == Open(existing)
    {
      db, queue, batch, idCounter := existing, [], [], 0;
      if HasKey(existing, STATS) {
        idCounter := ReadStats(existing).totalMessages;
      } else {
        db := Put(existing, STATS, StatsValue(ZERO));
      }
    }

    method Insert(m: Record)
      modifies this
      ensures View() == After(old(View()), StoreModel.Insert(m))
    {
      if |queue| < QUEUE {
        queue := queue + [m];
      }
    }

    /** The receiving arm of the drain loop; with an empty queue it does not run. */
    method Receive(fate: Fate)
      requires queue != []
      modifies this
      ensures View() == After(old(View()), StoreModel.Receive(fate))
    {
      batch := batch + [queue[0]];
      queue := queue[1..];
      if |batch| >= BATCH {
        FlushBatch(fate);
      }
    }

    /** The ticker arm of the drain loop. */
    method Tick(fate: Fate)
      modifies this
      ensures View() == After(old(View()), StoreModel.Tick(fate))
    {
      if |batch| > 0 {
        FlushBatch(fate);
      }
    }

    /** One transaction over the batch: nothing of it is kept unless all of it is. */
    method FlushBatch(fate: Fate)
      modifies this
      ensures View() == FlushCore(old(View()), fate)
    {
      var ms := batch;
      batch := [];
      ghost var all := Numbered(ms, idCounter);
      var txn := db;
      var stats := ReadStats(db);
      var totalLatencyMS := 0.0;
      if stats.totalMessages > 0 {
        totalLatencyMS := stats.avgLatencyMS * stats.totalMessages as real;
      }
      for i := 0 to |ms|
        invariant idCounter == old(idCounter) + i && batch == []
        invariant db == old(db) && queue == old(queue)
        invariant fate.FailsAt? ==> i <= fate.n
        invariant Progress(db, all[..i], txn, stats, totalLatencyMS)
      {
        idCounter := idCounter + 1;
        var msg := ms[i].(id := idCounter);
        if fate == FailsAt(i) {
          return;
        }
        assert all[i] == msg;
        ProgressMore(db, all, i, txn, stats, totalLatencyMS);
        txn := Put(txn, Key(msg.timestamp, msg.id), MessageValue(msg));
        stats := Count(stats, msg);
        if msg.latencyMS > 0 {
          totalLatencyMS := totalLatencyMS + msg.latencyMS as real;
        }
      }
      assert all[..|ms|] == all;
      if stats.totalMessages > 0 {
        stats := stats.(avgLatencyMS := totalLatencyMS / stats.totalMessages as real);
      }
      if fate.Commits? {
        db := Put(txn, STATS, StatsValue(stats));
      }
    }

    method ClearAll(outcome: Outcome)
      modifies this
      ensures View() == After(old(View()), Clear(outcome))
    {
      idCounter := 0;
      if outcome == DropFails {
        return;
      }
      db := [];
      if outcome == ResetFails {
        return;
      }
      db := Put(db, STATS, StatsValue(ZERO));
    }

    /** An iterator's first position at or after `k`. */
    method SeekFirst(k: Bytes) returns (i: nat)
      ensures i <= |db| && (forall j :: 0 <= j < i ==> Less(db[j].key, k)) && (i < |db| ==> !Less(db[i].key, k))
    {
      i := 0;
      while i < |db| && Less(db[i].key, k)
        invariant i <= |db| && forall j :: 0 <= j < i ==> Less(db[j].key, k)
      {
        i := i + 1;
      }
    }

    /** A reverse iterator's first position at or before `k`, or -1. */
    method SeekLast(k: Bytes) returns (i: int)
      ensures -1 <= i < |db| && (forall j :: i < j < |db| ==> Less(k, db[j].key)) && (i >= 0 ==> !Less(k, db[i].key))
    {
      i := |db| - 1;
      while i >= 0 && Less(k, db[i].key)
        invariant -1 <= i < |db| && forall j :: i < j < |db| ==> Less(k, db[j].key)
      {
        i := i - 1;
      }
    }

    /** All messages, oldest first. */
    method QueryAll() returns (messages: seq<Record>)
      requires WellFormed(db)
      ensures messages == Listed(db)
    {
      RowsInOrder(db);
      RowBounds(db);
      messages := [];
      var i := SeekFirst(MSG);
      while i < |db| && MSG <= db[i].key
        invariant i <= |Listed(db)| && messages == Listed(db)[..i]
      {
        messages := messages + [db[i].value.message];
        i := i + 1;
      }
    }

    /** The newest messages first, read backwards from the end of the message keys: at most `limit` of
        them, but one at least if there is any. */
    method QueryRecent(limit: int) returns (messages: seq<Record>)
      requires WellFormed(db)
      ensures var all, most := Listed(db), if limit < 1 then 1 else limit;
        && |messages| == (if |all| < most then |all| else most)
        && forall i :: 0 <= i < |messages| ==> messages[i] == all[|all| - 1 - i]
    {
      messages := [];
      var i := SeekLast(MSG + [0xFF]);
      LastRow(db, i);
      ghost var all := Listed(db);
      while i >= 0 && MSG <= db[i].key
        invariant |messages| <= |all| && i == |all| - 1 - |messages|
        invariant messages == Backwards(all, |messages|)
        invariant messages == [] || |messages| < limit
      {
        RowAt(db, i);
        BackwardsMore(all, |messages|);
        messages := messages + [db[i].value.message];
        if |messages| >= limit {
          break;
        }
        i := i - 1;
      }
      if i >= 0 { RowAt(db, i); }
    }
  }

  /** Any interleaving of callers, drain loop, failures and restarts, on the code itself: the store ends
      as the run does, and its queries can be asked. */
  method Serve(ops: seq<Op>) returns (store: Store)
    ensures fresh(store) && store.View() == Run(ops).core && WellFormed(store.db)
  {
    store := new Store([]);
    for i := 0 to |ops|
      invariant fresh(store) && store.View() == Run(ops[..i]).core
    {
      assert ops[..i + 1][..i] == ops[..i];
      StepCore(Run(ops[..i]), ops[i]);
      match ops[i]
      case Insert(m) => store.Insert(m);
      case Receive(fate) =>
        if store.queue != [] {
          store.Receive(fate);
        }
      case Tick(fate) => store.Tick(fate);
      case Clear(outcome) => store.ClearAll(outcome);
      case Restart => store := new Store(store.db);
    }
    assert ops[..|ops|] == ops;
    EveryRun(ops);
  }
}
