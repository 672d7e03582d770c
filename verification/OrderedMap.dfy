/** BadgerDB as an ordered key-value store: entries in strict byte order of their keys. */
module OrderedMap {
  import opened Bytes
  import opened KeyOrder
  import opened Statistics

  /** What the two kinds of keys lead to, decoded. */
  datatype Value = StatsValue(stats: Stats) | MessageValue(message: Record)

  datatype Entry = Entry(key: Bytes, value: Value)

  ghost predicate Sorted(es: seq<Entry>) {
    forall i, j :: 0 <= i < j < |es| ==> Less(es[i].key, es[j].key)
  }

  predicate HasKey(es: seq<Entry>, k: Bytes) { exists i :: 0 <= i < |es| && es[i].key == k }

  function Put(es: seq<Entry>, k: Bytes, v: Value): seq<Entry> {
    if es == [] then [Entry(k, v)]
    else if es[0].key == k then [Entry(k, v)] + es[1..]
    else if Less(k, es[0].key) then [Entry(k, v)] + es
    else [es[0]] + Put(es[1..], k, v)
  }

  /** Putting makes the entry present and touches no other key. */
  lemma {:induction false} PutContents(es: seq<Entry>, k: Bytes, v: Value)
    requires Sorted(es)
    ensures forall e :: e in Put(es, k, v) <==> e == Entry(k, v) || (e in es && e.key != k)
  {
    if es != [] {
      assert es == [es[0]] + es[1..];
      if es[0].key == k {
        assert forall e <- es[1..] :: e.key != k by { KeysAbove(es); }
      } else if Less(k, es[0].key) {
        assert forall e <- es[1..] :: e.key != k by {
          forall i | 1 <= i < |es| ensures es[i].key != k { LessTransitive(k, es[0].key, es[i].key); LessTotal(k, k); }
        }
      } else {
        PutContents(es[1..], k, v);
      }
    }
  }

  lemma KeysAbove(es: seq<Entry>)
    requires Sorted(es) && es != []
    ensures forall e <- es[1..] :: Less(es[0].key, e.key) && e.key != es[0].key
  {
    LessTotal(es[0].key, es[0].key);
    assert forall i :: 1 <= i < |es| ==> Less(es[0].key, es[i].key);
  }

  lemma {:induction false} PutSorted(es: seq<Entry>, k: Bytes, v: Value)
    requires Sorted(es)
    ensures Sorted(Put(es, k, v))
  {
    if es != [] && es[0].key != k {
      if Less(k, es[0].key) {
        forall i | 0 <= i < |es| ensures Less(k, es[i].key) {
          if i > 0 { LessTransitive(k, es[0].key, es[i].key); }
        }
      } else {
        PutSorted(es[1..], k, v);
        PutContents(es[1..], k, v);
        KeysAbove(es);
        LessTotal(es[0].key, k);
        var rest := Put(es[1..], k, v);
        forall i | 0 <= i < |rest| ensures Less(es[0].key, rest[i].key) {
          assert rest[i] in rest;
        }
      }
    }
  }
}
