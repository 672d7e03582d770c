/** The WebSocket hub of internal/server/hub.go as a transition system. Critical sections under the
    hub's write lock are one step; Broadcast, which holds the read lock only, is one step per client
    it visits, and any number of Broadcasts may be under way at once. */
module Hubs {
  import opened Bytes

  const CAPACITY := 256

  /** writePump: in its loop, past it with its Unregister still to come, or finished. */
  datatype Pump = Running | Leaving | Gone

  /** A client and its channel. Broadcasts are named by their number in the hub's log. */
  datatype Client = Client(
    queue: seq<nat>,       // what the channel holds
    open: bool,            // the channel was not closed
    pump: Pump,
    evictions: nat,        // eviction goroutines started and not yet run
    taken: seq<nat>,       // what writePump received
    attempts: seq<nat>,    // broadcasts that came by this client, in order
    accepted: seq<nat>,    // those that found room
    drops: nat,            // how many did not
    beforeDrop: nat,       // attempts before the first that did not
    since: nat,            // broadcasts begun before it was registered
    until: nat)            // broadcasts begun before its channel was closed

  /** clients: everyone ever registered; registered: the hub's map; readers: for every Broadcast under
      way, the clients it has still to visit; during: for every Broadcast, those under way when it began. */
  datatype State = State(
    clients: map<nat, Client>, registered: set<nat>, readers: map<nat, set<nat>>, log: seq<Bytes>,
    during: seq<set<nat>>, panicked: bool)

  const INITIAL := State(map[], {}, map[], [], [], false)

  datatype Step =
    | Register(c: nat)
    | Unregister(c: nat)                 // the connection's reader saw an error
    | Evict(c: nat)                      // an eviction goroutine gets the lock
    | Begin(payload: Bytes)              // Broadcast takes the read lock
    | Visit(b: nat, c: nat)              // Broadcast b tries to send to client c
    | End(b: nat)                        // Broadcast b releases the read lock
    | Take(c: nat, written: bool)        // writePump receives and writes to the connection
    | SeeClosed(c: nat)                  // writePump finds its channel closed and empty
    | Leave(c: nat)                      // writePump's deferred Unregister

  ghost predicate Enabled(s: State, step: Step) {
    match step
    case Register(c) => s.readers == map[] && c !in s.clients
    case Unregister(c) => s.readers == map[] && c in s.clients
    case Evict(c) => s.readers == map[] && c in s.clients && s.clients[c].evictions > 0
    case Begin(_) => true
    case Visit(b, c) => b in s.readers && c in s.readers[b] && c in s.clients
    case End(b) => b in s.readers && s.readers[b] == {}
    case Take(c, _) => c in s.clients && s.clients[c].pump.Running? && s.clients[c].queue != []
    case SeeClosed(c) => c in s.clients && s.clients[c].pump.Running? && s.clients[c].queue == [] && !s.clients[c].open
    case Leave(c) => s.readers == map[] && c in s.clients && s.clients[c].pump.Leaving?
  }

  /** delete and close; closing a closed channel panics. */
  function Removed(s: State, c: nat): State
    requires c in s.clients
  {
    if c in s.registered then
      s.(registered := s.registered - {c},
         clients := s.clients[c := s.clients[c].(open := false, until := |s.log|)],
         panicked := s.panicked || !s.clients[c].open)
    else s
  }

  /** The non-blocking send of broadcast `b`; sending on a closed channel panics. */
  function Offered(x: Client, b: nat): Client {
    if |x.queue| < CAPACITY then
      x.(queue := x.queue + [b], attempts := x.attempts + [b], accepted := x.accepted + [b],
         beforeDrop := if x.drops == 0 then x.beforeDrop + 1 else x.beforeDrop)
    else
      x.(evictions := x.evictions + 1, attempts := x.attempts + [b], drops := x.drops + 1)
  }

  function Next(s: State, step: Step): State
    requires Enabled(s, step)
  {
    match step
    case Register(c) =>
      s.(clients := s.clients[c := Client([], true, Running, 0, [], [], [], 0, 0, |s.log|, 0)],
         registered := s.registered + {c})
    case Unregister(c) => Removed(s, c)
    case Evict(c) => Removed(s.(clients := s.clients[c := s.clients[c].(evictions := s.clients[c].evictions - 1)]), c)
    case Begin(payload) =>
      s.(readers := s.readers[|s.log| := s.registered], log := s.log + [payload],
         during := s.during + [s.readers.Keys])
    case Visit(b, c) =>
      s.(readers := s.readers[b := s.readers[b] - {c}],
         clients := s.clients[c := Offered(s.clients[c], b)],
         panicked := s.panicked || !s.clients[c].open)
    case End(b) => s.(readers := s.readers - {b})
    case Take(c, written) =>
      var x := s.clients[c];
      s.(clients := s.clients[c := x.(queue := x.queue[1..], taken := x.taken + [x.queue[0]],
                                      pump := if written then Running else Leaving)])
    case SeeClosed(c) => s.(clients := s.clients[c := s.clients[c].(pump := Leaving)])
    case Leave(c) => Removed(s.(clients := s.clients[c := s.clients[c].(pump := Gone)]), c)
  }

  // ---------- the invariant ----------

  /** Broadcast `b` is under way and has not come by client `c` yet. */
  predicate Due(s: State, b: nat, c: nat) { b in s.readers && c in s.readers[b] }

  predicate Distinct(a: seq<nat>) { forall i, j :: 0 <= i < j < |a| ==> a[i] != a[j] }

  /** `a` arises from `b` by leaving things out. */
  predicate Subsequence(a: seq<nat>, b: seq<nat>) {
    a == [] || (b != [] && (Subsequence(a, b[..|b| - 1])
                            || (a[|a| - 1] == b[|b| - 1] && Subsequence(a[..|a| - 1], b[..|b| - 1]))))
  }

  function Last(s: State, x: Client): nat { if x.open then |s.log| else x.until }

  /** What the channel protocol promises of one client, whatever the others do. */
  ghost predicate ClientSafe(s: State, c: nat)
    requires c in s.clients
  {
    var x := s.clients[c];
    && (x.open <==> c in s.registered)
    && |x.queue| <= CAPACITY
    && (x.pump.Gone? ==> !x.open)
    && (x.drops > 0 && x.open ==> x.evictions > 0)
  }

  /** What a client receives. */
  ghost predicate ClientServed(x: Client) {
    && x.taken + x.queue == x.accepted
    && |x.attempts| == |x.accepted| + x.drops
    && x.beforeDrop <= |x.accepted| && x.accepted[..x.beforeDrop] == x.attempts[..x.beforeDrop]
    && (if x.drops == 0 then x.beforeDrop == |x.attempts| else x.beforeDrop >= CAPACITY)
    && Distinct(x.attempts)
    && Subsequence(x.accepted, x.attempts)
  }

  /** Broadcast `b` was over before broadcast `a` began. */
  predicate OverBefore(during: seq<set<nat>>, b: nat, a: nat) { b < a < |during| && b !in during[a] }

  /** Nothing comes after something that began when it was over. */
  predicate Ordered(a: seq<nat>, during: seq<set<nat>>) {
    forall i, j :: 0 <= i < j < |a| ==> !OverBefore(during, a[j], a[i])
  }

  /** Every broadcast begun while the client was registered comes by exactly once, and none after one
      that began later when it was over. */
  ghost predicate ClientVisited(s: State, c: nat)
    requires c in s.clients
  {
    var x := s.clients[c];
    && x.since <= Last(s, x) <= |s.log|
    && (forall b: nat :: b in x.attempts || Due(s, b, c) <==> x.since <= b < Last(s, x))
    && (forall b: nat :: b in x.attempts ==> !Due(s, b, c))
    && Ordered(x.attempts, s.during)
  }

  ghost predicate ClientInv(s: State, c: nat)
    requires c in s.clients
  {
    ClientSafe(s, c) && ClientServed(s.clients[c]) && ClientVisited(s, c)
  }

  ghost predicate Shape(s: State) {
    && !s.panicked
    && s.registered <= s.clients.Keys
    && (forall b <- s.readers :: b < |s.log| && s.readers[b] <= s.registered)
    && |s.during| == |s.log|
    && (forall a, b :: b in s.readers && b < a < |s.log| ==> b in s.during[a])
  }

  ghost predicate Inv(s: State) { Shape(s) && forall c <- s.clients :: ClientInv(s, c) }

  // ---------- every step keeps it ----------

  lemma SubsequenceSnoc(a: seq<nat>, b: seq<nat>, x: nat)
    requires Subsequence(a, b)
    ensures Subsequence(a, b + [x]) && Subsequence(a + [x], b + [x])
  {
    assert (b + [x])[..|b|] == b && (a + [x])[..|a|] == a;
  }

  lemma OfferServes(x: Client, b: nat)
    requires ClientServed(x) && b !in x.attempts
    ensures ClientServed(Offered(x, b))
  {
    SubsequenceSnoc(x.accepted, x.attempts, b);
    DistinctSnoc(x.attempts, b);
    if |x.queue| < CAPACITY {
      assert x.taken + (x.queue + [b]) == x.accepted + [b];
      if x.drops == 0 {
        assert x.accepted == x.accepted[..x.beforeDrop] && x.attempts == x.attempts[..x.beforeDrop];
        assert x.accepted + [b] == x.attempts + [b];
      } else {
        assert (x.accepted + [b])[..x.beforeDrop] == (x.attempts + [b])[..x.beforeDrop];
      }
    } else {
      assert (x.attempts + [b])[..x.beforeDrop] == x.attempts[..x.beforeDrop];
    }
  }

  lemma DistinctSnoc(a: seq<nat>, x: nat)
    requires Distinct(a) && x !in a
    ensures Distinct(a + [x])
  {
  }

  lemma TakeServes(x: Client, pump: Pump)
    requires ClientServed(x) && x.queue != []
    ensures ClientServed(x.(queue := x.queue[1..], taken := x.taken + [x.queue[0]], pump := pump))
  {
    assert x.taken + x.queue == (x.taken + [x.queue[0]]) + x.queue[1..];
  }

  /** A client that a step does not concern. */
  ghost predicate Untouched(s: State, t: State, c: nat) {
    && c in s.clients && c in t.clients && t.clients[c] == s.clients[c]
    && (c in t.registered <==> c in s.registered)
    && t.log == s.log
    && t.during == s.during
    && forall b: nat :: Due(t, b, c) <==> Due(s, b, c)
  }

  lemma UntouchedKeeps(s: State, t: State, c: nat)
    requires Untouched(s, t, c) && ClientInv(s, c)
    ensures ClientInv(t, c)
  {
  }

  /** A step that concerns client `c` alone keeps the invariant if it keeps it for `c`. */
  lemma OneClient(s: State, t: State, c: nat)
    requires Inv(s) && Shape(t) && c in t.clients && ClientInv(t, c)
    requires t.clients.Keys == s.clients.Keys + {c}
    requires forall d <- s.clients :: d != c ==> Untouched(s, t, d)
    ensures Inv(t)
  {
    forall d <- t.clients ensures ClientInv(t, d) {
      if d != c { UntouchedKeeps(s, t, d); }
    }
  }

  lemma VisitedKeeps(s: State, t: State, c: nat)
    requires c in s.clients && c in t.clients && ClientVisited(s, c)
    requires t.log == s.log && t.during == s.during && forall b: nat :: Due(t, b, c) <==> Due(s, b, c)
    requires var x, y := s.clients[c], t.clients[c];
      y.attempts == x.attempts && y.since == x.since && Last(t, y) == Last(s, x)
    ensures ClientVisited(t, c)
  {
  }

  lemma RegisterInv(s: State, c: nat)
    requires Inv(s) && Enabled(s, Register(c))
    ensures Inv(Next(s, Register(c)))
  {
    OneClient(s, Next(s, Register(c)), c);
  }

  /** delete and close, whichever changes `x` the caller made to the client before. */
  lemma RemoveInv(s: State, c: nat, x: Client)
    requires Inv(s) && s.readers == map[] && c in s.clients
    requires x == s.clients[c].(evictions := x.evictions, pump := x.pump)
    ensures Inv(Removed(s.(clients := s.clients[c := x]), c))
  {
    var t := Removed(s.(clients := s.clients[c := x]), c);
    assert ClientInv(s, c);
    assert ClientSafe(t, c) && ClientServed(t.clients[c]);
    VisitedKeeps(s, t, c);
    OneClient(s, t, c);
  }

  lemma BeginInv(s: State, payload: Bytes)
    requires Inv(s)
    ensures Inv(Next(s, Begin(payload)))
  {
    var t := Next(s, Begin(payload));
    forall c <- t.clients ensures ClientInv(t, c) {
      var x := s.clients[c];
      assert ClientInv(s, c);
      AttemptsInTime(s, c);
      forall b: nat ensures b in x.attempts || Due(t, b, c) <==> x.since <= b < Last(t, x) {
        assert b in x.attempts || Due(s, b, c) <==> x.since <= b < Last(s, x);
        assert Due(t, b, c) <==> Due(s, b, c) || (b == |s.log| && x.open);
      }
      forall i, j | 0 <= i < j < |x.attempts| ensures !OverBefore(t.during, x.attempts[j], x.attempts[i]) {
        assert !OverBefore(s.during, x.attempts[j], x.attempts[i]);
      }
    }
  }

  lemma EndInv(s: State, b: nat)
    requires Inv(s) && Enabled(s, End(b))
    ensures Inv(Next(s, End(b)))
  {
    var t := Next(s, End(b));
    forall c <- t.clients ensures ClientInv(t, c) {
      forall a: nat ensures Due(t, a, c) <==> Due(s, a, c) {
      }
      UntouchedKeeps(s, t, c);
    }
  }

  lemma TakeInv(s: State, c: nat, written: bool)
    requires Inv(s) && Enabled(s, Take(c, written))
    ensures Inv(Next(s, Take(c, written)))
  {
    TakeServes(s.clients[c], if written then Running else Leaving);
    assert ClientInv(s, c);
    VisitedKeeps(s, Next(s, Take(c, written)), c);
    OneClient(s, Next(s, Take(c, written)), c);
  }

  lemma SeeClosedInv(s: State, c: nat)
    requires Inv(s) && Enabled(s, SeeClosed(c))
    ensures Inv(Next(s, SeeClosed(c)))
  {
    assert ClientInv(s, c);
    VisitedKeeps(s, Next(s, SeeClosed(c)), c);
    OneClient(s, Next(s, SeeClosed(c)), c);
  }

  lemma VisitInv(s: State, b: nat, c: nat)
    requires Inv(s) && Enabled(s, Visit(b, c))
    ensures Inv(Next(s, Visit(b, c)))
  {
    var t, x := Next(s, Visit(b, c)), s.clients[c];
    assert ClientInv(s, c) && Due(s, b, c);
    OfferServes(x, b);
    VisitedOnce(s, b, c);
    OneClient(s, t, c);
  }

  lemma VisitedOnce(s: State, b: nat, c: nat)
    requires Inv(s) && Enabled(s, Visit(b, c))
    ensures ClientVisited(Next(s, Visit(b, c)), c)
  {
    var t, x := Next(s, Visit(b, c)), s.clients[c];
    var y := t.clients[c];
    assert ClientInv(s, c);
    StaysOrdered(s, b, c);
    assert y.attempts == x.attempts + [b] && y.since == x.since && Last(t, y) == Last(s, x);
    forall a: nat
      ensures Due(t, a, c) <==> Due(s, a, c) && a != b
      ensures a in y.attempts <==> a in x.attempts || a == b
      ensures a in y.attempts || Due(t, a, c) <==> y.since <= a < Last(t, y)
    {
      MovesOver(s, b, c, a);
    }
  }

  lemma MovesOver(s: State, b: nat, c: nat, a: nat)
    requires Enabled(s, Visit(b, c)) && ClientVisited(s, c)
    ensures var t, x := Next(s, Visit(b, c)), s.clients[c];
      && (Due(t, a, c) <==> Due(s, a, c) && a != b)
      && (a in x.attempts + [b] <==> a in x.attempts || a == b)
      && (a in x.attempts + [b] || Due(t, a, c) <==> x.since <= a < Last(s, x))
  {
    assert Due(s, b, c);
    assert a in s.clients[c].attempts || Due(s, a, c) <==> s.clients[c].since <= a < Last(s, s.clients[c]);
  }

  /** The broadcast that comes by now is still under way, so it was when all later ones began. */
  lemma StaysOrdered(s: State, b: nat, c: nat)
    requires Inv(s) && c in s.clients && Due(s, b, c)
    ensures Ordered(s.clients[c].attempts + [b], s.during)
  {
    assert ClientInv(s, c);
  }

  lemma {:induction false} StepInv(s: State, step: Step)
    requires Inv(s) && Enabled(s, step)
    ensures Inv(Next(s, step))
  {
    match step
    case Register(c) => RegisterInv(s, c);
    case Unregister(c) =>
      assert s.clients[c := s.clients[c]] == s.clients;
      RemoveInv(s, c, s.clients[c]);
    case Evict(c) => RemoveInv(s, c, s.clients[c].(evictions := s.clients[c].evictions - 1));
    case Begin(payload) => BeginInv(s, payload);
    case Visit(b, c) => VisitInv(s, b, c);
    case End(b) => EndInv(s, b);
    case Take(c, written) => TakeInv(s, c, written);
    case SeeClosed(c) => SeeClosedInv(s, c);
    case Leave(c) => RemoveInv(s, c, s.clients[c].(pump := Gone));
  }

  // ---------- whole runs ----------

  /** Some interleaving `steps` of the goroutines leads from `s` to `t`. */
  ghost predicate Leads(s: State, steps: seq<Step>, t: State)
    decreases |steps|
  {
    if steps == [] then t == s else Enabled(s, steps[0]) && Leads(Next(s, steps[0]), steps[1..], t)
  }

  lemma {:induction false} LeadsSnoc(s: State, steps: seq<Step>, t: State, step: Step)
    requires Leads(s, steps, t) && Enabled(t, step)
    ensures Leads(s, steps + [step], Next(t, step))
    decreases |steps|
  {
    if steps != [] {
      LeadsSnoc(Next(s, steps[0]), steps[1..], t, step);
      assert (steps + [step])[1..] == steps[1..] + [step];
    }
  }

  lemma {:induction false} InvThroughout(s: State, steps: seq<Step>, t: State)
    requires Inv(s) && Leads(s, steps, t)
    ensures Inv(t)
    decreases |steps|
  {
    if steps != [] {
      StepInv(s, steps[0]);
      InvThroughout(Next(s, steps[0]), steps[1..], t);
    }
  }

  /** In every reachable state: no send on a closed channel and no second close has happened, a
      channel is open exactly while its client is in the map, none is over-full, and a client that
      lost a message is closed or has an eviction on its way. */
  lemma {:induction false} Safety(steps: seq<Step>, s: State, c: nat)
    requires Leads(INITIAL, steps, s) && c in s.clients
    ensures !s.panicked
    ensures s.clients[c].open <==> c in s.registered
    ensures |s.clients[c].queue| <= 256
    ensures s.clients[c].drops > 0 ==> !s.clients[c].open || s.clients[c].evictions > 0
  {
    InvThroughout(INITIAL, steps, s);
    assert ClientInv(s, c);
  }

  predicate Rising(a: seq<nat>) { forall i, j :: 0 <= i < j < |a| ==> a[i] < a[j] }

  lemma {:induction false} SubsequenceMembers(a: seq<nat>, b: seq<nat>, x: nat)
    requires Subsequence(a, b) && x in a
    ensures x in b
    decreases |b|
  {
    var n, m := |b| - 1, |a| - 1;
    assert a == a[..m] + [a[m]];
    if Subsequence(a, b[..n]) {
      SubsequenceMembers(a, b[..n], x);
    } else if x in a[..m] {
      SubsequenceMembers(a[..m], b[..n], x);
    }
  }

  lemma {:induction false} SubsequenceOrders(a: seq<nat>, b: seq<nat>, during: seq<set<nat>>)
    requires Subsequence(a, b)
    ensures Ordered(b, during) ==> Ordered(a, during)
    ensures Distinct(b) ==> Distinct(a)
    decreases |b|
  {
    if a != [] {
      var n, m := |b| - 1, |a| - 1;
      if Subsequence(a, b[..n]) {
        SubsequenceOrders(a, b[..n], during);
      } else {
        SubsequenceOrders(a[..m], b[..n], during);
        forall i | 0 <= i < m ensures exists k :: 0 <= k < n && b[k] == a[i] {
          SubsequenceMembers(a[..m], b[..n], a[..m][i]);
          var k :| 0 <= k < |b[..n]| && b[..n][k] == a[i];
          assert b[k] == a[i];
        }
      }
    }
  }

  /** A rising list without gaps counts up from its start. */
  lemma {:induction false} CountsUp(a: seq<nat>, start: nat)
    requires Rising(a)
    requires forall i :: 0 <= i < |a| ==> start <= a[i]
    requires forall i, v: nat :: 0 <= i < |a| && start <= v < a[i] ==> v in a
    ensures forall i :: 0 <= i < |a| ==> a[i] == start + i
    decreases |a|
  {
    if a != [] {
      var n := |a| - 1;
      var p := a[..n];
      forall i, v: nat | 0 <= i < n && start <= v < p[i] ensures v in p {
        assert v in a && p[i] == a[i];
      }
      CountsUp(p, start);
      var v := start + n;
      assert forall i :: 0 <= i < n ==> a[i] == p[i] == start + i;
      assert n > 0 ==> a[n - 1] < a[n];
      assert v !in p && a == p + [a[n]];
      assert v < a[n] ==> v in a;
    }
  }

  /** The broadcasts begun in this client's time did not overlap one another. */
  predicate OneAtATime(s: State, x: Client) {
    forall a :: x.since <= a < Last(s, x) && a < |s.during| ==> s.during[a] == {}
  }

  lemma AttemptsInTime(s: State, c: nat)
    requires Inv(s) && c in s.clients
    ensures var x := s.clients[c]; forall i :: 0 <= i < |x.attempts| ==> x.since <= x.attempts[i] < Last(s, x) <= |s.log|
  {
    var x := s.clients[c];
    assert ClientInv(s, c);
    forall i | 0 <= i < |x.attempts| ensures x.since <= x.attempts[i] < Last(s, x) {
      assert x.attempts[i] in x.attempts;
    }
  }

  lemma {:induction false} AttemptsCountUp(s: State, c: nat)
    requires Inv(s) && c in s.clients && OneAtATime(s, s.clients[c])
    ensures var x := s.clients[c]; forall i :: 0 <= i < |x.attempts| ==> x.attempts[i] == x.since + i
  {
    var x := s.clients[c];
    assert ClientInv(s, c);
    AttemptsInTime(s, c);
    forall i, j | 0 <= i < j < |x.attempts| ensures x.attempts[i] < x.attempts[j] {
      assert !OverBefore(s.during, x.attempts[j], x.attempts[i]);
    }
    forall i, v: nat | 0 <= i < |x.attempts| && x.since <= v < x.attempts[i] ensures v in x.attempts {
      var a := x.attempts[i];
      assert x.since <= a < Last(s, x) && a < |s.during|;
      var under := s.during[a];
      assert under == {};
      assert v in x.attempts || Due(s, v, c);
      assert Due(s, v, c) ==> v in under;
    }
    CountsUp(x.attempts, x.since);
  }

  /** What a client has received and will still find in its channel: only broadcasts from the time it
      was registered, none twice, and none after another that began when it was over. If it never lost
      one, it has all that are not still on their way. If the broadcasts of the client's time did not
      overlap one another, what it gets up to the first full channel is all of them, from its
      registration on and without a gap. */
  lemma {:induction false} Delivery(steps: seq<Step>, s: State, c: nat)
    requires Leads(INITIAL, steps, s) && c in s.clients
    ensures var x := s.clients[c];
            var got := x.taken + x.queue;
            && (forall b :: b in got ==> x.since <= b < Last(s, x) <= |s.log|)
            && Distinct(got)
            && Ordered(got, s.during)
            && |got| + x.drops == |x.attempts|
            && (x.drops == 0 || x.beforeDrop >= 256)
            && (x.drops == 0 ==> forall b: nat :: b in got <==> x.since <= b < Last(s, x) && !Due(s, b, c))
            && (OneAtATime(s, x) ==>
                  forall i :: 0 <= i < |got| && (i < x.beforeDrop || x.drops == 0) ==> got[i] == x.since + i)
  {
    InvThroughout(INITIAL, steps, s);
    assert ClientInv(s, c);
    var x := s.clients[c];
    SubsequenceOrders(x.accepted, x.attempts, s.during);
    if x.drops == 0 {
      assert x.accepted == x.accepted[..x.beforeDrop] && x.attempts == x.attempts[..x.beforeDrop];
      assert x.taken + x.queue == x.attempts;
    }
    forall b | b in x.accepted ensures x.since <= b < Last(s, x) {
      SubsequenceMembers(x.accepted, x.attempts, b);
    }
    if OneAtATime(s, x) {
      AttemptsCountUp(s, c);
      forall i | 0 <= i < |x.accepted| && i < x.beforeDrop ensures x.accepted[i] == x.since + i {
        assert x.accepted[i] == x.accepted[..x.beforeDrop][i] == x.attempts[..x.beforeDrop][i];
      }
    }
  }

  /** Every broadcast begun while a client was registered has come by it exactly once, or is still
      under way and will. */
  lemma {:induction false} NobodyIsSkipped(steps: seq<Step>, s: State, c: nat, b: nat)
    requires Leads(INITIAL, steps, s) && c in s.clients
    ensures s.clients[c].since <= b < Last(s, s.clients[c]) <==> (b in s.clients[c].attempts) != Due(s, b, c)
  {
    InvThroughout(INITIAL, steps, s);
    assert ClientInv(s, c);
  }

  // ---------- when a later broadcast overtakes ----------

  /** What a client has received and will still find in its channel. */
  function Got(x: Client): seq<nat> { x.taken + x.queue }

  /** The client gets broadcast `a` and some time after it broadcast `b`. */
  predicate Overtakes(x: Client, a: nat, b: nat) {
    exists i, j :: 0 <= i < j < |Got(x)| && Got(x)[i] == a && Got(x)[j] == b
  }

  /** What one step adds to what client `c` gets: nothing, or the broadcast that comes by. */
  lemma GotStep(s: State, step: Step, c: nat)
    requires Enabled(s, step) && c in s.clients
    ensures var t := Next(s, step);
      && c in t.clients
      && Got(t.clients[c]) == Got(s.clients[c])
           + (if step.Visit? && step.c == c && |s.clients[c].queue| < CAPACITY then [step.b] else [])
  {
    var x := s.clients[c];
    match step
    case Visit(b, d) => assert d == c && |x.queue| < CAPACITY ==> x.taken + (x.queue + [b]) == Got(x) + [b];
    case Take(d, _) => assert d == c ==> (x.taken + [x.queue[0]]) + x.queue[1..] == Got(x);
    case _ =>
  }

  /** A broadcast that has come by a client, or never will, is not overtaken there any more. */
  lemma {:induction false} StaysAhead(s: State, steps: seq<Step>, t: State, a: nat, b: nat, c: nat)
    requires Leads(s, steps, t) && b < |s.log| && !Due(s, b, c)
    requires c in s.clients ==> !Overtakes(s.clients[c], a, b)
    ensures c in t.clients ==> !Overtakes(t.clients[c], a, b)
    decreases |steps|
  {
    if steps != [] {
      var u := Next(s, steps[0]);
      if c in s.clients {
        GotStep(s, steps[0], c);
        AppendOthers(s.clients[c], u.clients[c], a, b);
      }
      StaysAhead(u, steps[1..], t, a, b, c);
    }
  }

  lemma AppendOthers(x: Client, y: Client, a: nat, b: nat)
    requires !Overtakes(x, a, b)
    requires Got(x) <= Got(y) && forall i :: |Got(x)| <= i < |Got(y)| ==> Got(y)[i] != b
    ensures !Overtakes(y, a, b)
  {
  }

  /** A client whose pump has stopped and whose channel has one place left does not get two more. */
  ghost predicate Stuck(s: State, a: nat, b: nat, c: nat) {
    && c in s.clients && !s.clients[c].pump.Running?
    && !(a in Got(s.clients[c]) && b in Got(s.clients[c]))
    && |s.clients[c].queue| + 1 >= CAPACITY
    && (a in Got(s.clients[c]) || b in Got(s.clients[c]) ==> |s.clients[c].queue| >= CAPACITY)
  }

  lemma {:induction false} StaysStuck(s: State, steps: seq<Step>, t: State, a: nat, b: nat, c: nat)
    requires Leads(s, steps, t) && a != b && Stuck(s, a, b, c)
    ensures Stuck(t, a, b, c)
    decreases |steps|
  {
    if steps != [] {
      GotStep(s, steps[0], c);
      StaysStuck(Next(s, steps[0]), steps[1..], t, a, b, c);
    }
  }

  /** The pump can empty the channel before anything else happens. */
  lemma {:induction false} Drained(s: State, c: nat) returns (steps: seq<Step>)
    requires c in s.clients && s.clients[c].pump.Running?
    ensures var x := s.clients[c];
      Leads(s, steps, s.(clients := s.clients[c := x.(queue := [], taken := Got(x))]))
    decreases if c in s.clients then |s.clients[c].queue| else 0
  {
    var x := s.clients[c];
    if x.queue == [] {
      steps := [];
      assert Got(x) == x.taken && x.(queue := [], taken := Got(x)) == x;
      assert s.clients[c := x] == s.clients;
    } else {
      var u := Next(s, Take(c, true));
      GotStep(s, Take(c, true), c);
      var rest := Drained(u, c);
      steps := [Take(c, true)] + rest;
      var y, z := x.(queue := [], taken := Got(x)), u.clients[c];
      assert z.(queue := [], taken := Got(z)) == y;
      assert u.(clients := u.clients[c := y]) == s.(clients := s.clients[c := y]);
      assert steps[1..] == rest;
    }
  }

  /** With two places in the channel, broadcast `a` can come by first. */
  lemma {:induction false} ComeByInTurn(s: State, before: seq<Step>, u: State, a: nat, b: nat, c: nat)
      returns (steps: seq<Step>, t: State)
    requires Leads(s, before, u) && c in u.clients && |u.clients[c].queue| + 2 <= CAPACITY
    requires a != b && Due(u, a, c) && Due(u, b, c)
    ensures Leads(s, steps, t) && c in t.clients && Overtakes(t.clients[c], a, b)
  {
    var v := Next(u, Visit(a, c));
    GotStep(u, Visit(a, c), c);
    LeadsSnoc(s, before, u, Visit(a, c));
    t := Next(v, Visit(b, c));
    GotStep(v, Visit(b, c), c);
    LeadsSnoc(s, before + [Visit(a, c)], v, Visit(b, c));
    steps := before + [Visit(a, c)] + [Visit(b, c)];
    var n := |Got(u.clients[c])|;
    assert Got(t.clients[c])[n] == a && Got(t.clients[c])[n + 1] == b;
  }

  /** Broadcast `b` has still to come by, and the client can take two more. */
  ghost predicate CanBeOvertaken(s: State, b: nat, c: nat) {
    && c in s.clients && Due(s, b, c)
    && (s.clients[c].pump.Running? || |s.clients[c].queue| + 2 <= CAPACITY)
  }

  lemma {:induction false} Overtaking(s: State, payload: Bytes, b: nat, c: nat) returns (steps: seq<Step>, t: State)
    requires Inv(s) && b < |s.log| && CanBeOvertaken(s, b, c)
    ensures Leads(Next(s, Begin(payload)), steps, t) && c in t.clients && Overtakes(t.clients[c], |s.log|, b)
  {
    var u := Next(s, Begin(payload));
    var x := s.clients[c];
    assert Due(u, |s.log|, c) && Due(u, b, c);
    if x.pump.Running? {
      var takes := Drained(u, c);
      var v := u.(clients := u.clients[c := x.(queue := [], taken := Got(x))]);
      steps, t := ComeByInTurn(u, takes, v, |s.log|, b, c);
    } else {
      steps, t := ComeByInTurn(u, [], u, |s.log|, b, c);
    }
  }

  lemma {:induction false} NotOvertaken(s: State, payload: Bytes, after: seq<Step>, t: State, b: nat, c: nat)
    requires Inv(s) && b < |s.log| && !CanBeOvertaken(s, b, c)
    requires Leads(Next(s, Begin(payload)), after, t) && c in t.clients
    ensures !Overtakes(t.clients[c], |s.log|, b)
  {
    var u := Next(s, Begin(payload));
    if c in s.clients {
      OnlyBegun(s, c);
      assert |s.log| !in Got(s.clients[c]) && !Overtakes(s.clients[c], |s.log|, b);
    }
    if Due(s, b, c) {
      assert ClientInv(s, c) && b !in Got(s.clients[c]);
      StaysStuck(u, after, t, |s.log|, b, c);
    } else {
      StaysAhead(u, after, t, |s.log|, b, c);
    }
  }

  /** A client gets broadcasts only that have begun and come by. */
  lemma OnlyBegun(s: State, c: nat)
    requires Inv(s) && c in s.clients
    ensures forall v :: v in Got(s.clients[c]) ==> v < |s.log| && !Due(s, v, c)
  {
    assert ClientInv(s, c);
    var x := s.clients[c];
    forall v | v in Got(x) ensures v < |s.log| && !Due(s, v, c) {
      SubsequenceMembers(x.accepted, x.attempts, v);
    }
  }

  /** After the new Broadcast has begun in `s`, these steps give client `c` it before broadcast `b`. */
  ghost predicate LeadsToOvertaking(s: State, payload: Bytes, after: seq<Step>, t: State, b: nat, c: nat) {
    Leads(Next(s, Begin(payload)), after, t) && c in t.clients && Overtakes(t.clients[c], |s.log|, b)
  }

  /** When a Broadcast begins, some continuation gives client `c` the new one before the earlier `b` if
      and only if `b` has still to come by `c` and `c` can take two more. */
  lemma {:induction false} OvertakenIff(before: seq<Step>, s: State, payload: Bytes, b: nat, c: nat)
    requires Leads(INITIAL, before, s) && b < |s.log|
    ensures (exists after, t :: LeadsToOvertaking(s, payload, after, t, b, c)) <==> CanBeOvertaken(s, b, c)
  {
    InvThroughout(INITIAL, before, s);
    if CanBeOvertaken(s, b, c) {
      var after, t := Overtaking(s, payload, b, c);
      assert LeadsToOvertaking(s, payload, after, t, b, c);
    } else {
      forall after, t | LeadsToOvertaking(s, payload, after, t, b, c) ensures false {
        NotOvertaken(s, payload, after, t, b, c);
      }
    }
  }

  /** In particular, a Broadcast that had returned when another began stays ahead of it everywhere. */
  lemma {:induction false} ReturnedComesFirst(before: seq<Step>, s: State, payload: Bytes, after: seq<Step>, t: State,
                                              b: nat, c: nat)
    requires Leads(INITIAL, before, s) && b < |s.log| && b !in s.readers
    requires Leads(Next(s, Begin(payload)), after, t) && c in t.clients
    ensures !Overtakes(t.clients[c], |s.log|, b)
  {
    OvertakenIff(before, s, payload, b, c);
    assert !LeadsToOvertaking(s, payload, after, t, b, c);
  }

  // ---------- what the steps of a run were ----------

  /** The client's unregistering, by its reader, by an eviction or by its pump. */
  predicate Removes(step: Step, c: nat) { step == Unregister(c) || step == Evict(c) || step == Leave(c) }

  /** The last word on client `c` was its registration. */
  ghost predicate StaysIn(steps: seq<Step>, c: nat) {
    exists i :: 0 <= i < |steps| && steps[i] == Register(c) && NotRemoved(steps, i + 1, c)
  }

  predicate NotRemoved(steps: seq<Step>, from: nat, c: nat) {
    forall j :: from <= j < |steps| ==> !Removes(steps[j], c)
  }

  lemma {:induction false} RegisteredFrom(s: State, steps: seq<Step>, t: State, c: nat)
    requires Leads(s, steps, t)
    ensures c in t.registered <==> StaysIn(steps, c) || (c in s.registered && NotRemoved(steps, 0, c))
    decreases |steps|
  {
    if steps != [] {
      var u, rest := Next(s, steps[0]), steps[1..];
      RegisteredFrom(u, rest, t, c);
      assert c in u.registered <==> steps[0] == Register(c) || (c in s.registered && !Removes(steps[0], c));
      StaysInCons(steps, c);
    }
  }

  lemma StaysInCons(steps: seq<Step>, c: nat)
    requires steps != []
    ensures NotRemoved(steps, 0, c) <==> !Removes(steps[0], c) && NotRemoved(steps[1..], 0, c)
    ensures StaysIn(steps, c)
      <==> StaysIn(steps[1..], c) || (steps[0] == Register(c) && NotRemoved(steps[1..], 0, c))
  {
    var rest := steps[1..];
    assert forall j :: 0 <= j < |rest| ==> rest[j] == steps[j + 1];
    assert forall j :: 1 <= j < |steps| ==> steps[j] == rest[j - 1];
    if i :| 0 <= i < |rest| && rest[i] == Register(c) && NotRemoved(rest, i + 1, c) {
      assert steps[i + 1] == Register(c) && NotRemoved(steps, i + 2, c);
    }
    if i :| 0 <= i < |steps| && steps[i] == Register(c) && NotRemoved(steps, i + 1, c) {
      if i > 0 { assert rest[i - 1] == Register(c) && NotRemoved(rest, i, c); }
    }
    if NotRemoved(rest, 0, c) { assert NotRemoved(steps, 1, c); }
  }

  /** A client is in the map, with an open channel, exactly from its registration to the first time its
      reader, an eviction or its pump unregisters it. */
  lemma {:induction false} RegisteredIff(steps: seq<Step>, t: State, c: nat)
    requires Leads(INITIAL, steps, t)
    ensures c in t.registered <==> StaysIn(steps, c)
    ensures c in t.clients && t.clients[c].open <==> StaysIn(steps, c)
  {
    RegisteredFrom(INITIAL, steps, t, c);
    InvThroughout(INITIAL, steps, t);
    assert c in t.clients ==> ClientInv(t, c);
  }

  function PayloadsBegun(steps: seq<Step>): seq<Bytes> {
    if steps == [] then []
    else (if steps[0].Begin? then [steps[0].payload] else []) + PayloadsBegun(steps[1..])
  }

  /** The hub's log lists the payloads of the Broadcasts in the order in which they began. */
  lemma {:induction false} LogIsBegun(s: State, steps: seq<Step>, t: State)
    requires Leads(s, steps, t)
    ensures t.log == s.log + PayloadsBegun(steps)
    decreases |steps|
  {
    if steps != [] {
      LogIsBegun(Next(s, steps[0]), steps[1..], t);
    }
  }

  lemma {:induction false} StoppedPump(s: State, steps: seq<Step>, t: State, c: nat, j: nat)
    requires Leads(s, steps, t) && c in s.clients && !s.clients[c].pump.Running?
    requires j < |steps| && steps[j].Take?
    ensures steps[j].c != c
    decreases |steps|
  {
    if j > 0 {
      assert steps[1..][j - 1] == steps[j];
      StoppedPump(Next(s, steps[0]), steps[1..], t, c, j - 1);
    }
  }

  /** After a failed write the pump takes nothing more. */
  lemma {:induction false} FailedWriteEndsPump(s: State, steps: seq<Step>, t: State, c: nat, i: nat, j: nat)
    requires Leads(s, steps, t) && i < j < |steps|
    requires steps[i] == Take(c, false) && steps[j].Take?
    ensures steps[j].c != c
    decreases |steps|
  {
    var u, rest := Next(s, steps[0]), steps[1..];
    assert rest[j - 1] == steps[j];
    if i == 0 {
      StoppedPump(u, rest, t, c, j - 1);
    } else {
      assert rest[i - 1] == steps[i];
      FailedWriteEndsPump(u, rest, t, c, i - 1, j - 1);
    }
  }

  /** And nothing is left for it but to unregister, which it can as soon as no Broadcast holds the lock. */
  lemma FailedWriteUnregisters(s: State, c: nat)
    requires Enabled(s, Take(c, false))
    ensures var t := Next(s, Take(c, false));
      && (forall w :: !Enabled(t, Take(c, w))) && !Enabled(t, SeeClosed(c))
      && (t.readers == map[] ==> Enabled(t, Leave(c)) && c !in Next(t, Leave(c)).registered)
  {
  }

  // ---------- the end of a client ----------

  /** How many steps writePump still has in it once its channel is closed. */
  function PumpWork(x: Client): nat {
    match x.pump case Running => |x.queue| + 2 case Leaving => 1 case Gone => 0
  }

  predicate IsPumpStep(step: Step, c: nat) { (step.Take? || step.SeeClosed? || step.Leave?) && step.c == c }

  /** Once closed, always closed; nothing is queued any more, and each step of the pump is one less. */
  lemma {:induction false} ClosedOnce(s: State, step: Step, c: nat)
    requires Inv(s) && Enabled(s, step) && c in s.clients && !s.clients[c].open
    ensures var t := Next(s, step);
            && c in t.clients && !t.clients[c].open
            && t.clients[c].taken + t.clients[c].queue == s.clients[c].taken + s.clients[c].queue
            && PumpWork(t.clients[c]) <= PumpWork(s.clients[c]) - (if IsPumpStep(step, c) then 1 else 0)
  {
    assert ClientInv(s, c);
    if step.Visit? { assert step.c in s.registered; }
    if step == Take(c, true) || step == Take(c, false) {
      TakeServes(s.clients[c], if step.written then Running else Leaving);
    }
  }

  function PumpSteps(steps: seq<Step>, c: nat): nat {
    if steps == [] then 0 else (if IsPumpStep(steps[0], c) then 1 else 0) + PumpSteps(steps[1..], c)
  }

  /** After the close the pump makes a bounded number of steps, whatever else happens. */
  lemma {:induction false} PumpEnds(s: State, steps: seq<Step>, t: State, c: nat)
    requires Inv(s) && Leads(s, steps, t) && c in s.clients && !s.clients[c].open
    ensures c in t.clients && PumpSteps(steps, c) + PumpWork(t.clients[c]) <= PumpWork(s.clients[c])
    decreases |steps|
  {
    if steps != [] {
      ClosedOnce(s, steps[0], c);
      StepInv(s, steps[0]);
      PumpEnds(Next(s, steps[0]), steps[1..], t, c);
    }
  }

  /** And until it is gone it has a step to make, as soon as no Broadcast holds the lock. */
  lemma PumpIsNeverStuck(s: State, c: nat)
    requires c in s.clients && !s.clients[c].open && !s.clients[c].pump.Gone? && s.readers == map[]
    ensures Enabled(s, Take(c, true)) || Enabled(s, SeeClosed(c)) || Enabled(s, Leave(c))
  {
  }

  // ---------- the implementation ----------

  /** A Broadcast begun in `s` that has still to visit `pending`. */
  function Midway(s: State, payload: Bytes, pending: set<nat>): State {
    s.(readers := s.readers[|s.log| := pending],
       log := s.log + [payload],
       during := s.during + [s.readers.Keys],
       clients := map c | c in s.clients ::
         if c in s.registered && c !in pending then Offered(s.clients[c], |s.log|) else s.clients[c])
  }

  function AfterBroadcast(s: State, payload: Bytes): State {
    Midway(s, payload, {}).(readers := s.readers)
  }

  lemma BeginLeads(s: State, payload: Bytes)
    ensures Next(s, Begin(payload)) == Midway(s, payload, s.registered)
    ensures Leads(s, [Begin(payload)], Midway(s, payload, s.registered))
  {
    assert Midway(s, payload, s.registered).clients == s.clients;
    assert [Begin(payload)][1..] == [];
  }

  lemma MidwayVisit(s: State, payload: Bytes, pending: set<nat>, c: nat)
    requires Inv(s) && c in pending && pending <= s.registered
    ensures Enabled(Midway(s, payload, pending), Visit(|s.log|, c))
    ensures Next(Midway(s, payload, pending), Visit(|s.log|, c)) == Midway(s, payload, pending - {c})
  {
    assert ClientInv(s, c);
    var m, n := Midway(s, payload, pending), Midway(s, payload, pending - {c});
    assert n.clients == m.clients[c := Offered(s.clients[c], |s.log|)];
    assert n.readers == m.readers[|s.log| := pending - {c}];
  }

  lemma MidwayEnd(s: State, payload: Bytes)
    requires Inv(s)
    ensures Enabled(Midway(s, payload, {}), End(|s.log|))
    ensures Next(Midway(s, payload, {}), End(|s.log|)) == AfterBroadcast(s, payload)
  {
    assert |s.log| !in s.readers;
    assert s.readers[|s.log| := {}] - {|s.log|} == s.readers;
  }

  /** The hub's methods, each critical section on the hub's own fields. */
  class Hub {
    var clients: map<nat, Client>
    var registered: set<nat>
    var readers: map<nat, set<nat>>
    var log: seq<Bytes>
    ghost var during: seq<set<nat>>
    ghost var panicked: bool

    ghost function View(): State
      reads this
    {
      State(clients, registered, readers, log, during, panicked)
    }

    constructor ()
      ensures View() == INITIAL
    {
      clients, registered, readers, log, during, panicked := map[], {}, map[], [], [], false;
    }

    /** `c` is the new client's address. */
    method RegisterClient(c: nat)
      requires Enabled(View(), Register(c))
      modifies this
      ensures View() == Next(old(View()), Register(c))
    {
      clients := clients[c := Client([], true, Running, 0, [], [], [], 0, 0, |log|, 0)];
      registered := registered + {c};
    }

    method UnregisterClient(c: nat)
      requires c in clients
      modifies this
      ensures View() == Removed(old(View()), c)
    {
      if c in registered {
        registered := registered - {c};
        panicked := panicked || !clients[c].open;
        clients := clients[c := clients[c].(open := false, until := |log|)];
      }
    }

    /** What an eviction goroutine does once it has the lock. */
    method EvictClient(c: nat)
      requires Enabled(View(), Evict(c))
      modifies this
      ensures View() == Next(old(View()), Evict(c))
    {
      clients := clients[c := clients[c].(evictions := clients[c].evictions - 1)];
      UnregisterClient(c);
    }

    /** Broadcast takes the read lock; from here on it has every client of the map to visit. */
    method BeginBroadcast(payload: Bytes)
      modifies this
      ensures View() == Next(old(View()), Begin(payload))
    {
      during := during + [readers.Keys];
      readers, log := readers[|log| := registered], log + [payload];
    }

    method EndBroadcast(b: nat)
      requires Enabled(View(), End(b))
      modifies this
      ensures View() == Next(old(View()), End(b))
    {
      readers := readers - {b};
    }

    /** One attempt of Broadcast number `b` to send to client `c`. */
    method Send(b: nat, c: nat)
      requires Enabled(View(), Visit(b, c))
      modifies this
      ensures View() == Next(old(View()), Visit(b, c))
    {
      var x := clients[c];
      panicked := panicked || !x.open;
      x := x.(attempts := x.attempts + [b]);
      if |x.queue| < CAPACITY {
        x := x.(queue := x.queue + [b], accepted := x.accepted + [b],
                beforeDrop := if x.drops == 0 then x.beforeDrop + 1 else x.beforeDrop);
      } else {
        x := x.(evictions := x.evictions + 1, drops := x.drops + 1);
      }
      clients := clients[c := x];
      readers := readers[b := readers[b] - {c}];
    }

    /** A Broadcast that nothing interleaves with is one of the runs above, and offers the payload to
        every registered client and to no other. */
    method Broadcast(payload: Bytes) returns (ghost steps: seq<Step>)
      requires Inv(View())
      modifies this
      ensures Leads(old(View()), steps, View())
      ensures View() == AfterBroadcast(old(View()), payload)
    {
      ghost var start := View();
      var b := |log|;
      steps := [Begin(payload)];
      BeginLeads(start, payload);
      BeginBroadcast(payload);
      var pending := registered;
      while pending != {}
        invariant pending <= start.registered
        invariant View() == Midway(start, payload, pending)
        invariant Leads(start, steps, View())
        decreases pending
      {
        var c :| c in pending;
        MidwayVisit(start, payload, pending, c);
        LeadsSnoc(start, steps, View(), Visit(b, c));
        steps := steps + [Visit(b, c)];
        Send(b, c);
        pending := pending - {c};
      }
      MidwayEnd(start, payload);
      LeadsSnoc(start, steps, View(), End(b));
      steps := steps + [End(b)];
      EndBroadcast(b);
    }

    /** One round of writePump: receive, and write to the connection. */
    method Pump(c: nat, written: bool)
      requires Enabled(View(), Take(c, written))
      modifies this
      ensures View() == Next(old(View()), Take(c, written))
    {
      var x := clients[c];
      var msg := x.queue[0];
      x := x.(queue := x.queue[1..], taken := x.taken + [msg]);
      if !written {
        x := x.(pump := Leaving);
      }
      clients := clients[c := x];
    }

    /** The pump's range over the channel ends. */
    method StopPump(c: nat)
      requires Enabled(View(), SeeClosed(c))
      modifies this
      ensures View() == Next(old(View()), SeeClosed(c))
    {
      clients := clients[c := clients[c].(pump := Leaving)];
    }

    /** The pump's deferred Unregister. */
    method LeavePump(c: nat)
      requires Enabled(View(), Leave(c))
      modifies this
      ensures View() == Next(old(View()), Leave(c))
    {
      clients := clients[c := clients[c].(pump := Gone)];
      UnregisterClient(c);
    }

    method Perform(step: Step)
      requires Enabled(View(), step)
      modifies this
      ensures View() == Next(old(View()), step)
    {
      match step
      case Register(c) => RegisterClient(c);
      case Unregister(c) => UnregisterClient(c);
      case Evict(c) => EvictClient(c);
      case Begin(payload) => BeginBroadcast(payload);
      case Visit(b, c) => Send(b, c);
      case End(b) => EndBroadcast(b);
      case Take(c, written) => Pump(c, written);
      case SeeClosed(c) => StopPump(c);
      case Leave(c) => LeavePump(c);
    }
  }

  /** Any interleaving of all goroutines, on the code itself: the hub ends as the run does, and nothing
      has panicked. */
  method Serve(steps: seq<Step>, ghost t: State) returns (hub: Hub)
    requires Leads(INITIAL, steps, t)
    ensures fresh(hub) && hub.View() == t && !hub.panicked
  {
    hub := new Hub();
    for i := 0 to |steps|
      invariant fresh(hub) && Leads(hub.View(), steps[i..], t)
    {
      assert steps[i..][0] == steps[i] && steps[i..][1..] == steps[i + 1..];
      hub.Perform(steps[i]);
    }
    InvThroughout(INITIAL, steps, t);
  }
}
