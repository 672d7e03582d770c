/** The kernel hooks of internal/transport/bpf/tracer.c. */
module Tracers {
  import opened Bytes

  const PAGE := 4096
  const MAX_ENTRIES := 1024
  const PID_SHIFT := 0x1_0000_0000

  type Page = p: Bytes | |p| == PAGE witness seq(PAGE, _ => 0)
  type Memory = map<nat, Byte>

  /** One tracepoint hit. `id` is the thread's pid_tgid, `mem` its user memory at that moment. */
  datatype Hook =
    | Write(cpu: nat, id: nat, fd: nat, addr: nat, count: nat, mem: Memory)
    | ReadEnter(id: nat, fd: nat, addr: nat)
    | ReadExit(cpu: nat, id: nat, ret: int, mem: Memory)

  datatype Event = Event(fd: nat, size: nat, payload: Page)

  /** bpf_probe_read_user: the bytes at `addr`, or zeros when some of them cannot be read. */
  function ProbeRead(mem: Memory, addr: nat, len: nat): (r: Bytes)
    ensures |r| == len
    ensures (forall k :: addr <= k < addr + len ==> k in mem) ==> forall i :: 0 <= i < len ==> r[i] == mem[addr + i]
    ensures (exists k :: addr <= k < addr + len && k !in mem) ==> forall i :: 0 <= i < len ==> r[i] == 0
  {
    if forall k :: addr <= k < addr + len ==> k in mem
    then seq(len, i requires 0 <= i < len => assert addr <= addr + i < addr + len; mem[addr + i])
    else seq(len, _ => 0)
  }

  // ---------- the hooks ----------

  /** read_args, the per-CPU event buffers, and the events sent to user space so far. */
  datatype State = State(readArgs: map<nat, nat>, scratch: map<nat, Page>, events: seq<Event>)

  const INITIAL := State(map[], map[], [])

  /** The event buffer is filled up to the masked length and sent whole, old tail included. */
  function Filled(s: State, cpu: nat, addr: nat, count: nat, mem: Memory): Page {
    var len := count % PAGE;
    var stale: Page := if cpu in s.scratch then s.scratch[cpu] else seq(PAGE, _ => 0);
    ProbeRead(mem, addr, len) + stale[len..]
  }

  function Send(s: State, cpu: nat, fd: nat, addr: nat, count: nat, mem: Memory): State {
    var page := Filled(s, cpu, addr, count, mem);
    s.(scratch := s.scratch[cpu := page], events := s.events + [Event(fd, count % PAGE, page)])
  }

  function OnHook(target: nat, s: State, h: Hook): State {
    match h
    case Write(cpu, id, fd, addr, count, mem) =>
      if id / PID_SHIFT == target && (fd == 1 || fd == 2) then Send(s, cpu, fd, addr, count, mem) else s
    case ReadEnter(id, fd, addr) =>
      if id / PID_SHIFT == target && fd == 0 && (id in s.readArgs || |s.readArgs| < MAX_ENTRIES)
      then s.(readArgs := s.readArgs[id := addr]) else s
    case ReadExit(cpu, id, ret, mem) =>
      if id !in s.readArgs then s
      else
        var t := s.(readArgs := s.readArgs - {id});
        if ret <= 0 then t else Send(t, cpu, 0, s.readArgs[id], ret, mem)
  }

  function Run(target: nat, hs: seq<Hook>): State {
    if hs == [] then INITIAL else OnHook(target, Run(target, hs[..|hs| - 1]), hs[|hs| - 1])
  }

  /** The hooks as the kernel runs them, on their maps. */
  class Tracer {
    const target: nat
    var readArgs: map<nat, nat>
    var scratch: map<nat, Page>
    var events: seq<Event>

    function View(): State
      reads this
    {
      State(readArgs, scratch, events)
    }

    constructor (target: nat)
      ensures this.target == target && View() == INITIAL
    {
      this.target, readArgs, scratch, events := target, map[], map[], [];
    }

    method Output(cpu: nat, fd: nat, addr: nat, count: nat, mem: Memory)
      modifies this`scratch, this`events
      ensures View() == Send(old(View()), cpu, fd, addr, count, mem)
    {
      var page: Page := if cpu in scratch then scratch[cpu] else seq(PAGE, _ => 0);
      var len := count % PAGE;
      page := ProbeRead(mem, addr, len) + page[len..];
      scratch := scratch[cpu := page];
      events := events + [Event(fd, len, page)];
    }

    method TraceWrite(cpu: nat, id: nat, fd: nat, addr: nat, count: nat, mem: Memory)
      modifies this
      ensures View() == OnHook(target, old(View()), Write(cpu, id, fd, addr, count, mem))
    {
      var pid := id / PID_SHIFT;
      if pid != target {
        return;
      }
      if fd != 1 && fd != 2 {
        return;
      }
      Output(cpu, fd, addr, count, mem);
    }

    method TraceReadEnter(id: nat, fd: nat, addr: nat)
      modifies this
      ensures View() == OnHook(target, old(View()), ReadEnter(id, fd, addr))
    {
      var pid := id / PID_SHIFT;
      if pid != target {
        return;
      }
      if fd != 0 {
        return;
      }
      if id in readArgs || |readArgs| < MAX_ENTRIES {
        readArgs := readArgs[id := addr];
      }
    }

    method TraceReadExit(cpu: nat, id: nat, ret: int, mem: Memory)
      modifies this
      ensures View() == OnHook(target, old(View()), ReadExit(cpu, id, ret, mem))
    {
      if id !in readArgs {
        return;
      }
      var addr := readArgs[id];
      readArgs := readArgs - {id};
      if ret <= 0 {
        return;
      }
      Output(cpu, 0, addr, ret, mem);
    }
  }

  // ---------- what holds over every run ----------

  /** The upper half of a thread's id is its process. */
  predicate OfProcess(id: nat, pid: nat) { pid * 0x1_0000_0000 <= id < (pid + 1) * 0x1_0000_0000 }

  /** Sizes fit the payload; only threads of the target wait in read_args, each once, and no more
      of them than the map has room for. */
  ghost predicate Sound(target: nat, s: State) {
    && (forall e <- s.events :: e.size < 4096 && e.fd <= 2)
    && (forall id <- s.readArgs.Keys :: OfProcess(id, target))
    && |s.readArgs.Keys| <= 1024
  }

  lemma StepSound(target: nat, s: State, h: Hook)
    requires Sound(target, s)
    ensures Sound(target, OnHook(target, s, h))
  {
    match h
    case Write(_, _, _, _, _, _) =>
    case ReadEnter(id, fd, addr) =>
      var keys := s.readArgs[id := addr].Keys;
      assert keys == s.readArgs.Keys + {id};
    case ReadExit(_, id, _, _) =>
      var keys := (s.readArgs - {id}).Keys;
      assert keys == s.readArgs.Keys - {id};
  }

  lemma {:induction false} EveryRun(target: nat, hs: seq<Hook>)
    ensures Sound(target, Run(target, hs))
    decreases |hs|
  {
    if hs != [] {
      EveryRun(target, hs[..|hs| - 1]);
      StepSound(target, Run(target, hs[..|hs| - 1]), hs[|hs| - 1]);
    }
  }

  // ---------- the transfers the target really made ----------

  /** The transfer of `len` bytes at `addr` on `fd`. */
  datatype Transfer = Transfer(fd: nat, addr: nat, len: nat, mem: Memory)

  datatype Call = Idle | Reading(fd: nat, addr: nat)

  /** The read call thread `id` is in, by the tracepoints alone. */
  function InCall(hs: seq<Hook>, id: nat): Call {
    if hs == [] then Idle
    else
      var n := |hs| - 1;
      match hs[n]
      case ReadEnter(i, fd, addr) => if i == id then Reading(fd, addr) else InCall(hs[..n], id)
      case ReadExit(_, i, _, _) => if i == id then Idle else InCall(hs[..n], id)
      case Write(_, _, _, _, _, _) => InCall(hs[..n], id)
  }

  /** A thread enters a read only when it is in none. */
  predicate Alternating(hs: seq<Hook>) {
    forall i :: 0 <= i < |hs| && hs[i].ReadEnter? ==> InCall(hs[..i], hs[i].id).Idle?
  }

  predicate EntersStdin(target: nat, h: Hook) { h.ReadEnter? && h.fd == 0 && OfProcess(h.id, target) }

  /** The target's threads that are in a read of standard input. */
  function Waiting(target: nat, hs: seq<Hook>): set<nat> {
    set i | 0 <= i < |hs| && EntersStdin(target, hs[i]) && InStdin(hs, hs[i].id) :: hs[i].id
  }

  predicate InStdin(hs: seq<Hook>, id: nat) { InCall(hs, id).Reading? && InCall(hs, id).fd == 0 }

  /** Whenever a thread enters a read of standard input, read_args has a free entry for it. */
  predicate Room(target: nat, hs: seq<Hook>) {
    forall i :: 0 <= i < |hs| && EntersStdin(target, hs[i]) ==> |Waiting(target, hs[..i])| < 1024
  }

  /** The transfers on standard input, output and error of the target, in order. */
  function Transfers(target: nat, hs: seq<Hook>): seq<Transfer> {
    if hs == [] then []
    else
      var n := |hs| - 1;
      Transfers(target, hs[..n]) +
      match hs[n]
      case Write(_, id, fd, addr, count, mem) =>
        if OfProcess(id, target) && (fd == 1 || fd == 2) then [Transfer(fd, addr, count, mem)] else []
      case ReadEnter(_, _, _) => []
      case ReadExit(_, id, ret, mem) =>
        if !OfProcess(id, target) || ret <= 0 then []
        else match InCall(hs[..n], id)
          case Reading(fd, addr) => if fd == 0 then [Transfer(0, addr, ret, mem)] else []
          case Idle => []
  }

  /** read_args holds exactly the target's threads that are in a read of standard input. */
  ghost predicate Paired(target: nat, hs: seq<Hook>, readArgs: map<nat, nat>) {
    forall id, addr ::
      (id in readArgs && readArgs[id] == addr) <==> OfProcess(id, target) && InCall(hs, id) == Reading(0, addr)
  }

  lemma RoomPrefix(target: nat, hs: seq<Hook>, n: nat)
    requires n <= |hs| && Room(target, hs)
    ensures Room(target, hs[..n])
  {
    forall i | 0 <= i < n && EntersStdin(target, hs[..n][i]) ensures |Waiting(target, hs[..n][..i])| < 1024 {
      assert hs[..n][..i] == hs[..i] && EntersStdin(target, hs[i]);
    }
  }

  /** A thread in a read has entered it. */
  lemma {:induction false} HasEntered(target: nat, hs: seq<Hook>, id: nat)
    requires InStdin(hs, id) && OfProcess(id, target)
    ensures id in Waiting(target, hs)
    decreases |hs|
  {
    var n := |hs| - 1;
    if !(hs[n].ReadEnter? && hs[n].id == id) {
      HasEntered(target, hs[..n], id);
      var i :| 0 <= i < n && EntersStdin(target, hs[..n][i]) && hs[..n][i].id == id;
      assert EntersStdin(target, hs[i]) && InStdin(hs, hs[i].id);
    } else {
      assert EntersStdin(target, hs[n]) && InStdin(hs, hs[n].id);
    }
  }

  lemma WaitingKeys(target: nat, hs: seq<Hook>, readArgs: map<nat, nat>)
    requires Paired(target, hs, readArgs)
    ensures readArgs.Keys == Waiting(target, hs)
  {
    forall id: nat ensures id in readArgs <==> id in Waiting(target, hs) {
      if id in readArgs {
        assert InCall(hs, id) == Reading(0, readArgs[id]);
        HasEntered(target, hs, id);
      }
      if id in Waiting(target, hs) {
        assert InCall(hs, id) == Reading(0, InCall(hs, id).addr);
      }
    }
  }

  lemma AlternatingPrefix(hs: seq<Hook>, n: nat)
    requires n <= |hs| && Alternating(hs)
    ensures Alternating(hs[..n])
  {
    forall i | 0 <= i < n && hs[..n][i].ReadEnter? ensures InCall(hs[..n][..i], hs[..n][i].id).Idle? {
      assert hs[..n][..i] == hs[..i];
    }
  }

  /** For any interleaving in which no thread is in two reads at once and read_args has a free entry
      at every enter, the hooks report exactly the target's transfers, in order, each cut to its
      length modulo 4096. */
  lemma {:induction false} ReportsTransfers(target: nat, hs: seq<Hook>)
    requires Alternating(hs) && Room(target, hs)
    ensures Paired(target, hs, Run(target, hs).readArgs)
    ensures Reports(Transfers(target, hs), Run(target, hs).events)
    decreases |hs|
  {
    if hs != [] {
      var n := |hs| - 1;
      AlternatingPrefix(hs, n);
      RoomPrefix(target, hs, n);
      ReportsTransfers(target, hs[..n]);
      PairedStep(target, hs, Run(target, hs[..n]));
      ReportsStep(target, hs, Run(target, hs[..n]));
    }
  }

  /** read_args holds exactly the waiting threads, all the time, if and only if it had a free entry at
      every enter. */
  lemma {:induction false} PairedIffRoom(target: nat, hs: seq<Hook>)
    requires Alternating(hs)
    ensures (forall n: nat :: n <= |hs| ==> Paired(target, hs[..n], Run(target, hs[..n]).readArgs)) <==> Room(target, hs)
  {
    if Room(target, hs) {
      forall n: nat | n <= |hs| ensures Paired(target, hs[..n], Run(target, hs[..n]).readArgs) {
        AlternatingPrefix(hs, n);
        RoomPrefix(target, hs, n);
        ReportsTransfers(target, hs[..n]);
      }
    }
    if forall n: nat :: n <= |hs| ==> Paired(target, hs[..n], Run(target, hs[..n]).readArgs) {
      forall i | 0 <= i < |hs| && EntersStdin(target, hs[i]) ensures |Waiting(target, hs[..i])| < 1024 {
        assert hs[..i + 1][..i] == hs[..i] && Paired(target, hs[..i], Run(target, hs[..i]).readArgs);
        AlternatingPrefix(hs, i + 1);
        RoomNeeded(target, hs[..i + 1]);
      }
    }
  }

  /** An entry that got in found room. */
  lemma RoomNeeded(target: nat, hs: seq<Hook>)
    requires hs != [] && Alternating(hs) && EntersStdin(target, hs[|hs| - 1])
    requires Paired(target, hs[..|hs| - 1], Run(target, hs[..|hs| - 1]).readArgs)
    requires Paired(target, hs, Run(target, hs).readArgs)
    ensures |Waiting(target, hs[..|hs| - 1])| < 1024
  {
    var n := |hs| - 1;
    var h, s := hs[n], Run(target, hs[..n]);
    WaitingKeys(target, hs[..n], s.readArgs);
    WaitingAreReading(target, hs[..n], s.readArgs);
    assert InCall(hs[..n], h.id).Idle?;
    assert InCall(hs, h.id) == Reading(0, h.addr);
    assert h.id in Run(target, hs).readArgs;
    assert |s.readArgs.Keys| == |s.readArgs|;
  }

  ghost predicate Reports(ts: seq<Transfer>, es: seq<Event>) {
    |ts| == |es| && forall i :: 0 <= i < |ts| ==>
      es[i].fd == ts[i].fd && es[i].size == ts[i].len % 4096
      && es[i].payload[..es[i].size] == ProbeRead(ts[i].mem, ts[i].addr, es[i].size)
  }

  /** An enter of the target on standard input is stored unless it needs a new entry and there is none; no
      other enter changes anything. */
  lemma EnterIsStored(target: nat, s: State, id: nat, fd: nat, addr: nat)
    ensures OfProcess(id, target) && fd == 0 && (id in s.readArgs || |s.readArgs| < 1024)
      ==> OnHook(target, s, ReadEnter(id, fd, addr)) == s.(readArgs := s.readArgs[id := addr])
    ensures !OfProcess(id, target) || fd != 0 || (id !in s.readArgs && |s.readArgs| >= 1024)
      ==> OnHook(target, s, ReadEnter(id, fd, addr)) == s
  {
  }

  /** What the CPU's buffer held behind the reported bytes goes out with them, and stays there. */
  lemma StaleTail(s: State, cpu: nat, fd: nat, addr: nat, count: nat, mem: Memory)
    ensures var t := Send(s, cpu, fd, addr, count, mem);
      && |t.events| == |s.events| + 1 && t.scratch.Keys == s.scratch.Keys + {cpu}
      && t.events[|s.events|].payload == t.scratch[cpu]
      && forall i :: count % 4096 <= i < 4096 ==>
           t.scratch[cpu][i] == if cpu in s.scratch then s.scratch[cpu][i] else 0
  {
  }

  lemma SendReports(ts: seq<Transfer>, s: State, cpu: nat, t: Transfer)
    requires Reports(ts, s.events)
    ensures Reports(ts + [t], Send(s, cpu, t.fd, t.addr, t.len, t.mem).events)
  {
    var size := t.len % PAGE;
    var page := Filled(s, cpu, t.addr, t.len, t.mem);
    assert page[..size] == ProbeRead(t.mem, t.addr, size);
  }

  lemma WaitingAreReading(target: nat, hs: seq<Hook>, readArgs: map<nat, nat>)
    requires Paired(target, hs, readArgs)
    ensures forall id <- readArgs.Keys :: InCall(hs, id).Reading?
  {
    forall id <- readArgs.Keys ensures InCall(hs, id).Reading? {
      assert InCall(hs, id) == Reading(0, readArgs[id]);
    }
  }

  lemma PairedStep(target: nat, hs: seq<Hook>, s: State)
    requires hs != [] && Alternating(hs) && Room(target, hs)
    requires Paired(target, hs[..|hs| - 1], s.readArgs)
    ensures Paired(target, hs, OnHook(target, s, hs[|hs| - 1]).readArgs)
  {
    var n := |hs| - 1;
    if EntersStdin(target, hs[n]) {
      WaitingKeys(target, hs[..n], s.readArgs);
      assert |s.readArgs.Keys| == |s.readArgs|;
    }
    if hs[n].ReadEnter? && OfProcess(hs[n].id, target) {
      WaitingAreReading(target, hs[..n], s.readArgs);
      assert InCall(hs[..n], hs[n].id).Idle?;
    }
  }

  lemma ReportsStep(target: nat, hs: seq<Hook>, s: State)
    requires hs != []
    requires Paired(target, hs[..|hs| - 1], s.readArgs)
    requires Reports(Transfers(target, hs[..|hs| - 1]), s.events)
    ensures Reports(Transfers(target, hs), OnHook(target, s, hs[|hs| - 1]).events)
  {
    var n := |hs| - 1;
    var ts := Transfers(target, hs[..n]);
    assert ts + [] == ts;
    match hs[n]
    case Write(cpu, id, fd, addr, count, mem) =>
      SendReports(ts, s, cpu, Transfer(fd, addr, count, mem));
    case ReadEnter(_, _, _) =>
    case ReadExit(cpu, id, ret, mem) =>
      if id in s.readArgs {
        assert InCall(hs[..n], id) == Reading(0, s.readArgs[id]);
        if ret > 0 {
          var t := s.(readArgs := s.readArgs - {id});
          SendReports(ts, t, cpu, Transfer(0, s.readArgs[id], ret, mem));
        }
      } else if OfProcess(id, target) {
        assert forall addr :: InCall(hs[..n], id) != Reading(0, addr);
      }
  }
}
