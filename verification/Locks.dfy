/**
 Deadlock freedom. Every actor of the sink is a program over four locks; the paths below are what each
 one can do, with any number of fragments, files, events and attempts. One order, buffer manager before
 settings before state before uploader, is respected by all of them, so whatever runs together, somebody
 can always go on, and all of it can finish. A call to the uploader or to the disk counts as one operation
 that returns.
 */
module Locks {
  import opened BufferEvents

  datatype Lock = BufferManager | Settings | SinkState | Uploader

  datatype Op =
    | Acquire(lock: Lock)
    | Release(lock: Lock)
    | TryAcquire(lock: Lock, skip: nat) // never waits; when the lock is taken, the next `skip` operations are left out
    | Call                              // a network, disk or timer operation

  type Program = seq<Op>

  function Rank(l: Lock): nat {
    match l
    case BufferManager => 0
    case Settings => 1
    case SinkState => 2
    case Uploader => 3
  }

  /** From `held` to `after`, waiting only for locks above all those held. */
  predicate Keeps(ops: Program, held: set<Lock>, after: set<Lock>)
    decreases |ops|
  {
    if ops == [] then held == after
    else
      match ops[0]
      case Acquire(l) => (forall h | h in held :: Rank(h) < Rank(l)) && Keeps(ops[1..], held + {l}, after)
      case Release(l) => l in held && Keeps(ops[1..], held - {l}, after)
      case TryAcquire(l, skip) =>
        && l !in held && skip < |ops|
        && Keeps(ops[1..], held + {l}, after) && Keeps(ops[1 + skip..], held, after)
      case Call => Keeps(ops[1..], held, after)
  }

  lemma {:induction false} KeepsConcat(a: Program, b: Program, h0: set<Lock>, h1: set<Lock>, h2: set<Lock>)
    requires Keeps(a, h0, h1) && Keeps(b, h1, h2)
    ensures Keeps(a + b, h0, h2)
    decreases |a|
  {
    if a == [] {
      assert a + b == b;
    } else {
      assert (a + b)[1..] == a[1..] + b;
      match a[0]
      case Acquire(l) => KeepsConcat(a[1..], b, h0 + {l}, h1, h2);
      case Release(l) => KeepsConcat(a[1..], b, h0 - {l}, h1, h2);
      case TryAcquire(l, skip) =>
        KeepsConcat(a[1..], b, h0 + {l}, h1, h2);
        assert (a + b)[1 + skip..] == a[1 + skip..] + b;
        KeepsConcat(a[1 + skip..], b, h0, h1, h2);
      case Call => KeepsConcat(a[1..], b, h0, h1, h2);
    }
  }

  // ---- threads ----

  datatype Thread = Thread(rest: Program, held: set<Lock>)

  predicate Free(ts: seq<Thread>, l: Lock) { forall i | 0 <= i < |ts| :: l !in ts[i].held }

  predicate Enabled(ts: seq<Thread>, t: nat) {
    t < |ts| && ts[t].rest != [] && (ts[t].rest[0].Acquire? ==> Free(ts, ts[t].rest[0].lock))
  }

  function Next(ts: seq<Thread>, t: nat): Thread
    requires Enabled(ts, t)
  {
    var th := ts[t];
    match th.rest[0]
    case Acquire(l) => Thread(th.rest[1..], th.held + {l})
    case Release(l) => Thread(th.rest[1..], th.held - {l})
    case TryAcquire(l, skip) =>
      if Free(ts, l) then Thread(th.rest[1..], th.held + {l})
      else Thread(if 1 + skip <= |th.rest| then th.rest[1 + skip..] else [], th.held)
    case Call => Thread(th.rest[1..], th.held)
  }

  /** Each thread in turn; the schedule says whose turn it is. */
  predicate IsSchedule(ts: seq<Thread>, schedule: seq<nat>)
    decreases |schedule|
  {
    schedule == [] || (Enabled(ts, schedule[0]) && IsSchedule(ts[schedule[0] := Next(ts, schedule[0])], schedule[1..]))
  }

  function AfterSchedule(ts: seq<Thread>, schedule: seq<nat>): seq<Thread>
    requires IsSchedule(ts, schedule)
    decreases |schedule|
  {
    if schedule == [] then ts else AfterSchedule(ts[schedule[0] := Next(ts, schedule[0])], schedule[1..])
  }

  predicate Orderly(ts: seq<Thread>) {
    && (forall i | 0 <= i < |ts| :: Keeps(ts[i].rest, ts[i].held, {}))
    && (forall i, j | 0 <= i < j < |ts| :: ts[i].held !! ts[j].held)
  }

  predicate AllDone(ts: seq<Thread>) { forall i | 0 <= i < |ts| :: ts[i].rest == [] }

  lemma StepOrderly(ts: seq<Thread>, t: nat)
    requires Orderly(ts) && Enabled(ts, t)
    ensures Orderly(ts[t := Next(ts, t)])
  {
    var next := Next(ts, t);
    assert Keeps(ts[t].rest, ts[t].held, {});
    assert Keeps(next.rest, next.held, {});
    hide Keeps;
    forall i | 0 <= i < |ts| && i != t ensures ts[i].held !! next.held {
      assert ts[i].held !! ts[t].held;
    }
  }

  lemma {:induction false} ScheduleOrderly(ts: seq<Thread>, schedule: seq<nat>)
    requires Orderly(ts) && IsSchedule(ts, schedule)
    ensures Orderly(AfterSchedule(ts, schedule))
    decreases |schedule|
  {
    if schedule == [] {
    } else {
      StepOrderly(ts, schedule[0]);
      hide Orderly, Enabled, Next;
      ScheduleOrderly(ts[schedule[0] := Next(ts, schedule[0])], schedule[1..]);
    }
  }

  /** Follow the holders: each waits for a lock above the one it holds, so the chain ends at one that can go on. */
  lemma {:induction false} HolderCanGoOn(ts: seq<Thread>, t: nat)
    requires Orderly(ts) && t < |ts| && ts[t].rest != []
    ensures exists u: nat :: Enabled(ts, u)
    decreases if ts[t].rest[0].Acquire? then 4 - Rank(ts[t].rest[0].lock) else 0
  {
    if Enabled(ts, t) {
    } else {
      var l := ts[t].rest[0].lock;
      var u :| 0 <= u < |ts| && l in ts[u].held;
      assert Keeps(ts[u].rest, ts[u].held, {});
      assert ts[u].rest != [];
      if !Enabled(ts, u) { HolderCanGoOn(ts, u); }
    }
  }

  function Left(ts: seq<Thread>): nat {
    if ts == [] then 0 else |ts[0].rest| + Left(ts[1..])
  }

  lemma {:induction false} LeftDrops(ts: seq<Thread>, t: nat, next: Thread)
    requires t < |ts| && |next.rest| < |ts[t].rest|
    ensures Left(ts[t := next]) < Left(ts)
    decreases |ts|
  {
    if t > 0 {
      assert ts[t := next][1..] == ts[1..][t - 1 := next];
      LeftDrops(ts[1..], t - 1, next);
    } else {
      assert ts[t := next][1..] == ts[1..];
    }
  }

  /** From every orderly state all threads can finish. */
  lemma {:induction false} AllCanFinish(ts: seq<Thread>)
    requires Orderly(ts)
    ensures exists schedule: seq<nat> :: IsSchedule(ts, schedule) && AllDone(AfterSchedule(ts, schedule))
    decreases Left(ts)
  {
    if AllDone(ts) {
      assert IsSchedule(ts, []) && AfterSchedule(ts, []) == ts;
    } else {
      var t :| 0 <= t < |ts| && ts[t].rest != [];
      HolderCanGoOn(ts, t);
      var u: nat :| Enabled(ts, u);
      var ts' := ts[u := Next(ts, u)];
      StepOrderly(ts, u);
      LeftDrops(ts, u, Next(ts, u));
      hide Orderly, Enabled, Next, AllDone, Left;
      AllCanFinish(ts');
      var rest: seq<nat> :| IsSchedule(ts', rest) && AllDone(AfterSchedule(ts', rest));
      assert ([u] + rest)[1..] == rest;
      assert IsSchedule(ts, [u] + rest) && AfterSchedule(ts, [u] + rest) == AfterSchedule(ts', rest);
    }
  }

  // ---- the programs of the sink ----

  function Section(l: Lock): Program { [Acquire(l), Release(l)] }

  function CallUnder(l: Lock): Program { [Acquire(l), Call, Release(l)] }

  function Times(n: nat, body: Program): Program {
    if n == 0 then [] else body + Times(n - 1, body)
  }

  /** What the worker does with one fragment: reset, upload, react to a network failure, buffer. */
  datatype Failure = NoFailure | TaskKnown | TaskSpawned
  datatype ItemPath = ItemPath(reset: bool, put: bool, failure: Failure, push: bool)

  function HandleFailure(f: Failure): Program {
    match f
    case NoFailure => []
    case TaskKnown => Section(SinkState)
    case TaskSpawned =>
      Section(SinkState) + Section(SinkState) + Section(Settings) + Section(SinkState) + Section(SinkState)
  }

  function ItemProgram(p: ItemPath): Program {
    (if p.reset then CallUnder(Uploader) else [])
    + (if p.put then CallUnder(Uploader) else [])
    + HandleFailure(p.failure)
    + (if p.push then CallUnder(BufferManager) else [])
  }

  function WorkerProgram(items: seq<ItemPath>): Program {
    if items == [] then [] else ItemProgram(items[0]) + WorkerProgram(items[1..])
  }

  function EventSections(e: Event): nat {
    match e
    case UploadError => 0
    case HistoricalUploadComplete(live) => if live then 4 else 1 // failures reset, cancel, schedule, cancel
  }

  function DeliverProgram(events: seq<Event>): Program {
    if events == [] then [] else Times(EventSections(events[0]), Section(SinkState)) + DeliverProgram(events[1..])
  }

  /** `trigger_upload_all` under the buffer manager, then `after` still under it, then `outside`. */
  function TriggerProgram(puts: nat, after: Program, outside: Program): Program {
    [Acquire(BufferManager)] + Times(puts, CallUnder(Uploader)) + after + [Release(BufferManager)] + outside
  }

  /** One attempt of the recovery task: the backoff under the state lock, the sleep, the trigger. */
  function AttemptProgram(puts: nat, after: Program): Program {
    Section(SinkState) + [Call] + TriggerProgram(puts, after, [])
  }

  datatype Actor =
    | Worker(items: seq<ItemPath>)
    | RecoveryTask(failed: seq<nat>, puts: nat, events: seq<Event>)
    | SignalTask(puts: nat, ok: bool, events: seq<Event>)
    | ApiCall(puts: nat, ok: bool, events: seq<Event>)
    | KeyframeBoundary(full: bool, switches: bool, resets: bool)
    | StartUp
    | StatsQuery
    | Teardown

  function FailedAttempts(puts: seq<nat>): Program {
    if puts == [] then [] else AttemptProgram(puts[0], Section(SinkState)) + FailedAttempts(puts[1..])
  }

  /** A keyframe arrives: is the fragment long enough, is a switch pending, has the session expired? */
  function DecideProgram(): Program {
    Section(Settings) + Section(SinkState)
    + [Acquire(SinkState), TryAcquire(Uploader, 2), Call, Release(Uploader), Release(SinkState)]
  }

  /** Finalize and enqueue the fragment, counting it when the queue is full. */
  function CloseProgram(full: bool): Program {
    Section(SinkState) + Section(SinkState) + (if full then Section(SinkState) else [])
  }

  /** Switch the mode, reset the writer, and start the next fragment with the keyframe. */
  function OpenProgram(switches: bool, resets: bool): Program {
    (if switches then Section(SinkState) + Section(Settings) else [])
    + (if resets then Section(SinkState) else [])
    + Section(SinkState) + Section(SinkState)
  }

  function ActorProgram(a: Actor): Program {
    match a
    case Worker(items) => WorkerProgram(items)
    case RecoveryTask(failed, puts, events) =>
      FailedAttempts(failed)
      + AttemptProgram(puts, Section(SinkState) + Section(SinkState) + DeliverProgram(events))
    case SignalTask(puts, ok, events) =>
      Section(SinkState) + TriggerProgram(puts, if ok then Section(SinkState) + DeliverProgram(events) else [], [])
    case ApiCall(puts, ok, events) =>
      Section(SinkState) + TriggerProgram(puts, [], if ok then Section(SinkState) + DeliverProgram(events) else [])
    case KeyframeBoundary(full, switches, resets) =>
      DecideProgram() + CloseProgram(full) + OpenProgram(switches, resets)
    case StartUp =>
      [Acquire(Settings), Acquire(SinkState), Acquire(Uploader), Call, Release(Uploader), Release(SinkState),
          Release(Settings)]
      + Section(Settings) + Section(Settings)
    case StatsQuery =>
      [Acquire(SinkState), TryAcquire(BufferManager, 2), Call, Release(BufferManager), Release(SinkState)]
    case Teardown => Section(SinkState) + Section(SinkState) + [Call] + Section(SinkState)
  }

  // ---- each program respects the order ----

  /** At most the buffer manager in hand. */
  predicate Low(held: set<Lock>) { held == {} || held == {BufferManager} }

  lemma SectionKeeps(l: Lock, held: set<Lock>)
    requires forall h | h in held :: Rank(h) < Rank(l)
    ensures Keeps(Section(l), held, held)
  {
    var ops := Section(l);
    assert l !in held && held + {l} - {l} == held;
    assert ops[1..] == [Release(l)] && ops[1..][1..] == [];
    assert Keeps(ops[1..], held + {l}, held);
  }

  lemma CallUnderKeeps(l: Lock, held: set<Lock>)
    requires forall h | h in held :: Rank(h) < Rank(l)
    ensures Keeps(CallUnder(l), held, held)
  {
    var ops := CallUnder(l);
    assert l !in held && held + {l} - {l} == held;
    assert ops[1..] == [Call, Release(l)] && ops[1..][1..] == [Release(l)] && ops[1..][1..][1..] == [];
    assert Keeps(ops[1..][1..], held + {l}, held);
    assert Keeps(ops[1..], held + {l}, held);
  }

  lemma {:induction false} TimesKeeps(n: nat, body: Program, held: set<Lock>)
    requires Keeps(body, held, held)
    ensures Keeps(Times(n, body), held, held)
  {
    hide Keeps;
    if n > 0 {
      TimesKeeps(n - 1, body, held);
      KeepsConcat(body, Times(n - 1, body), held, held, held);
    } else {
      NothingKeeps(held);
    }
  }

  lemma NothingKeeps(held: set<Lock>)
    ensures Keeps([], held, held)
  {
  }

  lemma PairKeeps(a: Program, b: Program, held: set<Lock>)
    requires Keeps(a, held, held) && Keeps(b, held, held)
    ensures Keeps(a + b, held, held)
  {
    KeepsConcat(a, b, held, held, held);
  }

  lemma {:induction false} DeliverKeepsOrder(events: seq<Event>, held: set<Lock>)
    requires Low(held)
    ensures Keeps(DeliverProgram(events), held, held)
  {
    SectionKeeps(SinkState, held);
    hide Keeps;
    if events == [] {
      NothingKeeps(held);
    } else {
      TimesKeeps(EventSections(events[0]), Section(SinkState), held);
      DeliverKeepsOrder(events[1..], held);
      PairKeeps(Times(EventSections(events[0]), Section(SinkState)), DeliverProgram(events[1..]), held);
    }
  }

  lemma FailureKeeps(f: Failure)
    ensures Keeps(HandleFailure(f), {}, {})
  {
    SectionKeeps(SinkState, {});
    SectionKeeps(Settings, {});
    NothingKeeps({});
    hide Keeps;
    var s, g := Section(SinkState), Section(Settings);
    PairKeeps(s, s, {});
    PairKeeps(s + s, g, {});
    PairKeeps(s + s + g, s, {});
    PairKeeps(s + s + g + s, s, {});
  }

  lemma ItemKeeps(p: ItemPath)
    ensures Keeps(ItemProgram(p), {}, {})
  {
    CallUnderKeeps(Uploader, {});
    CallUnderKeeps(BufferManager, {});
    NothingKeeps({});
    FailureKeeps(p.failure);
    hide Keeps;
    var reset: Program := if p.reset then CallUnder(Uploader) else [];
    var put: Program := if p.put then CallUnder(Uploader) else [];
    var push: Program := if p.push then CallUnder(BufferManager) else [];
    PairKeeps(reset, put, {});
    PairKeeps(reset + put, HandleFailure(p.failure), {});
    PairKeeps(reset + put + HandleFailure(p.failure), push, {});
  }

  lemma {:induction false} WorkerKeeps(items: seq<ItemPath>)
    ensures Keeps(WorkerProgram(items), {}, {})
  {
    hide Keeps;
    if items == [] {
      NothingKeeps({});
    } else {
      ItemKeeps(items[0]);
      WorkerKeeps(items[1..]);
      PairKeeps(ItemProgram(items[0]), WorkerProgram(items[1..]), {});
    }
  }

  lemma TriggerKeepsOrder(puts: nat, after: Program, outside: Program)
    requires Keeps(after, {BufferManager}, {BufferManager}) && Keeps(outside, {}, {})
    ensures Keeps(TriggerProgram(puts, after, outside), {}, {})
  {
    var b: set<Lock> := {BufferManager};
    var up, down: Program := [Acquire(BufferManager)], [Release(BufferManager)];
    OneKeeps();
    CallUnderKeeps(Uploader, b);
    hide Keeps;
    TimesKeeps(puts, CallUnder(Uploader), b);
    KeepsConcat(up, Times(puts, CallUnder(Uploader)), {}, b, b);
    KeepsConcat(up + Times(puts, CallUnder(Uploader)), after, {}, b, b);
    KeepsConcat(up + Times(puts, CallUnder(Uploader)) + after, down, {}, b, {});
    KeepsConcat(up + Times(puts, CallUnder(Uploader)) + after + down, outside, {}, {}, {});
  }

  lemma OneKeeps()
    ensures Keeps([Acquire(BufferManager)], {}, {BufferManager}) && Keeps([Release(BufferManager)], {BufferManager}, {})
    ensures Keeps([Call], {}, {})
  {
    var b: set<Lock> := {BufferManager};
    assert {} + b == b && b - b == {};
    assert [Acquire(BufferManager)][1..] == [] && [Release(BufferManager)][1..] == [] && [Call][1..] == [];
  }

  lemma AttemptKeeps(puts: nat, after: Program)
    requires Keeps(after, {BufferManager}, {BufferManager})
    ensures Keeps(AttemptProgram(puts, after), {}, {})
  {
    SectionKeeps(SinkState, {});
    OneKeeps();
    NothingKeeps({});
    hide Keeps;
    TriggerKeepsOrder(puts, after, []);
    PairKeeps(Section(SinkState), [Call], {});
    PairKeeps(Section(SinkState) + [Call], TriggerProgram(puts, after, []), {});
  }

  lemma {:induction false} AttemptsKeep(failed: seq<nat>)
    ensures Keeps(FailedAttempts(failed), {}, {})
  {
    hide Keeps;
    if failed == [] {
      NothingKeeps({});
    } else {
      SectionKeeps(SinkState, {BufferManager});
      AttemptKeeps(failed[0], Section(SinkState));
      AttemptsKeep(failed[1..]);
      PairKeeps(AttemptProgram(failed[0], Section(SinkState)), FailedAttempts(failed[1..]), {});
    }
  }

  lemma RecoveryKeeps(failed: seq<nat>, puts: nat, events: seq<Event>)
    ensures Keeps(ActorProgram(RecoveryTask(failed, puts, events)), {}, {})
  {
    var b: set<Lock> := {BufferManager};
    var clear := Section(SinkState);
    hide Keeps;
    AttemptsKeep(failed);
    SectionKeeps(SinkState, b);
    DeliverKeepsOrder(events, b);
    PairKeeps(clear, clear, b);
    PairKeeps(clear + clear, DeliverProgram(events), b);
    AttemptKeeps(puts, clear + clear + DeliverProgram(events));
    PairKeeps(FailedAttempts(failed), AttemptProgram(puts, clear + clear + DeliverProgram(events)), {});
  }

  lemma ManualKeeps(puts: nat, ok: bool, events: seq<Event>)
    ensures Keeps(ActorProgram(SignalTask(puts, ok, events)), {}, {})
    ensures Keeps(ActorProgram(ApiCall(puts, ok, events)), {}, {})
  {
    var b: set<Lock> := {BufferManager};
    var deliver: Program := if ok then Section(SinkState) + DeliverProgram(events) else [];
    hide Keeps;
    SectionKeeps(SinkState, {});
    SectionKeeps(SinkState, b);
    NothingKeeps({});
    NothingKeeps(b);
    DeliverKeepsOrder(events, {});
    DeliverKeepsOrder(events, b);
    PairKeeps(Section(SinkState), DeliverProgram(events), {});
    PairKeeps(Section(SinkState), DeliverProgram(events), b);
    TriggerKeepsOrder(puts, deliver, []);
    TriggerKeepsOrder(puts, [], deliver);
    PairKeeps(Section(SinkState), TriggerProgram(puts, deliver, []), {});
    PairKeeps(Section(SinkState), TriggerProgram(puts, [], deliver), {});
  }

  /** Asking the uploader under the state lock, or the buffer manager, without ever waiting for it. */
  lemma PeekKeeps(l: Lock)
    requires l != SinkState
    ensures Keeps([Acquire(SinkState), TryAcquire(l, 2), Call, Release(l), Release(SinkState)], {}, {})
  {
    var ops: Program := [Acquire(SinkState), TryAcquire(l, 2), Call, Release(l), Release(SinkState)];
    var s: set<Lock> := {SinkState};
    assert {} + s == s && s - s == {} && s + {l} - {l} == s;
    assert ops[1..] == [TryAcquire(l, 2), Call, Release(l), Release(SinkState)];
    assert ops[1..][1..] == [Call, Release(l), Release(SinkState)];
    assert ops[1..][1..][1..] == [Release(l), Release(SinkState)];
    assert ops[1..][3..] == [Release(SinkState)] && ops[1..][1..][1..][1..] == [Release(SinkState)];
    assert [Release(SinkState)][1..] == [];
    assert Keeps([Release(SinkState)], s, {});
    assert Keeps(ops[1..][1..][1..], s + {l}, {});
    assert Keeps(ops[1..][1..], s + {l}, {});
    assert Keeps(ops[1..], s, {});
  }

  lemma DecideKeeps()
    ensures Keeps(DecideProgram(), {}, {})
  {
    var s, g := Section(SinkState), Section(Settings);
    SectionKeeps(SinkState, {});
    SectionKeeps(Settings, {});
    PeekKeeps(Uploader);
    hide Keeps;
    PairKeeps(g, s, {});
    PairKeeps(g + s, [Acquire(SinkState), TryAcquire(Uploader, 2), Call, Release(Uploader), Release(SinkState)], {});
  }

  lemma CloseKeeps(full: bool)
    ensures Keeps(CloseProgram(full), {}, {})
  {
    var s := Section(SinkState);
    SectionKeeps(SinkState, {});
    NothingKeeps({});
    hide Keeps;
    PairKeeps(s, s, {});
    PairKeeps(s + s, if full then s else [], {});
  }

  lemma OpenKeepsOrder(switches: bool, resets: bool)
    ensures Keeps(OpenProgram(switches, resets), {}, {})
  {
    var s, g := Section(SinkState), Section(Settings);
    var switch: Program := if switches then s + g else [];
    var reset: Program := if resets then s else [];
    SectionKeeps(SinkState, {});
    SectionKeeps(Settings, {});
    NothingKeeps({});
    hide Keeps;
    PairKeeps(s, g, {});
    PairKeeps(switch, reset, {});
    PairKeeps(switch + reset, s, {});
    PairKeeps(switch + reset + s, s, {});
  }

  lemma BoundaryKeeps(full: bool, switches: bool, resets: bool)
    ensures Keeps(ActorProgram(KeyframeBoundary(full, switches, resets)), {}, {})
  {
    DecideKeeps();
    CloseKeeps(full);
    OpenKeepsOrder(switches, resets);
    hide Keeps, DecideProgram, CloseProgram, OpenProgram;
    PairKeeps(DecideProgram(), CloseProgram(full), {});
    PairKeeps(DecideProgram() + CloseProgram(full), OpenProgram(switches, resets), {});
  }

  /** Starting up holds settings, state and uploader at once, in that order. */
  lemma StartUpKeeps()
    ensures Keeps(ActorProgram(StartUp), {}, {})
  {
    var ops: Program :=
      [Acquire(Settings), Acquire(SinkState), Acquire(Uploader), Call, Release(Uploader), Release(SinkState),
          Release(Settings)];
    var a: set<Lock> := {Settings};
    var b: set<Lock> := {Settings, SinkState};
    var c: set<Lock> := {Settings, SinkState, Uploader};
    assert {} + {Settings} == a && a + {SinkState} == b && b + {Uploader} == c;
    assert c - {Uploader} == b && b - {SinkState} == a && a - {Settings} == {};
    assert ops[6..] == [Release(Settings)] && ops[6..][1..] == [];
    assert Keeps(ops[6..], a, {});
    assert ops[5..][1..] == ops[6..];
    assert Keeps(ops[5..], b, {});
    assert ops[4..][1..] == ops[5..];
    assert Keeps(ops[4..], c, {});
    assert ops[3..][1..] == ops[4..];
    assert Keeps(ops[3..], c, {});
    assert ops[2..][1..] == ops[3..];
    assert Keeps(ops[2..], b, {});
    assert ops[1..][1..] == ops[2..];
    assert Keeps(ops[1..], a, {});
    assert Keeps(ops, {}, {});
    SectionKeeps(Settings, {});
    hide Keeps;
    PairKeeps(ops, Section(Settings), {});
    PairKeeps(ops + Section(Settings), Section(Settings), {});
  }

  lemma TeardownKeeps()
    ensures Keeps(ActorProgram(Teardown), {}, {})
  {
    var s := Section(SinkState);
    SectionKeeps(SinkState, {});
    OneKeeps();
    hide Keeps;
    PairKeeps(s, s, {});
    PairKeeps(s + s, [Call], {});
    PairKeeps(s + s + [Call], s, {});
  }

  lemma ActorKeeps(a: Actor)
    ensures Keeps(ActorProgram(a), {}, {})
  {
    hide Keeps;
    match a
    case Worker(items) => WorkerKeeps(items);
    case RecoveryTask(failed, puts, events) => RecoveryKeeps(failed, puts, events);
    case SignalTask(puts, ok, events) => ManualKeeps(puts, ok, events);
    case ApiCall(puts, ok, events) => ManualKeeps(puts, ok, events);
    case KeyframeBoundary(full, switches, resets) => BoundaryKeeps(full, switches, resets);
    case StartUp => StartUpKeeps();
    case StatsQuery => PeekKeeps(BufferManager);
    case Teardown => TeardownKeeps();
  }

  // ---- the theorems ----

  function Begin(actors: seq<Actor>): (ts: seq<Thread>)
    ensures |ts| == |actors| && forall i | 0 <= i < |actors| :: ts[i] == Thread(ActorProgram(actors[i]), {})
  {
    if actors == [] then [] else [Thread(ActorProgram(actors[0]), {})] + Begin(actors[1..])
  }

  lemma BeginOrderly(actors: seq<Actor>)
    ensures Orderly(Begin(actors))
  {
    forall i | 0 <= i < |actors| ensures Keeps(Begin(actors)[i].rest, Begin(actors)[i].held, {}) {
      ActorKeeps(actors[i]);
    }
  }

  /**
   Deadlock freedom: any actors, however many, in any interleaving. While one has something left to do,
   one can take its next step; and all of them can still finish.
   */
  lemma NeverDeadlocked(actors: seq<Actor>, schedule: seq<nat>)
    requires IsSchedule(Begin(actors), schedule)
    ensures var ts := AfterSchedule(Begin(actors), schedule);
            && (!AllDone(ts) ==> exists t: nat :: Enabled(ts, t))
            && exists rest: seq<nat> :: IsSchedule(ts, rest) && AllDone(AfterSchedule(ts, rest))
  {
    BeginOrderly(actors);
    ScheduleOrderly(Begin(actors), schedule);
    var ts := AfterSchedule(Begin(actors), schedule);
    hide Begin, IsSchedule, Orderly;
    AllCanFinish(ts);
    if !AllDone(ts) {
      var t :| 0 <= t < |ts| && ts[t].rest != [];
      HolderCanGoOn(ts, t);
    }
  }

  /** Mutual exclusion: no lock is ever held by two actors. */
  lemma LocksExclude(actors: seq<Actor>, schedule: seq<nat>, i: nat, j: nat)
    requires IsSchedule(Begin(actors), schedule) && i < j < |AfterSchedule(Begin(actors), schedule)|
    ensures var ts := AfterSchedule(Begin(actors), schedule); ts[i].held !! ts[j].held
  {
    BeginOrderly(actors);
    ScheduleOrderly(Begin(actors), schedule);
  }

  /** Had the worker kept the uploader while buffering the fragment, it could deadlock with a trigger. */
  lemma KeepingTheUploaderDeadlocks()
    ensures var worker: Program :=
              [Acquire(Uploader), Call, Acquire(BufferManager), Call, Release(BufferManager), Release(Uploader)];
            var ts := [Thread(worker, {}), Thread(TriggerProgram(1, [], []), {})];
            && IsSchedule(ts, [0, 0, 1])
            && var stuck := AfterSchedule(ts, [0, 0, 1]);
               !AllDone(stuck) && forall t: nat :: !Enabled(stuck, t)
  {
    var worker: Program :=
      [Acquire(Uploader), Call, Acquire(BufferManager), Call, Release(BufferManager), Release(Uploader)];
    var trigger := TriggerProgram(1, [], []);
    var t0 := [Thread(worker, {}), Thread(trigger, {})];
    assert trigger[0] == Acquire(BufferManager)
      && Times(1, CallUnder(Uploader)) == CallUnder(Uploader) + Times(0, CallUnder(Uploader));
    assert trigger[1..] == CallUnder(Uploader) + [Release(BufferManager)];
    var t1 := t0[0 := Next(t0, 0)];
    var t2 := t1[0 := Next(t1, 0)];
    var t3 := t2[1 := Next(t2, 1)];
    assert t3[0].rest[0] == Acquire(BufferManager) && Uploader in t3[0].held;
    assert t3[1].rest[0] == Acquire(Uploader) && BufferManager in t3[1].held;
    assert [0, 0, 1][1..] == [0, 1] && [0, 1][1..] == [1] && [1][1..] == [];
    assert AfterSchedule(t3, []) == t3;
    assert AfterSchedule(t2, [1]) == t3;
    assert AfterSchedule(t1, [0, 1]) == t3;
  }
}
