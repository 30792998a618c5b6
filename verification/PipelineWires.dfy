/**
 The machine of `Pipeline` with the connection under it: every put and every session reset of a step is done
 by the connection, whose answer decides which step it is. What was accepted is what the wires carry, and no
 wire carries live clusters of two MKV sessions.
 */
module PipelineWires {
  import opened Wrappers
  import opened Pipeline
  import opened PipelineAccounting
  import opened PipelineSessions
  import opened PipelineClock
  import FileNames
  import AckStatus
  import RecordLog
  import B = BufferModel
  import C = CrashRecovery
  import K = KvsModel
  import L = BufferLoss

  // ---- puts that are cut off ----

  /**
   Where an aborted put can have been waiting: for a slot of a full channel, or for a new connection. A channel
   that still needs headers is empty and has 128 slots, so the headers and their cluster are never parted.
   */
  datatype Cut = WaitingToSend | Reconnecting

  predicate CanCut(c: K.Conn, f: RecordLog.Fragment, env: K.SendEnv, cut: Cut)
    requires K.SenderOk(c)
  {
    match cut
    case WaitingToSend => env.healthy && c.sender.Some? && !c.firstOfConnection
    case Reconnecting => !K.Send(c, f, env).1
  }

  function CutOff(c: K.Conn, f: RecordLog.Fragment, env: K.SendEnv, cut: Cut): K.Conn
    requires K.SenderOk(c)
  {
    match cut
    case WaitingToSend =>
      var c1 := K.TakeAcks(c, env);
      c1.(status := c1.status + [AckStatus.Sent(c1.nextNumber)])
    case Reconnecting => K.Reconnect(K.Send(c, f, env).0, []).0
  }

  // ---- what the network answers to a step ----

  datatype Answer =
    | Silent
    | ToPut(env: K.PutEnv)
    | ToReset(attempts: seq<bool>)
    | CutShort(first: K.SendEnv, cut: Cut)

  /** The next record of the file a task is uploading. */
  predicate HasRecord(s: State, t: nat) {
    t < |s.tasks| && s.tasks[t].pc.Uploading? && s.tasks[t].pc.paths != []
    && s.tasks[t].pc.next < |Found(s.buf, s.tasks[t].pc.paths[0])|
  }

  /** The fragment a step puts, if it gets to put one. */
  function PutOf(s: State, step: Step): Option<RecordLog.Fragment>
    requires Can(s, step)
  {
    match step
    case Work(PutAccepted) => Some(s.worker.item.fragment)
    case Work(PutRefused(_)) => Some(s.worker.item.fragment)
    case TaskDo(t, x) =>
      if (x.PutRecord? || x.FailFile? || x.Die?) && HasRecord(s, t)
      then Some(Found(s.buf, s.tasks[t].pc.paths[0])[s.tasks[t].pc.next]) else None
    case _ => None
  }

  predicate IsAccepted(step: Step) {
    step == Work(PutAccepted) || (step.TaskDo? && step.taskStep.PutRecord?)
  }

  /** A step that can happen without a put: the file could not be read, or the task was aborted between puts. */
  predicate MayBeSilent(s: State, step: Step)
    requires Can(s, step)
  {
    && step != Work(ResetResolves)
    && (PutOf(s, step).Some? ==>
          step.TaskDo? && (step.taskStep.Die? || (step.taskStep.FailFile? && s.tasks[step.task].pc.next == 0)))
  }

  /** The answer fits the step: a put is accepted in the steps that say so, and refused or cut off in the others. */
  predicate Answers(s: State, c: K.Conn, step: Step, a: Answer)
    requires Can(s, step) && K.SenderOk(c)
  {
    match a
    case Silent => MayBeSilent(s, step)
    case ToReset(_) => step == Work(ResetResolves)
    case ToPut(env) =>
      && PutOf(s, step).Some? && !(step.TaskDo? && step.taskStep.Die?)
      && (K.Put(c, PutOf(s, step).value, env).1 <==> IsAccepted(step))
    case CutShort(first, cut) =>
      PutOf(s, step).Some? && step.TaskDo? && step.taskStep.Die? && CanCut(c, PutOf(s, step).value, first, cut)
  }

  /** The connection after the step. */
  function Net(s: State, c: K.Conn, step: Step, a: Answer): K.Conn
    requires Can(s, step) && K.SenderOk(c) && Answers(s, c, step, a)
  {
    match a
    case Silent => c
    case ToReset(attempts) => K.Reset(c, attempts).0
    case ToPut(env) => K.Put(c, PutOf(s, step).value, env).0
    case CutShort(first, cut) => CutOff(c, PutOf(s, step).value, first, cut)
  }

  // ---- the machine and its connection together ----

  /** A put that was accepted: live from the worker or from a file, and the wire it went to. */
  datatype Entry = Live(item: Item, wire: nat) | Historical(record: RecordLog.Fragment, wire: nat)

  /** `floor` is the number of wires there were when the worker last reset the session. */
  datatype Joint = Joint(s: State, c: K.Conn, log: seq<Entry>, floor: nat)

  datatype Move = Move(step: Step, answer: Answer)

  predicate CanMove(j: Joint, m: Move) {
    Can(j.s, m.step) && K.SenderOk(j.c) && Answers(j.s, j.c, m.step, m.answer)
  }

  function EntryOf(s: State, step: Step, wire: nat): Entry
    requires Can(s, step) && IsAccepted(step)
  {
    if step.Work? then Live(s.worker.item, wire) else Historical(PutOf(s, step).value, wire)
  }

  function DoMove(j: Joint, m: Move): Joint
    requires CanMove(j, m)
  {
    var c := Net(j.s, j.c, m.step, m.answer);
    var log := if IsAccepted(m.step) && c.sender.Some? then j.log + [EntryOf(j.s, m.step, c.sender.value)] else j.log;
    Joint(Do(j.s, m.step), c, log, if m.step == Work(ResetResolves) then |j.c.wires| else j.floor)
  }

  predicate AreMoves(j: Joint, moves: seq<Move>)
    decreases |moves|
  {
    moves == [] || (CanMove(j, moves[0]) && AreMoves(DoMove(j, moves[0]), moves[1..]))
  }

  function Moved(j: Joint, moves: seq<Move>): Joint
    requires AreMoves(j, moves)
    decreases |moves|
  {
    if moves == [] then j else Moved(DoMove(j, moves[0]), moves[1..])
  }

  function Start(mode: Mode, b0: B.Buf): Joint { Joint(Initial(mode, b0), K.Initialized(), [], 0) }

  // ---- what a connection gains ----

  /** The clusters of each wire stay, and an accepted one is added to the last wire, which is then in use. */
  predicate Gains(c: K.Conn, c': K.Conn, gained: Option<RecordLog.Fragment>) {
    && |c.wires| <= |c'.wires|
    && (c'.sender.Some? ==> c'.sender.value + 1 == |c'.wires|)
    && (c'.sender.Some? ==> c'.sender == c.sender || c'.sender.value >= |c.wires|)
    && (gained.Some? ==> c'.sender.Some?)
    && (forall i | 0 <= i < |c'.wires| ::
          K.Clusters(c'.wires[i].stream) ==
            (if i < |c.wires| then K.Clusters(c.wires[i].stream) else [])
            + (if gained.Some? && i + 1 == |c'.wires| then [gained.value] else []))
  }

  function OnlyIf<T>(ok: bool, x: T): Option<T> { if ok then Some(x) else None }

  lemma SendGains(c: K.Conn, f: RecordLog.Fragment, env: K.SendEnv)
    requires K.Inv(c)
    ensures K.SenderOk(c) && Gains(c, K.Send(c, f, env).0, OnlyIf(K.Send(c, f, env).1, f))
  {
    K.SendKeeps(c, f, env);
    InUseIsLast(c, f, env);
    hide K.AllClusters, K.Send, K.Inv, Gains;
    LastChanges(c, K.Send(c, f, env).0, OnlyIf(K.Send(c, f, env).1, f));
  }

  /** When only the last wire changes, what all wires gain is what the last one gains. */
  lemma LastChanges(c: K.Conn, c': K.Conn, gained: Option<RecordLog.Fragment>)
    requires |c'.wires| == |c.wires| && c'.sender == c.sender && (gained.Some? ==> c.sender.Some?)
    requires c.sender.Some? ==> c.sender.value + 1 == |c.wires|
    requires forall i | 0 <= i < |c.wires| - 1 :: c'.wires[i] == c.wires[i]
    requires K.AllClusters(c'.wires)
             == K.AllClusters(c.wires) + (if gained.Some? then [gained.value] else [])
    ensures Gains(c, c', gained)
  {
    hide K.AllClusters, K.Clusters;
    if c.wires != [] {
      LastGains(c.wires, c'.wires, if gained.Some? then [gained.value] else []);
    }
  }

  lemma LastGains(older: seq<K.Wire>, newer: seq<K.Wire>, more: seq<RecordLog.Fragment>)
    requires older != [] && |newer| == |older| && forall i | 0 <= i < |older| - 1 :: newer[i] == older[i]
    requires K.AllClusters(newer) == K.AllClusters(older) + more
    ensures K.Clusters(newer[|newer| - 1].stream) == K.Clusters(older[|older| - 1].stream) + more
  {
    var n := |older| - 1;
    assert newer[..n] == older[..n];
    LastWire(older);
    LastWire(newer);
    hide K.AllClusters, K.Clusters;
    SameRest(K.AllClusters(older[..n]), K.Clusters(newer[n].stream), K.Clusters(older[n].stream), more);
  }

  lemma InUseIsLast(c: K.Conn, f: RecordLog.Fragment, env: K.SendEnv)
    requires K.Inv(c) && K.SenderOk(c)
    ensures c.sender.Some? ==> c.sender.value + 1 == |c.wires|
    ensures K.Send(c, f, env).1 ==> c.sender.Some?
  {
    hide K.WireOk, K.Deliver;
  }

  lemma LastWire(wires: seq<K.Wire>)
    requires wires != []
    ensures K.AllClusters(wires) == K.AllClusters(wires[..|wires| - 1]) + K.Clusters(wires[|wires| - 1].stream)
  {
  }

  lemma SameRest<T>(a: seq<T>, x: seq<T>, y: seq<T>, more: seq<T>)
    requires a + x == a + y + more
    ensures x == y + more
  {
    assert (a + x)[|a|..] == x && (a + y + more)[|a|..] == y + more;
  }

  lemma ReconnectGains(c: K.Conn, attempts: seq<bool>)
    requires K.AfterFailure(c)
    ensures var c' := K.Reconnect(c, attempts).0;
            Gains(c, c', None) && (c'.sender.Some? ==> c'.sender.value >= |c.wires|)
  {
    K.ReconnectKeeps(c, attempts);
    hide K.Reconnect;
  }

  lemma GainsThrough(a: K.Conn, b: K.Conn, c: K.Conn, gained: Option<RecordLog.Fragment>)
    requires Gains(a, b, None) && Gains(b, c, gained)
    ensures Gains(a, c, gained)
  {
    hide K.Clusters;
  }

  lemma PutGains(c: K.Conn, f: RecordLog.Fragment, env: K.PutEnv)
    requires K.Inv(c)
    ensures K.SenderOk(c) && Gains(c, K.Put(c, f, env).0, OnlyIf(K.Put(c, f, env).1, f))
  {
    hide Gains, K.Inv, K.Send, K.Reconnect, K.AfterFailure;
    K.SendKeeps(c, f, env.first);
    SendGains(c, f, env.first);
    var (c1, sent) := K.Send(c, f, env.first);
    if !sent {
      K.InvAllowsReconnect(c1);
      K.ReconnectKeeps(c1, env.attempts);
      ReconnectGains(c1, env.attempts);
      var (c2, connected) := K.Reconnect(c1, env.attempts);
      GainsThrough(c, c1, c2, None);
      if connected {
        SendGains(c2, f, env.second);
        GainsThrough(c, c2, K.Send(c2, f, env.second).0, OnlyIf(K.Send(c2, f, env.second).1, f));
      }
    }
  }

  lemma ResetGains(c: K.Conn, attempts: seq<bool>)
    requires K.Inv(c)
    ensures var c' := K.Reset(c, attempts).0;
            Gains(c, c', None) && (c'.sender.Some? ==> c'.sender.value >= |c.wires|)
  {
    var c1 := c.(nextNumber := 1, firstOfConnection := true, status := [], numbers := []);
    ReconnectGains(c1, attempts);
    hide K.Clusters, K.Reconnect;
  }

  /** A put cut off adds nothing to any wire. */
  lemma CutGains(c: K.Conn, f: RecordLog.Fragment, env: K.SendEnv, cut: Cut)
    requires K.Inv(c) && K.SenderOk(c) && CanCut(c, f, env, cut)
    ensures var c' := CutOff(c, f, env, cut);
            Gains(c, c', None) && K.Inv(c') && K.AllClusters(c'.wires) == K.AllClusters(c.wires)
  {
    match cut
    case WaitingToSend => hide K.Clusters, K.WireOk, K.AllClusters;
    case Reconnecting =>
      K.SendKeeps(c, f, env);
      SendGains(c, f, env);
      var c1 := K.Send(c, f, env).0;
      hide Gains, K.Inv, K.Send, K.Reconnect, K.AfterFailure, K.AllClusters;
      K.InvAllowsReconnect(c1);
      K.ReconnectKeeps(c1, []);
      ReconnectGains(c1, []);
      GainsThrough(c, c1, K.Reconnect(c1, []).0, None);
  }

  function Gained(s: State, step: Step): Option<RecordLog.Fragment>
    requires Can(s, step)
  {
    if IsAccepted(step) then PutOf(s, step) else None
  }

  /** A step's answer keeps the connection well formed and adds the accepted cluster, if there is one. */
  lemma NetKeeps(s: State, c: K.Conn, step: Step, a: Answer)
    requires K.Inv(c) && Can(s, step) && K.SenderOk(c) && Answers(s, c, step, a)
    ensures var c' := Net(s, c, step, a);
            && K.Inv(c') && Gains(c, c', Gained(s, step))
            && K.AllClusters(c'.wires)
               == K.AllClusters(c.wires) + (if Gained(s, step).Some? then [Gained(s, step).value] else [])
            && (step == Work(ResetResolves) && c'.sender.Some? ==> c'.sender.value >= |c.wires|)
  {
    hide Gains, K.Inv, K.Put, K.Reset, K.AllClusters, Found, CutOff, CanCut;
    match a
    case Silent => NothingGained(c);
    case ToReset(attempts) => K.ResetKeeps(c, attempts); ResetGains(c, attempts);
    case ToPut(env) => K.PutKeeps(c, PutOf(s, step).value, env); PutGains(c, PutOf(s, step).value, env);
    case CutShort(first, cut) => CutGains(c, PutOf(s, step).value, first, cut);
  }

  lemma NothingGained(c: K.Conn)
    requires K.Inv(c)
    ensures Gains(c, c, None)
  {
  }

  // ---- the log of accepted puts ----

  function Carried(e: Entry): RecordLog.Fragment { if e.Live? then e.item.fragment else e.record }

  function AllCarried(log: seq<Entry>): seq<RecordLog.Fragment> {
    if log == [] then [] else AllCarried(log[..|log| - 1]) + [Carried(log[|log| - 1])]
  }

  function CarriedOn(log: seq<Entry>, wire: nat): seq<RecordLog.Fragment> {
    if log == [] then []
    else
      var front, e := CarriedOn(log[..|log| - 1], wire), log[|log| - 1];
      if e.wire == wire then front + [Carried(e)] else front
  }

  function LiveIds(log: seq<Entry>): seq<nat> {
    if log == [] then []
    else LiveIds(log[..|log| - 1]) + if log[|log| - 1].Live? then [log[|log| - 1].item.id] else []
  }

  function Records(log: seq<Entry>): seq<RecordLog.Fragment> {
    if log == [] then []
    else Records(log[..|log| - 1]) + if log[|log| - 1].Live? then [] else [log[|log| - 1].record]
  }

  lemma LogSnoc(log: seq<Entry>, e: Entry)
    ensures var more := log + [e];
            && AllCarried(more) == AllCarried(log) + [Carried(e)]
            && LiveIds(more) == LiveIds(log) + (if e.Live? then [e.item.id] else [])
            && Records(more) == Records(log) + (if e.Live? then [] else [e.record])
            && forall w: nat :: CarriedOn(more, w) == CarriedOn(log, w) + if e.wire == w then [Carried(e)] else []
  {
    assert (log + [e])[..|log|] == log;
  }

  /** The wires carry the log, and the log is what the machine counts as put. */
  ghost predicate LogOk(j: Joint) {
    && K.Inv(j.c)
    && (forall w: nat | w < |j.c.wires| :: K.Clusters(j.c.wires[w].stream) == CarriedOn(j.log, w))
    && (forall e | e in j.log :: e.wire < |j.c.wires|)
    && K.AllClusters(j.c.wires) == AllCarried(j.log)
    && LiveIds(j.log) == j.s.uploaded && Records(j.log) == j.s.sent
  }

  lemma {:induction false} BeyondTheWires(log: seq<Entry>, w: nat)
    requires forall e | e in log :: e.wire < w
    ensures CarriedOn(log, w) == []
  {
    if log == [] {
    } else {
      assert log[|log| - 1] in log;
      BeyondTheWires(log[..|log| - 1], w);
    }
  }

  /** What a step counts as put. */
  lemma StepCounts(s: State, step: Step)
    requires Can(s, step)
    ensures IsAccepted(step) ==> PutOf(s, step).Some?
    ensures Do(s, step).uploaded
            == s.uploaded + if step == Work(PutAccepted) then [s.worker.item.id] else []
    ensures Do(s, step).sent
            == s.sent + if IsAccepted(step) && step.TaskDo? then [PutOf(s, step).value] else []
  {
    hide DoRender, CanRender, DoTask, CanTask, PutOf;
    match step
    case Render(r) => RenderCountsNone(s, r);
    case Work(w) => WorkCounts(s, w);
    case TaskDo(t, x) => TaskCounts(s, t, x);
    case Trigger(_) =>
  }

  lemma RenderCountsNone(s: State, step: RenderStep)
    requires CanRender(s, step)
    ensures DoRender(s, step).uploaded == s.uploaded && DoRender(s, step).sent == s.sent
  {
    RenderLeavesDisk(s, step);
  }

  lemma WorkCounts(s: State, step: WorkerStep)
    requires CanWork(s, step)
    ensures step.PutAccepted? ==> PutOf(s, Work(step)).Some?
    ensures DoWork(s, step).uploaded == s.uploaded + if step.PutAccepted? then [s.worker.item.id] else []
    ensures DoWork(s, step).sent == s.sent
  {
    hide Pushed, Found;
  }

  lemma TaskCounts(s: State, t: nat, step: TaskStep)
    requires CanTask(s, t, step)
    ensures step.PutRecord? ==> PutOf(s, TaskDo(t, step)).Some?
    ensures DoTask(s, t, step).uploaded == s.uploaded
    ensures DoTask(s, t, step).sent == s.sent + if step.PutRecord? then [PutOf(s, TaskDo(t, step)).value] else []
  {
    hide Found, B.RecordPass, B.Finalize, B.StartNew, B.Selected;
    TaskLeavesFragments(s, t, step);
    if step.Deliver? { DeliverShape(s, t); hide DeliverNext; }
  }

  lemma MoveLog(j: Joint, m: Move)
    requires LogOk(j) && CanMove(j, m)
    ensures LogOk(DoMove(j, m))
  {
    NetKeeps(j.s, j.c, m.step, m.answer);
    StepCounts(j.s, m.step);
    var j', gained := DoMove(j, m), Gained(j.s, m.step);
    hide Can, Do, Answers, Net, PutOf, K.Inv, K.AllClusters, K.Clusters;
    assert gained.Some? <==> IsAccepted(m.step);
    if gained.Some? {
      var e := EntryOf(j.s, m.step, j'.c.sender.value);
      LogSnoc(j.log, e);
      assert j'.log == j.log + [e] && Carried(e) == gained.value;
    }
    WiresStillCarry(j, j', gained);
  }

  lemma WiresStillCarry(j: Joint, j': Joint, gained: Option<RecordLog.Fragment>)
    requires Gains(j.c, j'.c, gained)
    requires forall w: nat | w < |j.c.wires| :: K.Clusters(j.c.wires[w].stream) == CarriedOn(j.log, w)
    requires forall e | e in j.log :: e.wire < |j.c.wires|
    requires gained.None? ==> j'.log == j.log
    requires gained.Some? ==> j'.c.sender.Some? && |j'.log| == |j.log| + 1 && j'.log[..|j.log|] == j.log
                              && Carried(j'.log[|j.log|]) == gained.value
                              && j'.log[|j.log|].wire == j'.c.sender.value
    ensures forall w: nat | w < |j'.c.wires| :: K.Clusters(j'.c.wires[w].stream) == CarriedOn(j'.log, w)
    ensures forall e | e in j'.log :: e.wire < |j'.c.wires|
  {
    hide K.Clusters;
    if gained.Some? {
      LogSnoc(j.log, j'.log[|j.log|]);
      assert j'.log == j.log + [j'.log[|j.log|]];
    }
    forall w: nat | w < |j'.c.wires| ensures K.Clusters(j'.c.wires[w].stream) == CarriedOn(j'.log, w) {
      if w >= |j.c.wires| { BeyondTheWires(j.log, w); }
    }
  }

  // ---- sessions on the wires ----

  /** The session the worker's connection is in: that of the item in hand, unless its reset is still to come. */
  function Epoch(s: State): nat {
    if s.worker.Idle? || s.worker.ResettingSession? then LastSession(s.handled) else s.worker.item.session
  }

  /** Later puts never go to an earlier wire. */
  predicate WiresAscend(log: seq<Entry>) {
    forall i, k | 0 <= i < k < |log| :: log[i].wire <= log[k].wire
  }

  predicate LivesAscend(log: seq<Entry>) {
    forall i, k | 0 <= i < k < |log| && log[i].Live? && log[k].Live? :: log[i].item.id < log[k].item.id
  }

  predicate OneSession(log: seq<Entry>) {
    forall i, k | 0 <= i < k < |log| && log[i].Live? && log[k].Live? && log[i].wire == log[k].wire ::
      log[i].item.session == log[k].item.session
  }

  predicate SessionsOk(j: Joint) {
    && j.floor <= |j.c.wires| && (j.c.sender.Some? ==> j.floor <= j.c.sender.value)
    && (forall e | e in j.log && e.Live? && e.wire >= j.floor :: e.item.session == Epoch(j.s))
    && (forall e | e in j.log && e.Live? :: e.item in j.s.handled)
    && WiresAscend(j.log) && LivesAscend(j.log) && OneSession(j.log)
  }

  /** An untagged item is from the session of the item before it. */
  lemma NextSession(s: State)
    requires Ordered(s) && WellTagged(s.queued) && s.worker.Idle? && s.queue != []
    ensures s.queue[0].startsNewSession <==> s.queue[0].session != LastSession(s.handled)
  {
    var k := |s.handled|;
    assert s.queued[k] == s.queue[0] && s.queued[..k] == s.handled;
    hide Ordered, LastSession;
  }

  lemma WorkEpoch(s: State, step: WorkerStep)
    requires Ordered(s) && WellTagged(s.queued) && CanWork(s, step)
    ensures !step.ResetResolves? ==> Epoch(DoWork(s, step)) == Epoch(s)
    ensures step.PutAccepted? ==> Epoch(s) == s.worker.item.session && s.worker.item in DoWork(s, step).handled
    ensures s.handled <= DoWork(s, step).handled
  {
    if step.Receive? { NextSession(s); }
    hide Pushed, Ordered, WellTagged;
  }

  lemma StepEpoch(s: State, step: Step)
    requires Ordered(s) && WellTagged(s.queued) && Can(s, step)
    ensures step != Work(ResetResolves) ==> Epoch(Do(s, step)) == Epoch(s)
    ensures step == Work(PutAccepted) ==> Epoch(s) == s.worker.item.session && s.worker.item in Do(s, step).handled
    ensures forall item | item in s.handled :: item in Do(s, step).handled
  {
    hide Ordered, WellTagged, DoTask, CanTask, DoWork, CanWork;
    match step
    case Render(r) => RenderLeavesWorker(s, r); hide DoRender, CanRender;
    case Work(w) => WorkEpoch(s, w);
    case TaskDo(t, x) => TaskLeavesFragments(s, t, x);
    case Trigger(_) =>
  }

  lemma RenderLeavesWorker(s: State, step: RenderStep)
    requires CanRender(s, step)
    ensures DoRender(s, step).worker == s.worker && DoRender(s, step).handled == s.handled
  {
  }

  /** The item in hand is later than everything handled. */
  lemma HandIsLatest(s: State)
    requires Ordered(s) && !s.worker.Idle?
    ensures forall item | item in s.handled :: item.id < s.worker.item.id
  {
    var k := |s.handled|;
    assert s.queued[k] == s.worker.item && forall i | 0 <= i < k :: s.queued[i] == s.handled[i];
  }

  lemma MoveSessions(j: Joint, m: Move)
    requires LogOk(j) && SessionsOk(j) && Ordered(j.s) && WellTagged(j.s.queued) && CanMove(j, m)
    ensures SessionsOk(DoMove(j, m))
  {
    NetKeeps(j.s, j.c, m.step, m.answer);
    StepCounts(j.s, m.step);
    StepEpoch(j.s, m.step);
    if m.step == Work(PutAccepted) { HandIsLatest(j.s); }
    var j' := DoMove(j, m);
    hide Do, Answers, Net, PutOf, K.Inv, K.AllClusters, K.Clusters, Ordered, WellTagged, Epoch;
    if IsAccepted(m.step) {
      var e := EntryOf(j.s, m.step, j'.c.sender.value);
      assert j'.log == j.log + [e];
      hide DoMove, CanMove, LogOk, Can;
      Appended(j, j', e);
    }
  }

  lemma Appended(j: Joint, j': Joint, e: Entry)
    requires SessionsOk(j) && j'.log == j.log + [e] && j'.floor == j.floor
    requires |j.c.wires| <= |j'.c.wires| && j'.c.sender == Some(e.wire) && e.wire + 1 == |j'.c.wires|
    requires j'.c.sender == j.c.sender || e.wire >= |j.c.wires|
    requires forall x | x in j.log :: x.wire < |j.c.wires|
    requires Epoch(j'.s) == Epoch(j.s) && forall item | item in j.s.handled :: item in j'.s.handled
    requires e.Live? ==> e.item.session == Epoch(j.s) && e.item in j'.s.handled
                         && forall item | item in j.s.handled :: item.id < e.item.id
    ensures SessionsOk(j')
  {
    hide Epoch;
    assert forall i | 0 <= i < |j.log| :: j.log[i] in j.log && j'.log[i] == j.log[i];
  }

  // ---- runs ----

  /** Everything the theorems need, over the machine and its connection. */
  ghost predicate JointOk(start: Mode, j: Joint) {
    Ordered(j.s) && Base(j.s) && Sound(start, j.s) && LogOk(j) && SessionsOk(j)
  }

  lemma MoveKeeps(start: Mode, j: Joint, m: Move)
    requires JointOk(start, j) && CanMove(j, m)
    ensures JointOk(start, DoMove(j, m))
  {
    assert WellTagged(j.s.queued);
    hide Ordered, Base, Sound, LogOk, SessionsOk, Do, Can, Net, WellTagged;
    StepKeeps(j.s, m.step);
    StepSound(start, j.s, m.step);
    MoveLog(j, m);
    MoveSessions(j, m);
    assert DoMove(j, m).s == Do(j.s, m.step);
  }

  lemma {:induction false} MovesKeep(start: Mode, j: Joint, moves: seq<Move>)
    requires JointOk(start, j) && AreMoves(j, moves)
    ensures JointOk(start, Moved(j, moves))
    decreases |moves|
  {
    hide JointOk, CanMove, DoMove;
    if moves == [] {
    } else {
      MoveKeeps(start, j, moves[0]);
      MovesKeep(start, DoMove(j, moves[0]), moves[1..]);
    }
  }

  lemma StartIsOk(mode: Mode, b0: B.Buf)
    requires NewManager(b0)
    ensures JointOk(mode, Start(mode, b0))
  {
    hide Ordered, Base, Sound, LogOk, NewManager, Single, HandledAreDelivered;
    InitialKeeps(mode, b0);
    InitialSingle(mode, b0);
    StartLog(mode, b0);
  }

  lemma StartLog(mode: Mode, b0: B.Buf)
    ensures LogOk(Start(mode, b0)) && Start(mode, b0).s == Initial(mode, b0)
  {
    var c := K.Initialized();
    assert K.AllClusters(c.wires) == [] + [];
    assert K.Clusters(c.wires[0].stream) == [];
  }

  // ---- the theorems ----

  lemma RunIsOk(mode: Mode, b0: B.Buf, moves: seq<Move>)
    requires NewManager(b0) && AreMoves(Start(mode, b0), moves)
    ensures LogOk(Moved(Start(mode, b0), moves)) && SessionsOk(Moved(Start(mode, b0), moves))
  {
    StartIsOk(mode, b0);
    MovesKeep(mode, Start(mode, b0), moves);
    hide Start, AreMoves, Moved, Ordered, Base, Sound, SessionsOk, LogOk;
  }

  /** The wires: after any interleaving and with any network, they carry the accepted puts, in order, each once. */
  lemma WiresCarryWhatWasAccepted(mode: Mode, b0: B.Buf, moves: seq<Move>)
    requires NewManager(b0) && AreMoves(Start(mode, b0), moves)
    ensures var j := Moved(Start(mode, b0), moves); K.AllClusters(j.c.wires) == AllCarried(j.log)
  {
    RunIsOk(mode, b0, moves);
    hide Start, AreMoves, Moved, SessionsOk, K.Inv, K.Clusters, K.AllClusters;
  }

  /** And these are what the machine counts: the ones accepted live, and the ones read from files. */
  lemma AcceptedIsWhatIsCounted(mode: Mode, b0: B.Buf, moves: seq<Move>)
    requires NewManager(b0) && AreMoves(Start(mode, b0), moves)
    ensures var j := Moved(Start(mode, b0), moves); LiveIds(j.log) == j.s.uploaded && Records(j.log) == j.s.sent
  {
    RunIsOk(mode, b0, moves);
    hide Start, AreMoves, Moved, SessionsOk, K.Inv, K.Clusters, K.AllClusters;
  }

  /**
   Each wire carries the puts that went to it, in order, and holds nothing, one header, or one header and clusters
   that begin with its fragment, whoever put them.
   */
  lemma EachWireCarriesItsOwn(mode: Mode, b0: B.Buf, moves: seq<Move>, w: nat)
    requires NewManager(b0) && AreMoves(Start(mode, b0), moves) && w < |Moved(Start(mode, b0), moves).c.wires|
    ensures var j := Moved(Start(mode, b0), moves);
            K.WireOk(j.c.wires[w]) && K.Clusters(j.c.wires[w].stream) == CarriedOn(j.log, w)
  {
    RunIsOk(mode, b0, moves);
    hide Start, AreMoves, Moved, SessionsOk, K.Clusters, K.AllClusters, K.WireOk;
  }

  /** Two fragments put live on one connection are from one MKV session. */
  lemma OneLiveSessionPerWire(mode: Mode, b0: B.Buf, moves: seq<Move>, i: nat, k: nat)
    requires NewManager(b0) && AreMoves(Start(mode, b0), moves)
    requires var log := Moved(Start(mode, b0), moves).log;
             i < k < |log| && log[i].Live? && log[k].Live? && log[i].wire == log[k].wire
    ensures var log := Moved(Start(mode, b0), moves).log; log[i].item.session == log[k].item.session
  {
    RunIsOk(mode, b0, moves);
    hide Start, AreMoves, Moved, LogOk;
  }

  /** In the order of the puts, no connection is gone back to, and live fragments are in capture order. */
  lemma PutsGoForward(mode: Mode, b0: B.Buf, moves: seq<Move>, i: nat, k: nat)
    requires NewManager(b0) && AreMoves(Start(mode, b0), moves) && i < k < |Moved(Start(mode, b0), moves).log|
    ensures var log := Moved(Start(mode, b0), moves).log;
            && log[i].wire <= log[k].wire
            && (log[i].Live? && log[k].Live? ==> log[i].item.id < log[k].item.id)
  {
    RunIsOk(mode, b0, moves);
    hide Start, AreMoves, Moved, LogOk;
  }

  // ---- every interleaving has a network ----

  function Quiet(healthy: bool): K.SendEnv { K.SendEnv([], _ => 0, healthy, false, false) }

  /** One put that is accepted, over a new connection, and one that is refused: either can happen in any state. */
  lemma EitherAnswer(c: K.Conn, f: RecordLog.Fragment)
    requires K.Inv(c)
    ensures K.SenderOk(c)
    ensures K.Put(c, f, K.PutEnv(Quiet(false), [true], Quiet(true))).1
    ensures !K.Put(c, f, K.PutEnv(Quiet(false), [], Quiet(true))).1
  {
  }

  lemma NetworkCanAnswer(s: State, c: K.Conn, step: Step)
    requires K.Inv(c) && Can(s, step)
    ensures K.SenderOk(c) && exists a :: Answers(s, c, step, a)
  {
    if step == Work(ResetResolves) {
      assert Answers(s, c, step, ToReset([]));
    } else if MayBeSilent(s, step) {
      assert Answers(s, c, step, Silent);
    } else {
      EitherAnswer(c, PutOf(s, step).value);
      hide K.Put, Found;
      assert Answers(s, c, step, ToPut(K.PutEnv(Quiet(false), if IsAccepted(step) then [true] else [], Quiet(true))));
    }
  }

  function Steps(moves: seq<Move>): seq<Step> { seq(|moves|, i requires 0 <= i < |moves| => moves[i].step) }

  /** The connection restricts nothing: every run of the machine alone is one with some network. */
  lemma {:induction false} EveryRunHasANetwork(j: Joint, steps: seq<Step>) returns (moves: seq<Move>)
    requires LogOk(j) && IsRun(j.s, steps)
    ensures Steps(moves) == steps && AreMoves(j, moves) && Moved(j, moves).s == After(j.s, steps)
    decreases |steps|
  {
    hide LogOk, Can, Do, Answers, K.Inv;
    if steps == [] {
      moves := [];
    } else {
      InvOf(j);
      NetworkCanAnswer(j.s, j.c, steps[0]);
      var a :| Answers(j.s, j.c, steps[0], a);
      var m := Move(steps[0], a);
      MoveLog(j, m);
      var rest := EveryRunHasANetwork(DoMove(j, m), steps[1..]);
      moves := [m] + rest;
      assert moves[1..] == rest && moves[0] == m;
      assert Steps(moves) == [steps[0]] + Steps(rest);
    }
  }

  lemma InvOf(j: Joint)
    requires LogOk(j)
    ensures K.Inv(j.c)
  {
  }

  /** And the other way round: with the network left out, a run of both is a run of the machine. */
  lemma {:induction false} MovesAreSteps(j: Joint, moves: seq<Move>)
    requires AreMoves(j, moves)
    ensures IsRun(j.s, Steps(moves)) && After(j.s, Steps(moves)) == Moved(j, moves).s
    decreases |moves|
  {
    hide Can, Do, Answers;
    if moves == [] {
    } else {
      assert Steps(moves)[1..] == Steps(moves[1..]) && Steps(moves)[0] == moves[0].step;
      MovesAreSteps(DoMove(j, moves[0]), moves[1..]);
    }
  }

  // ---- from the streaming thread to the wires ----

  lemma {:induction false} LiveOf(log: seq<Entry>, id: nat) returns (e: Entry)
    requires id in LiveIds(log)
    ensures e in log && e.Live? && e.item.id == id
  {
    var front, last := log[..|log| - 1], log[|log| - 1];
    if id in LiveIds(front) {
      e := LiveOf(front, id);
    } else {
      e := last;
    }
  }

  lemma {:induction false} CarriedIsThere(log: seq<Entry>, e: Entry)
    requires e in log
    ensures Carried(e) in AllCarried(log)
  {
    var front, last := log[..|log| - 1], log[|log| - 1];
    if e == last {
    } else {
      CarriedIsThere(front, e);
    }
  }

  lemma {:induction false} RecordIsThere(log: seq<Entry>, x: RecordLog.Fragment)
    requires x in Records(log)
    ensures x in AllCarried(log)
  {
    var front, last := log[..|log| - 1], log[|log| - 1];
    if x in Records(front) {
      RecordIsThere(front, x);
    } else {
      assert Carried(last) == x;
    }
  }

  /** An id counted as accepted live is that of a fragment on the wires. */
  lemma UploadedIsOnTheWires(j: Joint, item: Item)
    requires LogOk(j) && SessionsOk(j) && Ordered(j.s) && item in j.s.handled && item.id in j.s.uploaded
    ensures item.fragment in K.AllClusters(j.c.wires)
  {
    var e := LiveOf(j.log, item.id);
    CarriedIsThere(j.log, e);
    OneItemPerId(j.s, item, e.item);
    hide K.AllClusters, Ordered;
  }

  lemma OneItemPerId(s: State, a: Item, b: Item)
    requires Ordered(s) && a in s.handled && b in s.handled && a.id == b.id
    ensures a == b
  {
    var i :| 0 <= i < |s.handled| && s.handled[i] == a;
    var k :| 0 <= k < |s.handled| && s.handled[k] == b;
    assert s.queued[i] == a && s.queued[k] == b;
    hide HasId;
  }

  /**
   End to end: after any interleaving and with any network, as long as new files get unused names, the cluster of
   every fragment the worker has handled is on a connection, live or as it was stored, or is in a file the manager
   will get to, or met a counted write error.
   */
  lemma HandledIsOnDiskOrOnTheWires(mode: Mode, o: C.Origin, moves: seq<Move>, i: nat)
    requires FileNames.Sorted(o.names) && AreMoves(Start(mode, C.StartOf(o)), moves)
    requires IsRun(Initial(mode, C.StartOf(o)), Steps(moves)) && FreshRun(Initial(mode, C.StartOf(o)), Steps(moves))
    requires i < |Moved(Start(mode, C.StartOf(o)), moves).s.handled|
    ensures var j := Moved(Start(mode, C.StartOf(o)), moves);
            var item := j.s.handled[i];
            var x := RecordLog.Stored(item.fragment);
            || item.fragment in K.AllClusters(j.c.wires)
            || x in K.AllClusters(j.c.wires)
            || (exists n | n in j.s.buf.disk :: L.InSight(j.s.buf, n) && x in L.Held(j.s.buf, n))
            || item.id in j.s.pushErrors
  {
    var j0 := Start(mode, C.StartOf(o));
    StartIsNewManager(o);
    StartIsOk(mode, C.StartOf(o));
    MovesKeep(mode, j0, moves);
    MovesAreSteps(j0, moves);
    var j := Moved(j0, moves);
    assert j0.s == Initial(mode, C.StartOf(o));
    FreshNamesLoseNothing(mode, o, Steps(moves), i);
    hide Initial, Start, AreMoves, IsRun, After, Moved, FreshRun, Ordered, Base, Sound, SessionsOk, K.AllClusters;
    var item := j.s.handled[i];
    if item.id in j.s.uploaded {
      UploadedIsOnTheWires(j, item);
    } else if RecordLog.Stored(item.fragment) in j.s.sent {
      RecordIsThere(j.log, RecordLog.Stored(item.fragment));
    }
  }
}
