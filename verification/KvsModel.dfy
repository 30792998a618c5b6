/**
 The persistent connection as a value: sending, reconnecting and resetting the session, with every
 network outcome given from outside. A wire is what one connection's channel was handed; once a
 channel is closed it stays closed.
 */
module KvsModel {
  import opened Wrappers
  import opened RecordLog
  import opened AckStatus

  datatype Msg = HeaderOf(fragment: Fragment) | ClusterOf(fragment: Fragment)

  datatype Wire = Wire(stream: seq<Msg>, closed: bool)

  datatype Conn = Conn(
    wires: seq<Wire>,             // every connection made, oldest first
    sender: Option<nat>,          // the one in use
    firstOfConnection: bool,
    nextNumber: nat,
    status: seq<Status>,
    // history
    numbers: seq<nat>)            // numbers given to successful sends of this session

  /** What the network does during one send. */
  datatype SendEnv = SendEnv(acks: seq<Acknowledgment>, age: nat -> nat, healthy: bool,
                             closesBeforeHeader: bool, closesBeforeCluster: bool)

  /** What it does during one put: the first try, the outcomes of the reconnection attempts, the second try. */
  datatype PutEnv = PutEnv(first: SendEnv, attempts: seq<bool>, second: SendEnv)

  /** A connection just established. */
  function Initialized(): Conn { Conn([Wire([], false)], Some(0), true, 1, [], []) }

  /** Hand one message to the channel in use; `closes` says whether it closed just before. */
  function Deliver(c: Conn, m: Msg, closes: bool): (Conn, bool)
    requires c.sender.Some? && c.sender.value < |c.wires|
  {
    var w := c.wires[c.sender.value];
    if w.closed || closes then (c.(wires := c.wires[c.sender.value := w.(closed := true)]), false)
    else (c.(wires := c.wires[c.sender.value := w.(stream := w.stream + [m])]), true)
  }

  predicate SenderOk(c: Conn) { c.sender.Some? ==> c.sender.value < |c.wires| }

  /** Acknowledgments are taken in only while there is a connection to receive them from. */
  function TakeAcks(c: Conn, env: SendEnv): Conn {
    if c.sender.None? then c else c.(status := Sweep(ApplyAll(c.status, env.acks), env.age))
  }

  /** `send_fragment`. */
  function Send(c: Conn, f: Fragment, env: SendEnv): (Conn, bool)
    requires SenderOk(c)
  {
    var c1 := TakeAcks(c, env);
    if !env.healthy then (c1, false)
    else
      var c2 := c1.(status := c1.status + [Sent(c1.nextNumber)]);
      if c2.sender.None? then (c2, false)
      else
        var (c3, headerOk) := if c2.firstOfConnection then Deliver(c2, HeaderOf(f), env.closesBeforeHeader)
          else (c2, true);
        if !headerOk then (c3, false)
        else
          var (c4, clusterOk) := Deliver(c3, ClusterOf(f), env.closesBeforeCluster);
          if !clusterOk then (c4, false)
          else (c4.(nextNumber := c4.nextNumber + 1, firstOfConnection := false,
              numbers := c4.numbers + [c4.nextNumber]), true)
  }

  /** `reconnect_once`: everything of the old connection is dropped first. */
  function ReconnectOnce(c: Conn, succeeds: bool): Conn {
    var dropped := c.(sender := None, status := [], firstOfConnection := true);
    if succeeds then dropped.(wires := c.wires + [Wire([], false)], sender := Some(|c.wires|)) else dropped
  }

  /** `reconnect_with_backoff`: attempts until one succeeds; after the listed ones a last one fails. */
  function Reconnect(c: Conn, attempts: seq<bool>): (Conn, bool)
    decreases |attempts|
  {
    if attempts == [] then (ReconnectOnce(c, false), false)
    else if attempts[0] then (ReconnectOnce(c, true), true)
    else Reconnect(ReconnectOnce(c, false), attempts[1..])
  }

  /** `put_fragment`: one reconnection and one retry after a failed send. */
  function Put(c: Conn, f: Fragment, env: PutEnv): (Conn, bool)
    requires SenderOk(c)
  {
    var (c1, sent) := Send(c, f, env.first);
    if sent then (c1, true)
    else
      var (c2, connected) := Reconnect(c1, env.attempts);
      if !connected then (c2, false)
      else if SenderOk(c2) then Send(c2, f, env.second)
      else (c2, false)
  }

  /** `reset_session_internal`. */
  function Reset(c: Conn, attempts: seq<bool>): (Conn, bool) {
    Reconnect(c.(nextNumber := 1, firstOfConnection := true, status := [], numbers := []), attempts)
  }

  // ---- what every wire looks like ----

  /** Nothing, one header, or one header followed by clusters, the first of them the header's own. */
  predicate WireOk(w: Wire) {
    w.stream == [] ||
    (&& w.stream[0].HeaderOf?
     && (forall i | 1 <= i < |w.stream| :: w.stream[i].ClusterOf?)
     && (|w.stream| > 1 ==> w.stream[1].fragment == w.stream[0].fragment))
  }

  function Clusters(stream: seq<Msg>): seq<Fragment> {
    if stream == [] then []
    else Clusters(stream[..|stream| - 1])
         + if stream[|stream| - 1].ClusterOf? then [stream[|stream| - 1].fragment] else []
  }

  /** The clusters on all connections, in the order the connections were made. */
  function AllClusters(wires: seq<Wire>): seq<Fragment> {
    if wires == [] then [] else AllClusters(wires[..|wires| - 1]) + Clusters(wires[|wires| - 1].stream)
  }

  /** The connection in use is the last one, and the header flag says whether it has one yet. */
  predicate Inv(c: Conn) {
    && (forall i | 0 <= i < |c.wires| :: WireOk(c.wires[i]))
    && (match c.sender
        case None => c.firstOfConnection
        case Some(s) =>
          && s + 1 == |c.wires|
          && (if c.firstOfConnection
              then c.wires[s].stream == [] || (|c.wires[s].stream| == 1 && c.wires[s].closed)
              else |c.wires[s].stream| >= 2))
    && c.nextNumber >= 1 && |c.numbers| == c.nextNumber - 1
    && (forall i | 0 <= i < |c.numbers| :: c.numbers[i] == i + 1)
  }

  /** Between failed attempts the flag and the closed channel may be all that is known of the old wire. */
  predicate WiresOk(c: Conn) {
    forall i | 0 <= i < |c.wires| :: WireOk(c.wires[i])
  }

  lemma ClustersSnoc(stream: seq<Msg>, m: Msg)
    ensures Clusters(stream + [m]) == Clusters(stream) + if m.ClusterOf? then [m.fragment] else []
  {
    assert (stream + [m])[..|stream|] == stream;
  }

  lemma AllClustersLast(wires: seq<Wire>, w: Wire)
    requires wires != []
    ensures AllClusters(wires[|wires| - 1 := w]) == AllClusters(wires[..|wires| - 1]) + Clusters(w.stream)
  {
    var changed := wires[|wires| - 1 := w];
    assert changed[..|changed| - 1] == wires[..|wires| - 1];
  }

  lemma AllClustersSnoc(wires: seq<Wire>, w: Wire)
    ensures AllClusters(wires + [w]) == AllClusters(wires) + Clusters(w.stream)
  {
    assert (wires + [w])[..|wires|] == wires;
  }

  /** Only the last wire changes when something is delivered to it. */
  lemma DeliverClusters(c: Conn, m: Msg, closes: bool)
    requires c.sender.Some? && c.sender.value + 1 == |c.wires|
    ensures var (c', ok) := Deliver(c, m, closes);
            AllClusters(c'.wires) == AllClusters(c.wires) + if ok && m.ClusterOf? then [m.fragment] else []
  {
    var s := c.sender.value;
    var w := c.wires[s];
    var (c', ok) := Deliver(c, m, closes);
    AllClustersLast(c.wires, c'.wires[s]);
    assert AllClusters(c.wires) == AllClusters(c.wires[..s]) + Clusters(w.stream);
    if ok {
      ClustersSnoc(w.stream, m);
    }
    hide AllClusters, Clusters;
  }

  /** After a failed send the connection is in no state to send on, until it is replaced. */
  predicate AfterFailure(c: Conn) {
    WiresOk(c) && SenderOk(c) && c.nextNumber >= 1 && |c.numbers| == c.nextNumber - 1
    && (forall i | 0 <= i < |c.numbers| :: c.numbers[i] == i + 1)
  }

  /** The header step of a send. */
  function SendHeader(c: Conn, f: Fragment, env: SendEnv): (Conn, bool)
    requires c.sender.Some? && SenderOk(c)
  {
    if c.firstOfConnection then Deliver(c, HeaderOf(f), env.closesBeforeHeader) else (c, true)
  }

  /** A header if due, then the cluster: what a send does to the connections. */
  function Transmit(c: Conn, f: Fragment, env: SendEnv): (Conn, bool)
    requires c.sender.Some? && SenderOk(c)
  {
    var (c3, headerOk) := SendHeader(c, f, env);
    if !headerOk then (c3, false) else Deliver(c3, ClusterOf(f), env.closesBeforeCluster)
  }

  lemma TransmitClusters(c: Conn, f: Fragment, env: SendEnv)
    requires c.sender.Some? && c.sender.value + 1 == |c.wires|
    ensures var (c', ok) := Transmit(c, f, env);
            AllClusters(c'.wires) == AllClusters(c.wires) + (if ok then [f] else [])
  {
    hide AllClusters, Clusters;
    var (c3, headerOk) := SendHeader(c, f, env);
    if c.firstOfConnection {
      DeliverClusters(c, HeaderOf(f), env.closesBeforeHeader);
    }
    if headerOk {
      DeliverClusters(c3, ClusterOf(f), env.closesBeforeCluster);
    }
  }

  /** The wire in use afterwards: still well formed, with two messages at least if the cluster got through. */
  lemma TransmitWire(c: Conn, f: Fragment, env: SendEnv)
    requires Inv(c) && c.sender.Some?
    ensures var (c', ok) := Transmit(c, f, env);
            && SameOlder(c, c') && WireOk(c'.wires[c.sender.value])
            && c'.firstOfConnection == c.firstOfConnection
            && var w := c'.wires[c.sender.value];
            && (ok || !c.firstOfConnection ==> |w.stream| >= 2)
            && (!ok && c.firstOfConnection ==> w.stream == [] || (|w.stream| == 1 && w.closed))
  {
    var w := c.wires[c.sender.value];
    assert WireOk(w);
    var (c3, headerOk) := SendHeader(c, f, env);
    assert headerOk && c.firstOfConnection ==> c3.wires[c.sender.value].stream == [HeaderOf(f)];
  }

  lemma TransmitKeeps(c: Conn, f: Fragment, env: SendEnv)
    requires Inv(c) && c.sender.Some?
    ensures var (c', ok) := Transmit(c, f, env);
            && AllClusters(c'.wires) == AllClusters(c.wires) + (if ok then [f] else [])
            && Inv(if ok then c'.(nextNumber := c'.nextNumber + 1, firstOfConnection := false,
                                  numbers := c'.numbers + [c'.nextNumber]) else c')
            && SameOlder(c, c')
  {
    hide AllClusters, Clusters, WireOk, Transmit;
    TransmitClusters(c, f, env);
    TransmitWire(c, f, env);
  }

  /** The connection in use stays in use and the older ones stay as they were. */
  predicate SameOlder(c: Conn, c': Conn) {
    && |c'.wires| == |c.wires| && c'.sender == c.sender
    && c'.nextNumber == c.nextNumber && c'.numbers == c.numbers
    && (forall i | 0 <= i < |c.wires| - 1 :: c'.wires[i] == c.wires[i])
  }

  /** One send: either the cluster, after a header if one was due, is on the last wire, or no cluster was added. */
  lemma SendKeeps(c: Conn, f: Fragment, env: SendEnv)
    requires Inv(c)
    ensures SenderOk(c)
    ensures var (c', ok) := Send(c, f, env);
            && Inv(c') && |c'.wires| == |c.wires| && c'.sender == c.sender
            && (forall i | 0 <= i < |c.wires| - 1 :: c'.wires[i] == c.wires[i])
            && AllClusters(c'.wires) == AllClusters(c.wires) + (if ok then [f] else [])
            && c'.numbers == c.numbers + (if ok then [c.nextNumber] else [])
  {
    hide WireOk, AllClusters, Sweep, ApplyAll;
    var c1 := TakeAcks(c, env);
    var c2 := c1.(status := c1.status + [Sent(c1.nextNumber)]);
    assert Inv(c2);
    if env.healthy && c.sender.Some? {
      TransmitKeeps(c2, f, env);
      hide Inv, Deliver;
      assert Send(c, f, env).0.wires == Transmit(c2, f, env).0.wires;
    }
  }

  /** Reconnecting adds at most one connection, an empty one, and never touches an old one. */
  lemma {:induction false} ReconnectKeeps(c: Conn, attempts: seq<bool>)
    requires AfterFailure(c)
    ensures var (c', ok) := Reconnect(c, attempts);
            && Inv(c') && (ok <==> c'.sender.Some?)
            && c.wires <= c'.wires && |c'.wires| == |c.wires| + (if ok then 1 else 0)
            && (ok ==> c'.wires[|c.wires|] == Wire([], false))
            && AllClusters(c'.wires) == AllClusters(c.wires)
            && c'.numbers == c.numbers && c'.nextNumber == c.nextNumber
    decreases |attempts|
  {
    if attempts == [] || attempts[0] {
      AllClustersSnoc(c.wires, Wire([], false));
    } else {
      ReconnectKeeps(ReconnectOnce(c, false), attempts[1..]);
    }
  }

  lemma InvAllowsReconnect(c: Conn)
    requires Inv(c)
    ensures AfterFailure(c) && c.nextNumber == |c.numbers| + 1
  {
  }

  /**
   One put under any network behaviour. Accepted: its cluster was added to the one connection in use,
   once, with the next number of the session. Refused: no connection holds it.
   */
  lemma PutKeeps(c: Conn, f: Fragment, env: PutEnv)
    requires Inv(c)
    ensures SenderOk(c)
    ensures var (c', ok) := Put(c, f, env);
            && Inv(c') && |c.wires| <= |c'.wires| <= |c.wires| + 1
            && AllClusters(c'.wires) == AllClusters(c.wires) + (if ok then [f] else [])
            && c'.numbers == c.numbers + (if ok then [c.nextNumber] else [])
            && (forall i | 0 <= i < |c.wires| - 1 :: c'.wires[i] == c.wires[i])
  {
    hide Inv, Send, AllClusters, Reconnect, AfterFailure;
    SendKeeps(c, f, env.first);
    var (c1, sent) := Send(c, f, env.first);
    if !sent {
      InvAllowsReconnect(c1);
      InvAllowsReconnect(c);
      assert c1.numbers == c.numbers;
      ReconnectKeeps(c1, env.attempts);
      var (c2, connected) := Reconnect(c1, env.attempts);
      if connected {
        SendKeeps(c2, f, env.second);
      }
    }
  }

  lemma ResetKeeps(c: Conn, attempts: seq<bool>)
    requires Inv(c)
    ensures var (c', ok) := Reset(c, attempts);
            && Inv(c') && AllClusters(c'.wires) == AllClusters(c.wires) && c.wires <= c'.wires
            && c'.numbers == [] && c'.nextNumber == 1
  {
    ReconnectKeeps(c.(nextNumber := 1, firstOfConnection := true, status := [], numbers := []), attempts);
  }

  // ---- when a call succeeds ----

  /** What a send needs, of the connection and of the network. */
  predicate GetsThrough(c: Conn, env: SendEnv) {
    && env.healthy
    && c.sender.Some? && c.sender.value < |c.wires| && !c.wires[c.sender.value].closed
    && (c.firstOfConnection ==> !env.closesBeforeHeader) && !env.closesBeforeCluster
  }

  lemma SendIff(c: Conn, f: Fragment, env: SendEnv)
    requires SenderOk(c)
    ensures Send(c, f, env).1 <==> GetsThrough(c, env)
  {
    hide Sweep, ApplyAll;
  }

  /** A send on a healthy connection is tracked, unacknowledged and under the next number, also when it fails. */
  lemma SendTracks(c: Conn, f: Fragment, env: SendEnv)
    requires SenderOk(c) && env.healthy
    ensures var (c', ok) := Send(c, f, env);
            c'.status == (if c.sender.Some? then Sweep(ApplyAll(c.status, env.acks), env.age) else c.status)
                         + [Status(c.nextNumber, false, false, false, false)]
  {
    hide Sweep, ApplyAll;
  }

  /** Reconnecting succeeds if and only if some attempt does, and then on a new open connection with nothing tracked. */
  lemma {:induction false} ReconnectIff(c: Conn, attempts: seq<bool>)
    ensures var (c', ok) := Reconnect(c, attempts);
            && (ok <==> exists i | 0 <= i < |attempts| :: attempts[i])
            && c'.sender == (if ok then Some(|c.wires|) else None)
            && c'.wires == c.wires + (if ok then [Wire([], false)] else [])
            && c'.firstOfConnection && c'.status == [] && c'.nextNumber == c.nextNumber && c'.numbers == c.numbers
    decreases |attempts|
  {
    if attempts == [] || attempts[0] {
    } else {
      var rest := attempts[1..];
      ReconnectIff(ReconnectOnce(c, false), rest);
      if i :| 0 <= i < |attempts| && attempts[i] { assert rest[i - 1]; }
      if i :| 0 <= i < |rest| && rest[i] { assert attempts[i + 1]; }
    }
  }

  /**
   A put is accepted if and only if its first send gets through, or some attempt to reconnect succeeds and the
   second send, on the new connection, meets no obstacle.
   */
  lemma PutIff(c: Conn, f: Fragment, env: PutEnv)
    requires SenderOk(c)
    ensures Put(c, f, env).1 <==>
            || GetsThrough(c, env.first)
            || (&& (exists i | 0 <= i < |env.attempts| :: env.attempts[i])
                && env.second.healthy && !env.second.closesBeforeHeader && !env.second.closesBeforeCluster)
  {
    hide Send, Reconnect;
    SendIff(c, f, env.first);
    var c1 := Send(c, f, env.first).0;
    ReconnectIff(c1, env.attempts);
    var (c2, connected) := Reconnect(c1, env.attempts);
    if connected { SendIff(c2, f, env.second); }
  }

  /** A reset starts over, and gets a new connection if and only if some attempt succeeds. */
  lemma ResetIff(c: Conn, attempts: seq<bool>)
    ensures var (c', ok) := Reset(c, attempts);
            && (ok <==> exists i | 0 <= i < |attempts| :: attempts[i])
            && c'.sender == (if ok then Some(|c.wires|) else None)
            && c'.wires == c.wires + (if ok then [Wire([], false)] else [])
            && c'.nextNumber == 1 && c'.status == [] && c'.firstOfConnection
  {
    ReconnectIff(c.(nextNumber := 1, firstOfConnection := true, status := [], numbers := []), attempts);
  }

  // ---- runs ----

  datatype Op = DoPut(fragment: Fragment, env: PutEnv) | DoReset(attempts: seq<bool>)

  function Do(c: Conn, op: Op): (Conn, bool)
    requires SenderOk(c)
  {
    match op
    case DoPut(f, env) => Put(c, f, env)
    case DoReset(attempts) => Reset(c, attempts)
  }

  /** The state after a run; an index out of range, which never occurs, would end it. */
  function Run(c: Conn, ops: seq<Op>): Conn
    decreases |ops|
  {
    if ops == [] || !SenderOk(c) then c else Run(Do(c, ops[0]).0, ops[1..])
  }

  /** The fragments whose put returned Ok, in order. */
  function PutOk(c: Conn, ops: seq<Op>): seq<Fragment>
    decreases |ops|
  {
    if ops == [] || !SenderOk(c) then []
    else
      var (c', ok) := Do(c, ops[0]);
      (if ops[0].DoPut? && ok then [ops[0].fragment] else []) + PutOk(c', ops[1..])
  }

  /** The numbers given out since the last reset of a run that starts with `given`. */
  function SessionNumbers(c: Conn, ops: seq<Op>, given: nat): nat
    decreases |ops|
  {
    if ops == [] || !SenderOk(c) then given
    else
      var (c', ok) := Do(c, ops[0]);
      SessionNumbers(c', ops[1..], if ops[0].DoReset? then 0 else if ok then given + 1 else given)
  }

  lemma {:induction false} RunKeeps(c: Conn, ops: seq<Op>)
    requires Inv(c)
    ensures Inv(Run(c, ops))
    ensures AllClusters(Run(c, ops).wires) == AllClusters(c.wires) + PutOk(c, ops)
    decreases |ops|
  {
    hide Inv, AllClusters, Do;
    if ops == [] {
      assert AllClusters(c.wires) + [] == AllClusters(c.wires);
    } else {
      DoKeeps(c, ops[0]);
      var (c', ok) := Do(c, ops[0]);
      RunKeeps(c', ops[1..]);
      var head := if ops[0].DoPut? && ok then [ops[0].fragment] else [];
      assert Run(c, ops) == Run(c', ops[1..]) && PutOk(c, ops) == head + PutOk(c', ops[1..]);
      hide Run, PutOk;
      assert AllClusters(c.wires) + head + PutOk(c', ops[1..]) == AllClusters(c.wires) + (head + PutOk(c', ops[1..]));
    }
  }

  lemma {:induction false} RunNumbers(c: Conn, ops: seq<Op>)
    requires Inv(c)
    ensures |Run(c, ops).numbers| == SessionNumbers(c, ops, |c.numbers|)
    decreases |ops|
  {
    hide Inv, AllClusters, Do;
    if ops == [] {
    } else {
      DoKeeps(c, ops[0]);
      RunNumbers(Do(c, ops[0]).0, ops[1..]);
    }
  }

  lemma DoKeeps(c: Conn, op: Op)
    requires Inv(c)
    ensures SenderOk(c) && Inv(Do(c, op).0)
    ensures AllClusters(Do(c, op).0.wires)
            == AllClusters(c.wires) + if op.DoPut? && Do(c, op).1 then [op.fragment] else []
    ensures |Do(c, op).0.numbers| == if op.DoReset? then 0 else if Do(c, op).1 then |c.numbers| + 1 else |c.numbers|
  {
    hide AllClusters, Put, Reset;
    match op {
      case DoPut(f, env) => PutKeeps(c, f, env);
      case DoReset(attempts) => ResetKeeps(c, attempts);
    }
  }

  /**
   One wire format per connection, and conservation: after any run each connection holds nothing, one
   header, or one header followed by clusters beginning with the header's fragment; and the clusters on
   all connections together are exactly the fragments whose put was accepted, in order, each once.
   */
  lemma EveryRun(ops: seq<Op>)
    ensures forall i | 0 <= i < |Run(Initialized(), ops).wires| :: WireOk(Run(Initialized(), ops).wires[i])
    ensures AllClusters(Run(Initialized(), ops).wires) == PutOk(Initialized(), ops)
  {
    RunKeeps(Initialized(), ops);
    assert AllClusters(Initialized().wires) == [] + [];
  }

  /** Numbers of successful sends within a session are 1, 2, 3, ... however often it reconnected. */
  lemma NumbersAreConsecutive(ops: seq<Op>)
    ensures var c := Run(Initialized(), ops);
            && |c.numbers| == SessionNumbers(Initialized(), ops, 0)
            && (forall i | 0 <= i < |c.numbers| :: c.numbers[i] == i + 1)
            && c.nextNumber == |c.numbers| + 1
  {
    RunKeeps(Initialized(), ops);
    RunNumbers(Initialized(), ops);
  }

  // ---- the acknowledgment list of a connection in use ----

  /** The list is four counters in disguise. */
  ghost predicate Counted(ss: seq<Status>) {
    exists c :: Represents(ss, c)
  }

  lemma {:induction false} ApplyAllCounted(ss: seq<Status>, acks: seq<Acknowledgment>)
    requires Counted(ss)
    ensures Counted(ApplyAll(ss, acks))
    decreases |acks|
  {
    if acks == [] {
    } else {
      var c :| Represents(ss, c);
      ApplyCounts(ss, c, acks[0]);
      ApplyAllCounted(Apply(ss, acks[0]), acks[1..]);
    }
  }

  lemma PushCounted(ss: seq<Status>, number: nat)
    requires Counted(ss)
    ensures Counted(ss + [Sent(number)])
  {
    var k :| Represents(ss, k);
    assert Represents(ss + [Sent(number)], k.(n := k.n + 1));
  }

  lemma SweepCounted(ss: seq<Status>, age: nat -> nat)
    requires Counted(ss)
    ensures Counted(Sweep(ss, age))
  {
    var k :| Represents(ss, k);
    SweepCounts(ss, k, age);
  }

  lemma SendCounted(c: Conn, f: Fragment, env: SendEnv)
    requires SenderOk(c) && Counted(c.status)
    ensures Counted(Send(c, f, env).0.status)
  {
    hide Counted, Sweep;
    ApplyAllCounted(c.status, env.acks);
    SweepCounted(ApplyAll(c.status, env.acks), env.age);
    var c1 := TakeAcks(c, env);
    PushCounted(c1.status, c1.nextNumber);
  }

  lemma {:induction false} ReconnectCounted(c: Conn, attempts: seq<bool>)
    ensures Counted(Reconnect(c, attempts).0.status)
    decreases |attempts|
  {
    if attempts == [] || attempts[0] {
      assert Represents([], Counters(0, 0, 0, 0, 0));
    } else {
      ReconnectCounted(ReconnectOnce(c, false), attempts[1..]);
    }
  }

  /** Whatever is sent, acknowledged, swept, reconnected or reset, first-match scanning stays counting. */
  lemma {:induction false} RunCounted(c: Conn, ops: seq<Op>)
    requires Counted(c.status)
    ensures Counted(Run(c, ops).status)
    decreases |ops|
  {
    if ops == [] || !SenderOk(c) {
    } else {
      OpCounted(c, ops[0]);
      hide Counted, Do;
      RunCounted(Do(c, ops[0]).0, ops[1..]);
    }
  }

  lemma OpCounted(c: Conn, op: Op)
    requires SenderOk(c) && Counted(c.status)
    ensures Counted(Do(c, op).0.status)
  {
    hide Counted, Send, Reconnect;
    match op
    case DoPut(f, env) =>
      SendCounted(c, f, env.first);
      var c1 := Send(c, f, env.first).0;
      ReconnectCounted(c1, env.attempts);
      var c2 := Reconnect(c1, env.attempts).0;
      if SenderOk(c2) { SendCounted(c2, f, env.second); }
    case DoReset(attempts) =>
      ReconnectCounted(c.(nextNumber := 1, firstOfConnection := true, status := [], numbers := []), attempts);
  }
}
