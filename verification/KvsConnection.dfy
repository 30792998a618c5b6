/**
 The persistent connection as it runs: fields updated in place and loops over acknowledgments and
 reconnection attempts, each method proved to change the state as its function in `KvsModel` does.
 The wires are the network's side of the channels; the environment arguments are its behaviour.
 */
module KvsConnections {
  import opened Wrappers
  import opened RecordLog
  import opened AckStatus
  import opened KvsModel

  const MAX_UNACKED_FRAGMENTS_WARNING: nat := 50

  class KvsConnection {
    var nextFragmentNum: nat
    var firstFragmentOfConnection: bool
    var fragmentSender: Option<nat>
    var fragmentStatus: seq<Status>
    var wires: seq<Wire>
    ghost var numbers: seq<nat>

    ghost function View(): Conn
      reads this
    {
      Conn(wires, fragmentSender, firstFragmentOfConnection, nextFragmentNum, fragmentStatus, numbers)
    }

    /** `initialize`, once the connection is up. */
    constructor ()
      ensures View() == Initialized()
    {
      nextFragmentNum, firstFragmentOfConnection := 1, true;
      fragmentSender, fragmentStatus := Some(0), [];
      wires, numbers := [Wire([], false)], [];
    }

    /** Give each acknowledgment to the first fragment it fits, then drop old entries of a long list. */
    method ProcessAcknowledgments(acks: seq<Acknowledgment>, age: nat -> nat)
      modifies this`fragmentStatus
      ensures fragmentStatus == if fragmentSender.None? then old(fragmentStatus)
                                else Sweep(ApplyAll(old(fragmentStatus), acks), age)
    {
      if fragmentSender.None? {
        return;
      }
      var i := 0;
      while i < |acks|
        invariant 0 <= i <= |acks|
        invariant ApplyAll(old(fragmentStatus), acks) == ApplyAll(fragmentStatus, acks[i..])
      {
        var ack := acks[i];
        if !ack.eventType.Idle? && ack.fragmentNumber.Some? {
          var k := FindOldestPending(ack.eventType);
          if k < |fragmentStatus| {
            fragmentStatus := fragmentStatus[k := Mark(fragmentStatus[k], ack)];
          }
        }
        assert acks[i..][1..] == acks[i + 1..];
        i := i + 1;
      }
      if |fragmentStatus| > FRAGMENT_STATUS_RETENTION {
        RetainYoung(age);
      }
    }

    method FindOldestPending(e: AckEventType) returns (k: nat)
      ensures k == OldestPending(fragmentStatus, e)
    {
      k := 0;
      while k < |fragmentStatus| && !Fits(fragmentStatus[k], e)
        invariant 0 <= k <= |fragmentStatus|
        invariant OldestPending(fragmentStatus, e) == k + OldestPending(fragmentStatus[k..], e)
      {
        k := k + 1;
      }
    }

    method RetainYoung(age: nat -> nat)
      modifies this`fragmentStatus
      ensures fragmentStatus == Retain(old(fragmentStatus), age, 0)
    {
      var kept, i := [], 0;
      while i < |fragmentStatus|
        invariant 0 <= i <= |fragmentStatus|
        invariant fragmentStatus == old(fragmentStatus)
        invariant Retain(fragmentStatus, age, 0) == kept + Retain(fragmentStatus[i..], age, i)
      {
        var s := fragmentStatus[i];
        ghost var rest := Retain(fragmentStatus[i + 1..], age, i + 1);
        assert fragmentStatus[i..][1..] == fragmentStatus[i + 1..];
        assert kept + ([s] + rest) == kept + [s] + rest && kept + ([] + rest) == kept + rest;
        if !s.persistedAck && age(i) <= FRAGMENT_STATUS_TIMEOUT_SECS {
          kept := kept + [s];
        }
        i := i + 1;
      }
      fragmentStatus := kept;
    }

    /** The unacknowledged fragments a health check warns about. */
    method PendingCount() returns (pending: nat, warn: bool)
      ensures pending == Pending(fragmentStatus)
      ensures warn <==> pending > 50
    {
      pending := 0;
      var i := 0;
      while i < |fragmentStatus|
        invariant 0 <= i <= |fragmentStatus|
        invariant pending == Pending(fragmentStatus[..i])
      {
        assert fragmentStatus[..i + 1][..i] == fragmentStatus[..i];
        if !fragmentStatus[i].persistedAck && !fragmentStatus[i].failed {
          pending := pending + 1;
        }
        i := i + 1;
      }
      assert fragmentStatus[..i] == fragmentStatus;
      warn := pending > MAX_UNACKED_FRAGMENTS_WARNING;
    }

    /** Hand one message to the channel in use. */
    method SendMessage(m: Msg, closes: bool) returns (ok: bool)
      requires fragmentSender.Some? && SenderOk(View())
      modifies this`wires
      ensures (View(), ok) == Deliver(old(View()), m, closes)
    {
      var i := fragmentSender.value;
      var w := wires[i];
      ok := !w.closed && !closes;
      wires := wires[i := if ok then w.(stream := w.stream + [m]) else w.(closed := true)];
    }

    /** Send a fragment, with its headers when it is the first of the connection, and count it. */
    method SendFragment(f: Fragment, env: SendEnv) returns (ok: bool)
      requires SenderOk(View())
      modifies this
      ensures (View(), ok) == Send(old(View()), f, env)
      ensures ok <==> GetsThrough(old(View()), env)
    {
      SendIff(View(), f, env);
      ProcessAcknowledgments(env.acks, env.age);
      if !env.healthy {
        return false;
      }
      fragmentStatus := fragmentStatus + [Sent(nextFragmentNum)];
      if fragmentSender.None? {
        return false;
      }
      if firstFragmentOfConnection {
        ok := SendMessage(HeaderOf(f), env.closesBeforeHeader);
        if !ok {
          return false;
        }
      }
      ok := SendMessage(ClusterOf(f), env.closesBeforeCluster);
      if ok {
        numbers := numbers + [nextFragmentNum];
        nextFragmentNum := nextFragmentNum + 1;
        firstFragmentOfConnection := false;
      }
    }

    /** Drop everything of the old connection, then try to set up a new one. */
    method TryReconnect(succeeds: bool)
      modifies this
      ensures View() == ReconnectOnce(old(View()), succeeds)
    {
      fragmentSender := None;
      fragmentStatus := [];
      firstFragmentOfConnection := true;
      if succeeds {
        fragmentSender := Some(|wires|);
        wires := wires + [Wire([], false)];
      }
    }

    /** Retry until an attempt succeeds or the backoff gives up. */
    method ReconnectWithBackoff(attempts: seq<bool>) returns (ok: bool)
      modifies this
      ensures (View(), ok) == Reconnect(old(View()), attempts)
      ensures ok <==> exists i | 0 <= i < |attempts| :: attempts[i]
    {
      ReconnectIff(View(), attempts);
      var i := 0;
      assert attempts[0..] == attempts;
      while true
        invariant 0 <= i <= |attempts|
        invariant Reconnect(old(View()), attempts) == Reconnect(View(), attempts[i..])
        decreases |attempts| - i
      {
        var succeeds := i < |attempts| && attempts[i];
        TryReconnect(succeeds);
        if succeeds {
          return true;
        }
        if i == |attempts| {
          return false;
        }
        assert attempts[i..][1..] == attempts[i + 1..];
        i := i + 1;
      }
    }

    /**
     `put_fragment`: accepted means that the cluster is on the one connection in use, exactly once, and
     counted; refused means that it is on none.
     */
    method PutFragment(f: Fragment, env: PutEnv) returns (ok: bool)
      requires Inv(View())
      modifies this
      ensures old(SenderOk(View())) && (View(), ok) == Put(old(View()), f, env)
      ensures Inv(View())
      ensures ok <==> || old(GetsThrough(View(), env.first))
                      || (&& (exists i | 0 <= i < |env.attempts| :: env.attempts[i])
                          && env.second.healthy && !env.second.closesBeforeHeader && !env.second.closesBeforeCluster)
      ensures AllClusters(wires) == old(AllClusters(wires)) + if ok then [f] else []
      ensures numbers == old(numbers) + if ok then [old(nextFragmentNum)] else []
    {
      PutKeeps(View(), f, env);
      PutIff(View(), f, env);
      hide Inv, Send, Reconnect, AllClusters;
      ok := SendFragment(f, env.first);
      if !ok {
        ok := ReconnectWithBackoff(env.attempts);
        if ok {
          PutReconnected(old(View()), f, env);
          ok := SendFragment(f, env.second);
        }
      }
    }

    /** `reset_session_internal`: numbers start over, on a new connection. */
    method ResetSession(attempts: seq<bool>) returns (ok: bool)
      requires Inv(View())
      modifies this
      ensures (View(), ok) == Reset(old(View()), attempts)
      ensures Inv(View()) && AllClusters(wires) == old(AllClusters(wires)) && numbers == []
      ensures ok <==> exists i | 0 <= i < |attempts| :: attempts[i]
      ensures fragmentSender == if ok then Some(|old(wires)|) else None
    {
      ResetKeeps(View(), attempts);
      ResetIff(View(), attempts);
      hide Inv, Reconnect, AllClusters;
      nextFragmentNum, firstFragmentOfConnection, fragmentStatus := 1, true, [];
      numbers := [];
      ok := ReconnectWithBackoff(attempts);
    }
  }

  /** After a failed send and a successful reconnection there is a channel to send on. */
  lemma PutReconnected(c: Conn, f: Fragment, env: PutEnv)
    requires Inv(c)
    ensures SenderOk(c)
    ensures SenderOk(Reconnect(Send(c, f, env.first).0, env.attempts).0)
  {
    SendKeeps(c, f, env.first);
    ReconnectKeeps(Send(c, f, env.first).0, env.attempts);
  }
}
