/**
 Matching acknowledgments to sent fragments. The connection keeps three flags and an error mark per
 fragment and gives each acknowledgment to the first fragment that fits. The flags always form
 nested prefixes, so the list is four counters in disguise.
 */
module AckStatus {
  import opened Wrappers

  const FRAGMENT_STATUS_RETENTION: nat := 150
  const FRAGMENT_STATUS_TIMEOUT_SECS: nat := 120

  datatype AckEventType = Buffering | Received | Persisted | Error | Idle

  /** The error text is built exactly when there is an error id. */
  datatype Acknowledgment = Acknowledgment(eventType: AckEventType, fragmentNumber: Option<string>,
      errorId: Option<nat>)

  datatype Status = Status(number: nat, bufferingAck: bool, receivedAck: bool, persistedAck: bool, failed: bool)

  predicate Fits(s: Status, e: AckEventType) {
    match e
    case Buffering => !s.bufferingAck
    case Received => s.bufferingAck && !s.receivedAck
    case Persisted => s.receivedAck && !s.persistedAck
    case Error => !s.failed
    case Idle => false
  }

  function Mark(s: Status, ack: Acknowledgment): Status {
    match ack.eventType
    case Buffering => s.(bufferingAck := true)
    case Received => s.(receivedAck := true)
    case Persisted => s.(persistedAck := true)
    case Error => s.(failed := ack.errorId.Some?)
    case Idle => s
  }

  /** The position of the oldest fragment an event fits, or the length. */
  function OldestPending(ss: seq<Status>, e: AckEventType): (i: nat)
    ensures i <= |ss|
    ensures i < |ss| ==> Fits(ss[i], e)
    ensures forall j | 0 <= j < i :: !Fits(ss[j], e)
  {
    if ss == [] || Fits(ss[0], e) then 0 else 1 + OldestPending(ss[1..], e)
  }

  /** One acknowledgment; without a fragment number, or with an idle event, nothing changes. */
  function Apply(ss: seq<Status>, ack: Acknowledgment): seq<Status> {
    var i := OldestPending(ss, ack.eventType);
    if ack.eventType.Idle? || ack.fragmentNumber.None? || i == |ss| then ss else ss[i := Mark(ss[i], ack)]
  }

  /** `retain`: drop persisted fragments and those read as too old; `age(i)` is the age read for the i-th. */
  function Retain(ss: seq<Status>, age: nat -> nat, at: nat): seq<Status> {
    if ss == [] then []
    else (if !ss[0].persistedAck && age(at) <= FRAGMENT_STATUS_TIMEOUT_SECS then [ss[0]] else [])
         + Retain(ss[1..], age, at + 1)
  }

  function Sweep(ss: seq<Status>, age: nat -> nat): seq<Status> {
    if |ss| > FRAGMENT_STATUS_RETENTION then Retain(ss, age, 0) else ss
  }

  function ApplyAll(ss: seq<Status>, acks: seq<Acknowledgment>): seq<Status>
    decreases |acks|
  {
    if acks == [] then ss else ApplyAll(Apply(ss, acks[0]), acks[1..])
  }

  function Sent(number: nat): Status { Status(number, false, false, false, false) }

  /** The fragments a health check counts as unacknowledged. */
  function Pending(ss: seq<Status>): nat {
    if ss == [] then 0
    else Pending(ss[..|ss| - 1]) + if !ss[|ss| - 1].persistedAck && !ss[|ss| - 1].failed then 1 else 0
  }

  // ---- the counters ----

  /** How many are tracked, and how many of them, from the front, carry each mark. */
  datatype Counters = Counters(n: nat, buffering: nat, received: nat, persisted: nat, failed: nat)

  predicate Represents(ss: seq<Status>, c: Counters) {
    && |ss| == c.n && c.persisted <= c.received <= c.buffering <= c.n && c.failed <= c.n
    && (forall i | 0 <= i < |ss| ::
          && (ss[i].bufferingAck <==> i < c.buffering)
          && (ss[i].receivedAck <==> i < c.received)
          && (ss[i].persistedAck <==> i < c.persisted)
          && (ss[i].failed <==> i < c.failed))
  }

  /** One acknowledgment on the counters: an increment guarded by the stage before it. */
  function Count(c: Counters, ack: Acknowledgment): Counters {
    if ack.fragmentNumber.None? then c
    else
      match ack.eventType
      case Buffering => if c.buffering < c.n then c.(buffering := c.buffering + 1) else c
      case Received => if c.received < c.buffering then c.(received := c.received + 1) else c
      case Persisted => if c.persisted < c.received then c.(persisted := c.persisted + 1) else c
      case Error => if c.failed < c.n && ack.errorId.Some? then c.(failed := c.failed + 1) else c
      case Idle => c
  }

  /** How many positions of [lo, hi) are young enough to be kept. */
  function Young(age: nat -> nat, lo: nat, hi: nat): (k: nat)
    ensures lo <= hi ==> k <= hi - lo
    decreases hi - lo
  {
    if lo >= hi then 0
    else (if age(lo) <= FRAGMENT_STATUS_TIMEOUT_SECS then 1 else 0) + Young(age, lo + 1, hi)
  }

  /** A sweep on the counters: the persisted prefix goes, and of the rest what is too old. */
  function SweepCount(c: Counters, age: nat -> nat): Counters {
    if c.n > FRAGMENT_STATUS_RETENTION then
      Counters(Young(age, c.persisted, c.n), Young(age, c.persisted, c.buffering), Young(age, c.persisted, c.received),
               0, Young(age, c.persisted, c.failed))
    else c
  }

  lemma ApplyCounts(ss: seq<Status>, c: Counters, ack: Acknowledgment)
    requires Represents(ss, c)
    ensures Represents(Apply(ss, ack), Count(c, ack))
  {
    FirstMatchIsCounter(ss, c, ack.eventType);
  }

  /** Where each scan stops: at the counter of its stage, if the stage before it is ahead. */
  lemma FirstMatchIsCounter(ss: seq<Status>, c: Counters, e: AckEventType)
    requires Represents(ss, c)
    ensures OldestPending(ss, e) == match e
                                    case Buffering => c.buffering
                                    case Received => if c.received < c.buffering then c.received else c.n
                                    case Persisted => if c.persisted < c.received then c.persisted else c.n
                                    case Error => c.failed
                                    case Idle => c.n
  {
    var i := OldestPending(ss, e);
    var k := match e
      case Buffering => c.buffering
      case Received => if c.received < c.buffering then c.received else c.n
      case Persisted => if c.persisted < c.received then c.persisted else c.n
      case Error => c.failed
      case Idle => c.n;
    if k < c.n {
      assert Fits(ss[k], e);
    }
    if i < c.n {
      assert Fits(ss[i], e);
    }
  }

  lemma {:induction false} YoungSplit(age: nat -> nat, lo: nat, mid: nat, hi: nat)
    requires lo <= mid <= hi
    ensures Young(age, lo, hi) == Young(age, lo, mid) + Young(age, mid, hi)
    decreases mid - lo
  {
    if lo >= mid {
    } else {
      YoungSplit(age, lo + 1, mid, hi);
    }
  }

  /** What a sweep keeps of a list that starts at position `at` of the whole. */
  lemma {:induction false} RetainCounts(ss: seq<Status>, c: Counters, age: nat -> nat, at: nat, rest: seq<Status>)
    requires Represents(ss, c) && at <= |ss| && rest == ss[at..]
    ensures var lo, r := Max(at, c.persisted), Retain(rest, age, at);
            && |r| == Young(age, lo, c.n)
            && (forall i | 0 <= i < |r| ::
                  && (r[i].bufferingAck <==> i < Young(age, lo, c.buffering))
                  && (r[i].receivedAck <==> i < Young(age, lo, c.received))
                  && !r[i].persistedAck
                  && (r[i].failed <==> i < Young(age, lo, c.failed)))
    decreases |ss| - at
  {
    if at >= |ss| {
    } else {
      RetainCounts(ss, c, age, at + 1, ss[at + 1..]);
      assert rest[0] == ss[at] && rest[1..] == ss[at + 1..];
    }
  }

  function Max(a: nat, b: nat): nat { if a >= b then a else b }

  lemma SweepCounts(ss: seq<Status>, c: Counters, age: nat -> nat)
    requires Represents(ss, c)
    ensures Represents(Sweep(ss, age), SweepCount(c, age))
  {
    if |ss| > FRAGMENT_STATUS_RETENTION {
      assert ss[0..] == ss;
      RetainCounts(ss, c, age, 0, ss);
      YoungSplit(age, c.persisted, c.received, c.buffering);
      YoungSplit(age, c.persisted, c.buffering, c.n);
      if c.persisted <= c.failed { YoungSplit(age, c.persisted, c.failed, c.n); }
    }
  }

  lemma {:induction false} RetainSplit(a: seq<Status>, b: seq<Status>, age: nat -> nat, at: nat)
    ensures Retain(a + b, age, at) == Retain(a, age, at) + Retain(b, age, at + |a|)
  {
    if a == [] {
      assert a + b == b;
    } else {
      assert (a + b)[1..] == a[1..] + b;
      RetainSplit(a[1..], b, age, at + 1);
    }
  }

  /**
   In numbers: a list of up to 150 entries is left alone; of a longer one each entry stays in its place among the
   others if and only if it is not persisted and at most 120 seconds old.
   */
  lemma SweepExact(ss: seq<Status>, age: nat -> nat, i: nat)
    requires i < |ss|
    ensures |ss| <= 150 ==> Sweep(ss, age) == ss
    ensures |ss| > 150 ==>
              Sweep(ss, age) == Retain(ss[..i], age, 0)
                                + (if !ss[i].persistedAck && age(i) <= 120 then [ss[i]] else [])
                                + Retain(ss[i + 1..], age, i + 1)
  {
    assert ss == ss[..i] + ([ss[i]] + ss[i + 1..]);
    RetainSplit(ss[..i], [ss[i]] + ss[i + 1..], age, 0);
    RetainSplit([ss[i]], ss[i + 1..], age, i);
    assert [ss[i]][1..] == [];
  }

  /** Acknowledgments set marks and take none back; a fragment is persisted only after it was received. */
  lemma MarksOnlyGrow(ss: seq<Status>, ack: Acknowledgment, i: nat)
    requires i < |ss|
    requires exists c :: Represents(ss, c)
    ensures var s, s' := ss[i], Apply(ss, ack)[i];
            && s'.number == s.number
            && (s.bufferingAck ==> s'.bufferingAck) && (s.receivedAck ==> s'.receivedAck)
            && (s.persistedAck ==> s'.persistedAck) && (s.failed ==> s'.failed)
            && (s'.persistedAck && !s.persistedAck ==>
                  ack.eventType.Persisted? && ack.fragmentNumber.Some? && s.receivedAck && s.bufferingAck)
  {
    var c :| Represents(ss, c);
    var k := OldestPending(ss, ack.eventType);
    if k < |ss| { assert Fits(ss[k], ack.eventType); }
  }

  // ---- runs ----

  datatype Op = Push(number: nat) | Ack(ack: Acknowledgment) | DoSweep(age: nat -> nat) | Clear

  function Do(ss: seq<Status>, op: Op): seq<Status> {
    match op
    case Push(n) => ss + [Sent(n)]
    case Ack(a) => Apply(ss, a)
    case DoSweep(age) => Sweep(ss, age)
    case Clear => []
  }

  function DoCount(c: Counters, op: Op): Counters {
    match op
    case Push(_) => c.(n := c.n + 1)
    case Ack(a) => Count(c, a)
    case DoSweep(age) => SweepCount(c, age)
    case Clear => Counters(0, 0, 0, 0, 0)
  }

  function Run(ss: seq<Status>, ops: seq<Op>): seq<Status>
    decreases |ops|
  {
    if ops == [] then ss else Run(Do(ss, ops[0]), ops[1..])
  }

  function RunCount(c: Counters, ops: seq<Op>): Counters
    decreases |ops|
  {
    if ops == [] then c else RunCount(DoCount(c, ops[0]), ops[1..])
  }

  /** The status list refines the counters over every run of pushes, acknowledgments and sweeps. */
  lemma {:induction false} RefinesCounters(ss: seq<Status>, c: Counters, ops: seq<Op>)
    requires Represents(ss, c)
    ensures Represents(Run(ss, ops), RunCount(c, ops))
    decreases |ops|
  {
    if ops == [] {
    } else {
      match ops[0] {
        case Push(n) =>
        case Ack(a) => ApplyCounts(ss, c, a);
        case DoSweep(age) => SweepCounts(ss, c, age);
        case Clear =>
      }
      RefinesCounters(Do(ss, ops[0]), DoCount(c, ops[0]), ops[1..]);
    }
  }

  /** The pending count is the length less the longer of the persisted and the failed prefix. */
  lemma {:induction false} PendingCounts(ss: seq<Status>, c: Counters, k: nat)
    requires Represents(ss, c) && k <= |ss|
    ensures Pending(ss[..k]) == if k > Max(c.persisted, c.failed) then k - Max(c.persisted, c.failed) else 0
  {
    if k == 0 {
    } else {
      assert ss[..k][..k - 1] == ss[..k - 1];
      PendingCounts(ss, c, k - 1);
    }
  }

  lemma PendingIsTail(ss: seq<Status>, c: Counters)
    requires Represents(ss, c)
    ensures Pending(ss) == c.n - Max(c.persisted, c.failed)
  {
    assert ss[..|ss|] == ss;
    PendingCounts(ss, c, |ss|);
  }
}
