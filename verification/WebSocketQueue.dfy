/** The outbound queue of one WebSocket session: bounded, with a single replaceable heartbeat, and never silently
    losing a critical message. */
module WebSocketQueue {
  import opened Basics

  datatype Class = Critical | State | Telemetry | Heartbeat

  datatype Message = Message(payload: string, class_: Class)

  datatype Session = Session(queue: seq<Message>, closed: bool, dropped: nat)

  // --------------------------------------------------------- specification

  predicate HasHeartbeat(q: seq<Message>) {
    exists i :: 0 <= i < |q| && q[i].class_ == Heartbeat
  }

  /** The newest queued heartbeat takes the new payload and keeps its place. */
  function Refreshed(q: seq<Message>, payload: string): seq<Message> {
    if q == [] then []
    else
      var n := |q| - 1;
      if q[n].class_ == Heartbeat then q[..n] + [Message(payload, Heartbeat)] else Refreshed(q[..n], payload) + [q[n]]
  }

  lemma {:induction false} RefreshedAt(q: seq<Message>, i: nat, payload: string)
    requires i < |q| && q[i].class_ == Heartbeat && forall k :: i < k < |q| ==> q[k].class_ != Heartbeat
    ensures Refreshed(q, payload) == q[i := Message(payload, Heartbeat)]
    decreases |q|
  {
    var n := |q| - 1;
    assert q == q[..n] + [q[n]];
    if i < n { RefreshedAt(q[..n], i, payload); }
  }

  /** Without its `n` oldest non-critical messages, or as many as there are. */
  function Evicted(q: seq<Message>, n: int): (r: seq<Message>)
    ensures |r| <= |q|
  {
    if q == [] || n <= 0 then q
    else if q[0].class_ != Critical then Evicted(q[1..], n - 1)
    else [q[0]] + Evicted(q[1..], n)
  }

  function Enqueued(s: Session, capacity: nat, m: Message): (Session, bool) {
    if s.closed then (s, false)
    else if m.class_ == Heartbeat && HasHeartbeat(s.queue) then (s.(queue := Refreshed(s.queue, m.payload)), true)
    else if |s.queue| < capacity then (s.(queue := s.queue + [m]), true)
    else if m.class_ != Critical then (s.(dropped := s.dropped + 1), true)
    else
      var left := Evicted(s.queue, |s.queue| - capacity + 1);
      var after := s.(queue := left, dropped := s.dropped + |s.queue| - |left|);
      if |left| >= capacity then (after.(closed := true), false) else (after.(queue := left + [m]), true)
  }

  // ------------------------------------------------------------ the session

  class WebSocketSession {
    const capacity: nat
    var queue: seq<Message>
    var closed: bool
    var dropped: nat

    constructor (queueCapacity: nat)
      ensures capacity == (if queueCapacity < 8 then 8 else queueCapacity) && Contents() == Session([], false, 0)
    {
      capacity := if queueCapacity < 8 then 8 else queueCapacity;
      queue, closed, dropped := [], false, 0;
    }

    ghost function Contents(): Session
      reads this
    {
      Session(queue, closed, dropped)
    }

    method Enqueue(m: Message) returns (ok: bool)
      modifies this
      ensures (Contents(), ok) == Enqueued(old(Contents()), capacity, m)
    {
      if closed {
        return false;
      }
      if m.class_ == Heartbeat {
        var refreshed := RefreshHeartbeat(m.payload);
        if refreshed {
          return true;
        }
      }
      if |queue| >= capacity {
        if m.class_ != Critical {
          dropped := dropped + 1;
          return true;
        }
        EvictOldest();
        if |queue| >= capacity {
          closed := true;
          return false;
        }
      }
      queue := queue + [m];
      ok := true;
    }

    /** Scans from the back for a heartbeat to overwrite. */
    method RefreshHeartbeat(payload: string) returns (found: bool)
      modifies this`queue
      ensures found <==> HasHeartbeat(old(queue))
      ensures queue == if found then Refreshed(old(queue), payload) else old(queue)
    {
      var i := |queue|;
      while i > 0
        invariant 0 <= i <= |queue| && queue == old(queue)
        invariant forall k :: i <= k < |queue| ==> queue[k].class_ != Heartbeat
      {
        i := i - 1;
        if queue[i].class_ == Heartbeat {
          RefreshedAt(queue, i, payload);
          queue := queue[i := Message(payload, Heartbeat)];
          return true;
        }
      }
      found := false;
    }

    /** Erases non-critical messages from the front until the queue is below its capacity or only critical ones are
        left. */
    method EvictOldest()
      modifies this`queue, this`dropped
      ensures queue == Evicted(old(queue), |old(queue)| - capacity + 1)
      ensures dropped == old(dropped) + |old(queue)| - |queue|
    {
      var i := 0;
      while i < |queue| && |queue| >= capacity
        invariant 0 <= i <= |queue| <= |old(queue)| && dropped == old(dropped) + |old(queue)| - |queue|
        invariant Evicted(old(queue), |old(queue)| - capacity + 1) ==
          queue[..i] + Evicted(queue[i..], |queue| - capacity + 1)
        decreases |queue| - i
      {
        assert queue[i..][1..] == queue[i + 1..];
        if queue[i].class_ != Critical {
          ghost var before := queue;
          queue := queue[..i] + queue[i + 1..];
          dropped := dropped + 1;
          assert queue[i..] == before[i + 1..] && queue[..i] == before[..i];
        } else {
          assert queue[..i + 1] == queue[..i] + [queue[i]];
          i := i + 1;
        }
      }
      assert queue == queue[..i] + queue[i..];
    }

    /** What the writer hands to the socket next, also on a closed session as long as something is queued. */
    method Take() returns (m: Option<Message>)
      modifies this`queue
      ensures old(queue) == [] ==> m == None && queue == []
      ensures old(queue) != [] ==> m == Some(old(queue)[0]) && queue == old(queue)[1..]
    {
      if queue == [] {
        return None;
      }
      m := Some(queue[0]);
      queue := queue[1..];
    }

    method Close()
      modifies this`closed
      ensures closed
    {
      closed := true;
    }
  }

  // -------------------------------------------------------------- whole runs

  datatype Op = Enqueue(m: Message) | Take | Close

  /** What the environment has seen: messages handed to the socket, critical messages whose enqueue answered true,
      and the counts of accepted calls and of heartbeats that replaced one. */
  datatype Seen = Seen(handed: seq<Message>, critical: seq<Message>, accepted: nat, replaced: nat)

  function Step(capacity: nat, s: Session, op: Op): Session {
    match op
    case Enqueue(m) => Enqueued(s, capacity, m).0
    case Take => if s.queue == [] then s else s.(queue := s.queue[1..])
    case Close => s.(closed := true)
  }

  function Observe(capacity: nat, s: Session, seen: Seen, op: Op): Seen {
    match op
    case Enqueue(m) =>
      if !Enqueued(s, capacity, m).1 then seen
      else seen.(accepted := seen.accepted + 1,
                 critical := if m.class_ == Critical then seen.critical + [m] else seen.critical,
                 replaced := if m.class_ == Heartbeat && HasHeartbeat(s.queue) then seen.replaced + 1
                             else seen.replaced)
    case Take => if s.queue == [] then seen else seen.(handed := seen.handed + [s.queue[0]])
    case Close => seen
  }

  /** The messages of one class, in order. */
  function Of(c: Class, q: seq<Message>): seq<Message> {
    if q == [] then [] else Of(c, q[..|q| - 1]) + if q[|q| - 1].class_ == c then [q[|q| - 1]] else []
  }

  /** Nothing critical is lost or reordered, the bounds hold, and every accepted call is accounted for. */
  predicate Accounted(capacity: nat, s: Session, seen: Seen) {
    && |s.queue| <= capacity && |Of(Heartbeat, s.queue)| <= 1
    && Of(Critical, seen.handed) + Of(Critical, s.queue) == seen.critical
    && seen.accepted == |seen.handed| + |s.queue| + s.dropped + seen.replaced
  }

  lemma {:induction false} OfConcat(c: Class, a: seq<Message>, b: seq<Message>)
    ensures Of(c, a + b) == Of(c, a) + Of(c, b)
    decreases |b|
  {
    if b == [] {
      assert a + b == a;
    } else {
      assert (a + b)[..|a + b| - 1] == a + b[..|b| - 1];
      OfConcat(c, a, b[..|b| - 1]);
    }
  }

  lemma OfAppend(c: Class, a: seq<Message>, m: Message)
    ensures Of(c, a + [m]) == Of(c, a) + if m.class_ == c then [m] else []
  {
    assert (a + [m])[..|a|] == a;
  }

  lemma OfPrepend(c: Class, m: Message, b: seq<Message>)
    ensures Of(c, [m] + b) == (if m.class_ == c then [m] else []) + Of(c, b)
  {
    OfConcat(c, [m], b);
    assert [m][..0] == [];
  }

  lemma {:induction false} HeartbeatsFound(q: seq<Message>)
    ensures HasHeartbeat(q) <==> Of(Heartbeat, q) != []
    decreases |q|
  {
    if q != [] {
      var n := |q| - 1;
      HeartbeatsFound(q[..n]);
      if HasHeartbeat(q[..n]) { assert exists i :: 0 <= i < n && q[i].class_ == Heartbeat; }
    }
  }

  /** Eviction takes only non-critical messages and keeps the order of the rest. */
  lemma {:induction false} EvictionSpares(q: seq<Message>, n: int)
    ensures Of(Critical, Evicted(q, n)) == Of(Critical, q)
    ensures |Of(Heartbeat, Evicted(q, n))| <= |Of(Heartbeat, q)|
    decreases |q|
  {
    if q != [] && n > 0 {
      assert q == [q[0]] + q[1..];
      OfPrepend(Critical, q[0], q[1..]);
      OfPrepend(Heartbeat, q[0], q[1..]);
      if q[0].class_ != Critical {
        EvictionSpares(q[1..], n - 1);
      } else {
        EvictionSpares(q[1..], n);
        OfPrepend(Critical, q[0], Evicted(q[1..], n));
        OfPrepend(Heartbeat, q[0], Evicted(q[1..], n));
      }
    }
  }

  /** Eviction takes as many messages as asked, unless only critical ones are left. */
  lemma {:induction false} EvictionCounts(q: seq<Message>, n: int)
    ensures |q| - |Evicted(q, n)| <= if n <= 0 then 0 else n
    ensures |q| - |Evicted(q, n)| < n ==> forall i :: 0 <= i < |Evicted(q, n)| ==> Evicted(q, n)[i].class_ == Critical
    decreases |q|
  {
    if q != [] && n > 0 {
      if q[0].class_ != Critical { EvictionCounts(q[1..], n - 1); } else { EvictionCounts(q[1..], n); }
    }
  }

  lemma {:induction false} RefreshSpares(q: seq<Message>, payload: string)
    ensures |Refreshed(q, payload)| == |q| && Of(Critical, Refreshed(q, payload)) == Of(Critical, q)
    ensures |Of(Heartbeat, Refreshed(q, payload))| == |Of(Heartbeat, q)|
    decreases |q|
  {
    if q != [] {
      var n := |q| - 1;
      RefreshSpares(q[..n], payload);
      assert q == q[..n] + [q[n]];
      var last := if q[n].class_ == Heartbeat then Message(payload, Heartbeat) else q[n];
      var front := if q[n].class_ == Heartbeat then q[..n] else Refreshed(q[..n], payload);
      OfAppend(Critical, front, last);
      OfAppend(Heartbeat, front, last);
    }
  }

  /** Pushing a message behind what is left of the queue, the rest of which is dropped. */
  lemma PushAccounts(capacity: nat, s: Session, seen: Seen, left: seq<Message>, m: Message)
    requires Accounted(capacity, s, seen) && |left| < capacity && |left| <= |s.queue|
    requires Of(Critical, left) == Of(Critical, s.queue) && |Of(Heartbeat, left)| <= 1
    requires m.class_ == Heartbeat ==> Of(Heartbeat, left) == []
    ensures Accounted(capacity, s.(queue := left + [m], dropped := s.dropped + |s.queue| - |left|),
                      seen.(accepted := seen.accepted + 1,
                            critical := if m.class_ == Critical then seen.critical + [m] else seen.critical))
  {
    OfAppend(Critical, left, m);
    OfAppend(Heartbeat, left, m);
  }

  lemma EnqueueAccounts(capacity: nat, s: Session, seen: Seen, m: Message)
    requires Accounted(capacity, s, seen) && capacity > 0
    ensures Accounted(capacity, Step(capacity, s, Enqueue(m)), Observe(capacity, s, seen, Enqueue(m)))
  {
    HeartbeatsFound(s.queue);
    if s.closed {
    } else if m.class_ == Heartbeat && HasHeartbeat(s.queue) {
      RefreshSpares(s.queue, m.payload);
    } else if |s.queue| < capacity {
      PushAccounts(capacity, s, seen, s.queue, m);
    } else if m.class_ == Critical {
      CriticalAccounts(capacity, s, seen, m);
    }
  }

  lemma CriticalAccounts(capacity: nat, s: Session, seen: Seen, m: Message)
    requires Accounted(capacity, s, seen) && capacity > 0 && !s.closed && m.class_ == Critical && |s.queue| >= capacity
    ensures Accounted(capacity, Step(capacity, s, Enqueue(m)), Observe(capacity, s, seen, Enqueue(m)))
  {
    var left := Evicted(s.queue, |s.queue| - capacity + 1);
    EvictionSpares(s.queue, |s.queue| - capacity + 1);
    if |left| < capacity {
      PushAccounts(capacity, s, seen, left, m);
    }
  }

  lemma TakeAccounts(capacity: nat, s: Session, seen: Seen)
    requires Accounted(capacity, s, seen)
    ensures Accounted(capacity, Step(capacity, s, Take), Observe(capacity, s, seen, Take))
  {
    if s.queue != [] {
      assert s.queue == [s.queue[0]] + s.queue[1..];
      OfPrepend(Critical, s.queue[0], s.queue[1..]);
      OfPrepend(Heartbeat, s.queue[0], s.queue[1..]);
      OfAppend(Critical, seen.handed, s.queue[0]);
    }
  }

  /** Over any interleaving of callers and writer: the critical messages handed to the socket followed by those still
      queued are, in order, exactly the critical messages accepted; the queue stays within its capacity and holds at
      most one heartbeat; and accepted calls are handed, queued, dropped or heartbeat replacements. */
  lemma {:induction false} SessionAccounts(capacity: nat, ss: seq<Session>, seens: seq<Seen>, ops: seq<Op>, i: nat)
    requires capacity > 0 && |ss| == |ops| + 1 == |seens| && i < |ss|
    requires ss[0] == Session([], false, 0) && seens[0] == Seen([], [], 0, 0)
    requires forall k :: 0 <= k < |ops| ==>
      ss[k + 1] == Step(capacity, ss[k], ops[k]) && seens[k + 1] == Observe(capacity, ss[k], seens[k], ops[k])
    ensures Accounted(capacity, ss[i], seens[i])
  {
    if i > 0 {
      SessionAccounts(capacity, ss, seens, ops, i - 1);
      assert ss[i - 1 + 1] == Step(capacity, ss[i - 1], ops[i - 1]);
      match ops[i - 1]
      case Enqueue(m) => EnqueueAccounts(capacity, ss[i - 1], seens[i - 1], m);
      case Take => TakeAccounts(capacity, ss[i - 1], seens[i - 1]);
      case Close =>
    }
  }

  /** A refused call finds or leaves the session closed; only a critical message can close it, and only when the
      queue holds nothing but critical messages up to its capacity. */
  lemma RefusedOnlyWhenClosed(capacity: nat, s: Session, m: Message)
    requires |s.queue| <= capacity && capacity > 0
    ensures var (after, ok) := Enqueued(s, capacity, m);
      && (ok <==> !after.closed)
      && (!ok && !s.closed ==>
            && m.class_ == Critical && |s.queue| == capacity
            && forall i :: 0 <= i < |s.queue| ==> s.queue[i].class_ == Critical)
      && (!ok ==> after.queue == s.queue)
  {
    EvictionCounts(s.queue, |s.queue| - capacity + 1);
    if !s.closed && |s.queue| == capacity && m.class_ == Critical && |Evicted(s.queue, 1)| == capacity {
      NothingEvicted(s.queue, 1);
    }
  }

  lemma {:induction false} NothingEvicted(q: seq<Message>, n: int)
    requires |Evicted(q, n)| == |q|
    ensures Evicted(q, n) == q
    decreases |q|
  {
    if q != [] && n > 0 && q[0].class_ == Critical { NothingEvicted(q[1..], n); }
  }

  /** The last queued heartbeat is the i-th message. */
  predicate LastHeartbeat(q: seq<Message>, i: nat) {
    i < |q| && q[i].class_ == Heartbeat && forall k :: i < k < |q| ==> q[k].class_ != Heartbeat
  }

  /** The first non-critical message is the i-th. */
  predicate FirstExpendable(q: seq<Message>, i: nat) {
    i < |q| && q[i].class_ != Critical && forall k :: 0 <= k < i ==> q[k].class_ == Critical
  }

  lemma {:induction false} EvictsFirst(q: seq<Message>, i: nat)
    requires FirstExpendable(q, i)
    ensures Evicted(q, 1) == q[..i] + q[i + 1..]
    decreases |q|
  {
    if i > 0 {
      assert q[1..][..i - 1] == q[1..i] && q[1..][i..] == q[i + 1..];
      EvictsFirst(q[1..], i - 1);
      assert [q[0]] + (q[1..i] + q[i + 1..]) == q[..i] + q[i + 1..];
    }
  }

  lemma HeartbeatIsLast(q: seq<Message>)
    requires HasHeartbeat(q)
    ensures exists i: nat :: LastHeartbeat(q, i)
  {
    var i: nat :| i < |q| && q[i].class_ == Heartbeat;
    while exists k :: i < k < |q| && q[k].class_ == Heartbeat
      invariant i < |q| && q[i].class_ == Heartbeat
      decreases |q| - i
    {
      var k :| i < k < |q| && q[k].class_ == Heartbeat;
      i := k;
    }
    assert LastHeartbeat(q, i);
  }

  lemma ExpendableIsFirst(q: seq<Message>)
    ensures (exists i: nat :: FirstExpendable(q, i)) || forall k :: 0 <= k < |q| ==> q[k].class_ == Critical
  {
    for i := 0 to |q|
      invariant forall k :: 0 <= k < i ==> q[k].class_ == Critical
    {
      if q[i].class_ != Critical {
        assert FirstExpendable(q, i);
        return;
      }
    }
  }

  /** What becomes of a message: while there is room it is queued, also one that is not critical. A heartbeat takes the
      place of the one queued before. In a full queue a message that is not critical is dropped and counted, a
      critical one takes the room of the oldest that is not, and ends the session if there is none. */
  lemma EnqueuesExactly(capacity: nat, s: Session, m: Message)
    requires !s.closed && |s.queue| <= capacity && capacity > 0
    ensures m.class_ == Heartbeat && HasHeartbeat(s.queue) ==>
      exists i: nat :: LastHeartbeat(s.queue, i) && Enqueued(s, capacity, m) == (s.(queue := s.queue[i := m]), true)
    ensures !(m.class_ == Heartbeat && HasHeartbeat(s.queue)) && |s.queue| < capacity ==>
      Enqueued(s, capacity, m) == (s.(queue := s.queue + [m]), true)
    ensures !(m.class_ == Heartbeat && HasHeartbeat(s.queue)) && |s.queue| == capacity && m.class_ != Critical ==>
      Enqueued(s, capacity, m) == (s.(dropped := s.dropped + 1), true)
    ensures |s.queue| == capacity && m.class_ == Critical ==>
      || (exists i: nat :: FirstExpendable(s.queue, i)
            && Enqueued(s, capacity, m) ==
                 (s.(queue := s.queue[..i] + s.queue[i + 1..] + [m], dropped := s.dropped + 1), true))
      || ((forall k :: 0 <= k < capacity ==> s.queue[k].class_ == Critical)
          && Enqueued(s, capacity, m) == (s.(closed := true), false))
  {
    if m.class_ == Heartbeat && HasHeartbeat(s.queue) {
      HeartbeatIsLast(s.queue);
      var i: nat :| LastHeartbeat(s.queue, i);
      RefreshedAt(s.queue, i, m.payload);
      assert m == Message(m.payload, Heartbeat);
    }
    if |s.queue| == capacity && m.class_ == Critical {
      ExpendableIsFirst(s.queue);
      if i: nat :| FirstExpendable(s.queue, i) {
        EvictsFirst(s.queue, i);
      } else {
        AllCriticalStay(s.queue, 1);
      }
    }
  }

  lemma {:induction false} AllCriticalStay(q: seq<Message>, n: int)
    requires forall k :: 0 <= k < |q| ==> q[k].class_ == Critical
    ensures Evicted(q, n) == q
    decreases |q|
  {
    if q != [] && n > 0 { AllCriticalStay(q[1..], n); }
  }
}
