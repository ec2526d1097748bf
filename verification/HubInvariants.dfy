/**
 * What every run of the hub keeps: the replay ring is the tail of the epoch's full log, every open
 * connection has exactly one keep-alive timer, events reach a connection in ascending order, and
 * topics stay within what was admitted.
 */
module HubInvariants {
  import opened Common
  import opened Scheduler
  import opened Hub

  // ---------------------------------------------------------------------------------------------
  // The connection table
  // ---------------------------------------------------------------------------------------------

  ghost predicate Distinct(ids: seq<nat>) {
    forall i, j | 0 <= i < j < |ids| :: ids[i] != ids[j]
  }

  /** `live` lists exactly the open connections, each once. */
  ghost predicate Table(h: HubState) {
    && Distinct(h.live)
    && (forall c | c in h.live :: c in h.handles)
    && (forall c | c in h.handles :: c < h.nextConnectionId && (h.handles[c].open <==> c in h.live))
  }

  lemma FilterKeepsDistinctIds(ids: seq<nat>, keep: nat -> bool)
    requires Distinct(ids)
    ensures Distinct(Filter(ids, keep))
  {
    FilterPairwise(ids, keep, (a: nat, b: nat) => a != b);
  }

  /** The same connection, apart from what was sent to it and the timer that follows from that. */
  ghost predicate SameSocket(a: Connection, b: Connection) {
    b == a.(sent := b.sent, pingTimer := b.pingTimer)
  }

  /** Frames went out and nothing else happened. */
  ghost predicate OnlySends(s: Sys, r: Sys) {
    && r.world == s.world.(handles := r.world.handles)
    && r.world.handles.Keys == s.world.handles.Keys
    && r.timers.clock == s.timers.clock
    && forall c | c in s.world.handles ::
         SameSocket(s.world.handles[c], r.world.handles[c]) && s.world.handles[c].sent <= r.world.handles[c].sent
  }

  lemma TransmitSends(s: Sys, c: nat, frame: ServerFrame)
    requires c in s.world.handles
    ensures OnlySends(s, Transmit(s, c, frame))
    ensures forall d | d in s.world.handles && d != c :: Transmit(s, c, frame).world.handles[d] == s.world.handles[d]
    ensures Transmit(s, c, frame).world.handles[c].sent ==
            s.world.handles[c].sent + if s.world.handles[c].open then [Sent(s.timers.clock, frame)] else []
  {
  }

  /** What one delivery sends to connection `d`: one batch of its own events, or nothing. */
  function Batches(o: Options, s: Sys, ids: seq<nat>, events: seq<SyncEvent>, except: Option<nat>, d: nat): seq<Sent>
    requires d in s.world.handles
  {
    var mine := Mine(o, events, s.world.handles[d].topics);
    if d in ids && s.world.handles[d].open && Some(d) != except && mine != []
    then [Sent(s.timers.clock, Batch(mine))] else []
  }

  lemma {:induction false} DeliverOnlySends(o: Options, s: Sys, ids: seq<nat>, events: seq<SyncEvent>, except: Option<nat>)
    requires Known(s, ids)
    ensures OnlySends(s, DeliverTo(o, s, ids, events, except))
  {
    if ids != [] {
      hide Mine;
      DeliverOnlySends(o, s, ids[..|ids| - 1], events, except);
      var before, c := DeliverTo(o, s, ids[..|ids| - 1], events, except), ids[|ids| - 1];
      TransmitSends(before, c, Batch(Mine(o, events, before.world.handles[c].topics)));
    }
  }

  lemma {:induction false} DeliverSends(o: Options, s: Sys, ids: seq<nat>, events: seq<SyncEvent>, except: Option<nat>, d: nat)
    requires Known(s, ids) && Distinct(ids) && d in s.world.handles
    ensures DeliverTo(o, s, ids, events, except).world.handles[d].sent ==
            s.world.handles[d].sent + Batches(o, s, ids, events, except, d)
  {
    if ids != [] {
      var front, c := ids[..|ids| - 1], ids[|ids| - 1];
      assert ids == front + [c];
      assert c !in front;
      hide Mine, Transmit, ArmPing, Distinct;
      DeliverSends(o, s, front, events, except, d);
      DeliverOnlySends(o, s, front, events, except);
      var before := DeliverTo(o, s, front, events, except);
      assert SameSocket(s.world.handles[d], before.world.handles[d]);
      assert SameSocket(s.world.handles[c], before.world.handles[c]) && before.timers.clock == s.timers.clock;
      hide OnlySends;
      SentTo(before, c, Batch(Mine(o, events, before.world.handles[c].topics)), d);
    }
  }

  lemma SentTo(s: Sys, c: nat, frame: ServerFrame, d: nat)
    requires c in s.world.handles && d in s.world.handles
    ensures d in Transmit(s, c, frame).world.handles
    ensures Transmit(s, c, frame).world.handles[d].sent ==
            s.world.handles[d].sent + if d == c && s.world.handles[c].open then [Sent(s.timers.clock, frame)] else []
  {
    TransmitSends(s, c, frame);
  }

  // ---------------------------------------------------------------------------------------------
  // The ring is the tail of the log
  // ---------------------------------------------------------------------------------------------

  function Kept(n: nat): nat {
    if n < RING_SIZE then n else RING_SIZE
  }

  /** The ring is the contiguous last `min(seq, 500)` events of everything recorded this epoch. */
  ghost predicate RingIsTail(h: HubState) {
    && h.seqNo == |h.log|
    && (forall i | 0 <= i < |h.log| :: h.log[i].seqNo == i + 1)
    && h.ring == h.log[|h.log| - Kept(|h.log|)..]
  }

  lemma RecordKeepsTail(h: HubState, out: Outgoing)
    requires RingIsTail(h)
    ensures RingIsTail(Record(h, out))
  {
  }

  lemma {:induction false} RecordAllKeepsTail(h: HubState, outs: seq<Outgoing>)
    requires RingIsTail(h)
    ensures RingIsTail(RecordAll(h, outs))
  {
    if outs != [] {
      RecordAllKeepsTail(h, outs[..|outs| - 1]);
      RecordKeepsTail(RecordAll(h, outs[..|outs| - 1]), outs[|outs| - 1]);
    }
  }

  // ---------------------------------------------------------------------------------------------
  // Keep-alive timers
  // ---------------------------------------------------------------------------------------------

  /** When the last frame went out, or the connection was made. */
  function LastAt(conn: Connection): int {
    if conn.sent == [] then conn.connectedAt else conn.sent[|conn.sent| - 1].at
  }

  /** An open connection has one pending ping, due 15 s after its last frame; a closed one has none. */
  ghost predicate PingOk(s: Sys, c: nat)
    requires c in s.world.handles
  {
    var conn := s.world.handles[c];
    && (conn.open ==>
          && conn.pingTimer.Some?
          && Timer(conn.pingTimer.value, LastAt(conn) + PING_AFTER_MS, PingTimer(c)) in s.timers.pending)
    && (!conn.open ==> conn.pingTimer.None?)
    && PingsOnly(s, c)
  }

  ghost predicate PingsOnly(s: Sys, c: nat)
    requires c in s.world.handles
  {
    forall t | t in s.timers.pending && t.action == PingTimer(c) :: s.world.handles[c].pingTimer == Some(t.id)
  }

  ghost predicate TimersOk(s: Sys) {
    && WellFormed(s.timers)
    && NotOverdue(s.timers)
    && forall t | t in s.timers.pending && t.action.PingTimer? :: t.action.conn in s.world.handles
  }

  ghost predicate PingsOk(s: Sys) {
    TimersOk(s) && forall c | c in s.world.handles :: PingOk(s, c)
  }

  /** Dropping the timer `conn` names drops no other connection's. */
  lemma CancelOwn(s: Sys, c: nat, d: nat)
    requires c in s.world.handles && d in s.world.handles && c != d
    requires TimersOk(s) && PingOk(s, d)
    requires s.world.handles[c].pingTimer.Some?
    requires forall t | t in s.timers.pending && s.world.handles[c].pingTimer == Some(t.id) :: t.action == PingTimer(c)
    ensures PingOk(s.(timers := Cancelled(s.timers, s.world.handles[c].pingTimer.value)), d)
  {
  }

  lemma ArmPingOk(s: Sys, c: nat)
    requires TimersOk(s) && c in s.world.handles && s.world.handles[c].open
    requires LastAt(s.world.handles[c]) == s.timers.clock && PingsOnly(s, c)
    requires forall t | t in s.timers.pending && s.world.handles[c].pingTimer == Some(t.id) :: t.action == PingTimer(c)
    requires forall d | d in s.world.handles && d != c :: PingOk(s, d)
    ensures PingsOk(ArmPing(s, c))
  {
    hide Filter;
    var conn := s.world.handles[c];
    var ts := if conn.pingTimer.Some? then Cancelled(s.timers, conn.pingTimer.value) else s.timers;
    if conn.pingTimer.Some? {
      CancelExtends(s.timers, conn.pingTimer.value);
    }
    ScheduleExtends(ts, PING_AFTER_MS, PingTimer(c));
    var r := ArmPing(s, c);
    forall d | d in s.world.handles && d != c
      ensures PingOk(r, d)
    {
      if conn.pingTimer.Some? { CancelOwn(s, c, d); }
      assert PingOk(s.(timers := ts), d);
    }
    assert PingOk(r, c);
  }

  lemma OwnTimer(s: Sys, c: nat)
    requires PingsOk(s) && c in s.world.handles && s.world.handles[c].open
    ensures forall t | t in s.timers.pending && s.world.handles[c].pingTimer == Some(t.id) :: t.action == PingTimer(c)
  {
    var conn := s.world.handles[c];
    var own := Timer(conn.pingTimer.value, LastAt(conn) + PING_AFTER_MS, PingTimer(c));
    assert PingOk(s, c);
    forall t | t in s.timers.pending && conn.pingTimer == Some(t.id)
      ensures t.action == PingTimer(c)
    {
      DistinctElements(s.timers.pending, t, own);
    }
  }

  lemma TransmitPings(s: Sys, c: nat, frame: ServerFrame)
    requires PingsOk(s) && c in s.world.handles
    ensures PingsOk(Transmit(s, c, frame))
  {
    var conn := s.world.handles[c];
    if conn.open {
      OwnTimer(s, c);
      var sent := WithConnection(s, c, conn.(sent := conn.sent + [Sent(s.timers.clock, frame)]));
      assert PingOk(s, c);
      forall d | d in s.world.handles && d != c ensures PingOk(sent, d) {
        assert PingOk(s, d);
      }
      ArmPingOk(sent, c);
    }
  }

  lemma {:induction false} DeliverPings(o: Options, s: Sys, ids: seq<nat>, events: seq<SyncEvent>, except: Option<nat>)
    requires PingsOk(s) && Known(s, ids)
    ensures PingsOk(DeliverTo(o, s, ids, events, except))
  {
    if ids != [] {
      hide Mine;
      DeliverPings(o, s, ids[..|ids| - 1], events, except);
      var before, c := DeliverTo(o, s, ids[..|ids| - 1], events, except), ids[|ids| - 1];
      TransmitPings(before, c, Batch(Mine(o, events, before.world.handles[c].topics)));
    }
  }

  lemma ForgetPings(s: Sys, c: nat)
    requires PingsOk(s) && c in s.world.handles
    ensures PingsOk(Forget(s, c))
  {
    hide Filter;
    var conn := s.world.handles[c];
    var r := Forget(s, c);
    assert PingOk(s, c);
    if conn.open {
      OwnTimer(s, c);
      CancelExtends(s.timers, conn.pingTimer.value);
      forall d | d in s.world.handles && d != c ensures PingOk(r, d) {
        assert PingOk(s, d);
        CancelOwn(s, c, d);
      }
    } else {
      forall d | d in s.world.handles && d != c ensures PingOk(r, d) {
        assert PingOk(s, d);
      }
    }
    assert PingOk(r, c);
  }

  /** The ping itself: the fired timer is gone, the frame goes out and the next ping is armed. */
  lemma FirePings(s: Sys, until: int)
    requires PingsOk(s) && NextDue(s.timers.pending, until).Some?
    ensures PingsOk(Fire(RunTimer, s, NextDue(s.timers.pending, until).value))
  {
    hide NextDue, Filter, TimersOk, ArmPing, PingOk, PingsOnly, Taken;
    var t := NextDue(s.timers.pending, until).value;
    TakenTimersOk(s, until);
    var taken := State(s.world, Taken(s.timers, t));
    if t.action.PingTimer? {
      var c := t.action.conn;
      var conn := s.world.handles[c];
      var cleared := WithConnection(taken, c, conn.(pingTimer := None, sent := conn.sent + [Sent(taken.timers.clock, PingFrame)]));
      ClearedPings(s, t);
      ArmPingOk(cleared, c);
      assert cleared.world.handles == s.world.handles[c := conn.(pingTimer := None)][c := cleared.world.handles[c]];
      assert Fire(RunTimer, s, t) == ArmPing(cleared, c);
    } else {
      TakenPings(s, t);
      assert Fire(RunTimer, s, t) == taken;
    }
  }

  lemma TakenTimersOk(s: Sys, until: int)
    requires TimersOk(s) && NextDue(s.timers.pending, until).Some?
    ensures var t := NextDue(s.timers.pending, until).value;
            t in s.timers.pending && TimersOk(State(s.world, Taken(s.timers, t)))
            && (t.action.PingTimer? ==> t.action.conn in s.world.handles)
  {
    hide NextDue, Filter;
    var t := NextDue(s.timers.pending, until).value;
    TakenExtends(s.timers, t);
    forall u | u in Taken(s.timers, t).pending ensures u.at >= Taken(s.timers, t).clock {
      assert u.at <= until ==> !Earlier(u, t);
    }
  }

  /** Running one connection's ping, or someone else's timer, takes no other connection's ping. */
  lemma TakenPings(s: Sys, t: Timer<Action>)
    requires PingsOk(s) && t in s.timers.pending
    ensures forall d | d in s.world.handles && t.action != PingTimer(d) :: PingOk(State(s.world, Taken(s.timers, t)), d)
  {
    hide Filter;
    TakenExtends(s.timers, t);
    forall d | d in s.world.handles && t.action != PingTimer(d) ensures PingOk(State(s.world, Taken(s.timers, t)), d) {
      assert PingOk(s, d);
    }
  }

  lemma ClearedPings(s: Sys, t: Timer<Action>)
    requires PingsOk(s) && t in s.timers.pending && t.action.PingTimer? && t.action.conn in s.world.handles
    requires TimersOk(State(s.world, Taken(s.timers, t)))
    ensures var c := t.action.conn;
            var conn := s.world.handles[c];
            var taken := Taken(s.timers, t);
            var cleared := WithConnection(State(s.world, taken), c, conn.(pingTimer := None, sent := conn.sent + [Sent(taken.clock, PingFrame)]));
            && conn.open && TimersOk(cleared) && PingsOnly(cleared, c)
            && forall d | d in s.world.handles && d != c :: PingOk(cleared, d)
  {
    hide Filter;
    TakenPings(s, t);
    TakenExtends(s.timers, t);
    var c := t.action.conn;
    assert PingOk(s, c);
    assert s.world.handles[c].pingTimer == Some(t.id);
    var conn, taken := s.world.handles[c], Taken(s.timers, t);
    var cleared := WithConnection(State(s.world, taken), c, conn.(pingTimer := None, sent := conn.sent + [Sent(taken.clock, PingFrame)]));
    forall d | d in s.world.handles && d != c ensures PingOk(cleared, d) {
      assert PingOk(State(s.world, taken), d);
    }
  }

  // ---------------------------------------------------------------------------------------------
  // Order of delivery
  // ---------------------------------------------------------------------------------------------

  /** `eventForViewer` may hide an event or rewrite its data, not move or renumber it. */
  ghost predicate Transparent(o: Options) {
    forall e: SyncEvent {:trigger o.show(e)} | o.show(e).Some? ::
      && o.show(e).value.seqNo == e.seqNo
      && o.show(e).value.topic == e.topic
      && IsPlain(o.show(e).value) == IsPlain(e)
  }

  /** The events a connection has been sent since it was last welcomed. */
  function SinceHello(sent: seq<Sent>): seq<SyncEvent> {
    if sent == [] then []
    else
      match sent[|sent| - 1].frame
      case Welcome(_, _, _, _, _) => []
      case Batch(events) => SinceHello(sent[..|sent| - 1]) + events
      case _ => SinceHello(sent[..|sent| - 1])
  }

  ghost predicate Ascending(events: seq<SyncEvent>) {
    forall i, j | 0 <= i < j < |events| :: events[i].seqNo < events[j].seqNo
  }

  /** All of `events` lie after `low`, up to `high`. */
  ghost predicate Within(events: seq<SyncEvent>, low: int, high: int) {
    forall e | e in events :: low < e.seqNo <= high
  }

  /** Strictly ascending, so each at most once; and while open, nothing the hub has yet to number. */
  ghost predicate Ordered(conn: Connection, seqNo: nat) {
    && Ascending(SinceHello(conn.sent))
    && (conn.open ==> Within(SinceHello(conn.sent), -1, seqNo))
  }

  ghost predicate AllOrdered(h: HubState) {
    forall c | c in h.handles :: Ordered(h.handles[c], h.seqNo)
  }

  lemma SentBatch(sent: seq<Sent>, at: int, frame: ServerFrame)
    ensures var since := SinceHello(sent + [Sent(at, frame)]);
            && (frame.Batch? ==> since == SinceHello(sent) + frame.events)
            && (frame.Welcome? ==> since == [])
            && (!frame.Batch? && !frame.Welcome? ==> since == SinceHello(sent))
  {
    assert (sent + [Sent(at, frame)])[..|sent|] == sent;
  }

  lemma AppendAscending(a: seq<SyncEvent>, b: seq<SyncEvent>, low: int, mid: int, high: int)
    requires Ascending(a) && Ascending(b) && Within(a, low, mid) && Within(b, mid, high) && low <= mid <= high
    ensures Ascending(a + b) && Within(a + b, low, high)
  {
    forall i, j | 0 <= i < j < |a + b| ensures (a + b)[i].seqNo < (a + b)[j].seqNo {
      if i < |a| { assert a[i] in a; }
      if j >= |a| { assert b[j - |a|] in b; }
    }
  }

  lemma FilterAscending(events: seq<SyncEvent>, keep: SyncEvent -> bool)
    requires Ascending(events)
    ensures Ascending(Filter(events, keep))
  {
    FilterPairwise(events, keep, (a: SyncEvent, b: SyncEvent) => a.seqNo < b.seqNo);
  }

  lemma {:induction false} ForViewerAscending(o: Options, events: seq<SyncEvent>, low: int, high: int)
    requires Transparent(o) && Ascending(events) && Within(events, low, high)
    ensures Ascending(ForViewer(o, events)) && Within(ForViewer(o, events), low, high)
    ensures forall e | e in ForViewer(o, events) :: exists f | f in events :: f.topic == e.topic
  {
    if events != [] {
      var front, last := events[..|events| - 1], events[|events| - 1];
      assert last in events;
      forall e | e in front ensures low < e.seqNo <= last.seqNo - 1 {
        var i :| 0 <= i < |front| && front[i] == e;
        assert events[i].seqNo < last.seqNo && events[i] in events;
      }
      ForViewerAscending(o, front, low, last.seqNo - 1);
      forall e | e in ForViewer(o, front) ensures exists f | f in events :: f.topic == e.topic {
        var f :| f in front && f.topic == e.topic;
        assert f in events;
      }
    }
  }

  lemma MineOrdered(o: Options, events: seq<SyncEvent>, topics: set<string>, low: int, high: int)
    requires Transparent(o) && Ascending(events) && Within(events, low, high)
    ensures Ascending(Mine(o, events, topics)) && Within(Mine(o, events, topics), low, high)
    ensures forall e | e in Mine(o, events, topics) :: e.topic in topics
  {
    FilterAscending(events, (e: SyncEvent) => e.topic in topics);
    ForViewerAscending(o, OnTopics(events, topics), low, high);
  }

  lemma StampedOrdered(seqNo: nat, outs: seq<Outgoing>)
    ensures Ascending(Stamped(seqNo, outs)) && Within(Stamped(seqNo, outs), seqNo, seqNo + |outs|)
  {
  }

  /** A delivery of newly numbered events keeps every connection in order. */
  lemma DeliverOrdered(o: Options, s: Sys, events: seq<SyncEvent>, except: Option<nat>, low: nat)
    requires Transparent(o) && Table(s.world)
    requires forall c | c in s.world.handles :: Ordered(s.world.handles[c], low)
    requires Ascending(events) && Within(events, low, s.world.seqNo) && low <= s.world.seqNo
    ensures AllOrdered(Deliver(o, s, events, except).world)
  {
    hide Mine, SinceHello, DeliverTo;
    DeliverOnlySends(o, s, s.world.live, events, except);
    var r := Deliver(o, s, events, except);
    forall d | d in s.world.handles
      ensures Ordered(r.world.handles[d], r.world.seqNo)
    {
      DeliverSends(o, s, s.world.live, events, except, d);
      var conn := s.world.handles[d];
      assert SameSocket(conn, r.world.handles[d]);
      var mine := Mine(o, events, conn.topics);
      MineOrdered(o, events, conn.topics, low, s.world.seqNo);
      if Batches(o, s, s.world.live, events, except, d) != [] {
        SentBatch(conn.sent, s.timers.clock, Batch(mine));
        AppendAscending(SinceHello(conn.sent), mine, -1, low, s.world.seqNo);
      } else {
        assert conn.sent + [] == conn.sent;
      }
    }
  }

  // ---------------------------------------------------------------------------------------------
  // Topics
  // ---------------------------------------------------------------------------------------------

  /** A connection follows only its own user topic and topics the viewer is admitted to. */
  ghost predicate TopicsOk(o: Options, h: HubState) {
    forall c, t | c in h.handles && t in h.handles[c].topics :: t == "user" || Admit(o, t)
  }

  lemma {:induction false} UnfollowAllShrinks(h: HubState, outs: seq<Outgoing>)
    ensures var r := UnfollowAll(h, outs);
            && r == h.(handles := r.handles)
            && r.handles.Keys == h.handles.Keys
            && forall c | c in h.handles ::
                 && r.handles[c] == h.handles[c].(topics := r.handles[c].topics)
                 && r.handles[c].topics <= h.handles[c].topics
  {
    if outs != [] {
      UnfollowAllShrinks(h, outs[..|outs| - 1]);
    }
  }
}
