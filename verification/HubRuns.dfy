/** Every run of the hub keeps its invariants, and what follows from them for clients. */
module HubRuns {
  import opened Common
  import opened Scheduler
  import opened Hub
  import opened HubInvariants

  ghost predicate Inv(o: Options, s: Sys) {
    && Table(s.world)
    && RingIsTail(s.world)
    && PingsOk(s)
    && AllOrdered(s.world)
    && TopicsOk(o, s.world)
  }

  lemma TableKnown(s: Sys)
    requires Table(s.world)
    ensures Known(s, s.world.live)
  {
  }

  lemma InitialInv(o: Options, epoch: string, startMs: int)
    ensures Inv(o, Initial(epoch, startMs))
  {
  }

  /** Sending frames keeps everything but, perhaps, the order of events. */
  lemma SendsKeep(o: Options, s: Sys, r: Sys)
    requires Table(s.world) && RingIsTail(s.world) && TopicsOk(o, s.world) && OnlySends(s, r)
    ensures Table(r.world) && RingIsTail(r.world) && TopicsOk(o, r.world)
  {
    forall c | c in r.world.handles ensures SameSocket(s.world.handles[c], r.world.handles[c]) {
    }
  }

  lemma TransmitKeeps(o: Options, s: Sys, c: nat, frame: ServerFrame)
    requires Inv(o, s) && c in s.world.handles && !frame.Batch?
    ensures Inv(o, Transmit(s, c, frame))
  {
    hide SinceHello, PingsOk;
    TransmitPings(s, c, frame);
    TransmitSends(s, c, frame);
    SendsKeep(o, s, Transmit(s, c, frame));
    SentBatch(s.world.handles[c].sent, s.timers.clock, frame);
    assert s.world.handles[c].sent + [] == s.world.handles[c].sent;
  }

  lemma ConnectKeeps(o: Options, s: Sys)
    requires Inv(o, s)
    ensures Inv(o, Connect(s))
  {
    ConnectPings(s);
    hide SinceHello, Admit, PingsOk, Filter;
    var r := Connect(s);
    assert forall d | d in s.world.handles :: r.world.handles[d] == s.world.handles[d] && d != s.world.nextConnectionId;
    assert SinceHello(r.world.handles[s.world.nextConnectionId].sent) == [] by { SinceNothing(); }
    forall d | d in s.world.handles ensures Ordered(s.world.handles[d], s.world.seqNo) {
    }
  }

  lemma SinceNothing()
    ensures SinceHello([]) == []
  {
  }

  lemma ConnectPings(s: Sys)
    requires Table(s.world) && PingsOk(s)
    ensures PingsOk(Connect(s))
  {
    hide Filter;
    var c := s.world.nextConnectionId;
    var conn := Connection(s.timers.clock, {"user"}, {}, None, true, false, []);
    var made := s.(world := s.world.(handles := s.world.handles[c := conn], live := s.world.live + [c], nextConnectionId := c + 1));
    forall d | d in made.world.handles && d != c ensures PingOk(made, d) {
      assert PingOk(s, d);
    }
    ArmPingOk(made, c);
  }

  lemma ForgetKeeps(o: Options, s: Sys, c: nat)
    requires Inv(o, s) && c in s.world.handles
    ensures Inv(o, Forget(s, c))
    ensures Forget(s, c).world.live == Filter(s.world.live, (d: nat) => d != c)
    ensures !Forget(s, c).world.handles[c].open
  {
    hide PingsOk, SinceHello;
    ForgetPings(s, c);
    FilterKeepsDistinctIds(s.world.live, (d: nat) => d != c);
    var h, r := s.world, Forget(s, c).world;
    assert forall d | d in h.handles && d != c :: r.handles[d] == h.handles[d];
    assert Ordered(h.handles[c], h.seqNo);
  }

  /** The same connection, apart from what it follows and looks at and whether it was hung up on. */
  ghost predicate SameFrames(a: Connection, b: Connection) {
    b == a.(topics := b.topics, present := b.present, hungUp := b.hungUp)
  }

  /** Changing what connections follow or look at touches neither their frames nor their timers. */
  lemma RefollowKeeps(o: Options, s: Sys, h: HubState)
    requires Inv(o, s)
    requires h == s.world.(handles := h.handles) && h.handles.Keys == s.world.handles.Keys
    requires forall c | c in h.handles :: SameFrames(s.world.handles[c], h.handles[c])
    requires TopicsOk(o, h)
    ensures Inv(o, s.(world := h))
  {
    hide SinceHello, Admit;
    var r := s.(world := h);
    forall d | d in h.handles ensures PingOk(r, d) && Ordered(h.handles[d], h.seqNo) {
      assert PingOk(s, d) && Ordered(s.world.handles[d], h.seqNo);
      assert SameFrames(s.world.handles[d], h.handles[d]);
    }
    assert Table(h);
  }

  lemma FollowKeeps(o: Options, s: Sys, c: nat, topics: set<string>, present: set<int>)
    requires Inv(o, s) && c in s.world.handles
    requires forall t | t in topics :: t == "user" || Admit(o, t)
    ensures Inv(o, WithConnection(s, c, s.world.handles[c].(topics := topics, present := present)))
  {
    hide SinceHello, Admit, PingsOk;
    RefollowKeeps(o, s, WithConnection(s, c, s.world.handles[c].(topics := topics, present := present)).world);
  }

  lemma HelloKeeps(o: Options, s: Sys, c: nat, resume: Option<Token>, topics: seq<string>)
    requires Inv(o, s) && Transparent(o) && c in s.world.handles && s.world.handles[c].open
    ensures Inv(o, SayHello(o, s, c, resume, topics))
  {
    hide SinceHello, PingsOk, Admit, ForViewer, Filter, Ascending, Within;
    var h := s.world;
    var mine := {"user"} + Admitted(o, topics);
    FollowKeeps(o, s, c, mine, h.handles[c].present);
    var following := WithConnection(s, c, h.handles[c].(topics := mine));
    if !CanResume(h, resume) {
      TransmitKeeps(o, following, c, Welcome(h.epoch, h.seqNo, false, h.seqNo, o.viewerId));
    } else {
      var welcome := Welcome(h.epoch, resume.value.seqNo, true, h.seqNo, o.viewerId);
      var welcomed := Transmit(following, c, welcome);
      TransmitKeeps(o, following, c, welcome);
      TransmitSends(following, c, welcome);
      SentBatch(following.world.handles[c].sent, s.timers.clock, welcome);
      var missed := Missed(o, h, resume.value.seqNo, mine);
      MissedOrdered(o, h, resume.value.seqNo, mine);
      if missed != [] {
        ReplayKeeps(o, welcomed, c, missed);
      }
    }
  }

  /** The replay after a welcome. */
  lemma ReplayKeeps(o: Options, s: Sys, c: nat, missed: seq<SyncEvent>)
    requires Inv(o, s) && c in s.world.handles && s.world.handles[c].open && SinceHello(s.world.handles[c].sent) == []
    requires Ascending(missed) && Within(missed, -1, s.world.seqNo)
    ensures Inv(o, Transmit(s, c, Batch(missed)))
  {
    hide SinceHello, PingsOk, Transmit;
    TransmitPings(s, c, Batch(missed));
    TransmitSends(s, c, Batch(missed));
    SendsKeep(o, s, Transmit(s, c, Batch(missed)));
    SentBatch(s.world.handles[c].sent, s.timers.clock, Batch(missed));
    assert [] + missed == missed;
  }

  lemma MissedOrdered(o: Options, h: HubState, from: int, topics: set<string>)
    requires RingIsTail(h) && Transparent(o)
    ensures Ascending(Missed(o, h, from, topics)) && Within(Missed(o, h, from, topics), from, h.seqNo)
    ensures Within(Missed(o, h, from, topics), -1, h.seqNo)
  {
    var keep := (e: SyncEvent) => e.seqNo > from && IsPlain(e) && e.topic in topics;
    assert Ascending(h.ring) && Within(h.ring, 0, h.seqNo);
    FilterAscending(h.ring, keep);
    ForViewerAscending(o, Filter(h.ring, keep), from, h.seqNo);
    ForViewerAscending(o, Filter(h.ring, keep), -1, h.seqNo);
  }

  /** Numbering some events and delivering them. */
  lemma DeliverKeeps(o: Options, s: Sys, recorded: Sys, events: seq<SyncEvent>, except: Option<nat>)
    requires Inv(o, s) && Transparent(o)
    requires recorded.timers == s.timers && RingIsTail(recorded.world) && s.world.seqNo <= recorded.world.seqNo
    requires recorded.world.handles == s.world.handles && recorded.world.live == s.world.live
    requires recorded.world.nextConnectionId == s.world.nextConnectionId
    requires Ascending(events) && Within(events, s.world.seqNo, recorded.world.seqNo)
    ensures Inv(o, Deliver(o, recorded, events, except))
  {
    hide SinceHello, DeliverTo, Mine, Admit;
    assert PingsOk(recorded) by {
      forall d | d in recorded.world.handles ensures PingOk(recorded, d) {
        assert PingOk(s, d);
      }
    }
    DeliverPings(o, recorded, recorded.world.live, events, except);
    DeliverOnlySends(o, recorded, recorded.world.live, events, except);
    SendsKeep(o, recorded, Deliver(o, recorded, events, except));
    DeliverOrdered(o, recorded, events, except, s.world.seqNo);
  }

  lemma PublishKeeps(o: Options, s: Sys, outs: seq<Outgoing>)
    requires Inv(o, s) && Transparent(o)
    ensures Inv(o, Publish(o, s, outs))
  {
    hide SinceHello, DeliverTo, Mine, RecordAll, UnfollowAll, Admit;
    var recorded := s.(world := RecordAll(s.world, outs));
    RecordAllKeeps(s.world, outs);
    RecordAllKeepsTail(s.world, outs);
    var events := Stamped(s.world.seqNo, outs);
    StampedOrdered(s.world.seqNo, outs);
    DeliverKeeps(o, s, recorded, events, None);
    var delivered := Deliver(o, recorded, events, None);
    UnfollowAllShrinks(delivered.world, outs);
    RefollowKeeps(o, delivered, UnfollowAll(delivered.world, outs));
  }

  lemma TypingKeeps(o: Options, s: Sys, out: Outgoing, c: nat)
    requires Inv(o, s) && Transparent(o) && Known(s, s.world.live)
    ensures Inv(o, Deliver(o, s.(world := Record(s.world, out)), [Stamp(s.world.seqNo + 1, out)], Some(c)))
  {
    hide SinceHello, DeliverTo, Mine, Admit, PingsOk;
    RecordKeepsTail(s.world, out);
    DeliverKeeps(o, s, s.(world := Record(s.world, out)), [Stamp(s.world.seqNo + 1, out)], Some(c));
  }

  /** The frames that change only what a connection follows or looks at. */
  lemma SubscribeKeeps(o: Options, s: Sys, c: nat, frame: ClientFrame)
    requires Inv(o, s) && Known(s, s.world.live) && c in s.world.handles && s.world.handles[c].open
    requires frame.Sub? || frame.Unsub? || frame.Present? || frame.Absent?
    ensures Inv(o, Receive(o, s, c, frame))
  {
    var conn := s.world.handles[c];
    assert forall t | t in conn.topics :: t == "user" || Admit(o, t);
    hide Inv, Admit, DeliverTo, SayHello, Record;
    match frame
    case Sub(topics) => FollowKeeps(o, s, c, conn.topics + Admitted(o, topics), conn.present);
    case Unsub(topics) => FollowKeeps(o, s, c, conn.topics - Droppable(topics), conn.present);
    case Present(room) => FollowKeeps(o, s, c, conn.topics, conn.present + {room});
    case Absent(room) => FollowKeeps(o, s, c, conn.topics, conn.present - {room});
  }

  lemma ReceiveKeeps(o: Options, s: Sys, c: nat, frame: ClientFrame)
    requires Inv(o, s) && Transparent(o) && Known(s, s.world.live) && c in s.world.handles
    ensures Inv(o, Receive(o, s, c, frame))
  {
    hide Inv, DeliverTo, Mine, Admit, SayHello, Record, WithConnection;
    if s.world.handles[c].open {
      match frame
      case Hello(resume, topics) => HelloKeeps(o, s, c, resume, topics);
      case TypingFrame(conv, on) => TypingKeeps(o, s, Outgoing(conv, Typing(o.viewerId, on), None), c);
      case Heartbeat =>
      case _ => SubscribeKeeps(o, s, c, frame);
    }
  }

  lemma HangUpKeeps(o: Options, s: Sys, c: nat, bye: bool)
    requires Inv(o, s) && c in s.world.handles
    ensures Inv(o, HangUp(s, c, bye))
    ensures HangUp(s, c, bye).world.live == Filter(s.world.live, (d: nat) => d != c)
    ensures HangUp(s, c, bye).world == s.world.(handles := HangUp(s, c, bye).world.handles, live := HangUp(s, c, bye).world.live)
  {
    hide SinceHello, Filter, Admit, PingsOk, Ordered;
    var told := if bye then Transmit(s, c, Bye(true, "server_restart")) else s;
    if bye {
      TransmitKeeps(o, s, c, Bye(true, "server_restart"));
      TransmitSends(s, c, Bye(true, "server_restart"));
    }
    ForgetKeeps(o, told, c);
    RefollowKeeps(o, Forget(told, c), HangUp(s, c, bye).world);
  }

  lemma {:induction false} HangUpAllKeeps(o: Options, s: Sys, ids: seq<nat>, bye: bool)
    requires Inv(o, s) && Known(s, ids)
    ensures Inv(o, HangUpAll(s, ids, bye))
    ensures var r := HangUpAll(s, ids, bye).world;
            && r == s.world.(handles := r.handles, live := r.live)
            && forall c | c in r.live :: c in s.world.live && c !in ids
  {
    if ids != [] {
      hide Inv, HangUp, Filter;
      HangUpAllKeeps(o, s, ids[..|ids| - 1], bye);
      HangUpKeeps(o, HangUpAll(s, ids[..|ids| - 1], bye), ids[|ids| - 1], bye);
    }
  }

  lemma {:induction false} ResyncKeeps(o: Options, s: Sys, ids: seq<nat>, why: string)
    requires Inv(o, s) && Known(s, ids)
    ensures Inv(o, ResyncTo(s, ids, why))
  {
    if ids != [] {
      hide Inv, Transmit;
      ResyncKeeps(o, s, ids[..|ids| - 1], why);
      var before, c := ResyncTo(s, ids[..|ids| - 1], why), ids[|ids| - 1];
      TransmitKeeps(o, before, c, Resync(before.world.handles[c].topics, why));
    }
  }

  lemma RestartKeeps(o: Options, s: Sys, epoch: string)
    requires Inv(o, s)
    ensures Inv(o, Restart(s, epoch))
    ensures Restart(s, epoch).world.live == []
  {
    TableKnown(s);
    hide Inv, HangUpAll;
    HangUpAllKeeps(o, s, s.world.live, true);
    var dropped := DropAll(s, true);
    FilterAllOrNone(dropped.world.live, (c: nat) => c !in s.world.live);
    NewEpochKeeps(o, dropped, epoch);
  }

  /** With every connection closed, the numbering may start over. */
  lemma NewEpochKeeps(o: Options, s: Sys, epoch: string)
    requires Inv(o, s) && s.world.live == []
    ensures Inv(o, s.(world := s.world.(epoch := epoch, seqNo := 0, ring := [], log := [])))
  {
    hide SinceHello, Admit;
    var r := s.(world := s.world.(epoch := epoch, seqNo := 0, ring := [], log := []));
    forall d | d in r.world.handles ensures PingOk(r, d) && Ordered(r.world.handles[d], 0) {
      assert PingOk(s, d) && Ordered(s.world.handles[d], s.world.seqNo);
    }
  }

  /** The scheduler's other users neither see nor touch a ping. */
  lemma ForeignKeeps(o: Options, s: Sys, ts: Timers<Action>)
    requires Inv(o, s)
    requires WellFormed(ts) && NotOverdue(ts)
    requires forall t | t in ts.pending :: t in s.timers.pending || t.action.Foreign?
    requires forall t | t in s.timers.pending && t.action.PingTimer? :: t in ts.pending
    ensures Inv(o, s.(timers := ts))
  {
    hide SinceHello, Admit;
    forall d | d in s.world.handles ensures PingOk(s.(timers := ts), d) {
      assert PingOk(s, d);
    }
  }

  lemma ApplyKeeps(o: Options, s: Sys, call: Call)
    requires Inv(o, s) && Transparent(o) && Known(s, s.world.live)
    ensures Inv(o, Apply(o, s, call))
  {
    hide Inv, SinceHello, Filter, DeliverTo, Receive, Publish, Restart, Forget, ResyncTo;
    match call
    case Connects => ConnectKeeps(o, s);
    case Receives(c, frame) => if c in s.world.handles { ReceiveKeeps(o, s, c, frame); }
    case Closes(c) => if c in s.world.handles { ForgetKeeps(o, s, c); }
    case Publishes(outs) => PublishKeeps(o, s, outs);
    case DropsAll(bye) => HangUpAllKeeps(o, s, s.world.live, bye);
    case ResyncsAll(why) => ResyncKeeps(o, s, s.world.live, why);
    case Restarts(epoch) => RestartKeeps(o, s, epoch);
    case Schedules(delay, tag) => SchedulesKeeps(o, s, delay, tag);
    case CancelsForeign(tag) => CancelsKeeps(o, s, tag);
  }

  lemma SchedulesKeeps(o: Options, s: Sys, delay: int, tag: nat)
    requires Inv(o, s)
    ensures Inv(o, s.(timers := Scheduled(s.timers, delay, Foreign(tag))))
  {
    ScheduleExtends(s.timers, delay, Foreign(tag));
    ForeignKeeps(o, s, Scheduled(s.timers, delay, Foreign(tag)));
  }

  lemma CancelsKeeps(o: Options, s: Sys, tag: nat)
    requires Inv(o, s)
    ensures Inv(o, s.(timers := s.timers.(pending := Filter(s.timers.pending, (t: Timer<Action>) => t.action != Foreign(tag)))))
  {
    FilterKeepsDistinct(s.timers.pending, (t: Timer<Action>) => t.action != Foreign(tag));
    ForeignKeeps(o, s, s.timers.(pending := Filter(s.timers.pending, (t: Timer<Action>) => t.action != Foreign(tag))));
  }

  lemma FireKeeps(o: Options, s: Sys, until: int)
    requires Inv(o, s) && NextDue(s.timers.pending, until).Some?
    ensures Inv(o, Fire(RunTimer, s, NextDue(s.timers.pending, until).value))
  {
    hide SinceHello, NextDue, Filter, Admit, PingsOk;
    FirePings(s, until);
    var t := NextDue(s.timers.pending, until).value;
    var taken, r := State(s.world, Taken(s.timers, t)), Fire(RunTimer, s, t);
    if t.action.PingTimer? && t.action.conn in s.world.handles {
      var c := t.action.conn;
      var cleared := WithConnection(taken, c, s.world.handles[c].(pingTimer := None));
      TransmitSends(cleared, c, PingFrame);
      SendsKeep(o, cleared, Transmit(cleared, c, PingFrame));
      SentBatch(s.world.handles[c].sent, taken.timers.clock, PingFrame);
      assert s.world.handles[c].sent + [] == s.world.handles[c].sent;
      assert forall d | d in s.world.handles :: Ordered(s.world.handles[d], s.world.seqNo);
    }
  }

  lemma SettleKeeps(o: Options, s: Sys, until: int)
    requires Inv(o, s) && Enabled(s, Settle(until))
    ensures Inv(o, AtTime(s, until))
  {
    hide SinceHello, NextDue, Admit;
    forall d | d in s.world.handles ensures PingOk(AtTime(s, until), d) {
      assert PingOk(s, d);
    }
  }

  lemma NextKeeps(o: Options, s: Sys, step: Step)
    requires Inv(o, s) && Transparent(o) && Known(s, s.world.live) && Enabled(s, step)
    ensures Inv(o, Next(o, s, step))
  {
    hide Inv, Apply, NextDue, Fire;
    match step
    case Do(call) => ApplyKeeps(o, s, call);
    case FireDue(until) => FireKeeps(o, s, until);
    case Settle(until) => SettleKeeps(o, s, until);
  }

  // ---------------------------------------------------------------------------------------------
  // Runs
  // ---------------------------------------------------------------------------------------------

  /** `steps` lead from `s` to `r`. */
  ghost predicate Runs(o: Options, s: Sys, steps: seq<Step>, r: Sys)
    decreases |steps|
  {
    if steps == [] then r == s
    else Known(s, s.world.live) && Enabled(s, steps[0]) && Runs(o, Next(o, s, steps[0]), steps[1..], r)
  }

  lemma {:induction false} RunKeeps(o: Options, s: Sys, steps: seq<Step>, r: Sys)
    requires Inv(o, s) && Transparent(o) && Runs(o, s, steps, r)
    ensures Inv(o, r)
    decreases |steps|
  {
    hide Inv, Next, Enabled;
    if steps != [] {
      NextKeeps(o, s, steps[0]);
      RunKeeps(o, Next(o, s, steps[0]), steps[1..], r);
    }
  }

  /** Every state the hub can reach satisfies the invariant. */
  lemma ReachableInv(o: Options, epoch: string, startMs: int, steps: seq<Step>, r: Sys)
    requires Transparent(o) && Runs(o, Initial(epoch, startMs), steps, r)
    ensures Inv(o, r)
  {
    InitialInv(o, epoch, startMs);
    RunKeeps(o, Initial(epoch, startMs), steps, r);
  }

  // --- resume -----------------------------------------------------------------------------------

  /** `hello` resumes exactly when the epoch matches, the client's point is one the hub has reached,
      and no event after that point has been evicted. */
  lemma ResumesExactly(h: HubState, token: Token)
    requires RingIsTail(h)
    ensures CanResume(h, Some(token)) <==>
              && token.epoch == h.epoch
              && 0 <= token.seqNo <= h.seqNo
              && forall e | e in h.log && e.seqNo > token.seqNo :: e in h.ring
  {
    if 0 <= token.seqNo <= h.seqNo {
      RingHolds(h, token.seqNo);
    }
  }

  /** The ring holds everything after `n` exactly when nothing after `n` was evicted. */
  lemma RingHolds(h: HubState, n: nat)
    requires RingIsTail(h) && n <= h.seqNo
    ensures (forall e | e in h.log && e.seqNo > n :: e in h.ring) <==> |h.log| - Kept(|h.log|) <= n
  {
    var evicted := |h.log| - Kept(|h.log|);
    if n < evicted {
      var e := h.log[n];
      assert e in h.log && e.seqNo == n + 1;
      forall f | f in h.ring ensures f.seqNo > e.seqNo {
        var i :| 0 <= i < |h.ring| && h.ring[i] == f;
        assert h.log[evicted + i] == f;
      }
    } else {
      forall e | e in h.log && e.seqNo > n ensures e in h.ring {
        var i :| 0 <= i < |h.log| && h.log[i] == e;
        assert h.ring[i - evicted] == e;
      }
    }
  }

  /** The ring holds the last 500 events of the log, or all of them while there are no more. */
  lemma RingExactly(h: HubState)
    requires RingIsTail(h)
    ensures h.seqNo == |h.log| && |h.ring| == (if |h.log| < 500 then |h.log| else 500)
    ensures h.ring == h.log[|h.log| - |h.ring|..]
    ensures forall i | 0 <= i < |h.log| :: h.log[i].seqNo == i + 1
  {
  }

  /** The replay from the ring is the replay from the unbounded log. */
  lemma ReplayIsLog(o: Options, h: HubState, token: Token, topics: set<string>)
    requires RingIsTail(h) && CanResume(h, Some(token))
    ensures Missed(o, h, token.seqNo, topics) ==
            ForViewer(o, Filter(h.log, (e: SyncEvent) => e.seqNo > token.seqNo && IsPlain(e) && e.topic in topics))
  {
    hide ForViewer;
    var keep := (e: SyncEvent) => e.seqNo > token.seqNo && IsPlain(e) && e.topic in topics;
    var evicted := |h.log| - Kept(|h.log|);
    assert h.log == h.log[..evicted] + h.ring;
    FilterConcat(h.log[..evicted], h.ring, keep);
    FilterAllOrNone(h.log[..evicted], keep);
    assert [] + Filter(h.ring, keep) == Filter(h.ring, keep);
  }

  /** Every epoch a run of restarts uses is new. */
  ghost predicate FreshEpochs(used: set<string>, steps: seq<Step>)
    decreases |steps|
  {
    if steps == [] then true
    else if steps[0].Do? && steps[0].call.Restarts? then
      steps[0].call.epoch !in used && FreshEpochs(used + {steps[0].call.epoch}, steps[1..])
    else FreshEpochs(used, steps[1..])
  }

  lemma NextEpoch(o: Options, s: Sys, step: Step)
    requires Inv(o, s) && Known(s, s.world.live) && Enabled(s, step)
    ensures Next(o, s, step).world.epoch == if step.Do? && step.call.Restarts? then step.call.epoch else s.world.epoch
  {
    hide Inv, NextDue, Filter, Mine, UnfollowAll, RecordAll, DeliverTo, HangUpAll, ResyncTo, ForViewer;
    if step.Do? {
      match step.call
      case Publishes(outs) =>
        var recorded := s.(world := RecordAll(s.world, outs));
        RecordAllKeeps(s.world, outs);
        var events := Stamped(s.world.seqNo, outs);
        DeliverOnlySends(o, recorded, recorded.world.live, events, None);
        UnfollowAllShrinks(Deliver(o, recorded, events, None).world, outs);
      case DropsAll(bye) => HangUpAllKeeps(o, s, s.world.live, bye);
      case ResyncsAll(why) => ResyncOnlySends(s, s.world.live, why);
      case Receives(c, frame) =>
        if frame.TypingFrame? && c in s.world.handles {
          var out := Outgoing(frame.conv, Typing(o.viewerId, frame.on), None);
          DeliverOnlySends(o, s.(world := Record(s.world, out)), s.world.live, [Stamp(s.world.seqNo + 1, out)], Some(c));
        }
      case _ =>
    }
  }

  lemma {:induction false} ResyncOnlySends(s: Sys, ids: seq<nat>, why: string)
    requires Known(s, ids)
    ensures OnlySends(s, ResyncTo(s, ids, why))
  {
    if ids != [] {
      hide Transmit;
      ResyncOnlySends(s, ids[..|ids| - 1], why);
      var before, c := ResyncTo(s, ids[..|ids| - 1], why), ids[|ids| - 1];
      TransmitSends(before, c, Resync(before.world.handles[c].topics, why));
    }
  }

  /** A token from an epoch that has ended never resumes again, however the run goes on. */
  lemma {:induction false} StaleTokenNeverResumes(o: Options, s: Sys, steps: seq<Step>, r: Sys, used: set<string>, token: Token)
    requires Inv(o, s) && Transparent(o) && Runs(o, s, steps, r)
    requires FreshEpochs(used, steps) && token.epoch in used && token.epoch != s.world.epoch
    ensures !CanResume(r.world, Some(token))
    decreases |steps|
  {
    hide Inv, Next, Enabled;
    if steps != [] {
      NextEpoch(o, s, steps[0]);
      NextKeeps(o, s, steps[0]);
      var isRestart := steps[0].Do? && steps[0].call.Restarts?;
      StaleTokenNeverResumes(o, Next(o, s, steps[0]), steps[1..], r,
                             if isRestart then used + {steps[0].call.epoch} else used, token);
    }
  }

  // --- keep-alive -------------------------------------------------------------------------------

  /** No open connection is ever silent for longer than 15 s, and exactly one pending timer sees to it. */
  lemma NeverSilent(o: Options, s: Sys, c: nat)
    returns (i: nat)
    requires Inv(o, s) && c in s.world.handles && s.world.handles[c].open
    ensures s.timers.clock - LastAt(s.world.handles[c]) <= 15_000
    ensures i < |s.timers.pending| && s.timers.pending[i].action == PingTimer(c)
    ensures s.timers.pending[i].at == LastAt(s.world.handles[c]) + 15_000
    ensures forall j | 0 <= j < |s.timers.pending| && s.timers.pending[j].action == PingTimer(c) :: j == i
  {
    hide SinceHello, Admit;
    var conn := s.world.handles[c];
    assert PingOk(s, c);
    var own := Timer(conn.pingTimer.value, LastAt(conn) + PING_AFTER_MS, PingTimer(c));
    i :| 0 <= i < |s.timers.pending| && s.timers.pending[i] == own;
    forall j | 0 <= j < |s.timers.pending| && s.timers.pending[j].action == PingTimer(c) ensures j == i {
      assert s.timers.pending[j] in s.timers.pending;
      assert s.timers.pending[j].id == own.id;
    }
  }

  /** A closed connection has no timer left. */
  lemma ClosedHasNoPing(o: Options, s: Sys, c: nat)
    requires Inv(o, s) && c in s.world.handles && !s.world.handles[c].open
    ensures forall t | t in s.timers.pending :: t.action != PingTimer(c)
  {
    assert PingOk(s, c);
  }

  /** A ping goes out after exactly 15 s without any other frame, and to an open connection. */
  lemma PingOnTime(o: Options, s: Sys, until: int, c: nat)
    requires Inv(o, s) && NextDue(s.timers.pending, until).Some?
    requires NextDue(s.timers.pending, until).value.action == PingTimer(c)
    ensures c in s.world.handles && s.world.handles[c].open
    ensures var r := Fire(RunTimer, s, NextDue(s.timers.pending, until).value);
            && r.timers.clock == LastAt(s.world.handles[c]) + 15_000
            && r.world.handles[c].sent == s.world.handles[c].sent + [Sent(r.timers.clock, PingFrame)]
            && forall d | d in s.world.handles && d != c :: r.world.handles[d] == s.world.handles[d]
  {
    hide SinceHello, Admit, NextDue, Filter;
    var t := NextDue(s.timers.pending, until).value;
    assert PingOk(s, c);
    var conn := s.world.handles[c];
    if conn.open {
      DistinctElements(s.timers.pending, t, Timer(conn.pingTimer.value, LastAt(conn) + PING_AFTER_MS, PingTimer(c)));
    }
    var cleared := WithConnection(State(s.world, Taken(s.timers, t)), c, conn.(pingTimer := None));
    TransmitSends(cleared, c, PingFrame);
  }

  lemma RunTimerLawful()
    ensures Lawful(RunTimer) && Rearms(RunTimer, PING_AFTER_MS, 1)
  {
    hide Filter;
    forall a: Action, s: Sys | WellFormed(s.timers)
      ensures WellFormed(RunTimer(a, s).timers) && Extends(s.timers, RunTimer(a, s).timers)
      ensures |Born(RunTimer(a, s).timers.pending, s.timers.nextId)| <= 1
      ensures forall t | t in Born(RunTimer(a, s).timers.pending, s.timers.nextId) :: t.at >= s.timers.clock + PING_AFTER_MS
    {
      var recent := (t: Timer<Action>) => t.id >= s.timers.nextId;
      FilterAllOrNone(s.timers.pending, recent);
      if a.PingTimer? && a.conn in s.world.handles && s.world.handles[a.conn].open {
        ScheduleExtends(s.timers, PING_AFTER_MS, a);
        var ping := Timer(s.timers.nextId, s.timers.clock + PING_AFTER_MS, a);
        assert RunTimer(a, s).timers.pending == s.timers.pending + [ping];
        FilterConcat(s.timers.pending, [ping], recent);
        FilterAllOrNone([ping], recent);
      } else {
        assert RunTimer(a, s).timers == s.timers;
      }
    }
  }

  /** `advance` on the hub's timers always ends, and is a run of the hub: so everything proved of runs
      holds throughout it. */
  lemma AdvanceIsRun(o: Options, s: Sys, ms: nat)
    returns (rounds: nat, steps: seq<Step>)
    requires Inv(o, s)
    ensures Settles(RunTimer, s, s.timers.clock + ms, rounds)
    ensures Runs(o, s, steps, Advanced(RunTimer, s, ms, rounds).state)
  {
    hide Inv, FireN, NextDue, Potential, Lawful, Rearms, RunTimer, WellFormed, Runs, Settles, Known;
    RunTimerLawful();
    var until := s.timers.clock + ms;
    rounds := Potential(s.timers.pending, until, PING_AFTER_MS, 1);
    InvTimers(o, s);
    AdvanceTerminates(RunTimer, s, until, PING_AFTER_MS, 1);
    steps := RoundsAreRun(o, s, until, rounds);
  }

  lemma InvTimers(o: Options, s: Sys)
    requires Inv(o, s)
    ensures WellFormed(s.timers) && Known(s, s.world.live)
  {
  }

  lemma {:induction false} RoundsAreRun(o: Options, s: Sys, until: int, n: nat)
    returns (steps: seq<Step>)
    requires Inv(o, s) && s.timers.clock <= until && Settles(RunTimer, s, until, n)
    ensures Runs(o, s, steps, AtTime(FireN(RunTimer, s, until, n).state, until))
    decreases n
  {
    hide Inv, NextDue, FireN, RunTimer, Runs, Apply, Fire, WellFormed;
    InvTimers(o, s);
    if Quiet(s, until) {
      NoRound(RunTimer, s, until, n);
      RunNowhere(o, AtTime(s, until));
      RunFirst(o, s, Settle(until), [], AtTime(s, until));
      steps := [Settle(until)] + [];
    } else {
      var t := NextDue(s.timers.pending, until).value;
      FirstRound(RunTimer, s, until, n, t);
      FireKeeps(o, s, until);
      RunTimerLawful();
      FireLeavesLater(RunTimer, s, until, t);
      var rest := RoundsAreRun(o, Fire(RunTimer, s, t), until, n - 1);
      RunFirst(o, s, FireDue(until), rest, AtTime(FireN(RunTimer, s, until, n).state, until));
      steps := [FireDue(until)] + rest;
    }
  }

  lemma RunNowhere(o: Options, s: Sys)
    ensures Runs(o, s, [], s)
  {
  }

  lemma RunFirst(o: Options, s: Sys, step: Step, rest: seq<Step>, r: Sys)
    requires Known(s, s.world.live) && Enabled(s, step)
    requires Runs(o, Next(o, s, step), rest, r)
    ensures Runs(o, s, [step] + rest, r)
  {
    hide Next, Enabled;
    assert ([step] + rest)[1..] == rest;
  }

  // --- presence ---------------------------------------------------------------------------------

  /** `presentRooms` is exactly what the open connections say they are looking at. */
  lemma PresentIsOpenUnion(o: Options, s: Sys, room: int)
    requires Inv(o, s)
    ensures room in PresentRooms(s.world) <==>
            exists c | c in s.world.handles :: s.world.handles[c].open && room in s.world.handles[c].present
  {
    if room in PresentRooms(s.world) {
      var c :| c in s.world.live && c in s.world.handles && room in s.world.handles[c].present;
      assert s.world.handles[c].open;
    }
  }
}
