/**
 * `createSyncHub` (frontend/mock/sync.ts) as the object it is: closure state that every handler
 * updates, proved to do what the functions of `Hub` say and to keep the invariant of `HubRuns`.
 */
module SyncHubObject {
  import opened Common
  import opened Scheduler
  import opened Hub
  import HubRuns
  import HubInvariants

  class SyncHub {
    const options: Options
    var epoch: string
    var seqNo: nat
    var ring: seq<SyncEvent>
    var handles: map<nat, Connection>
    var live: seq<nat>
    var nextConnectionId: nat
    /** The injected scheduler's clock and timers. */
    var timers: Timers<Action>
    ghost var log: seq<SyncEvent>

    ghost function Now(): Sys
      reads this
    {
      State(HubState(epoch, seqNo, ring, handles, live, nextConnectionId, log), timers)
    }

    ghost predicate Valid()
      reads this
    {
      HubRuns.Inv(options, Now()) && HubInvariants.Transparent(options) && Known(Now(), live)
    }

    constructor (options: Options, epoch: string, startMs: int)
      requires HubInvariants.Transparent(options)
      ensures this.options == options && Now() == Initial(epoch, startMs) && Valid()
    {
      this.options, this.epoch := options, epoch;
      seqNo, ring, handles, live, nextConnectionId, log := 0, [], map[], [], 1, [];
      timers := Timers(startMs, 1, []);
      new;
      HubRuns.InitialInv(options, epoch, startMs);
    }

    // --- closures ---------------------------------------------------------------------------------

    method ArmPing(c: nat)
      requires c in handles
      modifies this
      ensures Now() == Hub.ArmPing(old(Now()), c)
    {
      if handles[c].pingTimer.Some? {
        timers := Cancelled(timers, handles[c].pingTimer.value);
      }
      var id := timers.nextId;
      timers := Scheduled(timers, PING_AFTER_MS, PingTimer(c));
      handles := handles[c := handles[c].(pingTimer := Some(id))];
    }

    method Transmit(c: nat, frame: ServerFrame)
      requires c in handles
      modifies this
      ensures Now() == Hub.Transmit(old(Now()), c, frame)
    {
      if !handles[c].open { return; }
      handles := handles[c := handles[c].(sent := handles[c].sent + [Sent(timers.clock, frame)])];
      ArmPing(c);
    }

    method Forget(c: nat)
      requires c in handles
      modifies this
      ensures Now() == Hub.Forget(old(Now()), c)
    {
      ghost var conn := handles[c];
      handles := handles[c := handles[c].(open := false)];
      if handles[c].pingTimer.Some? {
        timers := Cancelled(timers, handles[c].pingTimer.value);
      }
      handles := handles[c := handles[c].(pingTimer := None)];
      live := Filter(live, (d: nat) => d != c);
      assert handles == old(handles)[c := conn.(open := false, pingTimer := None)];
    }

    method Record(out: Outgoing) returns (event: SyncEvent)
      modifies this
      ensures Now() == old(Now()).(world := Hub.Record(old(Now()).world, out))
      ensures event == Stamp(old(seqNo) + 1, out)
    {
      seqNo := seqNo + 1;
      event := SyncEvent(seqNo, out.topic, out.payload);
      ring := ring + [event];
      if |ring| > RING_SIZE {
        ring := ring[|ring| - RING_SIZE..];
      }
      log := log + [event];
    }

    method Deliver(events: seq<SyncEvent>, except: Option<nat>)
      requires Known(Now(), live)
      modifies this
      ensures Now() == Hub.Deliver(options, old(Now()), events, except)
    {
      hide Mine, Hub.Transmit;
      ghost var start := Now();
      var connections := live;
      for i := 0 to |connections|
        invariant Known(start, connections[..i]) && Now() == DeliverTo(options, start, connections[..i], events, except)
      {
        var c := connections[i];
        assert connections[..i + 1][..i] == connections[..i];
        if Some(c) != except {
          var mine := Mine(options, events, handles[c].topics);
          if |mine| > 0 {
            Transmit(c, Batch(mine));
          }
        }
      }
      assert connections[..|connections|] == connections;
    }

    /** Only connection `c`'s topics differ from `before`. */
    ghost predicate OnlyTopics(before: Sys, c: nat, topics: set<string>)
      reads this
    {
      && c in before.world.handles
      && Now() == before.(world := before.world.(handles := handles))
      && handles == before.world.handles[c := before.world.handles[c].(topics := topics)]
    }

    method SetTopics(c: nat, topics: set<string>, ghost before: Sys)
      requires c in handles && OnlyTopics(before, c, handles[c].topics)
      modifies this
      ensures OnlyTopics(before, c, topics)
    {
      handles := handles[c := handles[c].(topics := topics)];
    }

    method Follow(c: nat, topics: seq<string>)
      requires c in handles
      modifies this
      ensures OnlyTopics(old(Now()), c, old(handles)[c].topics + Admitted(options, topics))
    {
      ghost var start, held := Now(), handles[c].topics;
      assert handles == handles[c := handles[c].(topics := held)];
      for i := 0 to |topics|
        invariant c in handles && OnlyTopics(start, c, handles[c].topics)
        invariant handles[c].topics == held + Admitted(options, topics[..i])
      {
        assert Admitted(options, topics[..i + 1]) ==
               Admitted(options, topics[..i]) + if Admit(options, topics[i]) then {topics[i]} else {};
        if Admit(options, topics[i]) {
          SetTopics(c, handles[c].topics + {topics[i]}, start);
        }
      }
      assert topics[..|topics|] == topics;
    }

    method Unfollow(c: nat, topics: seq<string>)
      requires c in handles
      modifies this
      ensures OnlyTopics(old(Now()), c, old(handles)[c].topics - Droppable(topics))
    {
      ghost var start, held := Now(), handles[c].topics;
      assert handles == handles[c := handles[c].(topics := held)];
      for i := 0 to |topics|
        invariant c in handles && OnlyTopics(start, c, handles[c].topics)
        invariant handles[c].topics == held - Droppable(topics[..i])
      {
        assert Droppable(topics[..i + 1]) == Droppable(topics[..i]) + if topics[i] != "user" then {topics[i]} else {};
        if topics[i] != "user" {
          SetTopics(c, handles[c].topics - {topics[i]}, start);
        }
      }
      assert topics[..|topics|] == topics;
    }

    /** A hello forgets what was followed before it. */
    method FollowOnly(c: nat, topics: seq<string>)
      requires c in handles
      modifies this
      ensures OnlyTopics(old(Now()), c, {"user"} + Admitted(options, topics))
    {
      hide Admitted;
      ghost var start := Now();
      assert handles == handles[c := handles[c].(topics := handles[c].topics)];
      SetTopics(c, {}, start);
      SetTopics(c, {"user"}, start);
      Follow(c, topics);
    }

    method Hello(c: nat, resume: Option<Token>, topics: seq<string>)
      requires c in handles
      modifies this
      ensures Now() == SayHello(options, old(Now()), c, resume, topics)
    {
      hide Hub.Transmit, ForViewer, Filter, Admitted;
      FollowOnly(c, topics);
      var oldest := if |ring| > 0 then ring[0].seqNo else seqNo + 1;
      if resume.None? || resume.value.epoch != epoch || resume.value.seqNo > seqNo || resume.value.seqNo < oldest - 1 {
        Transmit(c, Welcome(epoch, seqNo, false, seqNo, options.viewerId));
        return;
      }
      var from, mine := resume.value.seqNo, handles[c].topics;
      HubInvariants.TransmitSends(Now(), c, Welcome(epoch, from, true, seqNo, options.viewerId));
      Transmit(c, Welcome(epoch, from, true, seqNo, options.viewerId));
      var missed := ForViewer(options, Filter(ring, (e: SyncEvent) => e.seqNo > from && IsPlain(e) && e.topic in mine));
      if |missed| > 0 {
        Transmit(c, Batch(missed));
      }
    }

    // --- timers -----------------------------------------------------------------------------------

    /** The scheduler runs its next due timer; a ping's callback forgets its timer and transmits. */
    method RunNext(until: int)
      requires Valid() && NextDue(timers.pending, until).Some?
      modifies this
      ensures Now() == Hub.Next(options, old(Now()), FireDue(until)) && Valid()
    {
      hide HubRuns.Inv, HubInvariants.Transparent, NextDue, Filter, Hub.Transmit;
      ghost var start := Now();
      HubRuns.NextKeeps(options, start, FireDue(until));
      var t := NextDue(timers.pending, until).value;
      timers := Taken(timers, t);
      if t.action.PingTimer? && t.action.conn in handles {
        var c := t.action.conn;
        handles := handles[c := handles[c].(pingTimer := None)];
        Transmit(c, PingFrame);
      }
      HubRuns.InvTimers(options, Now());
    }

    /** The end of an `advance`, with nothing left to run. */
    method MoveClock(until: int)
      requires Valid() && timers.clock <= until && NextDue(timers.pending, until).None?
      modifies this
      ensures Now() == Hub.Next(options, old(Now()), Settle(until)) && Valid()
    {
      hide HubRuns.Inv, HubInvariants.Transparent, NextDue;
      HubRuns.NextKeeps(options, Now(), Settle(until));
      timers := timers.(clock := until);
      HubRuns.InvTimers(options, Now());
    }

    // --- the hub's interface ----------------------------------------------------------------------

    method Receive(c: nat, frame: ClientFrame)
      requires Valid() && c in handles
      modifies this
      ensures Now() == Hub.Receive(options, old(Now()), c, frame) && Valid()
    {
      hide HubRuns.Inv, Hub.DeliverTo, Hub.SayHello, Hub.Admit, HubInvariants.Transparent;
      HubRuns.ReceiveKeeps(options, Now(), c, frame);
      var conn := handles[c];
      if conn.open {
        match frame
        case Hello(resume, topics) => Hello(c, resume, topics);
        case Sub(topics) => Follow(c, topics);
        case Unsub(topics) => Unfollow(c, topics);
        case TypingFrame(conv, on) =>
          if Admit(options, conv) {
            var event := Record(Outgoing(conv, Typing(options.viewerId, on), None));
            Deliver([event], Some(c));
          }
        case Present(room) =>
          if options.memberOf(room) {
            handles := handles[c := conn.(present := conn.present + {room})];
          }
        case Absent(room) => handles := handles[c := conn.(present := conn.present - {room})];
        case Heartbeat =>
      }
      HubRuns.InvTimers(options, Now());
    }

    method Connect() returns (c: nat)
      requires Valid()
      modifies this
      ensures Now() == Hub.Connect(old(Now())) && Valid()
      ensures c == old(nextConnectionId)
    {
      hide HubRuns.Inv, HubInvariants.Transparent;
      HubRuns.ConnectKeeps(options, Now());
      c := nextConnectionId;
      nextConnectionId := nextConnectionId + 1;
      handles := handles[c := Connection(timers.clock, {"user"}, {}, None, true, false, [])];
      live := live + [c];
      ArmPing(c);
      HubRuns.InvTimers(options, Now());
    }

    method Close(c: nat)
      requires Valid() && c in handles
      modifies this
      ensures Now() == Hub.Forget(old(Now()), c) && Valid()
    {
      HubRuns.ForgetKeeps(options, Now(), c);
      Forget(c);
      HubRuns.InvTimers(options, Now());
    }

    method Publish(outs: seq<Outgoing>)
      requires Valid()
      modifies this
      ensures Now() == Hub.Publish(options, old(Now()), outs) && Valid()
    {
      ghost var start := Now();
      HubRuns.PublishKeeps(options, start, outs);
      var events := RecordEach(outs);
      RecordAllKeeps(start.world, outs);
      HubInvariants.DeliverOnlySends(options, Now(), live, events, None);
      Deliver(events, None);
      Unsubscribe(outs);
      HubRuns.InvTimers(options, Now());
    }

    method RecordEach(outs: seq<Outgoing>) returns (events: seq<SyncEvent>)
      modifies this
      ensures Now() == old(Now()).(world := RecordAll(old(Now()).world, outs))
      ensures events == Stamped(old(seqNo), outs)
    {
      events := [];
      for i := 0 to |outs|
        invariant Now() == old(Now()).(world := RecordAll(old(Now()).world, outs[..i]))
        invariant seqNo == old(seqNo) + i
        invariant events == Stamped(old(seqNo), outs[..i])
      {
        assert outs[..i + 1][..i] == outs[..i];
        var event := Record(outs[i]);
        events := events + [event];
      }
      assert outs[..|outs|] == outs;
    }

    method Unsubscribe(outs: seq<Outgoing>)
      requires Known(Now(), live)
      modifies this
      ensures Now() == old(Now()).(world := UnfollowAll(old(Now()).world, outs))
    {
      for i := 0 to |outs|
        invariant Now() == old(Now()).(world := UnfollowAll(old(Now()).world, outs[..i]))
        invariant Known(Now(), live)
      {
        assert outs[..i + 1][..i] == outs[..i];
        if outs[i].unsubscribe.Some? {
          Unfollowing(outs[i].topic, outs[i].unsubscribe.value);
        }
      }
      assert outs[..|outs|] == outs;
    }

    method Unfollowing(topic: string, gone: string)
      requires Known(Now(), live)
      modifies this
      ensures Now() == old(Now()).(world := Hub.Unfollow(old(Now()).world, topic, gone))
      ensures Known(Now(), live)
    {
      ghost var h := Now().world;
      ghost var start := Now();
      assert handles == Hub.Unfollow(h.(live := live[..0]), topic, gone).handles;
      for i := 0 to |live|
        invariant Now() == start.(world := h.(handles := handles))
        invariant handles == Hub.Unfollow(h.(live := live[..i]), topic, gone).handles
      {
        var c := live[i];
        UnfollowNext(h, i, topic, gone);
        if topic in handles[c].topics {
          handles := handles[c := handles[c].(topics := handles[c].topics - {gone})];
        }
      }
      assert live[..|live|] == live;
    }

    method PresentRooms() returns (rooms: set<int>)
      requires Valid()
      ensures rooms == Hub.PresentRooms(Now().world)
      ensures forall room :: room in rooms <==> exists c | c in handles :: handles[c].open && room in handles[c].present
    {
      rooms := {};
      for i := 0 to |live|
        invariant forall room :: room in rooms <==> exists c | c in live[..i] :: room in handles[c].present
      {
        var c := live[i];
        assert forall d :: d in live[..i + 1] <==> d in live[..i] || d == c;
        rooms := rooms + handles[c].present;
      }
      assert live[..|live|] == live;
      forall room ensures room in rooms <==> room in Hub.PresentRooms(Now().world) {
      }
      forall room ensures room in rooms <==> exists c | c in handles :: handles[c].open && room in handles[c].present {
        HubRuns.PresentIsOpenUnion(options, Now(), room);
      }
    }

    /** In ascending order and once each, the rooms some connection follows. */
    method SubscribedRooms() returns (rooms: seq<int>)
      requires Valid()
      ensures (set room | room in rooms) == Hub.SubscribedRooms(Now().world)
      ensures forall i, j | 0 <= i < j < |rooms| :: rooms[i] < rooms[j]
    {
      rooms := [];
      for i := 0 to |live|
        invariant forall room :: room in rooms <==> exists c | c in live[..i] :: room in RoomsOf(handles[c].topics)
        invariant Climbing(rooms)
      {
        var c := live[i];
        assert forall d :: d in live[..i + 1] <==> d in live[..i] || d == c;
        var left := RoomsOf(handles[c].topics);
        ghost var had := rooms;
        while left != {}
          invariant left <= RoomsOf(handles[c].topics) && Climbing(rooms)
          invariant forall room :: room in rooms <==> room in had || room in RoomsOf(handles[c].topics) - left
        {
          var room :| room in left;
          PlaceKeeps(rooms, room);
          rooms := Place(rooms, room);
          left := left - {room};
        }
      }
      assert live[..|live|] == live;
      forall room ensures room in rooms <==> room in Hub.SubscribedRooms(Now().world) {
      }
    }

    method HangUp(c: nat, bye: bool)
      requires c in handles
      modifies this
      ensures Now() == Hub.HangUp(old(Now()), c, bye)
    {
      if bye {
        Transmit(c, Bye(true, "server_restart"));
      }
      Forget(c);
      handles := handles[c := handles[c].(hungUp := true)];
    }

    method DropAll(bye: bool)
      requires Valid()
      modifies this
      ensures Now() == Hub.DropAll(old(Now()), bye) && Valid()
    {
      hide HubRuns.Inv, Hub.HangUp, HubInvariants.Transparent;
      ghost var start := Now();
      HubRuns.HangUpAllKeeps(options, start, live, bye);
      var connections := live;
      for i := 0 to |connections|
        invariant Known(start, connections[..i]) && Now() == HangUpAll(start, connections[..i], bye)
      {
        var c := connections[i];
        assert connections[..i + 1][..i] == connections[..i];
        HangUp(c, bye);
      }
      assert connections[..|connections|] == connections;
      HubRuns.InvTimers(options, Now());
    }

    method ResyncAll(why: string)
      requires Valid()
      modifies this
      ensures Now() == ResyncTo(old(Now()), old(live), why) && Valid()
    {
      hide HubRuns.Inv, Hub.Transmit, HubInvariants.Transparent;
      ghost var start := Now();
      HubRuns.ResyncKeeps(options, start, live, why);
      var connections := live;
      for i := 0 to |connections|
        invariant Known(start, connections[..i]) && Now() == ResyncTo(start, connections[..i], why)
      {
        var c := connections[i];
        assert connections[..i + 1][..i] == connections[..i];
        Transmit(c, Resync(handles[c].topics, why));
      }
      assert connections[..|connections|] == connections;
      HubRuns.InvTimers(options, Now());
    }

    method Restart(nextEpoch: string)
      requires Valid()
      modifies this
      ensures Now() == Hub.Restart(old(Now()), nextEpoch) && Valid()
    {
      hide HubRuns.Inv, HubInvariants.Transparent, Hub.DropAll;
      HubRuns.RestartKeeps(options, Now(), nextEpoch);
      DropAll(true);
      epoch, seqNo, ring, log := nextEpoch, 0, [], [];
      HubRuns.InvTimers(options, Now());
    }
  }

  lemma UnfollowNext(h: HubState, i: nat, topic: string, gone: string)
    requires i < |h.live| && h.live[i] in h.handles
    ensures var a, b := Hub.Unfollow(h.(live := h.live[..i]), topic, gone).handles, Hub.Unfollow(h.(live := h.live[..i + 1]), topic, gone).handles;
            var c := h.live[i];
            b == if topic in a[c].topics then a[c := a[c].(topics := a[c].topics - {gone})] else a
  {
    var c, early, late := h.live[i], h.live[..i], h.live[..i + 1];
    assert late == early + [c];
    var a, b := Hub.Unfollow(h.(live := early), topic, gone).handles, Hub.Unfollow(h.(live := late), topic, gone).handles;
    assert forall d | d in h.handles && d != c :: a[d] == b[d];
    assert h.handles[c].topics - {gone} - {gone} == h.handles[c].topics - {gone};
    assert b == a[c := b[c]];
  }

  function RoomsOf(topics: set<string>): set<int> {
    set topic | topic in topics && RoomIdOf(topic).Some? :: RoomIdOf(topic).value
  }

  /** A room put in its place, unless it is there already. */
  function Place(rooms: seq<int>, room: int): seq<int> {
    if room in rooms then rooms else Insert(room, rooms, (a: int, b: int) => a < b)
  }

  lemma PlaceKeeps(rooms: seq<int>, room: int)
    requires Climbing(rooms)
    ensures Climbing(Place(rooms, room)) && forall x :: x in Place(rooms, room) <==> x in rooms || x == room
  {
    if room !in rooms {
      InsertKeepsOrder(room, rooms, (a: int, b: int) => a < b);
      var r := Place(rooms, room);
      forall x ensures x in r <==> x in rooms || x == room {
        assert x in r <==> x in multiset(r);
      }
    }
  }
}
