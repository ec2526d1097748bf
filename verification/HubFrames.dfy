/**
 * What a client's frame or a publication changes (frontend/mock/sync.ts): topics, presence, and who is told
 * of typing, each said of the connections themselves.
 */
module HubFrames {
  import opened Common
  import opened Scheduler
  import opened Hub
  import opened HubInvariants
  import opened HubRuns
  import opened HubResume
  import Decimal

  /** Room topics are admitted to members and thread topics to those with access, by the number after the
      colon; every other topic is admitted to anyone. */
  lemma AdmitExactly(o: Options, digits: string, topic: string)
    requires digits != "" && Decimal.AllDigits(digits)
    ensures Admit(o, "room:" + digits) <==> o.memberOf(Decimal.Value(digits))
    ensures Admit(o, "thread:" + digits) <==> o.threadAccess(Decimal.Value(digits))
    ensures (forall d | d != "" && Decimal.AllDigits(d) :: topic != "room:" + d && topic != "thread:" + d) ==> Admit(o, topic)
  {
    var room, thread := "room:" + digits, "thread:" + digits;
    assert room[0] == 'r' && "thread:"[0] == 't' && thread[0] == 't' && "room:"[0] == 'r';
    assert room[|"room:"|..] == digits && thread[|"thread:"|..] == digits;
    if "room:" < topic { assert topic == "room:" + topic[|"room:"|..]; }
    if "thread:" < topic { assert topic == "thread:" + topic[|"thread:"|..]; }
  }

  /** A hello starts over: its admitted topics and the viewer's own. Subscribing adds exactly the admitted ones
      and unsubscribing takes exactly the named ones but the viewer's own; nobody else's change. */
  lemma TopicsExactly(o: Options, s: Sys, c: nat, frame: ClientFrame, t: string)
    requires Inv(o, s) && Known(s, s.world.live) && c in s.world.handles && s.world.handles[c].open
    requires frame.Hello? || frame.Sub? || frame.Unsub?
    ensures var r := Receive(o, s, c, frame).world;
            && c in r.handles
            && (t in r.handles[c].topics <==>
                  match frame
                  case Hello(_, topics) => t == "user" || (t in topics && Admit(o, t))
                  case Sub(topics) => t in s.world.handles[c].topics || (t in topics && Admit(o, t))
                  case Unsub(topics) => t in s.world.handles[c].topics && (t == "user" || t !in topics)
                  case _ => false)
            && forall d | d in s.world.handles && d != c :: d in r.handles && r.handles[d] == s.world.handles[d]
  {
    hide SayHello, Admit, Inv;
    match frame
    case Hello(resume, topics) => HelloOnlySends(o, s, c, resume, topics);
    case _ =>
  }

  /** Another open connection looks at the room. */
  ghost predicate LooksElsewhere(s: Sys, c: nat, room: int) {
    exists d | d in s.world.handles && d != c :: s.world.handles[d].open && room in s.world.handles[d].present
  }

  /** The rooms looked at, once only `c` has changed. */
  lemma PresenceWith(o: Options, s: Sys, r: Sys, c: nat, room: int)
    requires Inv(o, s) && Inv(o, r) && c in s.world.handles && s.world.handles[c].open
    requires c in r.world.handles && r.world.handles.Keys == s.world.handles.Keys
    requires forall d | d in s.world.handles && d != c :: r.world.handles[d] == s.world.handles[d]
    ensures room in PresentRooms(r.world) <==>
            LooksElsewhere(s, c, room) || (r.world.handles[c].open && room in r.world.handles[c].present)
    ensures room in PresentRooms(s.world) <==> LooksElsewhere(s, c, room) || room in s.world.handles[c].present
  {
    PresentIsOpenUnion(o, s, room);
    PresentIsOpenUnion(o, r, room);
    hide Inv, PresentRooms;
  }

  /** Saying that it looks at a room of the viewer's puts the room among those looked at. */
  lemma PresentExactly(o: Options, s: Sys, c: nat, room: int, other: int)
    requires Inv(o, s) && Known(s, s.world.live) && c in s.world.handles && s.world.handles[c].open
    ensures other in PresentRooms(Receive(o, s, c, Present(room)).world) <==>
            other in PresentRooms(s.world) || (other == room && o.memberOf(room))
  {
    SubscribeKeeps(o, s, c, Present(room));
    hide Inv, PresentRooms;
    PresenceWith(o, s, Receive(o, s, c, Present(room)), c, other);
  }

  /** Saying that it does no more takes it out unless another connection looks too. */
  lemma AbsentExactly(o: Options, s: Sys, c: nat, room: int, other: int)
    requires Inv(o, s) && Known(s, s.world.live) && c in s.world.handles && s.world.handles[c].open
    ensures other in PresentRooms(Receive(o, s, c, Absent(room)).world) <==>
            other in PresentRooms(s.world) && (other != room || LooksElsewhere(s, c, room))
  {
    SubscribeKeeps(o, s, c, Absent(room));
    hide Inv, PresentRooms;
    PresenceWith(o, s, Receive(o, s, c, Absent(room)), c, other);
  }

  /** And so does closing, for every room. */
  lemma ClosedIsAbsent(o: Options, s: Sys, c: nat, room: int)
    requires Inv(o, s) && c in s.world.handles && s.world.handles[c].open
    ensures room in PresentRooms(Forget(s, c).world) <==> LooksElsewhere(s, c, room)
  {
    ForgetKeeps(o, s, c);
    hide Inv, PresentRooms, Filter;
    PresenceWith(o, s, Forget(s, c), c, room);
  }

  // --- unsubscribing with a publication ---------------------------------------------------------

  /** The topics a connection is left with: publication by publication, it loses what is to be unsubscribed
      if it then follows the publication's topic. */
  function TopicsAfter(topics: set<string>, outs: seq<Outgoing>): set<string> {
    if outs == [] then topics
    else
      var before, out := TopicsAfter(topics, outs[..|outs| - 1]), outs[|outs| - 1];
      if out.unsubscribe.Some? && out.topic in before then before - {out.unsubscribe.value} else before
  }

  lemma {:induction false} UnfollowsExactly(h: HubState, outs: seq<Outgoing>, c: nat)
    requires c in h.handles && c in h.live
    ensures var r := UnfollowAll(h, outs);
            r.live == h.live && c in r.handles && r.handles[c].topics == TopicsAfter(h.handles[c].topics, outs)
  {
    if outs != [] {
      UnfollowsExactly(h, outs[..|outs| - 1], c);
    }
  }

  /** A publication is delivered on the topics as they were, and then changes those of the open connections. */
  lemma PublishUnfollows(o: Options, s: Sys, outs: seq<Outgoing>, c: nat)
    requires Inv(o, s) && Known(s, s.world.live) && c in s.world.handles && s.world.handles[c].open
    ensures c in Publish(o, s, outs).world.handles
    ensures Publish(o, s, outs).world.handles[c].topics == TopicsAfter(s.world.handles[c].topics, outs)
  {
    hide UnfollowAll, RecordAll, DeliverTo, PingsOk, AllOrdered, RingIsTail, TopicsOk;
    var recorded := s.(world := RecordAll(s.world, outs));
    RecordAllKeeps(s.world, outs);
    var events := Stamped(s.world.seqNo, outs);
    DeliverOnlySends(o, recorded, recorded.world.live, events, None);
    UnfollowsExactly(Deliver(o, recorded, events, None).world, outs, c);
  }

  // --- typing -----------------------------------------------------------------------------------

  /** Typing in an admitted topic is one event of the log, told to every other open connection that follows
      it and is shown it, and never to the typist. In another topic it is nothing. */
  lemma TypingExactly(o: Options, s: Sys, d: nat, conv: string, on: bool, c: nat) returns (extra: seq<Sent>)
    requires Inv(o, s) && Known(s, s.world.live) && c in s.world.handles && d in s.world.handles && s.world.handles[d].open
    ensures var r := Receive(o, s, d, TypingFrame(conv, on));
            var event := SyncEvent(|s.world.log| + 1, conv, Typing(o.viewerId, on));
            && SentMore(s, r, c, extra)
            && r.world.log == s.world.log + (if Admit(o, conv) then [event] else [])
            && BatchEvents(extra) ==
               if Admit(o, conv) && c != d && s.world.handles[c].open && conv in s.world.handles[c].topics && o.show(event).Some?
               then [o.show(event).value] else []
  {
    hide Admit, PingsOk, AllOrdered, TopicsOk, Table;
    extra := ReceiveExtra(o, s, d, TypingFrame(conv, on), c);
    var event := SyncEvent(|s.world.log| + 1, conv, Typing(o.viewerId, on));
    OneMine(o, event, s.world.handles[c].topics);
    MineNothing(o, s.world.handles[c].topics);
    assert s.world.log + [] == s.world.log;
  }

  lemma OneMine(o: Options, event: SyncEvent, topics: set<string>)
    ensures Mine(o, [event], topics) == if event.topic in topics && o.show(event).Some? then [o.show(event).value] else []
  {
    OneOnTopics(event, topics);
    OneForViewer(o, event);
    NothingForViewer(o);
    hide OnTopics, ForViewer;
  }

  lemma OneOnTopics(event: SyncEvent, topics: set<string>)
    ensures OnTopics([event], topics) == if event.topic in topics then [event] else []
  {
    assert [event][..0] == [];
  }

  lemma OneForViewer(o: Options, event: SyncEvent)
    ensures ForViewer(o, [event]) == if o.show(event).Some? then [o.show(event).value] else []
  {
    assert [event][..0] == [];
  }

  lemma NothingForViewer(o: Options)
    ensures ForViewer(o, []) == []
  {
  }

  // ---------------------------------------------------------------------------------------------
  // Connecting, dropping, resyncing, restarting
  // ---------------------------------------------------------------------------------------------

  /** A new connection follows the viewer's own topic alone, looks at nothing and has been told nothing. What
      a closed connection sends, and a heartbeat, is nothing. */
  lemma ConnectExactly(o: Options, s: Sys, c: nat, frame: ClientFrame)
    requires Inv(o, s) && Known(s, s.world.live)
    ensures var id, r := s.world.nextConnectionId, Connect(s);
            && id !in s.world.handles && r.world.handles.Keys == s.world.handles.Keys + {id}
            && r.world.handles[id].open && !r.world.handles[id].hungUp
            && r.world.handles[id].topics == {"user"} && r.world.handles[id].present == {} && r.world.handles[id].sent == []
            && (forall d | d in s.world.handles :: r.world.handles[d] == s.world.handles[d])
    ensures c in s.world.handles && (!s.world.handles[c].open || frame.Heartbeat?) ==> Receive(o, s, c, frame) == s
  {
  }

  lemma HangUpSays(s: Sys, d: nat, bye: bool, c: nat)
    requires c in s.world.handles && d in s.world.handles
    ensures var before, r := s.world.handles[c], HangUp(s, d, bye);
            && r.timers.clock == s.timers.clock && c in r.world.handles
            && (c != d ==> r.world.handles[c] == before)
            && (c == d ==>
                  && !r.world.handles[c].open && r.world.handles[c].hungUp
                  && r.world.handles[c].sent ==
                     before.sent + if bye && before.open then [Sent(s.timers.clock, Bye(true, "server_restart"))] else [])
  {
    if bye {
      TransmitSends(s, d, Bye(true, "server_restart"));
    }
  }

  lemma {:induction false} HangUpAllSays(s: Sys, ids: seq<nat>, bye: bool, c: nat)
    requires Known(s, ids) && Distinct(ids) && c in s.world.handles
    ensures var before, r := s.world.handles[c], HangUpAll(s, ids, bye);
            && r.timers.clock == s.timers.clock && c in r.world.handles
            && (c !in ids ==> r.world.handles[c] == before)
            && (c in ids ==>
                  && !r.world.handles[c].open && r.world.handles[c].hungUp
                  && r.world.handles[c].sent ==
                     before.sent + if bye && before.open then [Sent(s.timers.clock, Bye(true, "server_restart"))] else [])
  {
    if ids != [] {
      hide HangUp;
      var front, d := ids[..|ids| - 1], ids[|ids| - 1];
      assert ids == front + [d] && d !in front;
      HangUpAllSays(s, front, bye, c);
      HangUpSays(HangUpAll(s, front, bye), d, bye, c);
    }
  }

  /** Dropping everyone closes and hangs up every open connection, telling it to come back only with a bye. */
  lemma DropAllExactly(o: Options, s: Sys, bye: bool, c: nat)
    requires Inv(o, s) && Known(s, s.world.live) && c in s.world.handles
    ensures var before, r := s.world.handles[c], DropAll(s, bye);
            && r.world.live == [] && c in r.world.handles && r.world.epoch == s.world.epoch && r.world.log == s.world.log
            && (if !before.open then r.world.handles[c] == before
                else
                  && !r.world.handles[c].open && r.world.handles[c].hungUp
                  && r.world.handles[c].sent ==
                     before.sent + if bye then [Sent(s.timers.clock, Bye(true, "server_restart"))] else [])
  {
    hide HangUpAll, PingsOk, RingIsTail, TopicsOk;
    HangUpAllKeeps(o, s, s.world.live, bye);
    FilterAllOrNone(DropAll(s, bye).world.live, (d: nat) => d !in s.world.live);
    HangUpAllSays(s, s.world.live, bye, c);
  }

  /** A restart drops everyone with a bye and starts the named epoch from nothing; its next event is number 1. */
  lemma RestartExactly(o: Options, s: Sys, epoch: string, c: nat, out: Outgoing)
    requires Inv(o, s) && Known(s, s.world.live) && c in s.world.handles
    ensures var r := Restart(s, epoch).world;
            && r.epoch == epoch && r.seqNo == 0 && r.log == [] && r.ring == [] && r.live == []
            && r.handles == DropAll(s, true).world.handles && r.nextConnectionId == s.world.nextConnectionId
            && Record(r, out).log == [SyncEvent(1, out.topic, out.payload)]
  {
    hide HangUpAll, PingsOk, RingIsTail, TopicsOk;
    HangUpAllKeeps(o, s, s.world.live, true);
    FilterAllOrNone(DropAll(s, true).world.live, (d: nat) => d !in s.world.live);
  }

  lemma {:induction false} ResyncOnlySends(s: Sys, ids: seq<nat>, why: string)
    requires Known(s, ids)
    ensures OnlySends(s, ResyncTo(s, ids, why))
  {
    if ids != [] {
      hide Transmit;
      ResyncOnlySends(s, ids[..|ids| - 1], why);
      var before, d := ResyncTo(s, ids[..|ids| - 1], why), ids[|ids| - 1];
      TransmitSends(before, d, Resync(before.world.handles[d].topics, why));
    }
  }

  lemma {:induction false} ResyncSays(s: Sys, ids: seq<nat>, why: string, c: nat)
    requires Known(s, ids) && Distinct(ids) && c in s.world.handles
    ensures ResyncTo(s, ids, why).world.handles[c].sent == s.world.handles[c].sent +
              if c in ids && s.world.handles[c].open then [Sent(s.timers.clock, Resync(s.world.handles[c].topics, why))] else []
  {
    if ids != [] {
      var front, d := ids[..|ids| - 1], ids[|ids| - 1];
      assert ids == front + [d] && d !in front;
      assert Distinct(front);
      hide Transmit, Distinct;
      ResyncSays(s, front, why, c);
      ResyncOnlySends(s, front, why);
      var before := ResyncTo(s, front, why);
      assert SameSocket(s.world.handles[d], before.world.handles[d]) && before.timers.clock == s.timers.clock;
      hide OnlySends;
      SentTo(before, d, Resync(before.world.handles[d].topics, why), c);
    }
  }

  /** A resync tells every open connection its own topics, once, and does nothing else. */
  lemma ResyncExactly(o: Options, s: Sys, why: string, c: nat)
    requires Inv(o, s) && Known(s, s.world.live) && c in s.world.handles
    ensures var r := ResyncTo(s, s.world.live, why);
            && OnlySends(s, r)
            && r.world.handles[c].sent == s.world.handles[c].sent +
               if s.world.handles[c].open then [Sent(s.timers.clock, Resync(s.world.handles[c].topics, why))] else []
  {
    hide ResyncTo, PingsOk, RingIsTail, TopicsOk;
    ResyncOnlySends(s, s.world.live, why);
    ResyncSays(s, s.world.live, why, c);
  }

  /** The rooms followed are those whose topic, the number after the colon, some open connection has. */
  lemma SubscribedExactly(o: Options, s: Sys, room: int)
    requires Inv(o, s)
    ensures room in SubscribedRooms(s.world) <==>
            exists c, digits | c in s.world.handles && digits != "" && Decimal.AllDigits(digits) && Decimal.Value(digits) == room ::
              s.world.handles[c].open && "room:" + digits in s.world.handles[c].topics
  {
    hide PingsOk, RingIsTail, TopicsOk;
    if room in SubscribedRooms(s.world) {
      var c, topic :| c in s.world.live && topic in s.world.handles[c].topics && RoomIdOf(topic) == Some(room as nat);
      var digits := topic[|"room:"|..];
      assert topic == "room:" + digits;
    }
    forall c, digits | c in s.world.handles && digits != "" && Decimal.AllDigits(digits) && Decimal.Value(digits) == room
                       && s.world.handles[c].open && "room:" + digits in s.world.handles[c].topics
      ensures room in SubscribedRooms(s.world)
    {
      var topic := "room:" + digits;
      assert topic[|"room:"|..] == digits && "room:" < topic;
      assert RoomIdOf(topic) == Some(room);
    }
  }
}
