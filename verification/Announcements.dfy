/**
 * What the viewer is told on their own topic (frontend/mock/server.ts): whatever changes in a room of the
 * viewer's, an event on that topic names the room, so a client that has all events misses no change.
 */
module Announcements {
  import opened Common
  import ReadState
  import Decimal
  import Hub
  import HubInvariants
  import HubRuns
  import HubResume
  import HubSessions
  import Posting
  import opened Workspace
  import ClientView

  /** The event, on the viewer's own topic, is about the room. */
  predicate Names(event: Hub.SyncEvent, room: nat) {
    && event.topic == "user" && event.payload.Update? && event.payload.data == Decimal.Print(room)
    && (event.payload.kind == "sidebar.row.upserted" || event.payload.kind == "room.read" || event.payload.kind == "room.unread")
  }

  ghost predicate Named(events: seq<Hub.SyncEvent>, room: nat) {
    exists event | event in events :: Names(event, room)
  }

  /** The log only grew, and names the room if anything about it changed: timeline, read state or mentions. */
  ghost predicate Heard(x: Space, y: Space, room: nat) {
    && x.hub.world.log <= y.hub.world.log
    && room in x.server.world.rooms && room in y.server.world.rooms
    && (y.server.world.rooms[room] != x.server.world.rooms[room] ==> Named(y.hub.world.log[|x.hub.world.log|..], room))
  }

  lemma HeardJoins(x: Space, y: Space, z: Space, room: nat)
    requires Heard(x, y, room) && Heard(y, z, room)
    ensures Heard(x, z, room)
  {
    hide Names;
    var a, b, c := x.hub.world.log, y.hub.world.log, z.hub.world.log;
    assert c[|a|..] == b[|a|..] + c[|b|..];
  }

  lemma StampedNames(seqNo: nat, outs: seq<Hub.Outgoing>, kind: string, room: nat)
    requires Event("user", kind, room) in outs && kind in {"sidebar.row.upserted", "room.read", "room.unread"}
    ensures Named(Hub.Stamped(seqNo, outs), room)
  {
    var i :| 0 <= i < |outs| && outs[i] == Event("user", kind, room);
    var event := Hub.Stamped(seqNo, outs)[i];
    assert event == Hub.Stamp(seqNo + i + 1, outs[i]) && Names(event, room);
  }

  // ---------------------------------------------------------------------------------------------
  // Messages
  // ---------------------------------------------------------------------------------------------

  /** A message in one room: that room is named if it is the viewer's, and no other room changes. */
  lemma PostHeard(e: Env, x: Space, y: Space, at: nat, draft: ReadState.Draft, now: int, room: nat)
    requires HubRuns.Inv(e.options, x.hub) && HubInvariants.Transparent(e.options)
    requires at in x.server.world.rooms && room in x.server.world.rooms && x.server.world.rooms[room].member
    requires var w, present := x.server.world, Hub.PresentRooms(x.hub.world);
             && y.server.world == ReadState.Next(w, ReadState.Posts(at, draft, now, present))
             && y.hub == Tell(e, x.hub, Announced(at, w.rooms[at], w.nextMessageId, draft, at in present))
    ensures Heard(x, y, room)
  {
    hide HubRuns.Inv, HubInvariants.Transparent, Tell, ReadState.Next, Announced, Names;
    var w, present, log := x.server.world, Hub.PresentRooms(x.hub.world), x.hub.world.log;
    var outs := Announced(at, w.rooms[at], w.nextMessageId, draft, at in present);
    TellGrows(e, x.hub, outs);
    PostTimelines(w, at, draft, now, present);
    assert y.hub.world.log[|log|..] == Hub.Stamped(x.hub.world.seqNo, outs);
    if at == room {
      AsideExactly(at, w.rooms[at], w.nextMessageId, draft, at in present);
      StampedNames(x.hub.world.seqNo, outs, "sidebar.row.upserted", room);
    }
  }

  /** The events tell the viewer this. */
  ghost predicate Says(events: seq<Hub.SyncEvent>, payload: Hub.Payload) {
    exists event | event in events :: event.topic == "user" && event.payload == payload
  }

  lemma SaysExactly(seqNo: nat, outs: seq<Hub.Outgoing>, payload: Hub.Payload)
    requires forall out | out in outs && out.topic == "user" :: out.unsubscribe.None?
    ensures Says(Hub.Stamped(seqNo, outs), payload) <==> Hub.Outgoing("user", payload, None) in outs
  {
    var out, events := Hub.Outgoing("user", payload, None), Hub.Stamped(seqNo, outs);
    if out in outs {
      var i :| 0 <= i < |outs| && outs[i] == out;
      assert events[i] in events && events[i] == Hub.Stamp(seqNo + i + 1, out);
    }
    if Says(events, payload) {
      var i :| 0 <= i < |events| && events[i].topic == "user" && events[i].payload == payload;
      assert events[i] == Hub.Stamp(seqNo + i + 1, outs[i]) && outs[i] in outs;
    }
  }

  /** Someone else's message, no system note, makes the log say that its room is unread exactly when no open
      connection looks at the room and it is not muted or the message mentions the viewer; a finished one
      notifies a member exactly as they follow the room, looked at or not. */
  lemma PostTells(e: Env, x: Space, room: nat, draft: ReadState.Draft)
    requires Inv(e, x) && room in x.server.world.rooms && !draft.fromViewer && !draft.systemNote
    ensures var log, r := x.hub.world.log, x.server.world.rooms[room];
            var id, after := Decimal.Print(x.server.world.nextMessageId), Next(e, x, SomeonePosts(room, draft)).hub.world.log;
            && log <= after
            && (Says(after[|log|..], Hub.Update("room.unread", id)) <==>
                  && !(exists c | c in x.hub.world.handles :: x.hub.world.handles[c].open && room in x.hub.world.handles[c].present)
                  && (r.involvement != ReadState.Muted || draft.mentionsViewer))
            && (Says(after[|log|..], Hub.Update("message.notified", id)) <==>
                  && !draft.streaming && r.member
                  && (r.involvement == ReadState.Everything || (draft.mentionsViewer && r.involvement != ReadState.Nothing)))
  {
    hide HubRuns.Inv, HubInvariants.Transparent, Posting.Inv, Told, Agrees, Tell, Announced, Says, Hub.Stamped, Hub.PresentRooms, ReadState.Next;
    var w, anonymous, id := x.server.world, draft.(clientId := None), x.server.world.nextMessageId;
    var viewing := room in Hub.PresentRooms(x.hub.world);
    var outs := Announced(room, w.rooms[room], id, anonymous, viewing);
    HubRuns.PresentIsOpenUnion(e.options, x.hub, room);
    TellGrows(e, x.hub, outs);
    AsideExactly(room, w.rooms[room], id, anonymous, viewing);
    OwnTopicKeeps(outs);
    SaysExactly(x.hub.world.seqNo, outs, Hub.Update("room.unread", Decimal.Print(id)));
    SaysExactly(x.hub.world.seqNo, outs, Hub.Update("message.notified", Decimal.Print(id)));
    var log, after := x.hub.world.log, Next(e, x, SomeonePosts(room, draft)).hub.world.log;
    assert after[|log|..] == Hub.Stamped(x.hub.world.seqNo, outs);
  }

  lemma OwnTopicKeeps(outs: seq<Hub.Outgoing>)
    requires outs != [] && outs[0].unsubscribe.None? && forall out | out in outs[1..] :: out.unsubscribe.None?
    ensures forall out | out in outs :: out.unsubscribe.None?
  {
    assert outs == [outs[0]] + outs[1..];
  }

  lemma NothingHeard(x: Space, y: Space, room: nat)
    requires y.hub.world.log == x.hub.world.log && y.server.world == x.server.world && room in x.server.world.rooms
    ensures Heard(x, y, room)
  {
  }

  lemma ServeHeard(e: Env, x: Space, request: Posting.Request, room: nat)
    requires Sound(e, x) && room in x.server.world.rooms && x.server.world.rooms[room].member
    ensures Heard(x, Serve(e, x, request), room)
  {
    hide HubRuns.Inv, HubInvariants.Transparent, Posting.Inv, Told, ReadState.Next, Tell, Announced, Posting.KeyOf, Agrees, Heard;
    var y, outside := Serve(e, x, request), Outside(e, x.hub);
    var response := Posting.Respond(outside, x.server, request.room, request.body);
    if response.Created? {
      var id := response.message.id;
      PostHeard(e, x, y, request.room, response.message.draft, e.now(id), room);
    } else {
      NothingHeard(x, y, room);
    }
  }

  /** Membership stands still. */
  lemma StillMember(e: Env, x: Space, y: Space, room: nat)
    requires Agrees(e, x.server.world) && Agrees(e, y.server.world)
    requires room in x.server.world.rooms && x.server.world.rooms[room].member && room in y.server.world.rooms
    ensures y.server.world.rooms[room].member
  {
    assert e.options.memberOf(room);
  }

  lemma {:induction false} ServeAllHeard(e: Env, x: Space, requests: seq<Posting.Request>, room: nat)
    requires Sound(e, x) && room in x.server.world.rooms && x.server.world.rooms[room].member
    ensures Heard(x, ServeAll(e, x, requests), room)
  {
    hide HubRuns.Inv, HubInvariants.Transparent, Posting.Inv, Told, Agrees, Serve, Named;
    if requests == [] {
      NothingHeard(x, x, room);
    } else {
      var front, last := requests[..|requests| - 1], requests[|requests| - 1];
      var mid := ServeAll(e, x, front);
      ServeAllHeard(e, x, front, room);
      ServeAllKeeps(e, x, front);
      StillMember(e, x, mid, room);
      ServeHeard(e, mid, last, room);
      HeardJoins(x, mid, ServeAll(e, x, requests), room);
    }
  }

  // ---------------------------------------------------------------------------------------------
  // Marks
  // ---------------------------------------------------------------------------------------------

  lemma MarkLog(e: Env, x: Space, step: ReadState.Step, kind: string)
    requires Inv(e, x)
    ensures Mark(e, x, step, kind).hub.world.log ==
            x.hub.world.log + if Marks(x.server.world, step)
                              then [Hub.SyncEvent(|x.hub.world.log| + 1, "user", Hub.Update(kind, Decimal.Print(step.room)))] else []
  {
    hide HubInvariants.Transparent, Posting.Inv, Told, Agrees, ReadState.Next, Tell, Marks;
    hide HubInvariants.Table, HubInvariants.PingsOk, HubInvariants.AllOrdered, HubInvariants.TopicsOk;
    assert |x.hub.world.log| == x.hub.world.seqNo;
    hide HubRuns.Inv;
    TellGrows(e, x.hub, [Event("user", kind, step.room)]);
  }

  /** Marking a room says so, once, exactly when it is one of the viewer's and the message is there. */
  lemma MarkTells(e: Env, x: Space, room: nat, message: int)
    requires Inv(e, x)
    ensures var log := x.hub.world.log;
            Next(e, x, MarksRoomRead(room)).hub.world.log ==
            log + if room in x.server.world.rooms && x.server.world.rooms[room].member
                  then [Hub.SyncEvent(|log| + 1, "user", Hub.Update("room.read", Decimal.Print(room)))] else []
    ensures var log := x.hub.world.log;
            Next(e, x, MarksRoomUnread(room, message)).hub.world.log ==
            log + if room in x.server.world.rooms && x.server.world.rooms[room].member
                     && exists m | m in x.server.world.rooms[room].messages :: m.id == message
                  then [Hub.SyncEvent(|log| + 1, "user", Hub.Update("room.unread", Decimal.Print(room)))] else []
  {
    hide Inv, Mark;
    MarkLog(e, x, ReadState.MarksRead(room), "room.read");
    MarkLog(e, x, ReadState.MarksUnread(room, message), "room.unread");
    if room in x.server.world.rooms {
      MessageThere(x.server.world.rooms[room].messages, message);
    }
  }

  lemma MessageThere(messages: seq<ReadState.Message>, id: int)
    ensures ReadState.IndexOf(messages, id).Some? <==> exists m | m in messages :: m.id == id
  {
  }

  lemma MarkHeard(e: Env, x: Space, step: ReadState.Step, kind: string, room: nat)
    requires Inv(e, x) && room in x.server.world.rooms && kind in {"room.read", "room.unread"}
    requires step.MarksRead? || step.MarksUnread?
    ensures Heard(x, Mark(e, x, step, kind), room)
  {
    hide HubRuns.Inv, HubInvariants.Transparent, Posting.Inv, Told, Agrees, Tell, Names, Hub.Stamped;
    var y, outs := Mark(e, x, step, kind), [Event("user", kind, step.room)];
    if Marks(x.server.world, step) {
      TellGrows(e, x.hub, outs);
      assert y.hub.world.log[|x.hub.world.log|..] == Hub.Stamped(x.hub.world.seqNo, outs);
      assert outs[0] in outs;
      StampedNames(x.hub.world.seqNo, outs, kind, step.room);
    }
  }

  // ---------------------------------------------------------------------------------------------
  // Whole runs
  // ---------------------------------------------------------------------------------------------

  lemma StepHeard(e: Env, x: Space, step: Step, room: nat)
    requires Inv(e, x) && Enabled(x, step) && ClientView.SameEpoch([step])
    requires room in x.server.world.rooms && x.server.world.rooms[room].member
    ensures Heard(x, Next(e, x, step), room)
  {
    hide HubRuns.Inv, HubInvariants.Transparent, Posting.Inv, Told, Agrees, Mark, Serve, ServeAll, ReadState.Next, Hub.Next, Hub.Enabled, Named;
    var s := x.server;
    match step
    case Sends(request) =>
      QueueKeeps(e, x, s.holding, s.held, s.arrived + [request]);
      if !s.holding { ServeHeard(e, x.(server := s.(arrived := s.arrived + [request])), request, room); }
    case Holds(on) =>
      QueueKeeps(e, x, on, [], s.arrived);
      if !on { ServeAllHeard(e, x.(server := s.(holding := on, held := [])), s.held, room); }
    case Releases =>
      QueueKeeps(e, x, s.holding, [], s.arrived);
      ServeAllHeard(e, x.(server := s.(held := [])), s.held, room);
    case SomeonePosts(at, draft) =>
      if at in s.world.rooms {
        PostHeard(e, x, Next(e, x, step), at, draft.(clientId := None), e.now(s.world.nextMessageId), room);
      }
    case MarksRoomRead(at) => MarkHeard(e, x, ReadState.MarksRead(at), "room.read", room);
    case MarksRoomUnread(at, message) => MarkHeard(e, x, ReadState.MarksUnread(at, message), "room.unread", room);
    case HubMoves(move) =>
      assert step in [step];
      HubResume.HubLog(e.options, x.hub, move);
  }

  /** Over every run within the hub's epoch, whatever changed in a room of the viewer's was told: an event on
      the viewer's own topic names the room. */
  lemma {:induction false} ChangesAreTold(e: Env, x: Space, steps: seq<Step>, y: Space, room: nat)
    requires Inv(e, x) && Runs(e, x, steps, y) && ClientView.SameEpoch(steps)
    requires room in x.server.world.rooms && x.server.world.rooms[room].member
    ensures Heard(x, y, room)
    decreases |steps|
  {
    hide HubRuns.Inv, HubInvariants.Transparent, Posting.Inv, Told, Agrees, Next, Enabled, Named;
    if steps == [] {
      NothingHeard(x, y, room);
    } else {
      var mid := Next(e, x, steps[0]);
      ClientView.EpochParts(steps);
      StepHeard(e, x, steps[0], room);
      NextKeeps(e, x, steps[0]);
      StillMember(e, x, mid, room);
      ChangesAreTold(e, mid, steps[1..], y, room);
      HeardJoins(x, mid, y, room);
    }
  }

  // ---------------------------------------------------------------------------------------------
  // What a client hears
  // ---------------------------------------------------------------------------------------------

  /** `eventForViewer` shows the viewer what is on their own topic, as it is. */
  ghost predicate ShowsOwn(o: Hub.Options) {
    forall event: Hub.SyncEvent {:trigger o.show(event)} ::
      event.topic == "user" && event.payload.Update? ==> o.show(event) == Some(event)
  }

  lemma {:induction false} NamedShown(o: Hub.Options, events: seq<Hub.SyncEvent>, mine: set<string>, room: nat)
    requires HubInvariants.Transparent(o) && ShowsOwn(o) && "user" in mine && Named(events, room)
    ensures Named(HubResume.PlainMine(o, events, mine), room)
  {
    hide HubInvariants.Transparent, HubResume.PlainMine, Names;
    var front, last := events[..|events| - 1], events[|events| - 1];
    assert events == front + [last];
    HubResume.PlainMineConcat(o, front, [last], mine);
    if Named(front, room) {
      NamedShown(o, front, mine, room);
    } else {
      OneNamedShown(o, last, mine, room);
    }
  }

  lemma OneNamedShown(o: Hub.Options, event: Hub.SyncEvent, mine: set<string>, room: nat)
    requires ShowsOwn(o) && "user" in mine && Names(event, room)
    ensures HubResume.PlainMine(o, [event], mine) == [event]
  {
    assert [event][..0] == [];
    assert o.show(event) == Some(event);
    assert Hub.OnTopics([event], mine) == [event] && Hub.ForViewer(o, [event]) == [event];
    assert HubResume.Plain([event]) == [event];
  }

  /** A client that says hello and lives through any number of drops, until a session arrives whole, has been
      told of every room of the viewer's in which anything is not as it was. */
  lemma ClientHearsOfChanges(e: Env, x: Space, steps: seq<Step>, y: Space, room: nat, mine: set<string>, sessions: seq<HubSessions.Session>)
    requires Reachable(e, x) && Runs(e, x, steps, y) && ClientView.SameEpoch(steps)
    requires room in x.server.world.rooms && x.server.world.rooms[room].member && ShowsOwn(e.options) && "user" in mine
    requires HubSessions.Lives(e.options, x.hub, |x.hub.world.log|, mine, sessions, y.hub) && HubSessions.Complete(sessions)
    ensures room in y.server.world.rooms
    ensures y.server.world.rooms[room] != x.server.world.rooms[room] ==> Named(HubSessions.Applied(sessions), room)
  {
    hide HubRuns.Inv, HubInvariants.Transparent, HubSessions.Lives, HubSessions.Complete, HubSessions.Applied, HubSessions.LastPoint,
         HubResume.PlainMine, Posting.Inv, Agrees, Told, ShowsOwn, Reachable, Runs, Named;
    ReachableInv(e, x);
    ChangesAreTold(e, x, steps, y, room);
    var k, log := |x.hub.world.log|, y.hub.world.log;
    HubSessions.SessionsFollow(e.options, x.hub, k, mine, sessions, y.hub);
    if y.server.world.rooms[room] != x.server.world.rooms[room] {
      NamedShown(e.options, log[k..], mine, room);
      var p := HubSessions.LastPoint(k, sessions);
      assert log[k..] == log[k..p] + log[p..];
      HubResume.PlainMineConcat(e.options, log[k..p], log[p..], mine);
      assert HubResume.PlainMine(e.options, log[k..p], mine) + [] == HubResume.PlainMine(e.options, log[k..p], mine);
    }
  }
}
