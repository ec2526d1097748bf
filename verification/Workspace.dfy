/**
 * The mock server as a whole (frontend/mock/server.ts): posting, read state and the sync hub in one state.
 * Which rooms are looked at is what the hub's connections say, and every message that is created is
 * announced on the hub. The viewer's memberships stand still.
 */
module Workspace {
  import opened Common
  import opened ReadState
  import Decimal
  import Scheduler
  import Hub
  import HubInvariants
  import HubRuns
  import HubResume
  import Posting

  /** `base` is a history: how long each timeline was when the hub's epoch began. */
  datatype Space = Space(server: Posting.Server, hub: Hub.Sys, base: map<nat, nat>)

  /** The hub's options, and what the clock reads when the message with a given id is made. */
  datatype Env = Env(options: Hub.Options, now: nat -> int)

  // ---------------------------------------------------------------------------------------------
  // Announcing
  // ---------------------------------------------------------------------------------------------

  const CREATED := "message.created"

  function RoomTopic(room: nat): string {
    "room:" + Decimal.Print(room)
  }

  function Event(topic: string, kind: string, about: nat): Hub.Outgoing {
    Hub.Outgoing(topic, Hub.Update(kind, Decimal.Print(about)), None)
  }

  /** `pushPolicyNotified`. */
  predicate Notifies(r: Room, draft: Draft) {
    && !draft.fromViewer && !draft.systemNote && !draft.streaming && r.member
    && (r.involvement == Everything || ((r.involvement == Mentions || r.involvement == Muted) && draft.mentionsViewer))
  }

  /** What `createMessage` publishes about message `id` of a room that was `r` before it. */
  function Announced(room: nat, r: Room, id: nat, draft: Draft, viewing: bool): seq<Hub.Outgoing> {
    [Event(RoomTopic(room), CREATED, id)] + Aside(room, r, id, draft, viewing)
  }

  /** What is published about it on the viewer's own topic. */
  function Aside(room: nat, r: Room, id: nat, draft: Draft, viewing: bool): seq<Hub.Outgoing> {
    (if !draft.fromViewer && !draft.systemNote && !viewing && !Quiet(r, draft) then [Event("user", "room.unread", id)] else [])
    + (if r.member then [Event("user", "sidebar.row.upserted", room)] else [])
    + (if Notifies(r, draft) then [Event("user", "message.notified", id)] else [])
  }

  ghost function Tell(e: Env, hub: Hub.Sys, outs: seq<Hub.Outgoing>): Hub.Sys {
    if Hub.Known(hub, hub.world.live) then Hub.Publish(e.options, hub, outs) else hub
  }

  // ---------------------------------------------------------------------------------------------
  // Steps
  // ---------------------------------------------------------------------------------------------

  /** The clock, and the rooms some connection looks at now. */
  function Outside(e: Env, hub: Hub.Sys): Posting.Outside {
    Posting.Outside(e.now, (id: nat) => Hub.PresentRooms(hub.world))
  }

  /** `createMessage` for someone else's message. */
  ghost function Create(e: Env, x: Space, room: nat, draft: Draft): Space {
    var w := x.server.world;
    if room !in w.rooms then x
    else
      var id, anonymous := w.nextMessageId, draft.(clientId := None);
      var present := Hub.PresentRooms(x.hub.world);
      x.(server := x.server.(world := ReadState.Next(w, Posts(room, anonymous, e.now(id), present))),
         hub := Tell(e, x.hub, Announced(room, w.rooms[room], id, anonymous, room in present)))
  }

  ghost function Serve(e: Env, x: Space, request: Posting.Request): Space {
    var outside := Outside(e, x.hub);
    var response := Posting.Respond(outside, x.server, request.room, request.body);
    var server := Posting.Serve(outside, x.server, request);
    if !response.Created? then x.(server := server)
    else
      var r, viewing := x.server.world.rooms[request.room], request.room in Hub.PresentRooms(x.hub.world);
      x.(server := server, hub := Tell(e, x.hub, Announced(request.room, r, response.message.id, response.message.draft, viewing)))
  }

  ghost function ServeAll(e: Env, x: Space, requests: seq<Posting.Request>): Space {
    if requests == [] then x else Serve(e, ServeAll(e, x, requests[..|requests| - 1]), requests[|requests| - 1])
  }

  ghost function Release(e: Env, x: Space): Space {
    ServeAll(e, x.(server := x.server.(held := [])), x.server.held)
  }

  /** `markRead` and `markUnread`: not found, or done and told. */
  predicate Marks(w: State, step: ReadState.Step) {
    && step.room in w.rooms && w.rooms[step.room].member
    && (step.MarksUnread? ==> IndexOf(w.rooms[step.room].messages, step.message).Some?)
  }

  ghost function Mark(e: Env, x: Space, step: ReadState.Step, kind: string): Space {
    if !Marks(x.server.world, step) then x
    else x.(server := x.server.(world := ReadState.Next(x.server.world, step)), hub := Tell(e, x.hub, [Event("user", kind, step.room)]))
  }

  datatype Step =
    | Sends(request: Posting.Request)
    | Holds(on: bool)
    | Releases
    | SomeonePosts(room: nat, draft: Draft)
    | MarksRoomRead(room: nat)
    | MarksRoomUnread(room: nat, message: int)
    | HubMoves(step: Hub.Step)

  /** The hub moves by itself, but only `createMessage` says that a message was created. */
  ghost predicate Enabled(x: Space, step: Step) {
    step.HubMoves? ==>
      && Hub.Known(x.hub, x.hub.world.live) && Hub.Enabled(x.hub, step.step)
      && (step.step.Do? && step.step.call.Publishes? ==>
            forall out | out in step.step.call.outs && out.payload.Update? :: out.payload.kind != CREATED)
  }

  ghost function Next(e: Env, x: Space, step: Step): Space
    requires Enabled(x, step)
  {
    match step
    case Sends(request) =>
      var arriving := x.(server := x.server.(arrived := x.server.arrived + [request]));
      if x.server.holding then arriving.(server := arriving.server.(held := x.server.held + [request])) else Serve(e, arriving, request)
    case Holds(on) =>
      if on then x.(server := x.server.(holding := true)) else Release(e, x.(server := x.server.(holding := false)))
    case Releases => Release(e, x)
    case SomeonePosts(room, draft) => Create(e, x, room, draft)
    case MarksRoomRead(room) => Mark(e, x, MarksRead(room), "room.read")
    case MarksRoomUnread(room, message) => Mark(e, x, MarksUnread(room, message), "room.unread")
    case HubMoves(move) =>
      x.(hub := Hub.Next(e.options, x.hub, move),
         base := if move.Do? && move.call.Restarts? then Lengths(x.server.world) else x.base)
  }

  function Lengths(w: State): map<nat, nat> {
    map room | room in w.rooms :: |w.rooms[room].messages|
  }

  // ---------------------------------------------------------------------------------------------
  // The hub's log and the timelines
  // ---------------------------------------------------------------------------------------------

  /** What the log says was created in a room, in order. */
  function CreatedIn(log: seq<Hub.SyncEvent>, room: nat): seq<string> {
    if log == [] then []
    else
      var last := log[|log| - 1];
      CreatedIn(log[..|log| - 1], room) +
      if last.topic == RoomTopic(room) && last.payload.Update? && last.payload.kind == CREATED then [last.payload.data] else []
  }

  function Ids(messages: seq<Message>): seq<string> {
    seq(|messages|, (i: nat) requires i < |messages| => Decimal.Print(messages[i].id))
  }

  /** In every room the log tells exactly the messages created since the epoch began. */
  ghost predicate Told(x: Space) {
    forall room | room in x.server.world.rooms ::
      && room in x.base && x.base[room] <= |x.server.world.rooms[room].messages|
      && CreatedIn(x.hub.world.log, room) == Ids(x.server.world.rooms[room].messages[x.base[room]..])
  }

  lemma {:induction false} CreatedConcat(a: seq<Hub.SyncEvent>, b: seq<Hub.SyncEvent>, room: nat)
    ensures CreatedIn(a + b, room) == CreatedIn(a, room) + CreatedIn(b, room)
  {
    if b == [] {
      assert a + b == a;
    } else {
      assert (a + b)[..|a + b| - 1] == a + b[..|b| - 1];
      CreatedConcat(a, b[..|b| - 1], room);
    }
  }

  /** Events that say nothing of a message created. */
  ghost predicate Silent(events: seq<Hub.SyncEvent>) {
    forall event | event in events && event.payload.Update? :: event.payload.kind != CREATED
  }

  lemma {:induction false} SilentCreates(events: seq<Hub.SyncEvent>, room: nat)
    requires Silent(events)
    ensures CreatedIn(events, room) == []
  {
    if events != [] {
      assert events[|events| - 1] in events;
      SilentCreates(events[..|events| - 1], room);
    }
  }

  lemma TopicsDiffer(room: nat, other: nat)
    ensures RoomTopic(room) == RoomTopic(other) <==> room == other
    ensures RoomTopic(room) != "user"
  {
    assert RoomTopic(room)[5..] == Decimal.Print(room) && RoomTopic(other)[5..] == Decimal.Print(other);
    assert RoomTopic(room)[0] == 'r';
    if Decimal.Print(room) == Decimal.Print(other) { Decimal.PrintInjective(room, other); }
  }

  lemma AsideSilent(room: nat, r: Room, id: nat, draft: Draft, viewing: bool)
    ensures forall out | out in Aside(room, r, id, draft, viewing) :: out.payload.Update? && out.payload.kind != CREATED
  {
  }

  lemma {:induction false} StampedFirst(seqNo: nat, out: Hub.Outgoing, rest: seq<Hub.Outgoing>)
    ensures Hub.Stamped(seqNo, [out] + rest) == [Hub.Stamp(seqNo + 1, out)] + Hub.Stamped(seqNo + 1, rest)
  {
    hide Hub.Stamp;
    var all, split := Hub.Stamped(seqNo, [out] + rest), [Hub.Stamp(seqNo + 1, out)] + Hub.Stamped(seqNo + 1, rest);
    forall i | 0 <= i < |all| ensures all[i] == split[i] {
      if i > 0 { assert split[i] == Hub.Stamped(seqNo + 1, rest)[i - 1] && ([out] + rest)[i] == rest[i - 1]; }
    }
  }

  lemma StampedSilent(seqNo: nat, outs: seq<Hub.Outgoing>)
    requires forall out | out in outs && out.payload.Update? :: out.payload.kind != CREATED
    ensures Silent(Hub.Stamped(seqNo, outs))
  {
    var events := Hub.Stamped(seqNo, outs);
    forall event | event in events && event.payload.Update? ensures event.payload.kind != CREATED {
      var i :| 0 <= i < |events| && events[i] == event;
      assert event == Hub.Stamp(seqNo + i + 1, outs[i]) && outs[i] in outs;
    }
  }

  lemma CreatedOne(event: Hub.SyncEvent, room: nat)
    requires event.payload.Update? && event.payload.kind == CREATED
    ensures CreatedIn([event], room) == if event.topic == RoomTopic(room) then [event.payload.data] else []
  {
    assert [event][..0] == [];
  }

  /** One announcement creates one message, in its own room. */
  lemma AnnouncedCreates(seqNo: nat, room: nat, r: Room, id: nat, draft: Draft, viewing: bool, other: nat)
    ensures CreatedIn(Hub.Stamped(seqNo, Announced(room, r, id, draft, viewing)), other) ==
            if other == room then [Decimal.Print(id)] else []
  {
    hide CreatedIn, Aside, RoomTopic, Hub.Stamped;
    var out, rest := Event(RoomTopic(room), CREATED, id), Aside(room, r, id, draft, viewing);
    var first := Hub.Stamp(seqNo + 1, out);
    StampedFirst(seqNo, out, rest);
    AsideSilent(room, r, id, draft, viewing);
    StampedSilent(seqNo + 1, rest);
    SilentCreates(Hub.Stamped(seqNo + 1, rest), other);
    CreatedConcat([first], Hub.Stamped(seqNo + 1, rest), other);
    CreatedOne(first, other);
    TopicsDiffer(room, other);
  }

  // ---------------------------------------------------------------------------------------------
  // What every step keeps
  // ---------------------------------------------------------------------------------------------

  /** The hub admits to the rooms the viewer is a member of: both read one list. */
  ghost predicate Agrees(e: Env, w: State) {
    forall room: int :: e.options.memberOf(room) <==> room >= 0 && room in w.rooms && w.rooms[room].member
  }

  lemma MembersStand(e: Env, w: State, step: ReadState.Step)
    requires Agrees(e, w) && !step.Belongs?
    ensures Agrees(e, ReadState.Next(w, step))
  {
    var v := ReadState.Next(w, step);
    assert v.rooms.Keys == w.rooms.Keys && forall room | room in w.rooms :: v.rooms[room].member == w.rooms[room].member;
  }

  /** All but the queue. */
  ghost predicate Sound(e: Env, x: Space) {
    && HubRuns.Inv(e.options, x.hub) && HubInvariants.Transparent(e.options)
    && Posting.Inv(x.server) && Told(x) && Agrees(e, x.server.world)
  }

  ghost predicate Inv(e: Env, x: Space) {
    Sound(e, x) && Posting.Queued(x.server)
  }

  /** The hub keeps its invariant, and its log gains what is published. */
  lemma TellGrows(e: Env, hub: Hub.Sys, outs: seq<Hub.Outgoing>)
    requires HubRuns.Inv(e.options, hub) && HubInvariants.Transparent(e.options)
    ensures HubRuns.Inv(e.options, Tell(e, hub, outs))
    ensures Tell(e, hub, outs).world.log == hub.world.log + Hub.Stamped(hub.world.seqNo, outs)
  {
    hide HubRuns.Inv, HubInvariants.Transparent, Hub.UnfollowAll, Hub.RecordAll, Hub.DeliverTo, Hub.Known;
    HubRuns.InvTimers(e.options, hub);
    HubRuns.PublishKeeps(e.options, hub, outs);
    HubResume.PublishLog(e.options, hub, outs);
  }

  /** A message appended and announced. */
  lemma CreatedTold(x: Space, y: Space, room: nat, m: Message, told: seq<Hub.SyncEvent>)
    requires Told(x) && room in x.server.world.rooms && y.base == x.base
    requires y.server.world.rooms.Keys == x.server.world.rooms.Keys
    requires y.server.world.rooms[room].messages == x.server.world.rooms[room].messages + [m]
    requires forall other | other in x.server.world.rooms && other != room :: y.server.world.rooms[other].messages == x.server.world.rooms[other].messages
    requires y.hub.world.log == x.hub.world.log + told
    requires forall other :: CreatedIn(told, other) == if other == room then [Decimal.Print(m.id)] else []
    ensures Told(y)
  {
    hide CreatedIn;
    forall other | other in y.server.world.rooms
      ensures other in y.base && y.base[other] <= |y.server.world.rooms[other].messages|
      ensures CreatedIn(y.hub.world.log, other) == Ids(y.server.world.rooms[other].messages[y.base[other]..])
    {
      CreatedConcat(x.hub.world.log, told, other);
      var before, after := x.server.world.rooms[other].messages, y.server.world.rooms[other].messages;
      if other == room {
        assert after[y.base[other]..] == before[x.base[other]..] + [m];
        IdsMore(before[x.base[other]..], m);
      } else {
        assert CreatedIn(x.hub.world.log, other) + [] == CreatedIn(x.hub.world.log, other);
      }
    }
  }

  lemma IdsMore(messages: seq<Message>, m: Message)
    ensures Ids(messages + [m]) == Ids(messages) + [Decimal.Print(m.id)]
  {
  }

  /** Nothing appended, and nothing said of a message created. */
  lemma QuietTold(x: Space, y: Space, told: seq<Hub.SyncEvent>)
    requires Told(x) && y.base == x.base && Silent(told) && y.hub.world.log == x.hub.world.log + told
    requires y.server.world.rooms.Keys == x.server.world.rooms.Keys
    requires forall room | room in x.server.world.rooms :: y.server.world.rooms[room].messages == x.server.world.rooms[room].messages
    ensures Told(y)
  {
    hide CreatedIn;
    forall room | room in y.server.world.rooms
      ensures room in y.base && y.base[room] <= |y.server.world.rooms[room].messages|
      ensures CreatedIn(y.hub.world.log, room) == Ids(y.server.world.rooms[room].messages[y.base[room]..])
    {
      CreatedConcat(x.hub.world.log, told, room);
      SilentCreates(told, room);
      assert CreatedIn(x.hub.world.log, room) + [] == CreatedIn(x.hub.world.log, room);
    }
  }

  /** What posting does to the timelines. */
  lemma PostTimelines(w: State, room: nat, draft: Draft, now: int, present: set<int>)
    requires room in w.rooms
    ensures var v := ReadState.Next(w, Posts(room, draft, now, present));
            && v.rooms.Keys == w.rooms.Keys
            && v.rooms[room].messages == w.rooms[room].messages + [NewMessage(w.rooms[room], draft, w.nextMessageId, now)]
            && forall other | other in w.rooms && other != room :: v.rooms[other] == w.rooms[other]
  {
  }

  lemma CreateKeeps(e: Env, x: Space, room: nat, draft: Draft)
    requires Inv(e, x)
    ensures Inv(e, Create(e, x, room, draft))
  {
    hide HubRuns.Inv, HubInvariants.Transparent, Posting.Inv, Told, ReadState.Next, Tell, Announced, Agrees;
    var w, y := x.server.world, Create(e, x, room, draft);
    if room in w.rooms {
      var id, anonymous, present := w.nextMessageId, draft.(clientId := None), Hub.PresentRooms(x.hub.world);
      var outs := Announced(room, w.rooms[room], id, anonymous, room in present);
      TellGrows(e, x.hub, outs);
      Posting.ElseKeeps(x.server, Posts(room, anonymous, e.now(id), present));
      MembersStand(e, w, Posts(room, anonymous, e.now(id), present));
      PostTimelines(w, room, anonymous, e.now(id), present);
      forall other ensures CreatedIn(Hub.Stamped(x.hub.world.seqNo, outs), other) == if other == room then [Decimal.Print(id)] else [] {
        AnnouncedCreates(x.hub.world.seqNo, room, w.rooms[room], id, anonymous, room in present, other);
      }
      CreatedTold(x, y, room, NewMessage(w.rooms[room], anonymous, id, e.now(id)), Hub.Stamped(x.hub.world.seqNo, outs));
    }
  }

  lemma ServeKeeps(e: Env, x: Space, request: Posting.Request)
    requires Sound(e, x)
    ensures Sound(e, Serve(e, x, request))
  {
    hide HubRuns.Inv, HubInvariants.Transparent, Posting.Inv, Told, ReadState.Next, Tell, Announced, Posting.KeyOf, Agrees;
    var y, outside := Serve(e, x, request), Outside(e, x.hub);
    var response := Posting.Respond(outside, x.server, request.room, request.body);
    Posting.ServeKeeps(outside, x.server, request);
    if response.Created? {
      var w, room, id, draft := x.server.world, request.room, response.message.id, response.message.draft;
      var present := Hub.PresentRooms(x.hub.world);
      var outs := Announced(room, w.rooms[room], id, draft, room in present);
      TellGrows(e, x.hub, outs);
      PostTimelines(w, room, draft, e.now(id), present);
      MembersStand(e, w, Posts(room, draft, e.now(id), present));
      forall other ensures CreatedIn(Hub.Stamped(x.hub.world.seqNo, outs), other) == if other == room then [Decimal.Print(id)] else [] {
        AnnouncedCreates(x.hub.world.seqNo, room, w.rooms[room], id, draft, room in present, other);
      }
      CreatedTold(x, y, room, response.message, Hub.Stamped(x.hub.world.seqNo, outs));
    } else {
      NothingTold(x, y);
    }
  }

  lemma NothingTold(x: Space, y: Space)
    requires Told(x) && y.base == x.base && y.hub.world.log == x.hub.world.log && y.server.world == x.server.world
    ensures Told(y)
  {
  }

  /** The requests of a release, one after another, answered in order. */
  lemma {:induction false} ServeAllKeeps(e: Env, x: Space, requests: seq<Posting.Request>)
    requires Sound(e, x)
    ensures Sound(e, ServeAll(e, x, requests))
    ensures var r, s := ServeAll(e, x, requests).server, x.server;
            Posting.Asked(r.answers) == Posting.Asked(s.answers) + requests && r.held == s.held && r.arrived == s.arrived && r.holding == s.holding
  {
    if requests == [] {
      assert Posting.Asked(x.server.answers) + [] == Posting.Asked(x.server.answers);
    } else {
      hide Sound, Tell, Posting.Serve, Posting.Asked, Posting.Respond;
      var front, last := requests[..|requests| - 1], requests[|requests| - 1];
      ServeAllKeeps(e, x, front);
      var mid := ServeAll(e, x, front);
      ServeKeeps(e, mid, last);
      Posting.ServeAnswers(Outside(e, mid.hub), mid.server, last);
      assert Posting.Asked(x.server.answers) + requests == (Posting.Asked(x.server.answers) + front) + [last];
    }
  }

  /** The queue's fields are nothing to the rest. */
  lemma QueueKeeps(e: Env, x: Space, holding: bool, held: seq<Posting.Request>, arrived: seq<Posting.Request>)
    requires Sound(e, x)
    ensures Sound(e, x.(server := x.server.(holding := holding, held := held, arrived := arrived)))
  {
    hide HubRuns.Inv, HubInvariants.Transparent, Posting.Inv, Told, Agrees;
    Posting.QueueKeeps(x.server, holding, held, arrived);
    NothingTold(x, x.(server := x.server.(holding := holding, held := held, arrived := arrived)));
  }

  lemma MarkKeeps(e: Env, x: Space, step: ReadState.Step, kind: string)
    requires Inv(e, x) && (step.MarksRead? || step.MarksUnread?) && kind != CREATED
    ensures Inv(e, Mark(e, x, step, kind))
  {
    hide HubRuns.Inv, HubInvariants.Transparent, Posting.Inv, Told, ReadState.Next, Tell, Agrees;
    if Marks(x.server.world, step) {
      var y, outs := Mark(e, x, step, kind), [Event("user", kind, step.room)];
      TellGrows(e, x.hub, outs);
      Posting.ElseKeeps(x.server, step);
      MarkTimelines(x.server.world, step);
      MembersStand(e, x.server.world, step);
      QuietTold(x, y, Hub.Stamped(x.hub.world.seqNo, outs));
    }
  }

  lemma MarkTimelines(w: State, step: ReadState.Step)
    requires step.MarksRead? || step.MarksUnread?
    ensures var v := ReadState.Next(w, step);
            v.rooms.Keys == w.rooms.Keys && forall room | room in w.rooms :: v.rooms[room].messages == w.rooms[room].messages
  {
  }

  lemma HubKeeps(e: Env, x: Space, move: Hub.Step)
    requires Inv(e, x) && Enabled(x, HubMoves(move))
    ensures Inv(e, Next(e, x, HubMoves(move)))
  {
    hide HubRuns.Inv, HubInvariants.Transparent, Posting.Inv, Told, Agrees, Hub.Next, Hub.Enabled, Hub.Known, HubResume.NewLog;
    var y := Next(e, x, HubMoves(move));
    HubRuns.NextKeeps(e.options, x.hub, move);
    HubResume.HubLog(e.options, x.hub, move);
    if move.Do? && move.call.Restarts? {
      FreshLog(y);
    } else {
      NewLogSilent(e.options, x.hub, move);
      QuietTold(x, y, HubResume.NewLog(e.options, x.hub, move));
    }
  }

  lemma NewLogSilent(o: Hub.Options, s: Hub.Sys, move: Hub.Step)
    requires move.Do? && move.call.Publishes? ==> forall out | out in move.call.outs && out.payload.Update? :: out.payload.kind != CREATED
    ensures Silent(HubResume.NewLog(o, s, move))
  {
    if move.Do? && move.call.Publishes? { StampedSilent(s.world.seqNo, move.call.outs); }
  }

  lemma FreshLog(x: Space)
    requires x.hub.world.log == [] && x.base == Lengths(x.server.world)
    ensures Told(x)
  {
    forall room | room in x.server.world.rooms ensures Ids(x.server.world.rooms[room].messages[x.base[room]..]) == [] {
    }
  }

  lemma NextKeeps(e: Env, x: Space, step: Step)
    requires Inv(e, x) && Enabled(x, step)
    ensures Inv(e, Next(e, x, step))
  {
    hide HubRuns.Inv, HubInvariants.Transparent, Posting.Inv, Told, Agrees, Create, Mark, Serve, ServeAll, Posting.Asked;
    var s := x.server;
    match step
    case Sends(request) =>
      QueueKeeps(e, x, s.holding, if s.holding then s.held + [request] else s.held, s.arrived + [request]);
      if s.holding {
        assert Posting.Asked(s.answers) + (s.held + [request]) == (Posting.Asked(s.answers) + s.held) + [request];
      } else {
        var arriving := x.(server := s.(arrived := s.arrived + [request]));
        ServeAllKeeps(e, arriving, [request]);
        ServeOne(e, arriving, request);
      }
    case Holds(on) =>
      QueueKeeps(e, x, on, s.held, s.arrived);
      if !on {
        QueueKeeps(e, x, on, [], s.arrived);
        ServeAllKeeps(e, x.(server := s.(holding := on, held := [])), s.held);
      }
    case Releases =>
      QueueKeeps(e, x, s.holding, [], s.arrived);
      ServeAllKeeps(e, x.(server := s.(held := [])), s.held);
    case SomeonePosts(room, draft) => CreateKeeps(e, x, room, draft);
    case MarksRoomRead(room) => MarkKeeps(e, x, MarksRead(room), "room.read");
    case MarksRoomUnread(room, message) => MarkKeeps(e, x, MarksUnread(room, message), "room.unread");
    case HubMoves(move) => HubKeeps(e, x, move);
  }

  lemma ServeOne(e: Env, x: Space, request: Posting.Request)
    ensures ServeAll(e, x, [request]) == Serve(e, x, request)
  {
    assert [request][..0] == [];
  }

  // ---------------------------------------------------------------------------------------------
  // Whole runs
  // ---------------------------------------------------------------------------------------------

  ghost predicate Runs(e: Env, x: Space, steps: seq<Step>, y: Space)
    decreases |steps|
  {
    if steps == [] then y == x
    else Enabled(x, steps[0]) && Runs(e, Next(e, x, steps[0]), steps[1..], y)
  }

  /** A server over a world no client has written to, such as the seeded one, and a new hub. */
  ghost predicate Initial(e: Env, x: Space) {
    && Posting.Untouched(x.server) && Agrees(e, x.server.world)
    && (exists epoch, startMs :: x.hub == Hub.Initial(epoch, startMs))
    && x.base == Lengths(x.server.world)
  }

  lemma {:induction false} RunKeeps(e: Env, x: Space, steps: seq<Step>, y: Space)
    requires Inv(e, x) && Runs(e, x, steps, y)
    ensures Inv(e, y)
    decreases |steps|
  {
    hide Inv, Next, Enabled;
    if steps != [] {
      NextKeeps(e, x, steps[0]);
      RunKeeps(e, Next(e, x, steps[0]), steps[1..], y);
    }
  }

  ghost predicate Reachable(e: Env, y: Space) {
    HubInvariants.Transparent(e.options) && exists x, steps :: Initial(e, x) && Runs(e, x, steps, y)
  }

  lemma ReachableInv(e: Env, y: Space)
    requires Reachable(e, y)
    ensures Inv(e, y)
  {
    hide HubRuns.Inv, HubInvariants.Transparent, Hub.Initial, Next, Enabled, Agrees;
    var x, steps :| Initial(e, x) && Runs(e, x, steps, y);
    var epoch, startMs :| x.hub == Hub.Initial(epoch, startMs);
    HubRuns.InitialInv(e.options, epoch, startMs);
    EmptyLog(epoch, startMs);
    FreshLog(x);
    UntouchedInv(x.server);
    RunKeeps(e, x, steps, y);
  }

  lemma EmptyLog(epoch: string, startMs: int)
    ensures Hub.Initial(epoch, startMs).world.log == []
  {
  }

  lemma UntouchedInv(s: Posting.Server)
    requires Posting.Untouched(s)
    ensures Posting.Inv(s) && Posting.Queued(s)
  {
    assert Posting.Asked([]) + [] == [];
  }

  /** Over every run, in every room: the log of the hub's epoch tells each message created since the epoch
      began, in timeline order and once each, and nothing else. */
  lemma LogTellsTimeline(e: Env, x: Space, room: nat)
    requires Reachable(e, x) && room in x.server.world.rooms
    ensures var messages := x.server.world.rooms[room].messages;
            && room in x.base && x.base[room] <= |messages|
            && CreatedIn(x.hub.world.log, room) == Ids(messages[x.base[room]..])
    ensures var told := CreatedIn(x.hub.world.log, room); forall i, j | 0 <= i < j < |told| :: told[i] != told[j]
  {
    hide HubRuns.Inv, HubInvariants.Transparent, CreatedIn, Agrees;
    ReachableInv(e, x);
    assert RoomOk(x.server.world.rooms[room], x.server.world.nextMessageId);
    IdsDistinct(x.server.world.rooms[room].messages[x.base[room]..]);
  }

  lemma IdsDistinct(messages: seq<Message>)
    requires Ascending(messages)
    ensures forall i, j | 0 <= i < j < |Ids(messages)| :: Ids(messages)[i] != Ids(messages)[j]
  {
    forall i, j | 0 <= i < j < |messages| ensures Decimal.Print(messages[i].id) != Decimal.Print(messages[j].id) {
      var a, b := messages[i].id, messages[j].id;
      assert Decimal.Value(Decimal.Print(a)) == a && Decimal.Value(Decimal.Print(b)) == b;
    }
  }

  /** Over every run a client message id makes at most one message, and every request that arrived has been
      answered once, in order, as soon as nothing is held. */
  lemma SentOnce(e: Env, x: Space, room: nat, clientId: string)
    requires Reachable(e, x)
    ensures Posting.Once(x.server, room, clientId)
    ensures !x.server.holding ==> Posting.Asked(x.server.answers) == x.server.arrived
  {
    hide HubRuns.Inv, HubInvariants.Transparent, Told, Agrees, Posting.Inv, Posting.Asked, Posting.Once;
    ReachableInv(e, x);
    Posting.InvMeansOnce(x.server, room, clientId);
    assert Posting.Asked(x.server.answers) + [] == Posting.Asked(x.server.answers);
  }

  /** What is remembered once is never forgotten or replaced. */
  lemma {:induction false} ServeAllRemembers(e: Env, x: Space, requests: seq<Posting.Request>, key: string)
    requires key in x.server.sent
    ensures var sent := ServeAll(e, x, requests).server.sent; key in sent && sent[key] == x.server.sent[key]
  {
    hide Posting.Respond, Posting.KeyOf, Posting.Serve, Tell;
    if requests != [] {
      var front, last := requests[..|requests| - 1], requests[|requests| - 1];
      ServeAllRemembers(e, x, front, key);
      var mid := ServeAll(e, x, front);
      Posting.ServeAllRemembers(Outside(e, mid.hub), mid.server, [last], key);
      Posting.ServeOne(Outside(e, mid.hub), mid.server, last);
    }
  }

  lemma {:induction false} RunRemembers(e: Env, x: Space, steps: seq<Step>, y: Space, key: string)
    requires Runs(e, x, steps, y) && key in x.server.sent
    ensures key in y.server.sent && y.server.sent[key] == x.server.sent[key]
    decreases |steps|
  {
    hide Serve, ServeAll, Tell, ReadState.Next, Hub.Next, Enabled;
    if steps != [] {
      var s := x.server;
      match steps[0] {
        case Sends(request) =>
          var arriving := x.(server := s.(arrived := s.arrived + [request]));
          ServeAllRemembers(e, arriving, [request], key);
          ServeOne(e, arriving, request);
        case Holds(on) => ServeAllRemembers(e, x.(server := s.(holding := on, held := [])), s.held, key);
        case Releases => ServeAllRemembers(e, x.(server := s.(held := [])), s.held, key);
        case _ =>
      }
      RunRemembers(e, Next(e, x, steps[0]), steps[1..], y, key);
    }
  }

  /** Once a request has succeeded, then at any later time every request with its room and client id is
      answered with the message the first one made, or with not found where the viewer is no member; it
      changes no room and the hub is told nothing. */
  lemma RetryIsSilent(e: Env, x: Space, steps: seq<Step>, y: Space, a: Posting.Answer, again: Posting.Request)
    requires Reachable(e, x) && Runs(e, x, steps, y) && a in x.server.answers && Posting.Succeeded(a)
    requires again.room == a.request.room && again.body.clientId == a.request.body.clientId
    ensures again.room in y.server.world.rooms
    ensures Posting.Respond(Outside(e, y.hub), y.server, again.room, again.body) ==
            if y.server.world.rooms[again.room].member then Posting.Repeated(a.response.message) else Posting.NotFound
    ensures Serve(e, y, again).hub == y.hub && Serve(e, y, again).server.world == y.server.world
  {
    hide HubRuns.Inv, HubInvariants.Transparent, Told, Agrees, Runs, Tell, ReadState.Inv, Posting.KeyOf;
    ReachableInv(e, x);
    RunKeeps(e, x, steps, y);
    assert Posting.AnswerOk(x.server.sent, a);
    RunRemembers(e, x, steps, y, Posting.KeyOf(again.room, again.body.clientId.value));
  }

  /** While some open connection looks at a room the viewer has read, other people's messages leave it read;
      when none does, one makes it unread unless the room is muted and the viewer not mentioned. */
  lemma LookedAtStaysRead(e: Env, x: Space, room: nat, draft: Draft)
    requires Reachable(e, x) && room in x.server.world.rooms && x.server.world.rooms[room].unreadAt.None?
    requires !draft.fromViewer && !draft.systemNote
    ensures var before, r := x.server.world.rooms[room], Next(e, x, SomeonePosts(room, draft)).server.world.rooms;
            && room in r
            && (r[room].unreadAt.None? <==>
                  || (exists c | c in x.hub.world.handles :: x.hub.world.handles[c].open && room in x.hub.world.handles[c].present)
                  || (before.involvement == Muted && !draft.mentionsViewer))
            && (r[room].unreadAt.None? ==> r[room].mentionCount == 0)
  {
    hide HubRuns.Inv, HubInvariants.Transparent, Told, Agrees, Posting.Remembered, Posting.Stored, Backlog, Tell, Announced, RoomOk;
    ReachableInv(e, x);
    HubRuns.PresentIsOpenUnion(e.options, x.hub, room);
    var w, anonymous := x.server.world, draft.(clientId := None);
    var id := w.nextMessageId;
    ReadAndPresentStaysRead(w.rooms[room], anonymous, id, e.now(id));
    UnreadExactly(w.rooms[room], anonymous, id, e.now(id));
    Unmentioned(w.rooms[room], w.nextMessageId);
  }

  lemma Unmentioned(r: Room, nextId: nat)
    requires RoomOk(r, nextId)
    ensures r.unreadAt.None? ==> r.mentionCount == 0
  {
  }

  /** Which of its events go out on the viewer's own topic: unread exactly for someone else's message, no
      system note, in a room nobody looks at that is not muted or where it mentions the viewer; the sidebar's
      row exactly for a member; and a notification exactly for a member, of someone else's finished message,
      no system note, in a room followed in everything, or for mentions, or muted, where it mentions them. */
  lemma AsideExactly(room: nat, r: Room, id: nat, draft: Draft, viewing: bool)
    ensures var outs := Announced(room, r, id, draft, viewing);
            && outs[0] == Hub.Outgoing("room:" + Decimal.Print(room), Hub.Update("message.created", Decimal.Print(id)), None)
            && (forall out | out in outs[1..] :: out.topic == "user" && out.unsubscribe.None?)
            && (Hub.Outgoing("user", Hub.Update("room.unread", Decimal.Print(id)), None) in outs <==>
                  !draft.fromViewer && !draft.systemNote && !viewing && (r.involvement != Muted || draft.mentionsViewer))
            && (Hub.Outgoing("user", Hub.Update("sidebar.row.upserted", Decimal.Print(room)), None) in outs <==> r.member)
            && (Hub.Outgoing("user", Hub.Update("message.notified", Decimal.Print(id)), None) in outs <==>
                  && !draft.fromViewer && !draft.systemNote && !draft.streaming && r.member
                  && (r.involvement == Everything || (draft.mentionsViewer && r.involvement != Nothing)))
            && 1 <= |outs| <= 4
  {
    hide RoomTopic, Quiet, Notifies;
    var outs, rest := Announced(room, r, id, draft, viewing), Aside(room, r, id, draft, viewing);
    var first := Event(RoomTopic(room), CREATED, id);
    var unread, row, notified := Event("user", "room.unread", id), Event("user", "sidebar.row.upserted", room), Event("user", "message.notified", id);
    var told := !draft.fromViewer && !draft.systemNote && !viewing && !Quiet(r, draft);
    assert outs == [first] + rest && outs[1..] == rest;
    KindsDiffer(room);
    Among(told, unread, r.member, row, Notifies(r, draft), notified);
    ConditionsSpelled(room, r, draft);
  }

  lemma ConditionsSpelled(room: nat, r: Room, draft: Draft)
    ensures RoomTopic(room) == "room:" + Decimal.Print(room)
    ensures Quiet(r, draft) <==> r.involvement == Muted && !draft.mentionsViewer
    ensures Notifies(r, draft) <==>
              && !draft.fromViewer && !draft.systemNote && !draft.streaming && r.member
              && (r.involvement == Everything || (draft.mentionsViewer && r.involvement != Nothing))
  {
  }

  lemma KindsDiffer(room: nat)
    ensures RoomTopic(room) != "user" && "room.unread" != "sidebar.row.upserted"
    ensures "message.notified" != "room.unread" && "message.notified" != "sidebar.row.upserted"
  {
    assert RoomTopic(room)[0] == 'r' && "user"[0] == 'u';
    assert "room.unread"[0] == 'r' && "sidebar.row.upserted"[0] == 's' && "message.notified"[0] == 'm';
  }

  lemma Among(x: bool, a: Hub.Outgoing, y: bool, b: Hub.Outgoing, z: bool, c: Hub.Outgoing)
    requires a != b && b != c && a != c
    ensures var outs := (if x then [a] else []) + (if y then [b] else []) + (if z then [c] else []);
            && (a in outs <==> x) && (b in outs <==> y) && (c in outs <==> z) && |outs| <= 3
            && forall out | out in outs :: out == a || out == b || out == c
  {
  }
}
