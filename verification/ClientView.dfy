/**
 * What a client makes of it all: however often its connection drops, the created messages it is told of
 * in a room it follows are exactly the messages of that room's timeline.
 */
module ClientView {
  import opened Common
  import ReadState
  import Decimal
  import Hub
  import HubInvariants
  import HubRuns
  import HubResume
  import HubSessions
  import Posting
  import opened Workspace

  // ---------------------------------------------------------------------------------------------
  // A run of the server is a run of its hub
  // ---------------------------------------------------------------------------------------------

  /** No step starts the hub over. */
  predicate SameEpoch(steps: seq<Step>) {
    forall step | step in steps :: !(step.HubMoves? && step.step.Do? && step.step.call.Restarts?)
  }

  /** `moves` take the hub from `s` to `r`, and only restart it if they may. */
  ghost predicate Moves(e: Env, s: Hub.Sys, moves: seq<Hub.Step>, r: Hub.Sys, same: bool) {
    HubRuns.Runs(e.options, s, moves, r) && (same ==> HubSessions.NoRestart(moves))
  }

  lemma {:induction false} MovesJoin(e: Env, s: Hub.Sys, a: seq<Hub.Step>, t: Hub.Sys, b: seq<Hub.Step>, r: Hub.Sys, same: bool)
    requires Moves(e, s, a, t, same) && Moves(e, t, b, r, same)
    ensures Moves(e, s, a + b, r, same)
    decreases |a|
  {
    hide Hub.Next, Hub.Enabled, Hub.Known;
    if a == [] {
      assert a + b == b;
    } else {
      assert (a + b)[0] == a[0] && (a + b)[1..] == a[1..] + b;
      MovesJoin(e, Hub.Next(e.options, s, a[0]), a[1..], t, b, r, same);
    }
  }

  lemma OneMove(e: Env, s: Hub.Sys, move: Hub.Step, same: bool)
    requires Hub.Known(s, s.world.live) && Hub.Enabled(s, move)
    requires same ==> !(move.Do? && move.call.Restarts?)
    ensures Moves(e, s, [move], Hub.Next(e.options, s, move), same)
  {
    hide Hub.Next, Hub.Enabled, Hub.Known;
    var r := Hub.Next(e.options, s, move);
    assert HubRuns.Runs(e.options, r, [], r) && [move][1..] == [];
  }

  lemma NoMove(e: Env, s: Hub.Sys, same: bool)
    ensures Moves(e, s, [], s, same)
  {
  }

  lemma TellMoves(e: Env, hub: Hub.Sys, outs: seq<Hub.Outgoing>) returns (moves: seq<Hub.Step>)
    ensures Moves(e, hub, moves, Tell(e, hub, outs), true)
  {
    hide Hub.Known, Hub.Publish, Moves;
    if Hub.Known(hub, hub.world.live) {
      moves := [Hub.Do(Hub.Publishes(outs))];
      OneMove(e, hub, moves[0], true);
    } else {
      moves := [];
      NoMove(e, hub, true);
    }
  }

  lemma {:induction false} ServeAllMoves(e: Env, x: Space, requests: seq<Posting.Request>) returns (moves: seq<Hub.Step>)
    ensures Moves(e, x.hub, moves, ServeAll(e, x, requests).hub, true)
  {
    hide Moves, Tell, Posting.Serve, Posting.KeyOf, Announced;
    if requests == [] {
      moves := [];
      NoMove(e, x.hub, true);
    } else {
      var front, request := requests[..|requests| - 1], requests[|requests| - 1];
      var mid := ServeAll(e, x, front);
      var first := ServeAllMoves(e, x, front);
      var response := Posting.Respond(Outside(e, mid.hub), mid.server, request.room, request.body);
      var second := [];
      if response.Created? {
        var r, viewing := mid.server.world.rooms[request.room], request.room in Hub.PresentRooms(mid.hub.world);
        second := TellMoves(e, mid.hub, Announced(request.room, r, response.message.id, response.message.draft, viewing));
      } else {
        NoMove(e, mid.hub, true);
      }
      moves := first + second;
      MovesJoin(e, x.hub, first, mid.hub, second, ServeAll(e, x, requests).hub, true);
    }
  }

  lemma StepMoves(e: Env, x: Space, step: Step) returns (moves: seq<Hub.Step>)
    requires Enabled(x, step)
    ensures Moves(e, x.hub, moves, Next(e, x, step).hub, SameEpoch([step]))
  {
    hide Tell, ServeAll, Serve, Announced, ReadState.Next, HubRuns.Runs, Hub.Next, Hub.Enabled;
    var s := x.server;
    match step
    case Sends(request) =>
      if s.holding {
        moves := [];
        NoMove(e, x.hub, SameEpoch([step]));
      } else {
        var arriving := x.(server := s.(arrived := s.arrived + [request]));
        moves := ServeAllMoves(e, arriving, [request]);
        ServeOne(e, arriving, request);
      }
    case Holds(on) =>
      if on {
        moves := [];
        NoMove(e, x.hub, SameEpoch([step]));
      } else {
        moves := ServeAllMoves(e, x.(server := s.(holding := on, held := [])), s.held);
      }
    case Releases => moves := ServeAllMoves(e, x.(server := s.(held := [])), s.held);
    case SomeonePosts(room, draft) =>
      moves := [];
      NoMove(e, x.hub, SameEpoch([step]));
      if room in s.world.rooms {
        var id, anonymous, present := s.world.nextMessageId, draft.(clientId := None), Hub.PresentRooms(x.hub.world);
        moves := TellMoves(e, x.hub, Announced(room, s.world.rooms[room], id, anonymous, room in present));
      }
    case MarksRoomRead(room) => moves := MarkMoves(e, x, ReadState.MarksRead(room), "room.read");
    case MarksRoomUnread(room, message) => moves := MarkMoves(e, x, ReadState.MarksUnread(room, message), "room.unread");
    case HubMoves(move) =>
      moves := [move];
      assert step in [step];
      OneMove(e, x.hub, move, SameEpoch([step]));
  }

  lemma MarkMoves(e: Env, x: Space, step: ReadState.Step, kind: string) returns (moves: seq<Hub.Step>)
    ensures Moves(e, x.hub, moves, Mark(e, x, step, kind).hub, true)
  {
    hide Moves, Tell, ReadState.Next;
    moves := [];
    NoMove(e, x.hub, true);
    if Marks(x.server.world, step) {
      moves := TellMoves(e, x.hub, [Event("user", kind, step.room)]);
    }
  }

  /** Every run of the server is one of its hub, so all that holds of hub runs holds within it. */
  lemma {:induction false} RunMoves(e: Env, x: Space, steps: seq<Step>, y: Space) returns (moves: seq<Hub.Step>)
    requires Runs(e, x, steps, y)
    ensures Moves(e, x.hub, moves, y.hub, SameEpoch(steps))
    ensures SameEpoch(steps) ==> y.base == x.base
    decreases |steps|
  {
    hide Moves, Next, Enabled;
    if steps == [] {
      moves := [];
      NoMove(e, x.hub, SameEpoch(steps));
    } else {
      var first := StepMoves(e, x, steps[0]);
      var rest := RunMoves(e, Next(e, x, steps[0]), steps[1..], y);
      EpochParts(steps);
      Weaken(e, x.hub, first, Next(e, x, steps[0]).hub, SameEpoch([steps[0]]), SameEpoch(steps));
      Weaken(e, Next(e, x, steps[0]).hub, rest, y.hub, SameEpoch(steps[1..]), SameEpoch(steps));
      MovesJoin(e, x.hub, first, Next(e, x, steps[0]).hub, rest, y.hub, SameEpoch(steps));
      if SameEpoch(steps) { BaseStays(e, x, steps[0]); }
      moves := first + rest;
    }
  }

  lemma EpochParts(steps: seq<Step>)
    requires steps != []
    ensures SameEpoch(steps) <==> SameEpoch([steps[0]]) && SameEpoch(steps[1..])
  {
    assert steps == [steps[0]] + steps[1..];
  }

  lemma Weaken(e: Env, s: Hub.Sys, moves: seq<Hub.Step>, r: Hub.Sys, same: bool, less: bool)
    requires Moves(e, s, moves, r, same) && (less ==> same)
    ensures Moves(e, s, moves, r, less)
  {
  }

  lemma {:induction false} ServeAllBase(e: Env, x: Space, requests: seq<Posting.Request>)
    ensures ServeAll(e, x, requests).base == x.base
  {
    hide Tell, Posting.Serve, Posting.Respond, Announced;
    if requests != [] { ServeAllBase(e, x, requests[..|requests| - 1]); }
  }

  lemma BaseStays(e: Env, x: Space, step: Step)
    requires Enabled(x, step) && SameEpoch([step])
    ensures Next(e, x, step).base == x.base
  {
    hide Tell, ServeAll, Posting.Serve, Posting.Respond, Announced, ReadState.Next, Hub.Next, Hub.Enabled;
    assert step in [step];
    match step
    case Holds(on) => ServeAllBase(e, x.(server := x.server.(holding := on, held := [])), x.server.held);
    case Releases => ServeAllBase(e, x.(server := x.server.(held := [])), x.server.held);
    case _ =>
  }

  // ---------------------------------------------------------------------------------------------
  // What the client is told was created
  // ---------------------------------------------------------------------------------------------

  predicate IsCreated(event: Hub.SyncEvent) {
    event.payload.Update? && event.payload.kind == CREATED
  }

  /** `eventForViewer` shows every created message of a room and makes none up (frontend/mock/server.ts). */
  ghost predicate ShowsCreated(o: Hub.Options) {
    forall event: Hub.SyncEvent {:trigger o.show(event)} ::
      && (IsCreated(event) ==> o.show(event).Some? && o.show(event).value.payload == event.payload)
      && (o.show(event).Some? && IsCreated(o.show(event).value) ==> IsCreated(event))
  }

  lemma OneShown(o: Hub.Options, event: Hub.SyncEvent, mine: set<string>, room: nat)
    requires HubInvariants.Transparent(o) && ShowsCreated(o) && RoomTopic(room) in mine
    ensures CreatedIn(HubResume.PlainMine(o, [event], mine), room) == CreatedIn([event], room)
  {
    hide RoomTopic;
    assert [event][..0] == [];
    var shown := o.show(event);
    assert Hub.OnTopics([event], mine) == if event.topic in mine then [event] else [];
    assert Hub.ForViewer(o, [event]) == if shown.Some? then [shown.value] else [];
    if shown.Some? {
      assert [shown.value][..0] == [];
      assert HubResume.Plain([shown.value]) == if Hub.IsPlain(shown.value) then [shown.value] else [];
    }
  }

  /** On a room it follows, a client is shown exactly what the log says was created. */
  lemma {:induction false} AllShown(o: Hub.Options, events: seq<Hub.SyncEvent>, mine: set<string>, room: nat)
    requires HubInvariants.Transparent(o) && ShowsCreated(o) && RoomTopic(room) in mine
    ensures CreatedIn(HubResume.PlainMine(o, events, mine), room) == CreatedIn(events, room)
  {
    hide RoomTopic, HubResume.PlainMine, HubInvariants.Transparent, ShowsCreated;
    if events == [] {
      HubResume.PlainMineNothing(o, mine);
    } else {
      hide CreatedIn;
      var front, last := events[..|events| - 1], events[|events| - 1];
      assert events == front + [last];
      AllShown(o, front, mine, room);
      OneShown(o, last, mine, room);
      HubResume.PlainMineConcat(o, front, [last], mine);
      CreatedConcat(HubResume.PlainMine(o, front, mine), HubResume.PlainMine(o, [last], mine), room);
      CreatedConcat(front, [last], room);
    }
  }

  /** How many messages of a room's timeline are told by the first `k` events of the log, or older than it. */
  function Known(x: Space, room: nat, k: int): nat
    requires 0 <= k <= |x.hub.world.log| && room in x.base
  {
    x.base[room] + |CreatedIn(x.hub.world.log[..k], room)|
  }

  lemma IdsSlice(messages: seq<ReadState.Message>, a: nat, b: nat)
    requires a <= b <= |messages|
    ensures Ids(messages[a..b]) == Ids(messages)[a..b]
  {
  }

  /** A stretch of the log tells a stretch of the timeline. */
  lemma LogStretch(x: Space, room: nat, k: int, p: int)
    requires Told(x) && room in x.server.world.rooms && 0 <= k <= p <= |x.hub.world.log|
    ensures var messages := x.server.world.rooms[room].messages;
            && room in x.base && Known(x, room, k) <= Known(x, room, p) <= |messages|
            && CreatedIn(x.hub.world.log[k..p], room) == Ids(messages[Known(x, room, k)..Known(x, room, p)])
            && (CreatedIn(x.hub.world.log[p..], room) == [] ==> Known(x, room, p) == |messages|)
  {
    hide CreatedIn;
    var log, messages, base := x.hub.world.log, x.server.world.rooms[room].messages, x.base[room];
    assert log == log[..p] + log[p..] && log[..p] == log[..k] + log[k..p];
    CreatedConcat(log[..p], log[p..], room);
    CreatedConcat(log[..k], log[k..p], room);
    var all, a, b := CreatedIn(log, room), |CreatedIn(log[..k], room)|, |CreatedIn(log[..p], room)|;
    var since := messages[base..];
    assert all == Ids(since) && |all| == |since|;
    assert CreatedIn(log[k..p], room) == all[a..b];
    IdsSlice(since, a, b);
    assert since[a..b] == messages[base + a..base + b];
  }

  /**
   * Over any number of connections, each lost after any number of frames, and whatever else happens to the
   * server within the hub's epoch: the created messages a client applies in a room it follows are exactly
   * the messages of that room's timeline between its first point and its last, in order and once each, and
   * up to the newest if its last session arrived whole.
   */
  lemma ClientSeesTimeline(e: Env, x: Space, room: nat, s: Hub.Sys, k: int, mine: set<string>, sessions: seq<HubSessions.Session>)
    requires Inv(e, x) && room in x.server.world.rooms && ShowsCreated(e.options) && RoomTopic(room) in mine
    requires HubRuns.Inv(e.options, s) && 0 <= k <= |s.world.log|
    requires HubSessions.Lives(e.options, s, k, mine, sessions, x.hub)
    ensures var p, messages := HubSessions.LastPoint(k, sessions), x.server.world.rooms[room].messages;
            && 0 <= k <= p <= |x.hub.world.log| && room in x.base
            && Known(x, room, k) <= Known(x, room, p) <= |messages|
            && CreatedIn(HubSessions.Applied(sessions), room) == Ids(messages[Known(x, room, k)..Known(x, room, p)])
            && (HubSessions.Complete(sessions) ==> Known(x, room, p) == |messages|)
  {
    hide HubRuns.Inv, HubInvariants.Transparent, HubSessions.Lives, HubSessions.Complete, HubSessions.Applied, HubSessions.LastPoint,
         HubResume.PlainMine, CreatedIn, Posting.Inv, Agrees, Told, ShowsCreated, Known, Ids;
    HubSessions.SessionsFollow(e.options, s, k, mine, sessions, x.hub);
    var p, log := HubSessions.LastPoint(k, sessions), x.hub.world.log;
    AllShown(e.options, log[k..p], mine, room);
    AllShown(e.options, log[p..], mine, room);
    NothingCreated(room);
    LogStretch(x, room, k, p);
  }

  lemma NothingCreated(room: nat)
    ensures CreatedIn([], room) == []
  {
  }

  lemma {:induction false} ServeAllRooms(e: Env, x: Space, requests: seq<Posting.Request>)
    ensures x.server.world.rooms.Keys <= ServeAll(e, x, requests).server.world.rooms.Keys
  {
    hide Tell, Announced, Posting.KeyOf;
    if requests != [] { ServeAllRooms(e, x, requests[..|requests| - 1]); }
  }

  /** No room goes away. */
  lemma {:induction false} RoomsStay(e: Env, x: Space, steps: seq<Step>, y: Space)
    requires Runs(e, x, steps, y)
    ensures x.server.world.rooms.Keys <= y.server.world.rooms.Keys
    decreases |steps|
  {
    hide Tell, Announced, Serve, ServeAll, Hub.Next, Enabled;
    if steps != [] {
      var s := x.server;
      match steps[0] {
        case Sends(request) =>
          var arriving := x.(server := s.(arrived := s.arrived + [request]));
          ServeAllRooms(e, arriving, [request]);
          ServeOne(e, arriving, request);
        case Holds(on) => ServeAllRooms(e, x.(server := s.(holding := on, held := [])), s.held);
        case Releases => ServeAllRooms(e, x.(server := s.(held := [])), s.held);
        case _ =>
      }
      RoomsStay(e, Next(e, x, steps[0]), steps[1..], y);
    }
  }

  /** A client that says hello and lives through any number of drops, until a session arrives whole, has been
      told exactly the messages that the room got since its hello. */
  lemma ClientGetsNewMessages(e: Env, x: Space, steps: seq<Step>, y: Space, room: nat, mine: set<string>, sessions: seq<HubSessions.Session>)
    requires Reachable(e, x) && Runs(e, x, steps, y) && SameEpoch(steps)
    requires room in x.server.world.rooms && ShowsCreated(e.options) && RoomTopic(room) in mine
    requires HubSessions.Lives(e.options, x.hub, |x.hub.world.log|, mine, sessions, y.hub) && HubSessions.Complete(sessions)
    ensures room in y.server.world.rooms
    ensures var before, now := |x.server.world.rooms[room].messages|, y.server.world.rooms[room].messages;
            before <= |now| && CreatedIn(HubSessions.Applied(sessions), room) == Ids(now[before..])
  {
    hide HubRuns.Inv, HubInvariants.Transparent, HubSessions.Lives, HubSessions.Complete, HubSessions.Applied, HubSessions.LastPoint,
         CreatedIn, Posting.Inv, Agrees, Told, ShowsCreated, Reachable, Runs, Moves, Ids;
    ReachableInv(e, x);
    RunKeeps(e, x, steps, y);
    RoomsStay(e, x, steps, y);
    var k := |x.hub.world.log|;
    var moves := RunMoves(e, x, steps, y);
    HubSessions.SessionsFollow(e.options, x.hub, k, mine, sessions, y.hub);
    ClientSeesTimeline(e, y, room, x.hub, k, mine, sessions);
    assert y.hub.world.log[..k] == x.hub.world.log == x.hub.world.log[..k] && x.hub.world.log[k..] == [];
    NothingCreated(room);
    LogStretch(x, room, k, k);
    var now := y.server.world.rooms[room].messages;
    assert now[|x.server.world.rooms[room].messages|..|now|] == now[|x.server.world.rooms[room].messages|..];
  }
}
