/**
 * A client that goes by its welcome alone, as frontend/src/sync/engine.ts does: told `resumed` it keeps its
 * own point, told otherwise it fetches everything anew and takes the welcome's. It may lose any number of
 * connections after any number of frames, and the hub may evict what it missed or start over.
 */
module HubClient {
  import opened Common
  import opened Hub
  import opened HubInvariants
  import opened HubRuns
  import opened HubResume
  import opened HubSessions

  /** What it knows: everything up to `fetchedAt` of an epoch's log from fetching, and what it has applied
      since, up to `point`. */
  datatype Client = Client(epoch: string, fetchedAt: int, point: int, applied: seq<SyncEvent>)

  /** The token of its next hello. A new page has none. */
  function Offer(client: Option<Client>): Option<Token> {
    if client.None? then None else Some(Token(client.value.epoch, client.value.point))
  }

  /** The frames of one connection that arrive. Before a welcome nothing is applied. */
  function Take(client: Option<Client>, frames: seq<Sent>): Option<Client> {
    if frames == [] || !frames[0].frame.Welcome? then client
    else
      var welcome, events := frames[0].frame, BatchEvents(frames);
      var from := if welcome.resumed && client.Some? then client.value.(epoch := welcome.epoch)
                  else Client(welcome.epoch, welcome.seqNo, welcome.seqNo, []);
      Some(from.(point := Point(from.point, events), applied := from.applied + events))
  }

  /** Where the client and the hub are in the same epoch, what the client has applied is exactly what the log
      shows between its fetch and its point. */
  ghost predicate Current(o: Options, h: HubState, client: Option<Client>, mine: set<string>) {
    client.Some? && client.value.epoch == h.epoch ==>
      && 0 <= client.value.fetchedAt <= client.value.point <= |h.log|
      && Plain(client.value.applied) == PlainMine(o, h.log[client.value.fetchedAt..client.value.point], mine)
  }

  /** Both epochs have been seen. */
  ghost predicate Seen(used: set<string>, h: HubState, client: Option<Client>) {
    h.epoch in used && (client.Some? ==> client.value.epoch in used)
  }

  function UsedAfter(used: set<string>, steps: seq<Step>): set<string>
    decreases |steps|
  {
    if steps == [] then used
    else if steps[0].Do? && steps[0].call.Restarts? then UsedAfter(used + {steps[0].call.epoch}, steps[1..])
    else UsedAfter(used, steps[1..])
  }

  // ---------------------------------------------------------------------------------------------
  // While the client is away
  // ---------------------------------------------------------------------------------------------

  /** A longer log of the same epoch still shows the same stretch. */
  lemma CurrentLater(o: Options, h: HubState, k: HubState, client: Option<Client>, mine: set<string>)
    requires Current(o, h, client, mine) && k.epoch == h.epoch && h.log <= k.log
    ensures Current(o, k, client, mine)
  {
    hide PlainMine, Filter;
    if client.Some? && client.value.epoch == h.epoch {
      var f, p := client.value.fetchedAt, client.value.point;
      assert h.log[f..p] == k.log[f..p];
    }
  }

  lemma {:induction false} AwayKeeps(o: Options, s: Sys, steps: seq<Step>, r: Sys, used: set<string>, client: Option<Client>, mine: set<string>)
    requires Inv(o, s) && Transparent(o) && Runs(o, s, steps, r) && FreshEpochs(used, steps)
    requires Current(o, s.world, client, mine) && Seen(used, s.world, client)
    ensures Inv(o, r) && Current(o, r.world, client, mine) && Seen(UsedAfter(used, steps), r.world, client)
    decreases |steps|
  {
    hide Inv, Next, Enabled, NewLog, Transparent, PlainMine, Known;
    if steps != [] {
      var step, next := steps[0], Next(o, s, steps[0]);
      NextKeeps(o, s, step);
      NextEpoch(o, s, step);
      HubLog(o, s, step);
      if step.Do? && step.call.Restarts? {
        AwayKeeps(o, next, steps[1..], r, used + {step.call.epoch}, client, mine);
      } else {
        CurrentLater(o, s.world, next.world, client, mine);
        AwayKeeps(o, next, steps[1..], r, used, client, mine);
      }
    }
  }

  // ---------------------------------------------------------------------------------------------
  // One connection
  // ---------------------------------------------------------------------------------------------

  /** The session starts from `s` with the client's own token. */
  ghost predicate Connects(o: Options, s: Sys, used: set<string>, client: Option<Client>, mine: set<string>, x: Session) {
    && Runs(o, s, x.away, x.back) && FreshEpochs(used, x.away)
    && x.conn in x.back.world.handles && x.back.world.handles[x.conn].open
    && x.resume == Offer(client) && {"user"} + Admitted(o, x.again) == mine
    && Undisturbed(o, SayHello(o, x.back, x.conn, x.resume, x.again), x.steps, x.dropped, x.conn)
    && x.arrived <= |Frames(x.back, x.dropped, x.conn)|
  }

  function Arrived(x: Session): seq<Sent> {
    var frames := Frames(x.back, x.dropped, x.conn);
    if x.arrived <= |frames| then frames[..x.arrived] else []
  }

  /** The first frame of the connection is its welcome. */
  lemma FirstFrame(o: Options, s: Sys, used: set<string>, client: Option<Client>, mine: set<string>, x: Session)
    requires Connects(o, s, used, client, mine, x) && Inv(o, x.back) && Transparent(o)
    ensures Inv(o, x.dropped) && x.dropped.world.epoch == x.back.world.epoch && x.back.world.log <= x.dropped.world.log
    ensures var frames, h := Frames(x.back, x.dropped, x.conn), x.back.world;
            && frames != [] && frames[0].frame.Welcome? && frames[0].frame.epoch == h.epoch
            && frames[0].frame.seqNo == StartOf(h, x.resume) && frames[0].frame.resumed == CanResume(h, x.resume)
  {
    hide Inv, SayHello, Undisturbed, CanResume, Missed, BatchEvents, PlainMine, Runs, FreshEpochs;
    var hello := SayHello(o, x.back, x.conn, x.resume, x.again);
    HelloKeeps(o, x.back, x.conn, x.resume, x.again);
    HelloOnlySends(o, x.back, x.conn, x.resume, x.again);
    var extra := HelloExtra(o, x.back, x.conn, x.resume, x.again);
    RunFollows(o, hello, x.steps, x.dropped, x.conn);
    var before, after := x.back.world.handles[x.conn].sent, x.dropped.world.handles[x.conn].sent;
    assert after[|before|] == extra[0];
  }

  /** Whatever of a connection arrives, the client is current, and complete if all of it does. */
  lemma SessionCurrent(o: Options, s: Sys, used: set<string>, client: Option<Client>, mine: set<string>, x: Session)
    requires Inv(o, s) && Transparent(o) && Connects(o, s, used, client, mine, x)
    requires Current(o, s.world, client, mine) && Seen(used, s.world, client)
    ensures var after := Take(client, Arrived(x));
            && Inv(o, x.dropped) && Current(o, x.dropped.world, after, mine)
            && Seen(UsedAfter(used, x.away), x.dropped.world, after)
            && (x.arrived == |Frames(x.back, x.dropped, x.conn)| ==>
                  && after.Some? && after.value.epoch == x.dropped.world.epoch
                  && PlainMine(o, x.dropped.world.log[after.value.point..], mine) == [])
  {
    hide Inv, SayHello, Undisturbed, PlainMine, BatchEvents, Filter, Admitted, Frames, Runs, FreshEpochs;
    AwayKeeps(o, s, x.away, x.back, used, client, mine);
    FirstFrame(o, s, used, client, mine, x);
    var frames, h, log := Frames(x.back, x.dropped, x.conn), x.back.world, x.dropped.world.log;
    FramesFollow(o, x.back, x.conn, x.resume, x.again, x.steps, x.dropped, x.arrived);
    var got, k := BatchEvents(frames[..x.arrived]), StartOf(h, x.resume);
    var p := Point(k, got);
    if x.arrived == 0 {
      CurrentLater(o, h, x.dropped.world, client, mine);
    } else if CanResume(h, x.resume) {
      var f := client.value.fetchedAt;
      assert log[f..p] == h.log[f..k] + log[k..p];
      PlainMineConcat(o, h.log[f..k], log[k..p], mine);
      FilterConcat(client.value.applied, got, IsPlain);
    } else {
      assert [] + got == got;
    }
  }

  // ---------------------------------------------------------------------------------------------
  // Any number of connections
  // ---------------------------------------------------------------------------------------------

  ghost predicate Lives(o: Options, s: Sys, used: set<string>, client: Option<Client>, mine: set<string>, sessions: seq<Session>, r: Sys)
    decreases |sessions|
  {
    if sessions == [] then r == s
    else
      var x := sessions[0];
      && Connects(o, s, used, client, mine, x)
      && Lives(o, x.dropped, UsedAfter(used, x.away), Take(client, Arrived(x)), mine, sessions[1..], r)
  }

  function TakeAll(client: Option<Client>, sessions: seq<Session>): Option<Client>
    decreases |sessions|
  {
    if sessions == [] then client else TakeAll(Take(client, Arrived(sessions[0])), sessions[1..])
  }

  lemma {:induction false} SessionsCurrent(o: Options, s: Sys, used: set<string>, client: Option<Client>, mine: set<string>, sessions: seq<Session>, r: Sys)
    requires Inv(o, s) && Transparent(o) && Lives(o, s, used, client, mine, sessions, r)
    requires Current(o, s.world, client, mine) && Seen(used, s.world, client)
    ensures var after := TakeAll(client, sessions);
            && Inv(o, r) && Current(o, r.world, after, mine)
            && (Complete(sessions) ==>
                  after.Some? && after.value.epoch == r.world.epoch && PlainMine(o, r.world.log[after.value.point..], mine) == [])
    decreases |sessions|
  {
    hide Inv, Connects, PlainMine, Frames, Take, Arrived, Current, Seen;
    if sessions != [] {
      var x, rest := sessions[0], sessions[1..];
      SessionCurrent(o, s, used, client, mine, x);
      SessionsCurrent(o, x.dropped, UsedAfter(used, x.away), Take(client, Arrived(x)), mine, rest, r);
      if rest == [] { assert r == x.dropped; } else { assert rest[|rest| - 1] == sessions[|sessions| - 1]; }
    }
  }

  /**
   * A page that starts with nothing and decides by `resumed` alone is never wrong about its epoch: through
   * any number of connections, evictions and restarts with fresh epochs, what it applied since it last
   * fetched is exactly what the hub's log shows from there to its point; and once a connection has arrived
   * whole, it is in the hub's epoch and the log has nothing more for it.
   */
  lemma WelcomeIsEnough(o: Options, s: Sys, used: set<string>, mine: set<string>, sessions: seq<Session>, r: Sys)
    requires Inv(o, s) && Transparent(o) && s.world.epoch in used && Lives(o, s, used, None, mine, sessions, r)
    ensures Current(o, r.world, TakeAll(None, sessions), mine)
    ensures Complete(sessions) ==>
              var client := TakeAll(None, sessions);
              && client.Some? && client.value.epoch == r.world.epoch
              && Plain(client.value.applied) == PlainMine(o, r.world.log[client.value.fetchedAt..], mine)
  {
    hide Inv, Lives, PlainMine, Complete, TakeAll;
    SessionsCurrent(o, s, used, None, mine, sessions, r);
    var client := TakeAll(None, sessions);
    if Complete(sessions) {
      var f, p, log := client.value.fetchedAt, client.value.point, r.world.log;
      assert log[f..] == log[f..p] + log[p..];
      PlainMineConcat(o, log[f..p], log[p..], mine);
    }
  }
}
