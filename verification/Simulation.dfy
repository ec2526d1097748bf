/**
 * The mock's simulation (frontend/mock/simulation.ts) on the timer scheduler: ambient ticks, and bot
 * replies that type, post and then grow phrase by phrase. Random draws and the host are parameters;
 * `askedAt`, `typed`, `writes`, `refused` and `cut` of a reply are histories no operation reads.
 */
module Simulation {
  import opened Common
  import opened Scheduler

  const BOT_TYPING_DELAY_MS := 500
  const BOT_TYPING_MS := 1500
  const BOT_STREAM_STEP_MS := 400

  /** What a timer of the simulation is for. */
  datatype What = Tick | Chat | BotTypes(reply: nat) | BotPosts(reply: nat) | BotWrites(reply: nat, index: nat)

  /** A timer's callback knows its own id; the scheduler's other users have timers too. */
  datatype Action = Mine(id: nat, what: What) | Foreign(tag: nat)

  datatype Write = Write(text: string, streaming: bool)

  /** One `botReply` call: the closure's variables and what it has shown. */
  datatype Reply = Reply(room: nat, script: nat, askedAt: int, typed: bool, text: string, writes: seq<Write>, refused: bool, cut: bool)

  datatype Sim = Sim(timers: set<nat>, running: bool, paused: bool, replyIndex: nat, drawn: nat, replies: seq<Reply>)

  /** One tick's draws: when the next is, and the chatter, if any, with its typing time. */
  datatype Choice = Choice(delay: int, chat: Option<int>)

  /** The canned replies, whether the host takes the post of the k-th reply, and the random source. */
  datatype Env = Env(replies: seq<seq<string>>, accepts: nat -> bool, choice: nat -> Choice)

  type Sys = State<Sim, Action>

  function PhrasesOf(env: Env, script: nat): seq<string> {
    if |env.replies| == 0 then ["On it."] else env.replies[script % |env.replies|]
  }

  // ---------------------------------------------------------------------------------------------
  // Operations
  // ---------------------------------------------------------------------------------------------

  function Later(s: Sys, delay: int, what: What): Sys {
    State(s.world.(timers := s.world.timers + {s.timers.nextId}), Scheduled(s.timers, delay, Mine(s.timers.nextId, what)))
  }

  function WithReply(s: Sys, k: nat, r: Reply): Sys
    requires k < |s.world.replies|
  {
    s.(world := s.world.(replies := s.world.replies[k := r]))
  }

  /** One timer for each of the first `m` updates of reply `k`. */
  function Streaming(s: Sys, k: nat, m: nat): Sys {
    if m == 0 then s else Later(Streaming(s, k, m - 1), BOT_STREAM_STEP_MS * m, BotWrites(k, m - 1))
  }

  function FirstPhrase(p: seq<string>): string {
    if p == [] then "" else p[0]
  }

  function Updates(p: seq<string>): nat {
    if p == [] then 0 else |p| - 1
  }

  function DoTick(env: Env, s: Sys): Sys {
    if !s.world.running then s
    else
      var choice := env.choice(s.world.drawn);
      var drawn := s.(world := s.world.(drawn := s.world.drawn + 1));
      var chatted := if !s.world.paused && choice.chat.Some? then Later(drawn, choice.chat.value, Chat) else drawn;
      Later(chatted, choice.delay, Tick)
  }

  function DoType(s: Sys, k: nat): Sys
    requires k < |s.world.replies|
  {
    Later(WithReply(s, k, s.world.replies[k].(typed := true)), BOT_TYPING_MS, BotPosts(k))
  }

  function DoPost(env: Env, s: Sys, k: nat): Sys
    requires k < |s.world.replies|
  {
    var r := s.world.replies[k];
    var p := PhrasesOf(env, r.script);
    if !env.accepts(k) then WithReply(s, k, r.(refused := true))
    else
      var posted := r.(text := FirstPhrase(p), writes := r.writes + [Write(FirstPhrase(p), |p| > 1)]);
      Streaming(WithReply(s, k, posted), k, Updates(p))
  }

  function DoWrite(env: Env, s: Sys, k: nat, index: nat): Sys
    requires k < |s.world.replies|
  {
    var r := s.world.replies[k];
    var p := PhrasesOf(env, r.script);
    var text := r.text + if index + 1 < |p| then p[index + 1] else "";
    WithReply(s, k, r.(text := text, writes := r.writes + [Write(text, index < |p| - 2)]))
  }

  /** What a callback does once it has struck itself off. */
  function Do(env: Env, s: Sys, what: What): Sys {
    match what
    case Tick => DoTick(env, s)
    case Chat => s
    case BotTypes(k) => if k < |s.world.replies| then DoType(s, k) else s
    case BotPosts(k) => if k < |s.world.replies| then DoPost(env, s, k) else s
    case BotWrites(k, index) => if k < |s.world.replies| then DoWrite(env, s, k, index) else s
  }

  function RunTimer(env: Env, a: Action, s: Sys): Sys {
    match a
    case Foreign(_) => s
    case Mine(id, what) => Do(env, s.(world := s.world.(timers := s.world.timers - {id})), what)
  }

  function Runner(env: Env): (Action, Sys) -> Sys {
    (a: Action, s: Sys) => RunTimer(env, a, s)
  }

  function Start(env: Env, s: Sys): Sys {
    if s.world.running then s
    else
      var started := s.(world := s.world.(running := true, drawn := s.world.drawn + 1));
      Later(started, env.choice(s.world.drawn).delay, Tick)
  }

  function CutAll(replies: seq<Reply>): (r: seq<Reply>)
    ensures |r| == |replies| && forall k | 0 <= k < |r| :: r[k] == replies[k].(cut := true)
  {
    seq(|replies|, (k: nat) requires k < |replies| => replies[k].(cut := true))
  }

  function Stop(s: Sys): Sys {
    State(s.world.(running := false, timers := {}, replies := CutAll(s.world.replies)),
          s.timers.(pending := Purged(s.timers.pending, s.world.timers)))
  }

  function Purged(pending: seq<Timer<Action>>, gone: set<nat>): seq<Timer<Action>> {
    Filter(pending, (t: Timer<Action>) => t.id !in gone)
  }

  function BotReply(s: Sys, room: nat): Sys {
    var k := |s.world.replies|;
    var r := Reply(room, s.world.replyIndex, s.timers.clock, false, "", [], false, false);
    var asked := s.(world := s.world.(replies := s.world.replies + [r], replyIndex := s.world.replyIndex + 1));
    Later(asked, BOT_TYPING_DELAY_MS, BotTypes(k))
  }

  datatype Step =
    | Starts
    | Stops
    | Pauses(on: bool)
    | Asks(room: nat)
    | OthersSchedule(delay: int, tag: nat)
    | OthersCancel(id: nat)
    | FireDue(until: int)
    | Settle(until: int)

  predicate Enabled(s: Sys, step: Step) {
    match step
    case OthersCancel(id) => id !in s.world.timers
    case FireDue(until) => NextDue(s.timers.pending, until).Some?
    case Settle(until) => s.timers.clock <= until && NextDue(s.timers.pending, until).None?
    case _ => true
  }

  function Next(env: Env, s: Sys, step: Step): Sys
    requires Enabled(s, step)
  {
    match step
    case Starts => Start(env, s)
    case Stops => Stop(s)
    case Pauses(on) => s.(world := s.world.(paused := on))
    case Asks(room) => BotReply(s, room)
    case OthersSchedule(delay, tag) => s.(timers := Scheduled(s.timers, delay, Foreign(tag)))
    case OthersCancel(id) => s.(timers := Cancelled(s.timers, id))
    case FireDue(until) => Fire(Runner(env), s, NextDue(s.timers.pending, until).value)
    case Settle(until) => AtTime(s, until)
  }

  // ---------------------------------------------------------------------------------------------
  // The set of timers
  // ---------------------------------------------------------------------------------------------

  /** `timers` holds exactly the ids of the simulation's own pending timers. */
  ghost predicate TimersMatch(s: Sys) {
    && WellFormed(s.timers) && NotOverdue(s.timers)
    && (forall t | t in s.timers.pending && t.action.Mine? :: t.action.id == t.id && t.id in s.world.timers)
    && (forall id | id in s.world.timers :: exists t | t in s.timers.pending :: t.action.Mine? && t.id == id)
  }

  lemma LaterMatches(s: Sys, delay: int, what: What)
    requires TimersMatch(s)
    ensures TimersMatch(Later(s, delay, what))
  {
    ScheduleExtends(s.timers, delay, Mine(s.timers.nextId, what));
    var r := Later(s, delay, what);
    forall id | id in r.world.timers ensures exists t | t in r.timers.pending :: t.action.Mine? && t.id == id {
      if id in s.world.timers {
        var t :| t in s.timers.pending && t.action.Mine? && t.id == id;
        assert t in r.timers.pending;
      } else {
        assert r.timers.pending[|s.timers.pending|] in r.timers.pending;
      }
    }
  }

  lemma {:induction false} StreamingMatches(s: Sys, k: nat, m: nat)
    requires TimersMatch(s)
    ensures TimersMatch(Streaming(s, k, m))
  {
    if m > 0 {
      hide TimersMatch, Later;
      StreamingMatches(s, k, m - 1);
      LaterMatches(Streaming(s, k, m - 1), BOT_STREAM_STEP_MS * m, BotWrites(k, m - 1));
    }
  }

  /** Only the replies and the flags differ. */
  ghost predicate SameTimers(s: Sys, r: Sys) {
    r.timers == s.timers && r.world.timers == s.world.timers
  }

  lemma DoMatches(env: Env, s: Sys, what: What)
    requires TimersMatch(s)
    ensures TimersMatch(Do(env, s, what))
  {
    hide TimersMatch, Later, Streaming;
    match what
    case Tick =>
      if s.world.running {
        var choice := env.choice(s.world.drawn);
        var drawn := s.(world := s.world.(drawn := s.world.drawn + 1));
        MatchesSame(s, drawn);
        if !s.world.paused && choice.chat.Some? {
          LaterMatches(drawn, choice.chat.value, Chat);
          LaterMatches(Later(drawn, choice.chat.value, Chat), choice.delay, Tick);
        } else {
          LaterMatches(drawn, choice.delay, Tick);
        }
      }
    case Chat =>
    case BotTypes(k) =>
      if k < |s.world.replies| {
        var typing := WithReply(s, k, s.world.replies[k].(typed := true));
        MatchesSame(s, typing);
        LaterMatches(typing, BOT_TYPING_MS, BotPosts(k));
      }
    case BotPosts(k) =>
      if k < |s.world.replies| {
        var r := s.world.replies[k];
        var p := PhrasesOf(env, r.script);
        var posted := r.(text := FirstPhrase(p), writes := r.writes + [Write(FirstPhrase(p), |p| > 1)]);
        MatchesSame(s, WithReply(s, k, r.(refused := true)));
        MatchesSame(s, WithReply(s, k, posted));
        StreamingMatches(WithReply(s, k, posted), k, Updates(p));
      }
    case BotWrites(k, index) =>
      if k < |s.world.replies| { MatchesSame(s, DoWrite(env, s, k, index)); }
  }

  lemma MatchesSame(s: Sys, r: Sys)
    requires TimersMatch(s) && SameTimers(s, r)
    ensures TimersMatch(r)
  {
  }

  /** A firing timer is off the scheduler's list and, by its own hand, off the set. */
  lemma TakenMatches(s: Sys, until: int)
    requires TimersMatch(s) && NextDue(s.timers.pending, until).Some?
    ensures var t := NextDue(s.timers.pending, until).value;
            var left := if t.action.Mine? then s.world.timers - {t.action.id} else s.world.timers;
            TimersMatch(State(s.world.(timers := left), Taken(s.timers, t)))
  {
    hide NextDue, Filter;
    var t := NextDue(s.timers.pending, until).value;
    TakenExtends(s.timers, t);
    var taken := Taken(s.timers, t);
    forall u | u in taken.pending ensures u.at >= taken.clock {
      assert u.at <= until ==> !Earlier(u, t);
    }
    forall id | id in s.world.timers && id != t.id ensures exists u | u in taken.pending :: u.action.Mine? && u.id == id {
      var u :| u in s.timers.pending && u.action.Mine? && u.id == id;
      assert u in taken.pending;
    }
    if !t.action.Mine? {
      forall id | id in s.world.timers ensures id != t.id {
        var u :| u in s.timers.pending && u.action.Mine? && u.id == id;
        if id == t.id { DistinctElements(s.timers.pending, t, u); }
      }
    }
  }

  lemma StopMatches(s: Sys)
    requires TimersMatch(s)
    ensures TimersMatch(Stop(s))
    ensures forall t | t in Stop(s).timers.pending :: t.action.Foreign? && t in s.timers.pending
    ensures forall t | t in s.timers.pending && t.action.Foreign? :: t in Stop(s).timers.pending
  {
    var mine := s.world.timers;
    FilterKeepsDistinct(s.timers.pending, (t: Timer<Action>) => t.id !in mine);
    forall t | t in s.timers.pending && t.action.Foreign? ensures t.id !in mine {
      if t.id in mine {
        var u :| u in s.timers.pending && u.action.Mine? && u.id == t.id;
        DistinctElements(s.timers.pending, t, u);
      }
    }
  }

  lemma OthersMatch(s: Sys, delay: int, tag: nat, id: nat)
    requires TimersMatch(s)
    ensures TimersMatch(s.(timers := Scheduled(s.timers, delay, Foreign(tag))))
    ensures id !in s.world.timers ==> TimersMatch(s.(timers := Cancelled(s.timers, id)))
  {
    ScheduleExtends(s.timers, delay, Foreign(tag));
    CancelExtends(s.timers, id);
    var a, b := Scheduled(s.timers, delay, Foreign(tag)), Cancelled(s.timers, id);
    forall i | i in s.world.timers
      ensures exists t | t in a.pending :: t.action.Mine? && t.id == i
      ensures id !in s.world.timers ==> exists t | t in b.pending :: t.action.Mine? && t.id == i
    {
      var t :| t in s.timers.pending && t.action.Mine? && t.id == i;
      assert t in a.pending && (id !in s.world.timers ==> t in b.pending);
    }
  }

  lemma NextMatches(env: Env, s: Sys, step: Step)
    requires TimersMatch(s) && Enabled(s, step)
    ensures TimersMatch(Next(env, s, step))
  {
    hide TimersMatch, Later, NextDue, Do, Filter;
    match step
    case Starts =>
      var started := s.(world := s.world.(running := true, drawn := s.world.drawn + 1));
      MatchesSame(s, started);
      LaterMatches(started, env.choice(s.world.drawn).delay, Tick);
    case Stops => StopMatches(s);
    case Pauses(on) => MatchesSame(s, Next(env, s, step));
    case Asks(room) =>
      var r := Reply(room, s.world.replyIndex, s.timers.clock, false, "", [], false, false);
      var asked := s.(world := s.world.(replies := s.world.replies + [r], replyIndex := s.world.replyIndex + 1));
      MatchesSame(s, asked);
      LaterMatches(asked, BOT_TYPING_DELAY_MS, BotTypes(|s.world.replies|));
    case OthersSchedule(delay, tag) => OthersMatch(s, delay, tag, 0);
    case OthersCancel(id) => OthersMatch(s, 0, 0, id);
    case FireDue(until) =>
      var t := NextDue(s.timers.pending, until).value;
      TakenMatches(s, until);
      if t.action.Mine? {
        DoMatches(env, State(s.world.(timers := s.world.timers - {t.action.id}), Taken(s.timers, t)), t.action.what);
      } else {
        assert s.world.(timers := s.world.timers) == s.world;
      }
    case Settle(until) => SettleMatches(s, until);
  }

  lemma SettleMatches(s: Sys, until: int)
    requires TimersMatch(s) && NextDue(s.timers.pending, until).None?
    ensures TimersMatch(AtTime(s, until))
  {
  }
}
