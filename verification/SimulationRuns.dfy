/**
 * Every run of the simulation: what a bot reply has shown, which timers are still to come for it,
 * and when; and that a stopped simulation does nothing more.
 */
module SimulationRuns {
  import opened Common
  import opened Scheduler
  import opened Simulation

  // ---------------------------------------------------------------------------------------------
  // What a reply shows
  // ---------------------------------------------------------------------------------------------

  /** The first `n` phrases, run together. */
  function Joined(p: seq<string>, n: nat): string {
    if n == 0 || p == [] then "" else p[0] + Joined(p[1..], n - 1)
  }

  lemma {:induction false} JoinedMore(p: seq<string>, n: nat)
    requires n < |p|
    ensures Joined(p, n + 1) == Joined(p, n) + p[n]
  {
    if n == 0 {
      assert Joined(p[1..], 0) == "";
    } else {
      JoinedMore(p[1..], n - 1);
    }
  }

  /** How many times a whole reply is written: once at least, though it have no phrase. */
  function Total(p: seq<string>): nat {
    1 + Updates(p)
  }

  /** When write number `j` is due. */
  function WriteAt(r: Reply, j: nat): int {
    r.askedAt + 2000 + 400 * j
  }

  /** The reply has been written as a growing prefix, each write no sooner than it was due. */
  ghost predicate Shows(env: Env, r: Reply, k: nat, clock: int) {
    var p := PhrasesOf(env, r.script);
    && |r.writes| <= Total(p)
    && (forall j | 0 <= j < |r.writes| :: r.writes[j] == Write(Joined(p, j + 1), j < |p| - 1))
    && (r.writes != [] ==> r.typed && env.accepts(k) && r.text == Joined(p, |r.writes|) && WriteAt(r, |r.writes| - 1) <= clock)
    && (r.refused ==> !env.accepts(k) && r.writes == [])
    && r.askedAt <= clock
  }

  ghost predicate AllShow(env: Env, s: Sys) {
    forall k | 0 <= k < |s.world.replies| :: Shows(env, s.world.replies[k], k, s.timers.clock)
  }

  // ---------------------------------------------------------------------------------------------
  // Which timers are to come
  // ---------------------------------------------------------------------------------------------

  /** The timers the state calls for: a tick while running, and the rest of each reply. */
  ghost predicate Called(env: Env, w: Sim, what: What) {
    match what
    case Tick => w.running
    case Chat => false
    case BotTypes(k) => k < |w.replies| && Live(w.replies[k]) && !w.replies[k].typed
    case BotPosts(k) => k < |w.replies| && Live(w.replies[k]) && w.replies[k].typed && w.replies[k].writes == []
    case BotWrites(k, i) =>
      k < |w.replies| && Live(w.replies[k]) && 1 <= |w.replies[k].writes| <= i + 1 && i < Updates(PhrasesOf(env, w.replies[k].script))
  }

  predicate Live(r: Reply) {
    !r.cut && !r.refused
  }

  ghost function Calls(env: Env, w: Sim): iset<What> {
    iset what: What | Called(env, w, what)
  }

  ghost predicate OnTime(w: Sim, what: What, at: int) {
    match what
    case Tick => true
    case Chat => true
    case BotTypes(k) => k < |w.replies| && at == w.replies[k].askedAt + 500
    case BotPosts(k) => k < |w.replies| && at == WriteAt(w.replies[k], 0)
    case BotWrites(k, i) => k < |w.replies| && at == WriteAt(w.replies[k], i + 1)
  }

  predicate Tracked(t: Timer<Action>) {
    t.action.Mine? && t.action.what != Chat
  }

  /** The pending timers, chatter aside, are one for each member of `calls`, at its time. */
  ghost predicate Pending(s: Sys, calls: iset<What>) {
    && (forall t | t in s.timers.pending && Tracked(t) :: t.action.what in calls && OnTime(s.world, t.action.what, t.at))
    && (forall what | what in calls :: exists t | t in s.timers.pending :: Tracked(t) && t.action.what == what)
    && (forall t, u | t in s.timers.pending && u in s.timers.pending && Tracked(t) && Tracked(u) && t.action.what == u.action.what :: t == u)
  }

  /** The same, whatever the rest of the world. */
  lemma PendingSame(s: Sys, r: Sys, calls: iset<What>)
    requires Pending(s, calls) && r.timers.pending == s.timers.pending
    requires |s.world.replies| <= |r.world.replies|
    requires forall k | 0 <= k < |s.world.replies| :: r.world.replies[k].askedAt == s.world.replies[k].askedAt
    ensures Pending(r, calls)
  {
  }

  lemma PendingLater(s: Sys, delay: int, what: What, calls: iset<What>)
    requires Pending(s, calls) && what !in calls && TimersMatch(s)
    requires what == Chat || OnTime(s.world, what, s.timers.clock + Max(0, delay))
    ensures Pending(Later(s, delay, what), if what == Chat then calls else calls + iset{what})
  {
    var r := Later(s, delay, what);
    var t := r.timers.pending[|s.timers.pending|];
    assert t in r.timers.pending;
    var more := if what == Chat then calls else calls + iset{what};
    forall w | w in more ensures exists u | u in r.timers.pending :: Tracked(u) && u.action.what == w {
      if w in calls {
        var u :| u in s.timers.pending && Tracked(u) && u.action.what == w;
        assert u in r.timers.pending;
      }
    }
  }

  /** Dropping timers that are not the simulation's, or adding some, is nothing to it. */
  lemma PendingOthers(s: Sys, r: Sys, calls: iset<What>)
    requires Pending(s, calls) && r.world == s.world
    requires forall t | Tracked(t) :: t in r.timers.pending <==> t in s.timers.pending
    ensures Pending(r, calls)
  {
    forall what | what in calls ensures exists t | t in r.timers.pending :: Tracked(t) && t.action.what == what {
      var t :| t in s.timers.pending && Tracked(t) && t.action.what == what;
      assert t in r.timers.pending;
    }
  }

  /** The callback finds its own timer gone, and the others there. */
  function Struck(s: Sys, t: Timer<Action>): Sys {
    State(if t.action.Mine? then s.world.(timers := s.world.timers - {t.action.id}) else s.world, Taken(s.timers, t))
  }

  lemma PendingStruck(s: Sys, t: Timer<Action>, calls: iset<What>)
    requires Pending(s, calls) && WellFormed(s.timers) && t in s.timers.pending
    ensures Pending(Struck(s, t), if Tracked(t) then calls - iset{t.action.what} else calls)
  {
    hide Filter;
    TakenExtends(s.timers, t);
    var r := Struck(s, t);
    forall what | what in calls && !(Tracked(t) && t.action.what == what)
      ensures exists u | u in r.timers.pending :: Tracked(u) && u.action.what == what
    {
      var u :| u in s.timers.pending && Tracked(u) && u.action.what == what;
      assert u in r.timers.pending;
    }
  }

  /** One timer for each of the first `m` updates of reply `k`. */
  ghost function Stream(k: nat, m: nat): iset<What> {
    iset what: What | what.BotWrites? && what.reply == k && what.index < m
  }

  /** What `later` leaves as it was. */
  ghost predicate SameStory(s: Sys, r: Sys) {
    r.world.replies == s.world.replies && r.world.running == s.world.running && r.timers.clock == s.timers.clock
  }

  lemma {:induction false} StreamingStory(s: Sys, k: nat, m: nat)
    requires TimersMatch(s)
    ensures SameStory(s, Streaming(s, k, m)) && TimersMatch(Streaming(s, k, m))
  {
    StreamingMatches(s, k, m);
    if m != 0 {
      StreamingStory(s, k, m - 1);
    }
  }

  lemma {:induction false} PendingStreaming(s: Sys, k: nat, m: nat, calls: iset<What>)
    requires Pending(s, calls) && TimersMatch(s)
    requires calls !! Stream(k, m)
    requires k < |s.world.replies| && s.timers.clock == WriteAt(s.world.replies[k], 0)
    ensures Pending(Streaming(s, k, m), calls + Stream(k, m))
  {
    hide Pending, TimersMatch, Later;
    if m == 0 {
      assert calls + Stream(k, m) == calls;
    } else {
      assert calls !! Stream(k, m - 1);
      PendingStreaming(s, k, m - 1, calls);
      StreamingStory(s, k, m - 1);
      assert BotWrites(k, m - 1) in Stream(k, m);
      PendingLater(Streaming(s, k, m - 1), BOT_STREAM_STEP_MS * m, BotWrites(k, m - 1), calls + Stream(k, m - 1));
      assert calls + Stream(k, m) == calls + Stream(k, m - 1) + iset{BotWrites(k, m - 1)};
    }
  }

  // ---------------------------------------------------------------------------------------------
  // Every step keeps both
  // ---------------------------------------------------------------------------------------------

  ghost predicate Inv(env: Env, s: Sys) {
    TimersMatch(s) && Told(env, s)
  }

  ghost predicate Told(env: Env, s: Sys) {
    AllShow(env, s) && Pending(s, Calls(env, s.world))
  }

  lemma StartTold(env: Env, s: Sys)
    requires Inv(env, s)
    ensures Told(env, Start(env, s))
  {
    hide Pending, Called, Calls, TimersMatch, AllShow, Later;
    if !s.world.running {
      var r := Start(env, s);
      var started := s.(world := s.world.(running := true, drawn := s.world.drawn + 1));
      LaterStory(started, env.choice(s.world.drawn).delay, Tick);
      PendingSame(s, started, Calls(env, s.world));
      MatchesSame(s, started);
      CallsStarted(env, s.world, r.world);
      PendingLater(started, env.choice(s.world.drawn).delay, Tick, Calls(env, s.world));
      ShowsLater(env, s, r);
    }
  }

  lemma CallsStarted(env: Env, w: Sim, v: Sim)
    requires !w.running && v.running && v.replies == w.replies
    ensures Tick !in Calls(env, w) && Calls(env, v) == Calls(env, w) + iset{Tick}
  {
  }

  lemma StopTold(env: Env, s: Sys)
    requires Inv(env, s)
    ensures Told(env, Stop(s))
  {
    var r := Stop(s);
    StopMatches(s);
    forall k | 0 <= k < |r.world.replies| ensures Shows(env, r.world.replies[k], k, r.timers.clock) {
      assert Shows(env, s.world.replies[k], k, s.timers.clock);
    }
    assert Calls(env, r.world) == iset{};
  }

  lemma AskTold(env: Env, s: Sys, room: nat)
    requires Inv(env, s)
    ensures Told(env, BotReply(s, room))
  {
    hide Pending, Called, Calls;
    var k, r := |s.world.replies|, BotReply(s, room);
    var asked := s.(world := s.world.(replies := r.world.replies, replyIndex := r.world.replyIndex));
    PendingSame(s, asked, Calls(env, s.world));
    MatchesSame(s, asked);
    CallsAsked(env, s.world, r.world);
    PendingLater(asked, BOT_TYPING_DELAY_MS, BotTypes(k), Calls(env, s.world));
    forall j | 0 <= j < |r.world.replies| ensures Shows(env, r.world.replies[j], j, r.timers.clock) {
      if j < k { assert Shows(env, s.world.replies[j], j, s.timers.clock); }
    }
  }

  /** A new reply calls for its first timer. */
  lemma CallsAsked(env: Env, w: Sim, v: Sim)
    requires |v.replies| == |w.replies| + 1 && v.replies[..|w.replies|] == w.replies && v.running == w.running
    requires Live(v.replies[|w.replies|]) && !v.replies[|w.replies|].typed && v.replies[|w.replies|].writes == []
    ensures BotTypes(|w.replies|) !in Calls(env, w)
    ensures Calls(env, v) == Calls(env, w) + iset{BotTypes(|w.replies|)}
  {
    assert forall k | 0 <= k < |w.replies| :: v.replies[k] == v.replies[..|w.replies|][k];
  }

  /** Time passing alone. */
  lemma ShowsLater(env: Env, s: Sys, r: Sys)
    requires AllShow(env, s) && r.world.replies == s.world.replies && s.timers.clock <= r.timers.clock
    ensures AllShow(env, r)
  {
    forall k | 0 <= k < |r.world.replies| ensures Shows(env, r.world.replies[k], k, r.timers.clock) {
      assert Shows(env, s.world.replies[k], k, s.timers.clock);
    }
  }

  /** One reply changing. */
  lemma ShowsWith(env: Env, s: Sys, k: nat, r: Reply)
    requires AllShow(env, s) && k < |s.world.replies| && Shows(env, r, k, s.timers.clock)
    ensures AllShow(env, WithReply(s, k, r))
  {
    forall j | 0 <= j < |s.world.replies| ensures Shows(env, WithReply(s, k, r).world.replies[j], j, s.timers.clock) {
      assert Shows(env, s.world.replies[j], j, s.timers.clock);
    }
  }

  lemma TickTold(env: Env, s: Sys)
    requires TimersMatch(s) && AllShow(env, s) && Pending(s, Calls(env, s.world) - iset{Tick})
    ensures Told(env, DoTick(env, s))
  {
    hide Pending, TimersMatch, AllShow, Calls, Later;
    var calls := Calls(env, s.world) - iset{Tick};
    CallsAre(env, s.world, DoTick(env, s).world);
    if s.world.running {
      var choice := env.choice(s.world.drawn);
      var drawn := s.(world := s.world.(drawn := s.world.drawn + 1));
      var chats := !s.world.paused && choice.chat.Some?;
      var chatted := if chats then Later(drawn, choice.chat.value, Chat) else drawn;
      PendingSame(s, drawn, calls);
      MatchesSame(s, drawn);
      if chats {
        PendingLater(drawn, choice.chat.value, Chat, calls);
        LaterMatches(drawn, choice.chat.value, Chat);
        LaterStory(drawn, choice.chat.value, Chat);
      }
      PendingLater(chatted, choice.delay, Tick, calls);
      LaterStory(chatted, choice.delay, Tick);
      CallsAre(env, s.world, DoTick(env, s).world);
      assert Calls(env, s.world) == calls + iset{Tick};
      ShowsLater(env, s, DoTick(env, s));
    } else {
      assert calls == Calls(env, s.world);
    }
  }

  lemma LaterStory(s: Sys, delay: int, what: What)
    ensures SameStory(s, Later(s, delay, what))
  {
  }

  /** Ticks and chatter are never called for by the replies, and nothing else is read. */
  lemma CallsAre(env: Env, w: Sim, v: Sim)
    ensures Tick in Calls(env, w) <==> w.running
    ensures Chat !in Calls(env, w)
    ensures w.replies == v.replies && w.running == v.running ==> Calls(env, w) == Calls(env, v)
  {
  }

  lemma TypeTold(env: Env, s: Sys, k: nat)
    requires TimersMatch(s) && AllShow(env, s) && Pending(s, Calls(env, s.world) - iset{BotTypes(k)})
    requires BotTypes(k) in Calls(env, s.world) && s.timers.clock == s.world.replies[k].askedAt + BOT_TYPING_DELAY_MS
    ensures Told(env, DoType(s, k))
  {
    hide Pending;
    var calls := Calls(env, s.world) - iset{BotTypes(k)};
    var r := s.world.replies[k];
    var typing := WithReply(s, k, r.(typed := true));
    assert Shows(env, r, k, s.timers.clock);
    ShowsWith(env, s, k, r.(typed := true));
    PendingSame(s, typing, calls);
    MatchesSame(s, typing);
    PendingLater(typing, BOT_TYPING_MS, BotPosts(k), calls);
    ShowsLater(env, typing, DoType(s, k));
    assert Calls(env, DoType(s, k).world) == calls + iset{BotPosts(k)};
  }

  /** Refused, a reply calls for nothing more; posted, for its updates. */
  lemma CallsPosted(env: Env, w: Sim, k: nat, r: Reply)
    requires BotPosts(k) in Calls(env, w) && r.typed && r.script == w.replies[k].script
    requires r.refused || (Live(r) && |r.writes| == 1)
    ensures var calls, after := Calls(env, w) - iset{BotPosts(k)}, Calls(env, w.(replies := w.replies[k := r]));
            var stream := Stream(k, Updates(PhrasesOf(env, r.script)));
            calls !! stream && after == if r.refused then calls else calls + stream
  {
    var calls, after := Calls(env, w) - iset{BotPosts(k)}, Calls(env, w.(replies := w.replies[k := r]));
    var stream := Stream(k, Updates(PhrasesOf(env, r.script)));
    forall what: What | !Concerns(what, k)
      ensures what in after <==> what in calls
      ensures what !in stream
    {
    }
    forall what: What | Concerns(what, k)
      ensures what !in calls
      ensures what in after <==> !r.refused && what in stream
    {
    }
  }

  predicate Concerns(what: What, k: nat) {
    match what
    case Tick => false
    case Chat => false
    case BotTypes(j) => j == k
    case BotPosts(j) => j == k
    case BotWrites(j, _) => j == k
  }

  lemma PostTold(env: Env, s: Sys, k: nat)
    requires TimersMatch(s) && AllShow(env, s) && Pending(s, Calls(env, s.world) - iset{BotPosts(k)})
    requires BotPosts(k) in Calls(env, s.world)
    requires k < |s.world.replies| && Live(s.world.replies[k]) && s.world.replies[k].typed && s.world.replies[k].writes == []
    requires s.timers.clock == WriteAt(s.world.replies[k], 0)
    ensures Told(env, DoPost(env, s, k))
  {
    hide Pending, TimersMatch, Streaming, Called;
    var calls := Calls(env, s.world) - iset{BotPosts(k)};
    var r := s.world.replies[k];
    var p := PhrasesOf(env, r.script);
    assert Shows(env, r, k, s.timers.clock);
    if !env.accepts(k) {
      ShowsWith(env, s, k, r.(refused := true));
      PendingSame(s, WithReply(s, k, r.(refused := true)), calls);
      CallsPosted(env, s.world, k, r.(refused := true));
    } else {
      var posted := r.(text := FirstPhrase(p), writes := r.writes + [Write(FirstPhrase(p), |p| > 1)]);
      assert Joined(p, 1) == FirstPhrase(p) by { if p != [] { JoinedMore(p, 0); } }
      ShowsWith(env, s, k, posted);
      var mid := WithReply(s, k, posted);
      CallsPosted(env, s.world, k, posted);
      PendingSame(s, mid, calls);
      MatchesSame(s, mid);
      PendingStreaming(mid, k, Updates(p), calls);
      StreamingStory(mid, k, Updates(p));
      ShowsLater(env, mid, DoPost(env, s, k));
      CallsAre(env, mid.world, DoPost(env, s, k).world);
    }
  }

  lemma WriteTold(env: Env, s: Sys, k: nat, i: nat)
    requires TimersMatch(s) && AllShow(env, s) && Pending(s, Calls(env, s.world) - iset{BotWrites(k, i)})
    requires BotWrites(k, i) in Calls(env, s.world) && s.timers.clock == WriteAt(s.world.replies[k], i + 1)
    requires k < |s.world.replies| && i + 1 == |s.world.replies[k].writes| && Live(s.world.replies[k])
    requires i < Updates(PhrasesOf(env, s.world.replies[k].script))
    ensures Told(env, DoWrite(env, s, k, i))
  {
    hide Pending, TimersMatch, Called, Calls;
    var calls := Calls(env, s.world) - iset{BotWrites(k, i)};
    var r := s.world.replies[k];
    var p := PhrasesOf(env, r.script);
    assert Shows(env, r, k, s.timers.clock);
    JoinedMore(p, i + 1);
    var written := DoWrite(env, s, k, i).world.replies[k];
    ShowsWith(env, s, k, written);
    PendingSame(s, WithReply(s, k, written), calls);
    CallsWritten(env, s.world, k, written);
  }

  /** A reply written once more calls for one update less. */
  lemma CallsWritten(env: Env, w: Sim, k: nat, r: Reply)
    requires k < |w.replies| && w.replies[k].typed && Live(w.replies[k]) && w.replies[k].writes != []
    requires r.typed && Live(r) && r.script == w.replies[k].script && |r.writes| == |w.replies[k].writes| + 1
    ensures Calls(env, w.(replies := w.replies[k := r])) == Calls(env, w) - iset{BotWrites(k, |w.replies[k].writes| - 1)}
  {
  }

  /** Of a reply's updates the earliest is always the next one to be written. */
  lemma NextUpdate(env: Env, s: Sys, until: int, k: nat, i: nat)
    requires Inv(env, s) && NextDue(s.timers.pending, until).Some?
    requires var t := NextDue(s.timers.pending, until).value; t.action.Mine? && t.action.what == BotWrites(k, i)
    ensures k < |s.world.replies| && i + 1 == |s.world.replies[k].writes|
  {
    hide NextDue, TimersMatch, AllShow;
    var t := NextDue(s.timers.pending, until).value;
    assert Tracked(t) && BotWrites(k, i) in Calls(env, s.world) && OnTime(s.world, t.action.what, t.at);
    var w := |s.world.replies[k].writes|;
    assert BotWrites(k, w - 1) in Calls(env, s.world);
    var u :| u in s.timers.pending && Tracked(u) && u.action.what == BotWrites(k, w - 1);
    assert OnTime(s.world, u.action.what, u.at) && u.at <= t.at && !Earlier(u, t);
  }

  lemma FireTold(env: Env, s: Sys, until: int)
    requires Inv(env, s) && NextDue(s.timers.pending, until).Some?
    ensures Told(env, Next(env, s, FireDue(until)))
  {
    hide NextDue, AllShow, Pending, Calls, TimersMatch, DoTick, DoType, DoPost, DoWrite, Filter;
    var t := NextDue(s.timers.pending, until).value;
    var x := Struck(s, t);
    var calls := Calls(env, s.world);
    StruckIs(env, s, until);
    if t.action.Mine? {
      var what := t.action.what;
      assert Next(env, s, FireDue(until)) == Do(env, x, what);
      match what
      case Tick => TickTold(env, x);
      case Chat =>
      case BotTypes(k) => TypeTold(env, x, k);
      case BotPosts(k) => PostTold(env, x, k);
      case BotWrites(k, i) =>
        NextUpdate(env, s, until, k, i);
        WriteTold(env, x, k, i);
    }
  }

  /** What the callback of the next timer finds. */
  lemma StruckIs(env: Env, s: Sys, until: int)
    requires Inv(env, s) && NextDue(s.timers.pending, until).Some?
    ensures var t := NextDue(s.timers.pending, until).value;
            var x := Struck(s, t);
            && TimersMatch(x) && AllShow(env, x) && x.timers.clock == t.at
            && Calls(env, x.world) == Calls(env, s.world)
            && Pending(x, if Tracked(t) then Calls(env, s.world) - iset{t.action.what} else Calls(env, s.world))
            && (Tracked(t) ==> t.action.what in Calls(env, s.world) && Called(env, s.world, t.action.what) && OnTime(s.world, t.action.what, t.at))
  {
    hide NextDue, AllShow, Called;
    var t := NextDue(s.timers.pending, until).value;
    var x := Struck(s, t);
    assert t.at >= s.timers.clock;
    TakenMatches(s, until);
    assert s.world.(timers := s.world.timers) == s.world;
    PendingStruck(s, t, Calls(env, s.world));
    ShowsLater(env, s, x);
    CallsAre(env, s.world, x.world);
  }

  lemma NextKeeps(env: Env, s: Sys, step: Step)
    requires Inv(env, s) && Enabled(s, step)
    ensures Inv(env, Next(env, s, step))
  {
    NextMatches(env, s, step);
    var r := Next(env, s, step);
    match step
    case Starts => StartTold(env, s);
    case Stops => StopTold(env, s);
    case Asks(room) => AskTold(env, s, room);
    case FireDue(until) => FireTold(env, s, until);
    case _ => OtherTold(env, s, step);
  }

  lemma OtherTold(env: Env, s: Sys, step: Step)
    requires Inv(env, s) && Enabled(s, step)
    requires step.Pauses? || step.OthersSchedule? || step.OthersCancel? || step.Settle?
    ensures Told(env, Next(env, s, step))
  {
    hide Pending, AllShow, Called, NextDue;
    var r := Next(env, s, step);
    ShowsLater(env, s, r);
    CallsAre(env, s.world, r.world);
    match step
    case Pauses(on) => PendingSame(s, r, Calls(env, s.world));
    case _ => PendingOthers(s, r, Calls(env, s.world));
  }

  // ---------------------------------------------------------------------------------------------
  // Whole runs
  // ---------------------------------------------------------------------------------------------

  /** `steps` can be taken from `s` one after another, and lead to `r`. */
  ghost predicate Runs(env: Env, s: Sys, steps: seq<Step>, r: Sys)
    decreases |steps|
  {
    if steps == [] then r == s
    else Enabled(s, steps[0]) && Runs(env, Next(env, s, steps[0]), steps[1..], r)
  }

  /** A new simulation on a scheduler that may already be in use by others. */
  ghost predicate Initial(s: Sys) {
    && s.world == Sim({}, false, false, 0, 0, [])
    && WellFormed(s.timers) && NotOverdue(s.timers)
    && forall t | t in s.timers.pending :: t.action.Foreign?
  }

  lemma {:induction false} RunKeeps(env: Env, s: Sys, steps: seq<Step>, r: Sys)
    requires Inv(env, s) && Runs(env, s, steps, r)
    ensures Inv(env, r)
    decreases |steps|
  {
    hide Inv, Next, Enabled;
    if steps != [] {
      NextKeeps(env, s, steps[0]);
      RunKeeps(env, Next(env, s, steps[0]), steps[1..], r);
    }
  }

  ghost predicate Reachable(env: Env, s: Sys) {
    exists from, steps :: Initial(from) && Runs(env, from, steps, s)
  }

  lemma ReachableInv(env: Env, s: Sys)
    requires Reachable(env, s)
    ensures Inv(env, s)
  {
    var from, steps :| Initial(from) && Runs(env, from, steps, s);
    assert Calls(env, from.world) == iset{};
    RunKeeps(env, from, steps, s);
  }

  /** The `timers` set is, at every moment, exactly the simulation's own pending timers. */
  lemma TimersAreOwn(env: Env, s: Sys, id: nat)
    requires Reachable(env, s)
    ensures id in s.world.timers <==> exists t | t in s.timers.pending :: t.id == id && t.action.Mine?
  {
    ReachableInv(env, s);
  }

  predicate IsTick(s: Sys, t: Timer<Action>) {
    t in s.timers.pending && t.action.Mine? && t.action.what == Tick
  }

  /** However often it was started, a running simulation has one tick to come, and a stopped one none. */
  lemma OneTick(env: Env, s: Sys, t: Timer<Action>, u: Timer<Action>)
    requires Reachable(env, s)
    ensures s.world.running <==> exists v :: IsTick(s, v)
    ensures IsTick(s, t) && IsTick(s, u) ==> t == u
  {
    ReachableInv(env, s);
    CallsAre(env, s.world, s.world);
    forall v | IsTick(s, v) ensures s.world.running {
      assert Tracked(v);
    }
    if s.world.running {
      var v :| v in s.timers.pending && Tracked(v) && v.action.what == Tick;
      assert IsTick(s, v);
    }
  }

  /** A reply shows successive prefixes of its phrases run together, and every write but the one that
      completes it is marked streaming. */
  lemma PrefixesInOrder(env: Env, s: Sys, k: nat, j: nat)
    requires Reachable(env, s) && k < |s.world.replies| && j < |s.world.replies[k].writes|
    ensures var p := PhrasesOf(env, s.world.replies[k].script);
            && s.world.replies[k].writes[j].text == Joined(p, j + 1)
            && (s.world.replies[k].writes[j].streaming <==> j + 1 < |p|)
            && (p != [] ==> (j + 1 == |p| <==> !s.world.replies[k].writes[j].streaming))
  {
    ReachableInv(env, s);
    assert Shows(env, s.world.replies[k], k, s.timers.clock);
  }

  /** The clock has got beyond `at`, or is there with nothing left to run. */
  predicate Past(s: Sys, at: int) {
    at < s.timers.clock || (at == s.timers.clock && Quiet(s, s.timers.clock))
  }

  /** A reply that is not cut by `stop`, and whose post the host takes, is written to the millisecond:
      a write is there once its time has come, and never before. */
  lemma WrittenOnTime(env: Env, s: Sys, k: nat, j: nat)
    requires Reachable(env, s) && k < |s.world.replies|
    requires j < Total(PhrasesOf(env, s.world.replies[k].script))
    ensures j < |s.world.replies[k].writes| ==> WriteAt(s.world.replies[k], j) <= s.timers.clock
    ensures !s.world.replies[k].cut && env.accepts(k) && Past(s, WriteAt(s.world.replies[k], j)) ==>
              j < |s.world.replies[k].writes|
  {
    ReachableInv(env, s);
    hide Pending, Called, TimersMatch, NextDue;
    var r := s.world.replies[k];
    assert Shows(env, r, k, s.timers.clock);
    if Live(r) && |r.writes| <= j {
      StillToCome(env, s, k);
    }
  }

  /** An unfinished reply has a timer to come, due no later than its next write. */
  lemma StillToCome(env: Env, s: Sys, k: nat)
    requires Inv(env, s) && k < |s.world.replies| && Live(s.world.replies[k])
    requires |s.world.replies[k].writes| < Total(PhrasesOf(env, s.world.replies[k].script))
    ensures !Past(s, WriteAt(s.world.replies[k], |s.world.replies[k].writes|))
  {
    var r := s.world.replies[k];
    var what := if !r.typed then BotTypes(k) else if r.writes == [] then BotPosts(k) else BotWrites(k, |r.writes| - 1);
    assert Shows(env, r, k, s.timers.clock);
    assert what in Calls(env, s.world);
    var t :| t in s.timers.pending && Tracked(t) && t.action.what == what;
    assert OnTime(s.world, what, t.at) && s.timers.clock <= t.at;
  }

  /** Once its time is over such a reply holds the full text, is no longer streaming, and is final. */
  lemma ReplyCompletes(env: Env, s: Sys, k: nat)
    requires Reachable(env, s) && k < |s.world.replies|
    requires !s.world.replies[k].cut && env.accepts(k)
    requires Past(s, WriteAt(s.world.replies[k], Updates(PhrasesOf(env, s.world.replies[k].script))))
    ensures var r := s.world.replies[k];
            var p := PhrasesOf(env, r.script);
            && |r.writes| == Total(p) && r.text == Joined(p, |p|)
            && r.writes[|r.writes| - 1] == Write(Joined(p, |p|), false)
            && forall j | 0 <= j < |r.writes| - 1 :: r.writes[j].streaming
    ensures forall t | t in s.timers.pending && t.action.Mine? ::
              t.action.what !in {BotTypes(k), BotPosts(k)} && !(t.action.what.BotWrites? && t.action.what.reply == k)
  {
    var r := s.world.replies[k];
    var p := PhrasesOf(env, r.script);
    WrittenOnTime(env, s, k, Updates(p));
    ReachableInv(env, s);
    assert Shows(env, r, k, s.timers.clock);
    forall t | t in s.timers.pending && t.action.Mine?
      ensures t.action.what !in {BotTypes(k), BotPosts(k)} && !(t.action.what.BotWrites? && t.action.what.reply == k)
    {
      assert t.action.what != Chat ==> Tracked(t) && t.action.what in Calls(env, s.world);
    }
  }

  // ---------------------------------------------------------------------------------------------
  // After stop
  // ---------------------------------------------------------------------------------------------

  predicate NoneOwn(s: Sys) {
    forall t | t in s.timers.pending :: t.action.Foreign?
  }

  lemma StepsInSilence(env: Env, s: Sys, step: Step)
    requires NoneOwn(s) && s.world.timers == {} && Enabled(s, step) && !step.Starts? && !step.Asks?
    ensures var r := Next(env, s, step);
            NoneOwn(r) && r.world.timers == {}
            && (!step.Stops? ==> r.world == s.world.(paused := r.world.paused))
            && (step.FireDue? ==> NextDue(s.timers.pending, step.until).value.action.Foreign?)
  {
    hide NextDue;
  }

  /** Nothing of the simulation fires after `stop` until it is started or asked to reply again: every
      timer that does is someone else's, and no reply is written to. */
  lemma {:induction false} SilentAfterStop(env: Env, s: Sys, steps: seq<Step>, r: Sys)
    requires Reachable(env, s) && Runs(env, Stop(s), steps, r)
    requires forall i | 0 <= i < |steps| :: !steps[i].Starts? && !steps[i].Asks?
    ensures NoneOwn(r) && r.world.timers == {} && !r.world.running
    ensures |r.world.replies| == |s.world.replies|
    ensures forall k | 0 <= k < |s.world.replies| :: r.world.replies[k].writes == s.world.replies[k].writes
  {
    ReachableInv(env, s);
    StopMatches(s);
    SilentRun(env, Stop(s), steps, r);
  }

  lemma {:induction false} SilentRun(env: Env, s: Sys, steps: seq<Step>, r: Sys)
    requires NoneOwn(s) && s.world.timers == {} && !s.world.running && Runs(env, s, steps, r)
    requires forall i | 0 <= i < |steps| :: !steps[i].Starts? && !steps[i].Asks?
    ensures NoneOwn(r) && r.world.timers == {} && !r.world.running
    ensures |r.world.replies| == |s.world.replies|
    ensures forall k | 0 <= k < |s.world.replies| :: r.world.replies[k].writes == s.world.replies[k].writes
    decreases |steps|
  {
    hide NextDue, NoneOwn;
    if steps != [] {
      StepsInSilence(env, s, steps[0]);
      SilentRun(env, Next(env, s, steps[0]), steps[1..], r);
    }
  }

  // ---------------------------------------------------------------------------------------------
  // Advancing
  // ---------------------------------------------------------------------------------------------

  /** The draws stay in their ranges, and no canned reply has more than `k` phrases. */
  ghost predicate Bounded(env: Env, k: nat) {
    && 2 <= k
    && (forall n :: env.choice(n).delay >= BOT_STREAM_STEP_MS && (env.choice(n).chat.Some? ==> env.choice(n).chat.value >= BOT_STREAM_STEP_MS))
    && forall i | 0 <= i < |env.replies| :: |env.replies[i]| <= k
  }

  /** `r` is `s` and at most `k` timers more, none sooner than a streaming step from now. */
  ghost predicate Adds(s: Timers<Action>, r: Timers<Action>, k: nat) {
    && r.clock == s.clock && r.nextId >= s.nextId && WellFormed(r)
    && |s.pending| <= |r.pending| <= |s.pending| + k
    && r.pending[..|s.pending|] == s.pending
    && forall i | |s.pending| <= i < |r.pending| :: r.pending[i].id >= s.nextId && r.pending[i].at >= s.clock + BOT_STREAM_STEP_MS
  }

  lemma AddsLater(from: Timers<Action>, s: Sys, delay: int, what: What, k: nat)
    requires Adds(from, s.timers, k) && delay >= BOT_STREAM_STEP_MS
    ensures Adds(from, Later(s, delay, what).timers, k + 1)
  {
    ScheduleExtends(s.timers, delay, Mine(s.timers.nextId, what));
    hide WellFormed, Extends;
    var last := Timer(s.timers.nextId, s.timers.clock + Max(0, delay), Mine(s.timers.nextId, what));
    assert Later(s, delay, what).timers.pending == s.timers.pending + [last];
  }

  lemma {:induction false} AddsStreaming(from: Timers<Action>, s: Sys, k: nat, m: nat)
    requires Adds(from, s.timers, 0)
    ensures Adds(from, Streaming(s, k, m).timers, m)
  {
    hide Adds, Later;
    if m != 0 {
      AddsStreaming(from, s, k, m - 1);
      AddsLater(from, Streaming(s, k, m - 1), BOT_STREAM_STEP_MS * m, BotWrites(k, m - 1), m - 1);
    }
  }

  lemma AddsMore(s: Timers<Action>, r: Timers<Action>, j: nat, k: nat)
    requires Adds(s, r, j) && j <= k
    ensures Adds(s, r, k)
  {
  }

  lemma DoAdds(env: Env, s: Sys, what: What, k: nat)
    requires Bounded(env, k) && WellFormed(s.timers)
    ensures Adds(s.timers, Do(env, s, what).timers, k)
  {
    hide Later, Streaming, WellFormed;
    var from := s.timers;
    assert Adds(from, from, 0);
    var r := Do(env, s, what);
    hide Adds;
    AddsMore(from, from, 0, k);
    match what
    case Tick =>
      if s.world.running {
        var choice := env.choice(s.world.drawn);
        var drawn := s.(world := s.world.(drawn := s.world.drawn + 1));
        AddsLater(from, drawn, choice.delay, Tick, 0);
        AddsMore(from, Later(drawn, choice.delay, Tick).timers, 1, k);
        if !s.world.paused && choice.chat.Some? {
          AddsLater(from, drawn, choice.chat.value, Chat, 0);
          AddsLater(from, Later(drawn, choice.chat.value, Chat), choice.delay, Tick, 1);
          AddsMore(from, r.timers, 2, k);
        }
      }
    case Chat =>
    case BotTypes(j) =>
      if j < |s.world.replies| {
        AddsLater(from, WithReply(s, j, s.world.replies[j].(typed := true)), BOT_TYPING_MS, BotPosts(j), 0);
        AddsMore(from, r.timers, 1, k);
      }
    case BotPosts(j) =>
      if j < |s.world.replies| && env.accepts(j) {
        var reply := s.world.replies[j];
        var p := PhrasesOf(env, reply.script);
        var posted := reply.(text := FirstPhrase(p), writes := reply.writes + [Write(FirstPhrase(p), |p| > 1)]);
        AddsStreaming(from, WithReply(s, j, posted), j, Updates(p));
        AddsMore(from, r.timers, Updates(p), k);
      }
    case BotWrites(j, index) =>
  }

  lemma AddsIsLawful(s: Timers<Action>, r: Timers<Action>, k: nat)
    requires WellFormed(s) && Adds(s, r, k)
    ensures WellFormed(r) && Extends(s, r)
    ensures |Born(r.pending, s.nextId)| <= k && forall t | t in Born(r.pending, s.nextId) :: t.at >= s.clock + BOT_STREAM_STEP_MS
  {
    hide Filter;
    var recent := (t: Timer<Action>) => t.id >= s.nextId;
    var added := r.pending[|s.pending|..];
    assert r.pending == s.pending + added;
    forall t | t in added ensures t.id >= s.nextId && t.at >= s.clock + BOT_STREAM_STEP_MS {
      var i :| 0 <= i < |added| && added[i] == t;
      assert r.pending[|s.pending| + i] == t;
    }
    FilterConcat(s.pending, added, recent);
    FilterAllOrNone(s.pending, recent);
  }

  lemma RunnerLawful(env: Env, k: nat)
    requires Bounded(env, k)
    ensures Lawful(Runner(env)) && Rearms(Runner(env), BOT_STREAM_STEP_MS, k)
  {
    hide Do, Adds, WellFormed, Born, Extends;
    forall a: Action, s: Sys | WellFormed(s.timers)
      ensures WellFormed(Runner(env)(a, s).timers) && Extends(s.timers, Runner(env)(a, s).timers)
      ensures var born := Born(Runner(env)(a, s).timers.pending, s.timers.nextId);
              |born| <= k && forall t | t in born :: t.at >= s.timers.clock + BOT_STREAM_STEP_MS
    {
      match a {
        case Foreign(_) => NothingAdded(s.timers, k);
        case Mine(id, what) => DoAdds(env, s.(world := s.world.(timers := s.world.timers - {id})), what, k);
      }
      AddsIsLawful(s.timers, Runner(env)(a, s).timers, k);
    }
  }

  lemma NothingAdded(s: Timers<Action>, k: nat)
    requires WellFormed(s)
    ensures Adds(s, s, k)
  {
  }

  /** `advance` over the simulation always ends, and is a run of it: so all the above holds throughout. */
  lemma AdvanceIsRun(env: Env, s: Sys, ms: nat, k: nat) returns (rounds: nat, steps: seq<Step>)
    requires Inv(env, s) && Bounded(env, k)
    ensures Settles(Runner(env), s, s.timers.clock + ms, rounds)
    ensures Runs(env, s, steps, Advanced(Runner(env), s, ms, rounds).state)
  {
    hide FireN, NextDue, Bounded, Inv, Potential, Lawful, Rearms, Runner, WellFormed, Runs, Settles;
    RunnerLawful(env, k);
    InvTimers(env, s);
    var until := s.timers.clock + ms;
    rounds := Potential(s.timers.pending, until, BOT_STREAM_STEP_MS, k);
    AdvanceTerminates(Runner(env), s, until, BOT_STREAM_STEP_MS, k);
    steps := RoundsAreRun(env, s, until, rounds);
  }

  lemma InvTimers(env: Env, s: Sys)
    requires Inv(env, s)
    ensures WellFormed(s.timers)
  {
  }

  lemma {:induction false} RoundsAreRun(env: Env, s: Sys, until: int, n: nat) returns (steps: seq<Step>)
    requires Inv(env, s) && s.timers.clock <= until && Settles(Runner(env), s, until, n)
    ensures Runs(env, s, steps, AtTime(FireN(Runner(env), s, until, n).state, until))
    decreases n
  {
    hide Inv, NextDue, FireN, Runs, Fire, Runner;
    if Quiet(s, until) {
      NoRound(Runner(env), s, until, n);
      RunNowhere(env, AtTime(s, until));
      RunFirst(env, s, Settle(until), [], AtTime(s, until));
      steps := [Settle(until)];
      assert [Settle(until)] + [] == [Settle(until)];
    } else {
      var t := NextDue(s.timers.pending, until).value;
      FirstRound(Runner(env), s, until, n, t);
      NextKeeps(env, s, FireDue(until));
      FireClock(env, s, until);
      var rest := RoundsAreRun(env, Fire(Runner(env), s, t), until, n - 1);
      RunFirst(env, s, FireDue(until), rest, AtTime(FireN(Runner(env), s, until, n).state, until));
      steps := [FireDue(until)] + rest;
    }
  }

  lemma FireClock(env: Env, s: Sys, until: int)
    requires s.timers.clock <= until && NextDue(s.timers.pending, until).Some?
    ensures Next(env, s, FireDue(until)).timers.clock <= until
  {
    hide NextDue, Filter;
    var t := NextDue(s.timers.pending, until).value;
    if t.action.Mine? {
      DoClock(env, Struck(s, t), t.action.what);
    }
  }

  lemma DoClock(env: Env, s: Sys, what: What)
    ensures Do(env, s, what).timers.clock == s.timers.clock
  {
    if what.BotPosts? && what.reply < |s.world.replies| {
      var r := s.world.replies[what.reply];
      var p := PhrasesOf(env, r.script);
      var posted := r.(text := FirstPhrase(p), writes := r.writes + [Write(FirstPhrase(p), |p| > 1)]);
      StreamingClock(WithReply(s, what.reply, posted), what.reply, Updates(p));
    }
  }

  lemma {:induction false} StreamingClock(s: Sys, k: nat, m: nat)
    ensures Streaming(s, k, m).timers.clock == s.timers.clock
  {
    if m != 0 { StreamingClock(s, k, m - 1); }
  }

  lemma RunNowhere(env: Env, s: Sys)
    ensures Runs(env, s, [], s)
  {
  }

  lemma RunFirst(env: Env, s: Sys, step: Step, rest: seq<Step>, r: Sys)
    requires Enabled(s, step) && Runs(env, Next(env, s, step), rest, r)
    ensures Runs(env, s, [step] + rest, r)
  {
    hide Next, Enabled;
    assert ([step] + rest)[1..] == rest;
  }

  // ---------------------------------------------------------------------------------------------
  // Ticks and scripts
  // ---------------------------------------------------------------------------------------------

  /** A tick of a running simulation schedules the next tick, and before it a chat only if it is not paused and
      there is one; of a stopped one nothing. */
  lemma TickExactly(env: Env, s: Sys)
    ensures var choice, id, clock := env.choice(s.world.drawn), s.timers.nextId, s.timers.clock;
            var chats := !s.world.paused && choice.chat.Some?;
            var tick := Timer(if chats then id + 1 else id, clock + Max(0, choice.delay), Mine(if chats then id + 1 else id, Tick));
            && DoTick(env, s).timers.pending ==
               (if !s.world.running then s.timers.pending
                else if chats then s.timers.pending + [Timer(id, clock + Max(0, choice.chat.value), Mine(id, Chat)), tick]
                else s.timers.pending + [tick])
            && DoTick(env, s).world.replies == s.world.replies && DoTick(env, s).world.running == s.world.running
  {
  }

  /** Replies are numbered as they are asked for, and take the canned scripts in turn. */
  ghost predicate InTurn(s: Sys) {
    s.world.replyIndex == |s.world.replies| && forall k | 0 <= k < |s.world.replies| :: s.world.replies[k].script == k
  }

  lemma DoKeepsTurn(env: Env, s: Sys, what: What)
    requires InTurn(s)
    ensures InTurn(Do(env, s, what))
  {
    if what.BotPosts? && what.reply < |s.world.replies| {
      var r := s.world.replies[what.reply];
      var p := PhrasesOf(env, r.script);
      var posted := WithReply(s, what.reply, r.(text := FirstPhrase(p), writes := r.writes + [Write(FirstPhrase(p), |p| > 1)]));
      StreamingTurn(posted, what.reply, Updates(p));
    }
  }

  lemma {:induction false} StreamingTurn(s: Sys, k: nat, m: nat)
    requires InTurn(s)
    ensures InTurn(Streaming(s, k, m))
  {
    if m != 0 { StreamingTurn(s, k, m - 1); }
  }

  lemma NextInTurn(env: Env, s: Sys, step: Step)
    requires InTurn(s) && Enabled(s, step)
    ensures InTurn(Next(env, s, step))
  {
    hide Do, NextDue, Filter;
    if step.FireDue? {
      var t := NextDue(s.timers.pending, step.until).value;
      if t.action.Mine? { DoKeepsTurn(env, Struck(s, t), t.action.what); }
    }
  }

  lemma {:induction false} RunInTurn(env: Env, s: Sys, steps: seq<Step>, r: Sys)
    requires InTurn(s) && Runs(env, s, steps, r)
    ensures InTurn(r)
    decreases |steps|
  {
    hide InTurn, Next, Enabled;
    if steps != [] {
      NextInTurn(env, s, steps[0]);
      RunInTurn(env, Next(env, s, steps[0]), steps[1..], r);
    }
  }

  /** The k-th reply of any run is the (k mod n)-th of the n canned ones. */
  lemma ScriptsInTurn(env: Env, s: Sys, k: nat)
    requires Reachable(env, s) && k < |s.world.replies|
    ensures |env.replies| > 0 ==> PhrasesOf(env, s.world.replies[k].script) == env.replies[k % |env.replies|]
    ensures |env.replies| == 0 ==> PhrasesOf(env, s.world.replies[k].script) == ["On it."]
  {
    hide Next, Enabled;
    var from, steps :| Initial(from) && Runs(env, from, steps, s);
    RunInTurn(env, from, steps, s);
  }
}
