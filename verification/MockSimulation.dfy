/**
 * `createSimulation` (frontend/mock/simulation.ts) as the object it is: closure state that `start`,
 * `stop`, `botReply` and the timers' callbacks update, proved to do what `Simulation` says and to
 * keep the invariant of `SimulationRuns`.
 */
module MockSimulationObject {
  import opened Common
  import opened Scheduler
  import opened Simulation
  import opened SimulationRuns

  class MockSimulation {
    const env: Env
    var timers: set<nat>
    var running: bool
    var paused: bool
    var replyIndex: nat
    var drawn: nat
    var replies: seq<Reply>
    /** The injected scheduler's clock and timers. */
    var scheduler: Timers<Action>

    ghost function Now(): Sys
      reads this
    {
      State(Sim(timers, running, paused, replyIndex, drawn, replies), scheduler)
    }

    ghost predicate Valid()
      reads this
    {
      Inv(env, Now())
    }

    constructor (env: Env, scheduler: Timers<Action>)
      requires WellFormed(scheduler) && NotOverdue(scheduler)
      requires forall t | t in scheduler.pending :: t.action.Foreign?
      ensures this.env == env && Now() == State(Sim({}, false, false, 0, 0, []), scheduler)
      ensures Initial(Now()) && Valid()
    {
      this.env, this.scheduler := env, scheduler;
      timers, running, paused, replyIndex, drawn, replies := {}, false, false, 0, 0, [];
      new;
      assert Runs(env, Now(), [], Now());
      ReachableInv(env, Now());
    }

    method Schedule(delay: int, what: What)
      modifies this
      ensures Now() == Later(old(Now()), delay, what)
    {
      var id := scheduler.nextId;
      scheduler := Scheduled(scheduler, delay, Mine(id, what));
      timers := timers + {id};
    }

    method Draw() returns (choice: Choice)
      modifies this`drawn
      ensures choice == env.choice(old(drawn)) && drawn == old(drawn) + 1
    {
      choice := env.choice(drawn);
      drawn := drawn + 1;
    }

    method Begin()
      requires Valid()
      modifies this
      ensures Now() == Start(env, old(Now())) && Valid()
    {
      ghost var start := Now();
      if !running {
        running := true;
        var choice := Draw();
        Schedule(choice.delay, Tick);
      }
      NextKeeps(env, start, Starts);
    }

    method Halt()
      requires Valid()
      modifies this
      ensures Now() == Stop(old(Now())) && Valid()
      ensures NoneOwn(Now())
    {
      hide Inv, Filter;
      ghost var start := Now();
      running := false;
      scheduler := CancelAll();
      timers := {};
      replies := CutAll(replies);
      NextKeeps(env, start, Stops);
      Halted(env, start);
    }

    /** The scheduler once each id of `timers` has been cancelled, in whatever order. */
    method CancelAll() returns (after: Timers<Action>)
      ensures after == scheduler.(pending := Purged(scheduler.pending, timers))
    {
      hide Purged, WithoutId;
      after := scheduler;
      var left := timers;
      assert timers - left == {};
      PurgeNone(scheduler.pending);
      while left != {}
        invariant left <= timers
        invariant after == scheduler.(pending := Purged(scheduler.pending, timers - left))
      {
        var id :| id in left;
        PurgeOneMore(scheduler.pending, timers - left, id);
        assert timers - (left - {id}) == timers - left + {id};
        after := Cancelled(after, id);
        left := left - {id};
      }
      assert timers - left == timers;
    }

    method Ask(room: nat)
      requires Valid()
      modifies this
      ensures Now() == BotReply(old(Now()), room) && Valid()
    {
      ghost var start := Now();
      var k := |replies|;
      replies := replies + [Reply(room, replyIndex, scheduler.clock, false, "", [], false, false)];
      replyIndex := replyIndex + 1;
      Schedule(BOT_TYPING_DELAY_MS, BotTypes(k));
      NextKeeps(env, start, Asks(room));
    }

    method SetPaused(on: bool)
      requires Valid()
      modifies this
      ensures Now() == old(Now()).(world := old(Now()).world.(paused := on)) && Valid()
    {
      ghost var start := Now();
      paused := on;
      NextKeeps(env, start, Pauses(on));
    }

    // --- callbacks --------------------------------------------------------------------------------

    method RunTick()
      modifies this
      ensures Now() == DoTick(env, old(Now()))
    {
      if !running { return; }
      var choice := Draw();
      if !paused && choice.chat.Some? {
        Schedule(choice.chat.value, Chat);
      }
      Schedule(choice.delay, Tick);
    }

    /** The first post, and one timer for each phrase after it. */
    method RunPost(k: nat)
      requires k < |replies|
      modifies this
      ensures Now() == DoPost(env, old(Now()), k)
    {
      var p := PhrasesOf(env, replies[k].script);
      if !env.accepts(k) {
        replies := replies[k := replies[k].(refused := true)];
        return;
      }
      var text := if p == [] then "" else p[0];
      replies := replies[k := replies[k].(text := text, writes := replies[k].writes + [Write(text, |p| > 1)])];
      ghost var posted := Now();
      var m := if p == [] then 0 else |p| - 1;
      for index := 0 to m
        invariant Now() == Streaming(posted, k, index)
      {
        Schedule(BOT_STREAM_STEP_MS * (index + 1), BotWrites(k, index));
      }
    }

    method RunWrite(k: nat, index: nat)
      requires k < |replies|
      modifies this
      ensures Now() == DoWrite(env, old(Now()), k, index)
    {
      var p := PhrasesOf(env, replies[k].script);
      var text := replies[k].text;
      if index + 1 < |p| {
        text := text + p[index + 1];
      } else {
        assert text + "" == text;
      }
      replies := replies[k := replies[k].(text := text, writes := replies[k].writes + [Write(text, index < |p| - 2)])];
    }

    /** The scheduler runs its next timer, if it is the simulation's. */
    method RunNext(until: int)
      requires Valid() && NextDue(scheduler.pending, until).Some?
      modifies this
      ensures Now() == Next(env, old(Now()), FireDue(until)) && Valid()
    {
      hide Inv, NextDue, Filter, DoTick, DoPost, DoWrite;
      ghost var start := Now();
      var t := NextDue(scheduler.pending, until).value;
      scheduler := Taken(scheduler, t);
      NextKeeps(env, start, FireDue(until));
      if t.action.Foreign? { return; }
      timers := timers - {t.action.id};
      match t.action.what {
        case Tick => RunTick();
        case Chat =>
        case BotTypes(k) =>
          if k < |replies| {
            replies := replies[k := replies[k].(typed := true)];
            Schedule(BOT_TYPING_MS, BotPosts(k));
          }
        case BotPosts(k) => if k < |replies| { RunPost(k); }
        case BotWrites(k, index) => if k < |replies| { RunWrite(k, index); }
      }
    }
  }

  lemma Halted(env: Env, s: Sys)
    requires Inv(env, s)
    ensures NoneOwn(Stop(s))
  {
    StopMatches(s);
  }

  lemma PurgeNone(pending: seq<Timer<Action>>)
    ensures Purged(pending, {}) == pending
  {
    var gone: set<nat> := {};
    FilterAllOrNone(pending, (t: Timer<Action>) => t.id !in gone);
  }

  lemma {:induction false} PurgeOneMore(pending: seq<Timer<Action>>, gone: set<nat>, id: nat)
    ensures WithoutId(Purged(pending, gone), id) == Purged(pending, gone + {id})
  {
    if pending != [] {
      var front, t := pending[..|pending| - 1], pending[|pending| - 1];
      PurgeOneMore(front, gone, id);
      var kept := Purged(front, gone);
      assert t.id !in gone ==> (kept + [t])[..|kept|] == kept;
    }
  }
}
