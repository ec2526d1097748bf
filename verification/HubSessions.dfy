/**
 * A client over any number of connections. Each may be lost at any point, with any number of the
 * frames sent to it never arriving, and each new one resumes from the last event the client applied.
 */
module HubSessions {
  import opened Common
  import opened Scheduler
  import opened Hub
  import opened HubInvariants
  import opened HubRuns
  import opened HubResume

  // ---------------------------------------------------------------------------------------------
  // One connection, of whose frames only the first few arrive
  // ---------------------------------------------------------------------------------------------

  /** Events received over a run that leaves the connection alone are numbered after the run's start. */
  lemma {:induction false} RunWithin(o: Options, s: Sys, steps: seq<Step>, r: Sys, c: nat)
    requires Inv(o, s) && Transparent(o) && Undisturbed(o, s, steps, r, c)
    ensures Ascending(NewEvents(s, r, c)) && Within(NewEvents(s, r, c), |s.world.log|, |r.world.log|)
    decreases |steps|
  {
    hide Inv, Follows, Next, Enabled, NewLog, Mine, BatchEvents;
    if steps == [] {
      assert s.world.handles[c].sent[|s.world.handles[c].sent|..] == [];
      NothingBatched();
    } else {
      var mid := Next(o, s, steps[0]);
      StepWithin(o, s, steps[0], c);
      NextKeeps(o, s, steps[0]);
      RunWithin(o, mid, steps[1..], r, c);
      RunGrows(o, s, [steps[0]], mid, c);
      RunGrows(o, mid, steps[1..], r, c);
      NewEventsJoin(s, mid, r, c);
      hide NewEvents;
      AppendAscending(NewEvents(s, mid, c), NewEvents(mid, r, c), |s.world.log|, |mid.world.log|, |r.world.log|);
    }
  }

  lemma NothingBatched()
    ensures BatchEvents([]) == []
  {
  }

  /** What follows a log only adds to it and to what was sent. */
  lemma RunGrows(o: Options, s: Sys, steps: seq<Step>, r: Sys, c: nat)
    requires Inv(o, s) && Transparent(o) && Undisturbed(o, s, steps, r, c)
    ensures s.world.log <= r.world.log && c in s.world.handles && c in r.world.handles
    ensures s.world.handles[c].sent <= r.world.handles[c].sent
  {
    hide Inv, Undisturbed, NewEvents, Plain, PlainMine;
    RunFollows(o, s, steps, r, c);
  }

  lemma NewEventsJoin(a: Sys, b: Sys, d: Sys, c: nat)
    requires c in a.world.handles && c in b.world.handles && c in d.world.handles
    requires a.world.handles[c].sent <= b.world.handles[c].sent <= d.world.handles[c].sent
    ensures NewEvents(a, d, c) == NewEvents(a, b, c) + NewEvents(b, d, c)
  {
    hide BatchEvents;
    var x, y, z := a.world.handles[c].sent, b.world.handles[c].sent, d.world.handles[c].sent;
    assert z[|x|..] == y[|x|..] + z[|y|..];
    BatchEventsConcat(y[|x|..], z[|y|..]);
  }

  lemma StepWithin(o: Options, s: Sys, step: Step, c: nat)
    requires Inv(o, s) && Transparent(o) && Leaves(o, s, step, c)
    ensures Ascending(NewEvents(s, Next(o, s, step), c))
    ensures Within(NewEvents(s, Next(o, s, step), c), |s.world.log|, |Next(o, s, step).world.log|)
  {
    hide Inv, Next, Enabled, Mine, NewLog, BatchEvents;
    LeavesNoRestart(o, s, step, c);
    var extra := StepSends(o, s, step, c);
    NewEventsOf(s, Next(o, s, step), c, extra);
    NumberedLog(o, s, step);
    NewLogOrdered(o, s, step, s.world.handles[c].topics);
  }

  /** The frames sent to `c` from its hello on. */
  function Frames(back: Sys, dropped: Sys, c: nat): seq<Sent> {
    if c in back.world.handles && c in dropped.world.handles && back.world.handles[c].sent <= dropped.world.handles[c].sent
    then dropped.world.handles[c].sent[|back.world.handles[c].sent|..]
    else []
  }

  /** The last event a client has applied that was at `k` and got `events`. */
  function Point(k: int, events: seq<SyncEvent>): int {
    if events == [] then k else events[|events| - 1].seqNo
  }

  /** Two ways of cutting a list between small and large numbers are one. */
  lemma CutOnce(a: seq<SyncEvent>, b: seq<SyncEvent>, c: seq<SyncEvent>, d: seq<SyncEvent>, p: int)
    requires a + b == c + d
    requires (forall e | e in a || e in c :: e.seqNo <= p) && (forall e | e in b || e in d :: e.seqNo > p)
    ensures a == c && b == d
  {
    hide Filter;
    var small := (e: SyncEvent) => e.seqNo <= p;
    FilterConcat(a, b, small);
    FilterConcat(c, d, small);
    FilterAllOrNone(a, small);
    FilterAllOrNone(b, small);
    FilterAllOrNone(c, small);
    FilterAllOrNone(d, small);
    assert a + [] == a && c + [] == c;
    assert b == (a + b)[|a|..] && d == (c + d)[|c|..];
  }

  /** A numbered log. */
  ghost predicate Numbered(log: seq<SyncEvent>) {
    forall i | 0 <= i < |log| :: log[i].seqNo == i + 1
  }

  lemma ShownWithin(o: Options, log: seq<SyncEvent>, k: nat, p: nat, topics: set<string>)
    requires Transparent(o) && Numbered(log) && k <= p <= |log|
    ensures forall e | e in PlainMine(o, log[k..p], topics) :: k < e.seqNo <= p
  {
    hide Mine;
    var part := log[k..p];
    assert Ascending(part) && Within(part, k, p);
    MineOrdered(o, part, topics, k, p);
  }

  /** Of a list that is all the log shows after `k`, a first part is all the log shows from `k` to the
      last of it. */
  lemma PartOfLog(o: Options, log: seq<SyncEvent>, k: nat, got: seq<SyncEvent>, more: seq<SyncEvent>, topics: set<string>)
    requires Transparent(o) && Numbered(log) && k <= |log|
    requires Ascending(got + more) && Within(got + more, k, |log|)
    requires Plain(got + more) == PlainMine(o, log[k..], topics)
    ensures var p := Point(k, got);
            && k <= p <= |log|
            && Plain(got) == PlainMine(o, log[k..p], topics)
            && Plain(more) == PlainMine(o, log[p..], topics)
  {
    var p, all := Point(k, got), got + more;
    hide PlainMine, Filter;
    forall i | 0 <= i < |all| ensures k < all[i].seqNo <= |log| {
      assert all[i] in all;
    }
    assert got != [] ==> all[|got| - 1] == got[|got| - 1];
    forall e | e in got ensures e.seqNo <= p {
      var i :| 0 <= i < |got| && got[i] == e;
      assert all[i] == e;
    }
    forall e | e in more ensures e.seqNo > p {
      var i :| 0 <= i < |more| && more[i] == e;
      assert all[|got| + i] == e;
    }
    FilterConcat(got, more, IsPlain);
    assert log[k..] == log[k..p] + log[p..];
    PlainMineConcat(o, log[k..p], log[p..], topics);
    ShownWithin(o, log, k, p, topics);
    ShownWithin(o, log, p, |log|, topics);
    assert log[p..|log|] == log[p..];
    CutOnce(Plain(got), Plain(more), PlainMine(o, log[k..p], topics), PlainMine(o, log[p..], topics), p);
  }

  /** Where a hello puts the client: at its token if that is good, else at the end of the log. */
  function StartOf(h: HubState, resume: Option<Token>): int {
    if CanResume(h, resume) then resume.value.seqNo else h.seqNo
  }

  /** Everything sent on a connection from its hello on is all the log shows after that point, in order. */
  lemma HelloSends(o: Options, back: Sys, c: nat, resume: Option<Token>, again: seq<string>, steps: seq<Step>, dropped: Sys)
    requires Inv(o, back) && Transparent(o) && c in back.world.handles && back.world.handles[c].open
    requires Undisturbed(o, SayHello(o, back, c, resume, again), steps, dropped, c)
    ensures var events, k := BatchEvents(Frames(back, dropped, c)), StartOf(back.world, resume);
            && 0 <= k <= |back.world.log| && back.world.log <= dropped.world.log
            && Ascending(events) && Within(events, k, |dropped.world.log|)
            && Plain(events) == PlainMine(o, dropped.world.log[k..], {"user"} + Admitted(o, again))
  {
    hide Inv, SayHello, Undisturbed, PlainMine, BatchEvents, Filter, Admitted, Follows, Ascending, Within, StartOf, CanResume, Missed;
    var hello, mine := SayHello(o, back, c, resume, again), {"user"} + Admitted(o, again);
    HelloKeeps(o, back, c, resume, again);
    HelloOnlySends(o, back, c, resume, again);
    var extra := HelloExtra(o, back, c, resume, again);
    ReplayFromStart(o, back, resume, mine, BatchEvents(extra));
    RunFollows(o, hello, steps, dropped, c);
    RunWithin(o, hello, steps, dropped, c);
    RunGrows(o, hello, steps, dropped, c);
    var missed, events := BatchEvents(extra), NewEvents(hello, dropped, c);
    FramesJoin(back, hello, dropped, c, extra);
    var k, l, m := StartOf(back.world, resume), back.world.log, dropped.world.log;
    AppendAscending(missed, events, k, |hello.world.log|, |m|);
    FilterConcat(missed, events, IsPlain);
    assert m[k..] == l[k..] + m[|l|..];
    PlainMineConcat(o, l[k..], m[|l|..], mine);
    FollowsPlain(o, hello, dropped, c);
  }

  lemma ReplayFromStart(o: Options, s: Sys, resume: Option<Token>, mine: set<string>, missed: seq<SyncEvent>)
    requires Inv(o, s) && Transparent(o)
    requires missed == if CanResume(s.world, resume) then Missed(o, s.world, resume.value.seqNo, mine) else []
    ensures var k := StartOf(s.world, resume);
            && 0 <= k <= |s.world.log| && Ascending(missed) && Within(missed, k, |s.world.log|)
            && Plain(missed) == PlainMine(o, s.world.log[k..], mine)
  {
    hide Inv, PlainMine, Missed, Filter;
    InvTail(o, s);
    if CanResume(s.world, resume) {
      ReplayIsPlainMine(o, s.world, resume.value, mine);
      MissedOrdered(o, s.world, resume.value.seqNo, mine);
      PlainTwice(o, s.world.log[resume.value.seqNo..], mine);
    } else {
      assert s.world.log[|s.world.log|..] == [];
      PlainMineNothing(o, mine);
      NothingPlain();
    }
  }

  lemma FollowsPlain(o: Options, s: Sys, r: Sys, c: nat)
    requires Follows(o, s, r, c)
    ensures s.world.log <= r.world.log
    ensures Plain(NewEvents(s, r, c)) == PlainMine(o, r.world.log[|s.world.log|..], s.world.handles[c].topics)
  {
  }

  lemma FramesJoin(back: Sys, hello: Sys, dropped: Sys, c: nat, extra: seq<Sent>)
    requires SentMore(back, hello, c, extra) && c in dropped.world.handles
    requires hello.world.handles[c].sent <= dropped.world.handles[c].sent
    ensures BatchEvents(Frames(back, dropped, c)) == BatchEvents(extra) + NewEvents(hello, dropped, c)
  {
    hide BatchEvents;
    var x, y, z := back.world.handles[c].sent, hello.world.handles[c].sent, dropped.world.handles[c].sent;
    assert z[|x|..] == extra + z[|y|..];
    BatchEventsConcat(extra, z[|y|..]);
  }

  /** However many of a connection's frames arrive, the client has then applied exactly what the log
      shows from where the hello put it to its new point; with all of them, nothing is left to apply. */
  lemma FramesFollow(o: Options, back: Sys, c: nat, resume: Option<Token>, again: seq<string>, steps: seq<Step>, dropped: Sys, arrived: nat)
    requires Inv(o, back) && Transparent(o) && c in back.world.handles && back.world.handles[c].open
    requires Undisturbed(o, SayHello(o, back, c, resume, again), steps, dropped, c)
    requires arrived <= |Frames(back, dropped, c)|
    ensures var got := BatchEvents(Frames(back, dropped, c)[..arrived]);
            var mine, log := {"user"} + Admitted(o, again), dropped.world.log;
            var k := StartOf(back.world, resume);
            var p := Point(k, got);
            && 0 <= k <= p <= |log|
            && Plain(got) == PlainMine(o, log[k..p], mine)
            && (arrived == |Frames(back, dropped, c)| ==> PlainMine(o, log[p..], mine) == [])
  {
    hide Inv, SayHello, Undisturbed, StartOf, PlainMine, BatchEvents, Filter, Admitted, Frames, Ascending, Within;
    var frames := Frames(back, dropped, c);
    var early, late := frames[..arrived], frames[arrived..];
    assert frames == early + late;
    BatchEventsConcat(early, late);
    HelloSends(o, back, c, resume, again, steps, dropped);
    NumberedAtEnd(o, back, c, resume, again, steps, dropped);
    PartOfLog(o, dropped.world.log, StartOf(back.world, resume), BatchEvents(early), BatchEvents(late), {"user"} + Admitted(o, again));
    NothingPlain();
    if arrived == |frames| { assert late == []; }
  }

  lemma NothingPlain()
    ensures BatchEvents([]) == [] && Plain([]) == []
  {
  }

  lemma NumberedAtEnd(o: Options, back: Sys, c: nat, resume: Option<Token>, again: seq<string>, steps: seq<Step>, dropped: Sys)
    requires Inv(o, back) && Transparent(o) && c in back.world.handles && back.world.handles[c].open
    requires Undisturbed(o, SayHello(o, back, c, resume, again), steps, dropped, c)
    ensures Inv(o, dropped) && Numbered(dropped.world.log)
  {
    hide Inv, SayHello, Undisturbed, Follows;
    HelloKeeps(o, back, c, resume, again);
    RunFollows(o, SayHello(o, back, c, resume, again), steps, dropped, c);
    InvTail(o, dropped);
  }

  // ---------------------------------------------------------------------------------------------
  // Any number of connections
  // ---------------------------------------------------------------------------------------------

  /** One connection of the client: the steps while it is away and the state it comes back to, the hello,
      the steps until the connection is lost, and how many of its frames arrive. */
  datatype Session = Session(away: seq<Step>, back: Sys, conn: nat, resume: Option<Token>, again: seq<string>, steps: seq<Step>, dropped: Sys, arrived: nat)

  function Got(x: Session): seq<SyncEvent> {
    var frames := Frames(x.back, x.dropped, x.conn);
    if x.arrived <= |frames| then BatchEvents(frames[..x.arrived]) else []
  }

  /** Steps that stay in the epoch. */
  predicate NoRestart(steps: seq<Step>) {
    forall step | step in steps :: !(step.Do? && step.call.Restarts?)
  }

  lemma {:induction false} RunsKeepLog(o: Options, s: Sys, steps: seq<Step>, r: Sys)
    requires Inv(o, s) && Transparent(o) && Runs(o, s, steps, r) && NoRestart(steps)
    ensures Inv(o, r) && s.world.log <= r.world.log
    decreases |steps|
  {
    hide Inv, Next, Enabled, NewLog, Transparent;
    if steps != [] {
      assert steps[0] in steps && forall step | step in steps[1..] :: step in steps;
      HubLog(o, s, steps[0]);
      NextKeeps(o, s, steps[0]);
      RunsKeepLog(o, Next(o, s, steps[0]), steps[1..], r);
    }
  }

  /** The session starts from `s`, with anything but a restart happening while the client is away, and its
      hello puts the client at `k`: by a good token, or anew where nothing has happened since. */
  ghost predicate Resumes(o: Options, s: Sys, k: int, mine: set<string>, x: Session) {
    && Runs(o, s, x.away, x.back) && NoRestart(x.away)
    && x.conn in x.back.world.handles && x.back.world.handles[x.conn].open
    && {"user"} + Admitted(o, x.again) == mine
    && StartOf(x.back.world, x.resume) == k
    && Undisturbed(o, SayHello(o, x.back, x.conn, x.resume, x.again), x.steps, x.dropped, x.conn)
    && x.arrived <= |Frames(x.back, x.dropped, x.conn)|
  }

  /** The client lives through `sessions` from `s`, at point `k`, to `r`. */
  ghost predicate Lives(o: Options, s: Sys, k: int, mine: set<string>, sessions: seq<Session>, r: Sys)
    decreases |sessions|
  {
    if sessions == [] then r == s
    else
      && Resumes(o, s, k, mine, sessions[0])
      && Lives(o, sessions[0].dropped, Point(k, Got(sessions[0])), mine, sessions[1..], r)
  }

  /** All the non-typing events the client applies, over all its sessions. */
  function Applied(sessions: seq<Session>): seq<SyncEvent> {
    if sessions == [] then [] else Plain(Got(sessions[0])) + Applied(sessions[1..])
  }

  function LastPoint(k: int, sessions: seq<Session>): int
    decreases |sessions|
  {
    if sessions == [] then k else LastPoint(Point(k, Got(sessions[0])), sessions[1..])
  }

  /** Everything the last session sent has arrived. */
  predicate Complete(sessions: seq<Session>) {
    sessions != [] && var x := sessions[|sessions| - 1]; x.arrived == |Frames(x.back, x.dropped, x.conn)|
  }

  /** Through one session the client applies what the log shows between its two points. */
  lemma SessionFollows(o: Options, s: Sys, k: int, mine: set<string>, x: Session)
    requires Inv(o, s) && Transparent(o) && Resumes(o, s, k, mine, x)
    ensures Inv(o, x.dropped) && s.world.log <= x.dropped.world.log
    ensures var p := Point(k, Got(x));
            && 0 <= k <= p <= |x.dropped.world.log|
            && Plain(Got(x)) == PlainMine(o, x.dropped.world.log[k..p], mine)
            && (x.arrived == |Frames(x.back, x.dropped, x.conn)| ==> PlainMine(o, x.dropped.world.log[p..], mine) == [])
  {
    hide Inv, SayHello, Undisturbed, Runs, NoRestart, StartOf, PlainMine, BatchEvents, Filter, Admitted, Frames, Ascending, Within;
    RunsKeepLog(o, s, x.away, x.back);
    HelloSends(o, x.back, x.conn, x.resume, x.again, x.steps, x.dropped);
    NumberedAtEnd(o, x.back, x.conn, x.resume, x.again, x.steps, x.dropped);
    FramesFollow(o, x.back, x.conn, x.resume, x.again, x.steps, x.dropped, x.arrived);
  }

  /** After any number of sessions, whatever else happens to the hub within its epoch, the client has
      applied exactly what the log shows from its first point to its last; if the last session arrived
      whole, the log shows nothing more. */
  lemma {:induction false} SessionsFollow(o: Options, s: Sys, k: int, mine: set<string>, sessions: seq<Session>, r: Sys)
    requires Inv(o, s) && Transparent(o) && Lives(o, s, k, mine, sessions, r) && 0 <= k <= |s.world.log|
    ensures Inv(o, r) && s.world.log <= r.world.log
    ensures var p := LastPoint(k, sessions);
            && k <= p <= |r.world.log|
            && Applied(sessions) == PlainMine(o, r.world.log[k..p], mine)
            && (Complete(sessions) ==> PlainMine(o, r.world.log[p..], mine) == [])
    decreases |sessions|
  {
    hide Inv, Resumes, PlainMine, Filter, Frames, Got;
    if sessions == [] {
      assert r.world.log[k..k] == [];
      PlainMineNothing(o, mine);
    } else {
      var x, rest := sessions[0], sessions[1..];
      SessionFollows(o, s, k, mine, x);
      var p := Point(k, Got(x));
      SessionsFollow(o, x.dropped, p, mine, rest, r);
      var q, l, m := LastPoint(p, rest), x.dropped.world.log, r.world.log;
      assert l[k..p] == m[k..p] && m[k..q] == m[k..p] + m[p..q];
      PlainMineConcat(o, m[k..p], m[p..q], mine);
      if rest == [] { assert r == x.dropped; } else { assert rest[|rest| - 1] == sessions[|sessions| - 1]; }
    }
  }

  // ---------------------------------------------------------------------------------------------
  // Beside a connection that never drops
  // ---------------------------------------------------------------------------------------------

  /** The connection `w` stays open and on its topics through all the sessions of another. */
  ghost predicate Beside(o: Options, s: Sys, w: nat, sessions: seq<Session>)
    decreases |sessions|
  {
    if sessions == [] then w in s.world.handles && s.world.handles[w].open
    else
      var x := sessions[0];
      && Undisturbed(o, s, x.away, x.back, w) && x.conn != w && x.conn in x.back.world.handles
      && Undisturbed(o, SayHello(o, x.back, x.conn, x.resume, x.again), x.steps, x.dropped, w)
      && Beside(o, x.dropped, w, sessions[1..])
  }

  /** Another connection's hello sends `w` nothing. */
  lemma HelloElsewhere(o: Options, s: Sys, c: nat, resume: Option<Token>, topics: seq<string>, w: nat)
    requires c in s.world.handles && w in s.world.handles && w != c && s.world.handles[w].open
    ensures Follows(o, s, SayHello(o, s, c, resume, topics), w)
  {
    hide SayHello, BatchEvents, PlainMine;
    HelloOnlySends(o, s, c, resume, topics);
    assert s.world.log[|s.world.log|..] == [] && s.world.handles[w].sent[|s.world.handles[w].sent|..] == [];
    NothingPlain();
    PlainMineNothing(o, s.world.handles[w].topics);
  }

  lemma OpenAtEnd(o: Options, s: Sys, r: Sys, w: nat)
    requires Follows(o, s, r, w)
    ensures w in r.world.handles && r.world.handles[w].open
  {
  }

  lemma {:induction false} BesideFollows(o: Options, s: Sys, k: int, mine: set<string>, w: nat, sessions: seq<Session>, r: Sys)
    requires Inv(o, s) && Transparent(o) && Lives(o, s, k, mine, sessions, r) && Beside(o, s, w, sessions)
    ensures Follows(o, s, r, w)
    decreases |sessions|
  {
    hide Inv, SayHello, Undisturbed, Runs, NoRestart, StartOf, Admitted, Frames, Follows, Got;
    if sessions == [] {
      FollowsSelf(o, s, w);
    } else {
      var x := sessions[0];
      var hello := SayHello(o, x.back, x.conn, x.resume, x.again);
      RunFollows(o, s, x.away, x.back, w);
      OpenAtEnd(o, s, x.back, w);
      HelloElsewhere(o, x.back, x.conn, x.resume, x.again, w);
      HelloKeeps(o, x.back, x.conn, x.resume, x.again);
      RunFollows(o, hello, x.steps, x.dropped, w);
      FollowsTransitive(o, s, x.back, hello, w);
      FollowsTransitive(o, s, hello, x.dropped, w);
      BesideFollows(o, x.dropped, Point(k, Got(x)), mine, w, sessions[1..], r);
      FollowsTransitive(o, s, x.dropped, r, w);
    }
  }

  /**
   * However often a client loses its connection, and whatever it had not received when it did, it misses
   * nothing and repeats nothing: from a point at which it was caught up, what it applies over all its
   * sessions, followed by what the log still holds for it, is exactly what a connection on the same
   * topics that never dropped was sent, typing aside. If its last session arrived whole, nothing is left.
   */
  lemma ManyDropsLoseNothing(o: Options, s: Sys, k: int, mine: set<string>, w: nat, sessions: seq<Session>, r: Sys)
    requires Inv(o, s) && Transparent(o) && Lives(o, s, k, mine, sessions, r) && Beside(o, s, w, sessions)
    requires w in s.world.handles && s.world.handles[w].topics == mine
    requires 0 <= k <= |s.world.log| && PlainMine(o, s.world.log[k..], mine) == []
    ensures 0 <= LastPoint(k, sessions) <= |r.world.log|
    ensures Applied(sessions) + PlainMine(o, r.world.log[LastPoint(k, sessions)..], mine) == Plain(NewEvents(s, r, w))
    ensures Complete(sessions) ==> Applied(sessions) == Plain(NewEvents(s, r, w))
  {
    hide Inv, Lives, Beside, PlainMine, Filter, Complete, Follows, Applied, NewEvents;
    SessionsFollow(o, s, k, mine, sessions, r);
    BesideFollows(o, s, k, mine, w, sessions, r);
    FollowsPlain(o, s, r, w);
    var p, l, m := LastPoint(k, sessions), s.world.log, r.world.log;
    assert m[k..] == m[k..p] + m[p..] && m[k..] == l[k..] + m[|l|..];
    PlainMineConcat(o, m[k..p], m[p..], mine);
    PlainMineConcat(o, l[k..], m[|l|..], mine);
    assert [] + PlainMine(o, m[|l|..], mine) == PlainMine(o, m[|l|..], mine);
    assert Applied(sessions) + [] == Applied(sessions);
  }
}
