/**
 * What each step sends to each connection, and the promise resume makes: a client that drops and says
 * hello again ends up with exactly the events a client that never dropped was sent.
 */
module HubResume {
  import opened Common
  import opened Scheduler
  import opened Hub
  import opened HubInvariants
  import opened HubRuns

  // ---------------------------------------------------------------------------------------------
  // What a step sends
  // ---------------------------------------------------------------------------------------------

  /** The events of the batches among `frames`, in order. */
  function BatchEvents(frames: seq<Sent>): seq<SyncEvent> {
    if frames == [] then []
    else
      var last := frames[|frames| - 1].frame;
      BatchEvents(frames[..|frames| - 1]) + if last.Batch? then last.events else []
  }

  lemma {:induction false} BatchEventsConcat(a: seq<Sent>, b: seq<Sent>)
    ensures BatchEvents(a + b) == BatchEvents(a) + BatchEvents(b)
  {
    if b == [] {
      assert a + b == a;
    } else {
      assert (a + b)[..|a + b| - 1] == a + b[..|b| - 1];
      BatchEventsConcat(a, b[..|b| - 1]);
    }
  }

  lemma BatchOne(sent: Sent)
    ensures BatchEvents([sent]) == if sent.frame.Batch? then sent.frame.events else []
  {
    assert [sent][..0] == [];
  }

  /** The events `step` records, with their numbers. */
  function NewLog(o: Options, s: Sys, step: Step): seq<SyncEvent> {
    if step.Do? && step.call.Publishes? then Stamped(s.world.seqNo, step.call.outs)
    else if IsTyping(o, s, step) then [TypedEvent(o, s, step)]
    else []
  }

  predicate IsTyping(o: Options, s: Sys, step: Step) {
    && step.Do? && step.call.Receives? && step.call.frame.TypingFrame?
    && step.call.conn in s.world.handles && s.world.handles[step.call.conn].open && Admit(o, step.call.frame.conv)
  }

  function TypedEvent(o: Options, s: Sys, step: Step): SyncEvent
    requires IsTyping(o, s, step)
  {
    SyncEvent(s.world.seqNo + 1, step.call.frame.conv, Typing(o.viewerId, step.call.frame.on))
  }

  lemma PublishLog(o: Options, s: Sys, outs: seq<Outgoing>)
    requires Known(s, s.world.live)
    ensures Publish(o, s, outs).world.log == s.world.log + Stamped(s.world.seqNo, outs)
  {
    hide UnfollowAll, RecordAll, DeliverTo;
    var recorded := s.(world := RecordAll(s.world, outs));
    RecordAllKeeps(s.world, outs);
    var events := Stamped(s.world.seqNo, outs);
    DeliverOnlySends(o, recorded, recorded.world.live, events, None);
    UnfollowAllShrinks(Deliver(o, recorded, events, None).world, outs);
  }

  /** Any step of the hub adds what it records to the log, or starts it anew. */
  lemma HubLog(o: Options, s: Sys, step: Step)
    requires Inv(o, s) && Known(s, s.world.live) && Enabled(s, step)
    ensures Next(o, s, step).world.log ==
            if step.Do? && step.call.Restarts? then [] else s.world.log + NewLog(o, s, step)
  {
    hide Inv, NextDue, Filter, Mine, UnfollowAll, RecordAll, DeliverTo, HangUpAll, ResyncTo, ForViewer, Admit;
    if step.Do? {
      match step.call
      case Publishes(outs) => PublishLog(o, s, outs);
      case DropsAll(bye) => HangUpAllKeeps(o, s, s.world.live, bye);
      case ResyncsAll(why) => ResyncOnlySends(s, s.world.live, why);
      case Receives(c, frame) =>
        if frame.TypingFrame? && c in s.world.handles {
          var out := Outgoing(frame.conv, Typing(o.viewerId, frame.on), None);
          DeliverOnlySends(o, s.(world := Record(s.world, out)), s.world.live, [Stamp(s.world.seqNo + 1, out)], Some(c));
        }
      case _ =>
    }
  }

  predicate IsHello(step: Step, c: nat) {
    step.Do? && step.call.Receives? && step.call.conn == c && step.call.frame.Hello?
  }

  /** The events `step` sends to connection `c`: what it records on `c`'s topics, never a typist's own
      typing, and the replay when `c` says hello with a good token. */
  function Expected(o: Options, s: Sys, step: Step, c: nat): seq<SyncEvent>
    requires c in s.world.handles
  {
    var conn := s.world.handles[c];
    if !conn.open then []
    else if IsHello(step, c) then
      if CanResume(s.world, step.call.frame.resume)
      then Missed(o, s.world, step.call.frame.resume.value.seqNo, {"user"} + Admitted(o, step.call.frame.topics))
      else []
    else if IsTyping(o, s, step) && step.call.conn == c then []
    else Mine(o, NewLog(o, s, step), conn.topics)
  }

  /** `r` comes after `s` and has sent `c` the frames `extra` more. */
  ghost predicate SentMore(s: Sys, r: Sys, c: nat, extra: seq<Sent>) {
    && c in s.world.handles && c in r.world.handles
    && r.world.handles[c].sent == s.world.handles[c].sent + extra
  }

  /** The events `c` was sent between `s` and `r`. */
  function NewEvents(s: Sys, r: Sys, c: nat): seq<SyncEvent> {
    if c in s.world.handles && c in r.world.handles && s.world.handles[c].sent <= r.world.handles[c].sent
    then BatchEvents(r.world.handles[c].sent[|s.world.handles[c].sent|..])
    else []
  }

  lemma NewEventsOf(s: Sys, r: Sys, c: nat, extra: seq<Sent>)
    requires SentMore(s, r, c, extra)
    ensures s.world.handles[c].sent <= r.world.handles[c].sent
    ensures NewEvents(s, r, c) == BatchEvents(extra)
  {
    assert r.world.handles[c].sent[|s.world.handles[c].sent|..] == extra;
  }

  /** No frame, or one that carries no events. */
  ghost predicate Eventless(extra: seq<Sent>) {
    NoWelcome(extra) && forall f | f in extra :: !f.frame.Batch?
  }

  ghost predicate NoWelcome(extra: seq<Sent>) {
    forall f | f in extra :: !f.frame.Welcome?
  }

  lemma {:induction false} EventlessBatch(extra: seq<Sent>)
    requires Eventless(extra)
    ensures BatchEvents(extra) == []
  {
    if extra != [] {
      assert extra[|extra| - 1] in extra;
      EventlessBatch(extra[..|extra| - 1]);
    }
  }

  lemma TransmitExtra(s: Sys, c: nat, frame: ServerFrame, d: nat)
    returns (extra: seq<Sent>)
    requires c in s.world.handles && d in s.world.handles
    ensures SentMore(s, Transmit(s, c, frame), d, extra)
    ensures extra == if c == d && s.world.handles[c].open then [Sent(s.timers.clock, frame)] else []
  {
    TransmitSends(s, c, frame);
    extra := if c == d && s.world.handles[c].open then [Sent(s.timers.clock, frame)] else [];
    assert s.world.handles[d].sent + [] == s.world.handles[d].sent;
  }

  lemma SentMoreTransitive(a: Sys, b: Sys, c: Sys, d: nat, x: seq<Sent>, y: seq<Sent>)
    requires SentMore(a, b, d, x) && SentMore(b, c, d, y)
    ensures SentMore(a, c, d, x + y)
  {
    assert a.world.handles[d].sent + (x + y) == (a.world.handles[d].sent + x) + y;
  }

  lemma HelloExtra(o: Options, s: Sys, c: nat, resume: Option<Token>, topics: seq<string>)
    returns (extra: seq<Sent>)
    requires c in s.world.handles && s.world.handles[c].open
    ensures SentMore(s, SayHello(o, s, c, resume, topics), c, extra)
    ensures BatchEvents(extra) ==
            if CanResume(s.world, resume) then Missed(o, s.world, resume.value.seqNo, {"user"} + Admitted(o, topics)) else []
    ensures |extra| > 0 && extra[0].frame.Welcome?
    ensures extra[0].frame.seqNo == if CanResume(s.world, resume) then resume.value.seqNo else s.world.seqNo
    ensures extra[0].at == s.timers.clock
    ensures extra[0].frame == Welcome(s.world.epoch, extra[0].frame.seqNo, CanResume(s.world, resume), s.world.seqNo, o.viewerId)
    ensures extra[1..] == if BatchEvents(extra) == [] then [] else [Sent(s.timers.clock, Batch(BatchEvents(extra)))]
  {
    hide Admit, ForViewer, Filter, Transmit, ArmPing;
    var h := s.world;
    var mine := {"user"} + Admitted(o, topics);
    var following := WithConnection(s, c, h.handles[c].(topics := mine));
    if !CanResume(h, resume) {
      extra := TransmitExtra(following, c, Welcome(h.epoch, h.seqNo, false, h.seqNo, o.viewerId), c);
      BatchOne(extra[0]);
    } else {
      var welcome := Welcome(h.epoch, resume.value.seqNo, true, h.seqNo, o.viewerId);
      var x := TransmitExtra(following, c, welcome, c);
      TransmitSends(following, c, welcome);
      var welcomed := Transmit(following, c, welcome);
      var missed := Missed(o, h, resume.value.seqNo, mine);
      BatchOne(x[0]);
      if missed == [] {
        extra := x;
      } else {
        var y := TransmitExtra(welcomed, c, Batch(missed), c);
        SentMoreTransitive(following, welcomed, Transmit(welcomed, c, Batch(missed)), c, x, y);
        BatchEventsConcat(x, y);
        BatchOne(y[0]);
        extra := x + y;
      }
    }
  }

  /** The first thing a hello brings is a welcome that speaks the truth: the hub's epoch, the end of its log and
      the viewer; and it says `resumed` exactly when the token is of this epoch, its point one the log has
      reached, and every later event still in the ring. Then its point is the token's, and otherwise the end. */
  lemma WelcomeSays(o: Options, s: Sys, c: nat, resume: Option<Token>, topics: seq<string>)
    returns (welcome: Sent)
    requires Inv(o, s) && c in s.world.handles && s.world.handles[c].open
    ensures var sent, r := s.world.handles[c].sent, SayHello(o, s, c, resume, topics);
            && sent < r.world.handles[c].sent && r.world.handles[c].sent[|sent|] == welcome
            && (forall i | |sent| < i < |r.world.handles[c].sent| :: !r.world.handles[c].sent[i].frame.Welcome?)
    ensures welcome.at == s.timers.clock && welcome.frame.Welcome?
    ensures var w, log := welcome.frame, s.world.log;
            && w.epoch == s.world.epoch && w.replayThrough == |log| && w.viewerId == o.viewerId
            && (w.resumed <==>
                  && resume.Some? && resume.value.epoch == s.world.epoch && 0 <= resume.value.seqNo <= |log|
                  && forall e | e in log && e.seqNo > resume.value.seqNo :: e in s.world.ring)
            && w.seqNo == if w.resumed then resume.value.seqNo else |log|
  {
    hide SayHello, Missed, BatchEvents, PingsOk, AllOrdered, TopicsOk, Table;
    var extra := HelloExtra(o, s, c, resume, topics);
    welcome := extra[0];
    var sent, after := s.world.handles[c].sent, SayHello(o, s, c, resume, topics).world.handles[c].sent;
    assert after[|sent|] == welcome;
    forall i | |sent| < i < |after| ensures !after[i].frame.Welcome? {
      assert after[i] == extra[1..][i - |sent| - 1];
    }
    if resume.Some? {
      ResumesExactly(s.world, resume.value);
    }
  }

  lemma DeliverExtra(o: Options, s: Sys, events: seq<SyncEvent>, except: Option<nat>, c: nat)
    returns (extra: seq<Sent>)
    requires Table(s.world) && Known(s, s.world.live) && c in s.world.handles
    ensures SentMore(s, Deliver(o, s, events, except), c, extra)
    ensures BatchEvents(extra) ==
            if s.world.handles[c].open && Some(c) != except then Mine(o, events, s.world.handles[c].topics) else []
    ensures NoWelcome(extra)
  {
    hide Mine, DeliverTo;
    DeliverSends(o, s, s.world.live, events, except, c);
    extra := Batches(o, s, s.world.live, events, except, c);
    if extra != [] { BatchOne(extra[0]); }
  }

  lemma {:induction false} HangUpAllExtra(s: Sys, ids: seq<nat>, bye: bool, c: nat)
    returns (extra: seq<Sent>)
    requires Known(s, ids) && c in s.world.handles
    ensures SentMore(s, HangUpAll(s, ids, bye), c, extra) && Eventless(extra)
  {
    if ids == [] {
      extra := [];
      assert s.world.handles[c].sent + [] == s.world.handles[c].sent;
    } else {
      hide Transmit, SentMore;
      var x := HangUpAllExtra(s, ids[..|ids| - 1], bye, c);
      var before, d := HangUpAll(s, ids[..|ids| - 1], bye), ids[|ids| - 1];
      var y := HangUpExtra(before, d, bye, c);
      SentMoreTransitive(s, before, HangUp(before, d, bye), c, x, y);
      extra := x + y;
    }
  }

  lemma HangUpExtra(s: Sys, d: nat, bye: bool, c: nat) returns (extra: seq<Sent>)
    requires c in s.world.handles && d in s.world.handles
    ensures SentMore(s, HangUp(s, d, bye), c, extra) && Eventless(extra)
  {
    hide Transmit, Filter;
    extra := [];
    assert s.world.handles[c].sent + [] == s.world.handles[c].sent;
    if bye {
      extra := TransmitExtra(s, d, Bye(true, "server_restart"), c);
    }
  }

  lemma {:induction false} ResyncExtra(s: Sys, ids: seq<nat>, why: string, c: nat)
    returns (extra: seq<Sent>)
    requires Known(s, ids) && c in s.world.handles
    ensures SentMore(s, ResyncTo(s, ids, why), c, extra) && Eventless(extra)
  {
    if ids == [] {
      extra := [];
    } else {
      hide Transmit;
      var x := ResyncExtra(s, ids[..|ids| - 1], why, c);
      var before, d := ResyncTo(s, ids[..|ids| - 1], why), ids[|ids| - 1];
      var y := TransmitExtra(before, d, Resync(before.world.handles[d].topics, why), c);
      SentMoreTransitive(s, before, Transmit(before, d, Resync(before.world.handles[d].topics, why)), c, x, y);
      extra := x + y;
    }
  }

  lemma PublishExtra(o: Options, s: Sys, outs: seq<Outgoing>, c: nat)
    returns (extra: seq<Sent>)
    requires Inv(o, s) && Known(s, s.world.live) && c in s.world.handles
    ensures SentMore(s, Publish(o, s, outs), c, extra)
    ensures BatchEvents(extra) ==
            if s.world.handles[c].open then Mine(o, Stamped(s.world.seqNo, outs), s.world.handles[c].topics) else []
    ensures NoWelcome(extra)
    ensures Publish(o, s, outs).world.log == s.world.log + Stamped(s.world.seqNo, outs)
  {
    hide Mine, DeliverTo, RecordAll, UnfollowAll, Stamped;
    var recorded := s.(world := RecordAll(s.world, outs));
    RecordAllKeeps(s.world, outs);
    extra := DeliverExtra(o, recorded, Stamped(s.world.seqNo, outs), None, c);
    DeliverOnlySends(o, recorded, recorded.world.live, Stamped(s.world.seqNo, outs), None);
    UnfollowAllShrinks(Deliver(o, recorded, Stamped(s.world.seqNo, outs), None).world, outs);
  }

  lemma MineNothing(o: Options, topics: set<string>)
    ensures Mine(o, [], topics) == []
  {
  }

  lemma TypingExtra(o: Options, s: Sys, d: nat, out: Outgoing, c: nat)
    returns (extra: seq<Sent>)
    requires Inv(o, s) && Known(s, s.world.live) && c in s.world.handles
    ensures var event := Stamp(s.world.seqNo + 1, out);
            var r := Deliver(o, s.(world := Record(s.world, out)), [event], Some(d));
            && SentMore(s, r, c, extra)
            && BatchEvents(extra) ==
               (if s.world.handles[c].open && c != d then Mine(o, [event], s.world.handles[c].topics) else [])
            && r.world.log == s.world.log + [event]
    ensures NoWelcome(extra)
  {
    hide Mine, DeliverTo, SinceHello, PingsOk, Admit, RingIsTail, AllOrdered, TopicsOk, Trim;
    var recorded := s.(world := Record(s.world, out));
    extra := DeliverExtra(o, recorded, [Stamp(s.world.seqNo + 1, out)], Some(d), c);
    DeliverOnlySends(o, recorded, s.world.live, [Stamp(s.world.seqNo + 1, out)], Some(d));
  }

  lemma ReceiveExtra(o: Options, s: Sys, d: nat, frame: ClientFrame, c: nat)
    returns (extra: seq<Sent>)
    requires Inv(o, s) && Known(s, s.world.live) && c in s.world.handles && d in s.world.handles
    ensures SentMore(s, Receive(o, s, d, frame), c, extra)
    ensures BatchEvents(extra) == Expected(o, s, Do(Receives(d, frame)), c)
    ensures !IsHello(Do(Receives(d, frame)), c) ==> NoWelcome(extra)
    ensures Receive(o, s, d, frame).world.log == s.world.log + NewLog(o, s, Do(Receives(d, frame)))
  {
    hide Inv, Mine, DeliverTo, Admit, Missed, CanResume, SayHello, Record, Deliver, Admitted;
    extra := [];
    MineNothing(o, s.world.handles[c].topics);
    assert s.world.handles[c].sent + [] == s.world.handles[c].sent;
    assert s.world.log + [] == s.world.log;
    if s.world.handles[d].open {
      match frame
      case Hello(resume, topics) =>
        HelloOnlySends(o, s, d, resume, topics);
        if c == d { extra := HelloExtra(o, s, d, resume, topics); }
      case TypingFrame(conv, on) =>
        if Admit(o, conv) {
          extra := TypingExtra(o, s, d, Outgoing(conv, Typing(o.viewerId, on), None), c);
        }
      case _ =>
    }
  }

  /** Apart from the frames, `hello` changes only what its own connection follows. */
  lemma HelloOnlySends(o: Options, s: Sys, c: nat, resume: Option<Token>, topics: seq<string>)
    requires c in s.world.handles
    ensures var r := SayHello(o, s, c, resume, topics);
            && r.world == s.world.(handles := r.world.handles)
            && r.timers.clock == s.timers.clock
            && r.world.handles[c].topics == {"user"} + Admitted(o, topics)
            && r.world.handles[c].open == s.world.handles[c].open
            && forall d | d in s.world.handles && d != c :: r.world.handles[d] == s.world.handles[d]
  {
    hide Admit, Missed, Transmit;
    var h := s.world;
    var mine := {"user"} + Admitted(o, topics);
    var following := WithConnection(s, c, h.handles[c].(topics := mine));
    if !CanResume(h, resume) {
      TransmitSends(following, c, Welcome(h.epoch, h.seqNo, false, h.seqNo, o.viewerId));
    } else {
      var welcome := Welcome(h.epoch, resume.value.seqNo, true, h.seqNo, o.viewerId);
      TransmitSends(following, c, welcome);
      var welcomed := Transmit(following, c, welcome);
      TransmitSends(welcomed, c, Batch(Missed(o, h, resume.value.seqNo, mine)));
    }
  }

  /** What any step sends to any connection, and what it adds to the log. */
  lemma StepSends(o: Options, s: Sys, step: Step, c: nat)
    returns (extra: seq<Sent>)
    requires Inv(o, s) && Known(s, s.world.live) && Enabled(s, step) && c in s.world.handles
    ensures SentMore(s, Next(o, s, step), c, extra)
    ensures BatchEvents(extra) == Expected(o, s, step, c)
    ensures !IsHello(step, c) ==> NoWelcome(extra)
    ensures !(step.Do? && step.call.Restarts?) ==> Next(o, s, step).world.log == s.world.log + NewLog(o, s, step)
  {
    hide Inv, Mine, Receive, Publish, HangUpAll, ResyncTo, NextDue, Filter, Admit, Missed, CanResume, Transmit;
    extra := [];
    MineNothing(o, s.world.handles[c].topics);
    assert s.world.log + [] == s.world.log;
    match step
    case Settle(until) =>
    case FireDue(until) =>
      var t := NextDue(s.timers.pending, until).value;
      if t.action.PingTimer? && t.action.conn in s.world.handles {
        var d := t.action.conn;
        var cleared := WithConnection(State(s.world, Taken(s.timers, t)), d, s.world.handles[d].(pingTimer := None));
        extra := TransmitExtra(cleared, d, PingFrame, c);
        TransmitSends(cleared, d, PingFrame);
        EventlessBatch(extra);
      }
    case Do(call) => extra := CallSends(o, s, call, c);
  }

  lemma CallSends(o: Options, s: Sys, call: Call, c: nat)
    returns (extra: seq<Sent>)
    requires Inv(o, s) && Known(s, s.world.live) && c in s.world.handles
    ensures SentMore(s, Apply(o, s, call), c, extra)
    ensures BatchEvents(extra) == Expected(o, s, Do(call), c)
    ensures !IsHello(Do(call), c) ==> NoWelcome(extra)
    ensures !call.Restarts? ==> Apply(o, s, call).world.log == s.world.log + NewLog(o, s, Do(call))
  {
    hide Mine, Receive, Publish, HangUpAll, ResyncTo, Filter, Admit, Missed, CanResume, Transmit, DeliverTo, SinceHello, PingsOk;
    extra := [];
    MineNothing(o, s.world.handles[c].topics);
    assert s.world.log + [] == s.world.log;
    match call
    case Receives(d, frame) => if d in s.world.handles { extra := ReceiveExtra(o, s, d, frame, c); }
    case Publishes(outs) => extra := PublishExtra(o, s, outs, c);
    case DropsAll(bye) =>
      extra := HangUpAllExtra(s, s.world.live, bye, c);
      HangUpAllKeeps(o, s, s.world.live, bye);
      EventlessBatch(extra);
    case Restarts(epoch) =>
      extra := HangUpAllExtra(s, s.world.live, true, c);
      EventlessBatch(extra);
    case ResyncsAll(why) =>
      extra := ResyncExtra(s, s.world.live, why, c);
      ResyncOnlySends(s, s.world.live, why);
      EventlessBatch(extra);
    case _ =>
  }

  // ---------------------------------------------------------------------------------------------
  // Events only on held topics
  // ---------------------------------------------------------------------------------------------

  lemma {:induction false} ForViewerFrom(o: Options, events: seq<SyncEvent>, e: SyncEvent)
    requires e in ForViewer(o, events)
    ensures exists f | f in events :: o.show(f) == Some(e)
  {
    var front, last := events[..|events| - 1], events[|events| - 1];
    assert last in events;
    if o.show(last) != Some(e) {
      ForViewerFrom(o, front, e);
      var f :| f in front && o.show(f) == Some(e);
      assert f in events;
    }
  }

  /** Whatever a step sends to a connection is on a topic it holds: as it stands before the step, or
      after its own hello. */
  lemma OnlyHeldTopics(o: Options, s: Sys, step: Step, c: nat)
    returns (extra: seq<Sent>)
    requires Inv(o, s) && Transparent(o) && Known(s, s.world.live) && Enabled(s, step) && c in s.world.handles
    ensures SentMore(s, Next(o, s, step), c, extra)
    ensures forall e | e in BatchEvents(extra) ::
              e.topic in (if IsHello(step, c) then Next(o, s, step) else s).world.handles[c].topics
  {
    extra := StepSends(o, s, step, c);
    hide Inv, Next, Enabled, CanResume, Admit, ForViewer, Filter, BatchEvents;
    if IsHello(step, c) && s.world.handles[c].open {
      HelloTopics(o, s, step, c);
    }
    forall e | e in BatchEvents(extra)
      ensures e.topic in (if IsHello(step, c) then Next(o, s, step) else s).world.handles[c].topics
    {
      if IsHello(step, c) {
        var token := step.call.frame.resume.value;
        var topics := {"user"} + Admitted(o, step.call.frame.topics);
        ForViewerFrom(o, Filter(s.world.ring, (f: SyncEvent) => f.seqNo > token.seqNo && IsPlain(f) && f.topic in topics), e);
      } else {
        ForViewerFrom(o, OnTopics(NewLog(o, s, step), s.world.handles[c].topics), e);
      }
    }
  }

  lemma HelloTopics(o: Options, s: Sys, step: Step, c: nat)
    requires Known(s, s.world.live) && c in s.world.handles && s.world.handles[c].open && IsHello(step, c)
    ensures c in Next(o, s, step).world.handles
    ensures Next(o, s, step).world.handles[c].topics == {"user"} + Admitted(o, step.call.frame.topics)
  {
    hide Admit, SayHello;
    HelloOnlySends(o, s, c, step.call.frame.resume, step.call.frame.topics);
  }

  // ---------------------------------------------------------------------------------------------
  // Following the log
  // ---------------------------------------------------------------------------------------------

  function Plain(events: seq<SyncEvent>): seq<SyncEvent> {
    Filter(events, IsPlain)
  }

  /** The non-typing events of a stretch of the log, as a connection on `topics` is shown them. */
  function PlainMine(o: Options, events: seq<SyncEvent>, topics: set<string>): seq<SyncEvent> {
    Plain(Mine(o, events, topics))
  }

  lemma {:induction false} ForViewerConcat(o: Options, a: seq<SyncEvent>, b: seq<SyncEvent>)
    ensures ForViewer(o, a + b) == ForViewer(o, a) + ForViewer(o, b)
  {
    if b == [] {
      assert a + b == a;
    } else {
      assert (a + b)[..|a + b| - 1] == a + b[..|b| - 1];
      ForViewerConcat(o, a, b[..|b| - 1]);
    }
  }

  lemma PlainMineConcat(o: Options, a: seq<SyncEvent>, b: seq<SyncEvent>, topics: set<string>)
    ensures PlainMine(o, a + b, topics) == PlainMine(o, a, topics) + PlainMine(o, b, topics)
  {
    hide Filter, ForViewer;
    FilterConcat(a, b, (e: SyncEvent) => e.topic in topics);
    ForViewerConcat(o, OnTopics(a, topics), OnTopics(b, topics));
    FilterConcat(Mine(o, a, topics), Mine(o, b, topics), IsPlain);
  }

  /** Between `s` and `r`, connection `c` kept its topics and was sent exactly what the log gained on
      them, apart from typing. */
  ghost predicate Follows(o: Options, s: Sys, r: Sys, c: nat) {
    && c in s.world.handles && c in r.world.handles
    && s.world.handles[c].open && r.world.handles[c].open
    && r.world.handles[c].topics == s.world.handles[c].topics
    && s.world.handles[c].sent <= r.world.handles[c].sent
    && s.world.log <= r.world.log && r.world.epoch == s.world.epoch
    && Plain(NewEvents(s, r, c)) == PlainMine(o, r.world.log[|s.world.log|..], s.world.handles[c].topics)
  }

  lemma FollowsTransitive(o: Options, a: Sys, b: Sys, d: Sys, c: nat)
    requires Follows(o, a, b, c) && Follows(o, b, d, c)
    ensures Follows(o, a, d, c)
  {
    hide Filter, ForViewer, BatchEvents, Mine;
    var x, y, z := a.world.handles[c].sent, b.world.handles[c].sent, d.world.handles[c].sent;
    assert z[|x|..] == y[|x|..] + z[|y|..];
    BatchEventsConcat(y[|x|..], z[|y|..]);
    FilterConcat(NewEvents(a, b, c), NewEvents(b, d, c), IsPlain);
    var l, m, n := a.world.log, b.world.log, d.world.log;
    assert n[|l|..] == m[|l|..] + n[|m|..];
    PlainMineConcat(o, m[|l|..], n[|m|..], a.world.handles[c].topics);
  }

  /** The step leaves `c` open and on the same topics, and is not its hello. */
  ghost predicate Leaves(o: Options, s: Sys, step: Step, c: nat) {
    && Known(s, s.world.live) && Enabled(s, step)
    && c in s.world.handles && s.world.handles[c].open && !IsHello(step, c)
    && var r := Next(o, s, step);
       c in r.world.handles && r.world.handles[c].open && r.world.handles[c].topics == s.world.handles[c].topics
  }

  lemma LeavesNoRestart(o: Options, s: Sys, step: Step, c: nat)
    requires Inv(o, s) && Leaves(o, s, step, c)
    ensures !(step.Do? && step.call.Restarts?)
  {
    hide SinceHello, PingsOk, Admit, Restart, DeliverTo, Mine;
    if step.Do? && step.call.Restarts? {
      RestartKeeps(o, s, step.call.epoch);
      assert false;
    }
  }

  /** A step that leaves `c` alone sends it all the step records on its topics, typing aside. */
  lemma StepFollows(o: Options, s: Sys, step: Step, c: nat)
    requires Inv(o, s) && Transparent(o) && Leaves(o, s, step, c)
    ensures Follows(o, s, Next(o, s, step), c)
  {
    LeavesNoRestart(o, s, step, c);
    var extra := StepSends(o, s, step, c);
    NextEpoch(o, s, step);
    var r := Next(o, s, step);
    NewEventsOf(s, r, c, extra);
    assert r.world.log[|s.world.log|..] == NewLog(o, s, step);
    TypingIsNotPlain(o, s, step, s.world.handles[c].topics);
  }

  lemma TypingIsNotPlain(o: Options, s: Sys, step: Step, topics: set<string>)
    requires Transparent(o)
    ensures IsTyping(o, s, step) ==> PlainMine(o, NewLog(o, s, step), topics) == []
    ensures Plain([]) == []
  {
    if IsTyping(o, s, step) {
      var event := TypedEvent(o, s, step);
      assert [event][..0] == [];
      var mine := Mine(o, [event], topics);
      forall e | e in mine ensures !IsPlain(e) {
        ForViewerFrom(o, OnTopics([event], topics), e);
      }
      FilterAllOrNone(mine, IsPlain);
    }
  }

  // ---------------------------------------------------------------------------------------------
  // The client's cursor
  // ---------------------------------------------------------------------------------------------

  /** The point the last welcome put the client at. */
  function WelcomeAt(sent: seq<Sent>): int {
    if sent == [] then -1
    else if sent[|sent| - 1].frame.Welcome? then sent[|sent| - 1].frame.seqNo
    else WelcomeAt(sent[..|sent| - 1])
  }

  /** The sequence number of the last event a client has applied, or its welcome's. */
  function Cursor(sent: seq<Sent>): int {
    var events := SinceHello(sent);
    if events == [] then WelcomeAt(sent) else events[|events| - 1].seqNo
  }

  lemma CursorMoves(sent: seq<Sent>, extra: seq<Sent>)
    requires NoWelcome(extra)
    ensures SinceHello(sent + extra) == SinceHello(sent) + BatchEvents(extra)
    ensures WelcomeAt(sent + extra) == WelcomeAt(sent)
    ensures Cursor(sent + extra) == if BatchEvents(extra) == [] then Cursor(sent) else BatchEvents(extra)[|BatchEvents(extra)| - 1].seqNo
  {
    hide SinceHello, BatchEvents, WelcomeAt;
    SinceMoves(sent, extra);
    var a, b := SinceHello(sent), BatchEvents(extra);
    if b == [] {
      assert a + b == a;
    } else {
      assert (a + b)[|a + b| - 1] == b[|b| - 1];
    }
  }

  lemma {:induction false} SinceMoves(sent: seq<Sent>, extra: seq<Sent>)
    requires NoWelcome(extra)
    ensures SinceHello(sent + extra) == SinceHello(sent) + BatchEvents(extra)
    ensures WelcomeAt(sent + extra) == WelcomeAt(sent)
  {
    hide SinceHello, BatchEvents, WelcomeAt;
    if extra == [] {
      assert sent + extra == sent;
      NoBatch();
      assert SinceHello(sent) + [] == SinceHello(sent);
    } else {
      var front, last := extra[..|extra| - 1], extra[|extra| - 1];
      assert last in extra && extra == front + [last];
      assert sent + extra == (sent + front) + [last];
      SinceMoves(sent, front);
      SentBatch(sent + front, last.at, last.frame);
      WelcomeStays(sent + front, last);
      BatchEventsConcat(front, [last]);
      BatchOne(last);
      Assoc(SinceHello(sent), BatchEvents(front), BatchEvents([last]));
      assert SinceHello(sent + front) + [] == SinceHello(sent + front);
    }
  }

  lemma NoBatch()
    ensures BatchEvents([]) == []
  {
  }

  lemma WelcomeStays(sent: seq<Sent>, last: Sent)
    requires !last.frame.Welcome?
    ensures WelcomeAt(sent + [last]) == WelcomeAt(sent)
  {
    assert (sent + [last])[..|sent|] == sent;
  }

  /** Nothing but typing lies between the client's cursor and the end of the log on its topics. */
  ghost predicate CaughtUp(o: Options, s: Sys, c: nat) {
    && c in s.world.handles
    && var k := Cursor(s.world.handles[c].sent);
       && 0 <= k <= |s.world.log|
       && PlainMine(o, s.world.log[k..], s.world.handles[c].topics) == []
  }

  /** If `events` are the shown events of a stretch of the log, apart perhaps from typing, nothing
      but typing is shown after the last of them. */
  lemma NothingAfterLast(o: Options, log: seq<SyncEvent>, from: nat, events: seq<SyncEvent>, topics: set<string>)
    requires Transparent(o) && from <= |log| && forall i | 0 <= i < |log| :: log[i].seqNo == i + 1
    requires events != [] && Ascending(events) && Within(events, from, |log|)
    requires Plain(events) == PlainMine(o, log[from..], topics)
    ensures PlainMine(o, log[events[|events| - 1].seqNo..], topics) == []
  {
    hide Filter, ForViewer;
    var last := events[|events| - 1];
    assert last in events;
    var q := last.seqNo;
    assert log[from..] == log[from..q] + log[q..];
    PlainMineConcat(o, log[from..q], log[q..], topics);
    var tail := PlainMine(o, log[q..], topics);
    forall e | e in tail ensures e.seqNo <= q {
      assert e in Plain(events) && e in events;
      var i :| 0 <= i < |events| && events[i] == e;
    }
    ShownAfter(o, log, q, topics);
    NoneOf(tail, q);
  }

  lemma ShownAfter(o: Options, log: seq<SyncEvent>, q: nat, topics: set<string>)
    requires Transparent(o) && q <= |log| && forall i | 0 <= i < |log| :: log[i].seqNo == i + 1
    ensures forall e | e in PlainMine(o, log[q..], topics) :: e.seqNo > q
  {
    hide Filter, ForViewer;
    forall e | e in PlainMine(o, log[q..], topics) ensures e.seqNo > q {
      ForViewerFrom(o, OnTopics(log[q..], topics), e);
    }
  }

  lemma NoneOf(events: seq<SyncEvent>, q: nat)
    requires forall e | e in events :: e.seqNo > q && e.seqNo <= q
    ensures events == []
  {
    FilterAllOrNone(events, (e: SyncEvent) => e.seqNo <= q);
  }

  /** The log grows from `l` to `m` and the client is sent `events` of it: it is still caught up. */
  lemma StillCaughtUp(o: Options, l: seq<SyncEvent>, m: seq<SyncEvent>, k: int, events: seq<SyncEvent>, topics: set<string>)
    requires Transparent(o) && l <= m && forall i | 0 <= i < |m| :: m[i].seqNo == i + 1
    requires 0 <= k <= |l| && PlainMine(o, l[k..], topics) == []
    requires Ascending(events) && Within(events, |l|, |m|)
    requires Plain(events) == PlainMine(o, m[|l|..], topics)
    ensures var k' := if events == [] then k else events[|events| - 1].seqNo;
            0 <= k' <= |m| && PlainMine(o, m[k'..], topics) == []
  {
    hide PlainMine;
    if events == [] {
      assert m[k..] == l[k..] + m[|l|..];
      PlainMineConcat(o, l[k..], m[|l|..], topics);
    } else {
      assert events[|events| - 1] in events;
      NothingAfterLast(o, m, |l|, events, topics);
    }
  }

  lemma StepCaughtUp(o: Options, s: Sys, step: Step, c: nat)
    requires Inv(o, s) && Transparent(o) && Leaves(o, s, step, c) && CaughtUp(o, s, c)
    ensures CaughtUp(o, Next(o, s, step), c)
  {
    hide Inv, Next, Enabled, Mine, Filter, SinceHello, BatchEvents, PlainMine, CanResume, Admit, Cursor;
    StepFollows(o, s, step, c);
    LeavesNoRestart(o, s, step, c);
    var extra := StepSends(o, s, step, c);
    var r := Next(o, s, step);
    NewEventsOf(s, r, c, extra);
    var sent, topics := s.world.handles[c].sent, s.world.handles[c].topics;
    CursorMoves(sent, extra);
    NumberedLog(o, s, step);
    NewLogOrdered(o, s, step, topics);
    assert r.world.log[|s.world.log|..] == NewLog(o, s, step);
    StillCaughtUp(o, s.world.log, r.world.log, Cursor(sent), BatchEvents(extra), topics);
  }

  lemma NumberedLog(o: Options, s: Sys, step: Step)
    requires Inv(o, s) && Transparent(o) && Known(s, s.world.live) && Enabled(s, step)
    ensures s.world.seqNo == |s.world.log|
    ensures var m := Next(o, s, step).world.log; forall i | 0 <= i < |m| :: m[i].seqNo == i + 1
  {
    hide Next, Enabled;
    NextKeeps(o, s, step);
  }

  lemma NewLogOrdered(o: Options, s: Sys, step: Step, topics: set<string>)
    requires Transparent(o)
    ensures var mine := Mine(o, NewLog(o, s, step), topics);
            Ascending(mine) && Within(mine, s.world.seqNo, s.world.seqNo + |NewLog(o, s, step)|)
  {
    hide Mine, Admit;
    MineOrdered(o, NewLog(o, s, step), topics, s.world.seqNo, s.world.seqNo + |NewLog(o, s, step)|);
  }

  // ---------------------------------------------------------------------------------------------
  // Dropping and resuming
  // ---------------------------------------------------------------------------------------------

  /** `steps` lead from `s` to `r` and none of them closes `c`, changes its topics or is its hello. */
  ghost predicate Undisturbed(o: Options, s: Sys, steps: seq<Step>, r: Sys, c: nat)
    decreases |steps|
  {
    if steps == [] then r == s && c in s.world.handles && s.world.handles[c].open
    else Leaves(o, s, steps[0], c) && Undisturbed(o, Next(o, s, steps[0]), steps[1..], r, c)
  }

  lemma {:induction false} RunFollows(o: Options, s: Sys, steps: seq<Step>, r: Sys, c: nat)
    requires Inv(o, s) && Transparent(o) && Undisturbed(o, s, steps, r, c)
    ensures Follows(o, s, r, c) && Inv(o, r)
    ensures CaughtUp(o, s, c) ==> CaughtUp(o, r, c)
    decreases |steps|
  {
    if steps == [] {
      FollowsSelf(o, s, c);
    } else {
      hide Inv, Next, Enabled, Follows, CaughtUp;
      NextKeeps(o, s, steps[0]);
      StepFollows(o, s, steps[0], c);
      if CaughtUp(o, s, c) { StepCaughtUp(o, s, steps[0], c); }
      RunFollows(o, Next(o, s, steps[0]), steps[1..], r, c);
      FollowsTransitive(o, s, Next(o, s, steps[0]), r, c);
    }
  }

  lemma FollowsSelf(o: Options, s: Sys, c: nat)
    requires c in s.world.handles && s.world.handles[c].open
    ensures Follows(o, s, s, c)
  {
    assert s.world.log[|s.world.log|..] == [];
    assert s.world.handles[c].sent[|s.world.handles[c].sent|..] == [];
  }

  /** The replay is what the log holds after the token's point, typing aside. */
  lemma ReplayIsPlainMine(o: Options, h: HubState, token: Token, topics: set<string>)
    requires RingIsTail(h) && Transparent(o) && CanResume(h, Some(token))
    ensures 0 <= token.seqNo <= |h.log|
    ensures Missed(o, h, token.seqNo, topics) == PlainMine(o, h.log[token.seqNo..], topics)
  {
    hide ForViewer, Filter, Mine;
    ResumesExactly(h, token);
    ReplayIsLog(o, h, token, topics);
    LogAfter(h.log, token.seqNo, (e: SyncEvent) => e.seqNo > token.seqNo && IsPlain(e) && e.topic in topics);
    FilterCommutes(o, h.log[token.seqNo..], token.seqNo, topics);
  }

  lemma LogAfter(log: seq<SyncEvent>, k: nat, keep: SyncEvent -> bool)
    requires k <= |log| && forall i | 0 <= i < |log| :: log[i].seqNo == i + 1
    requires forall e | keep(e) :: e.seqNo > k
    ensures Filter(log, keep) == Filter(log[k..], keep)
    ensures forall e | e in log[k..] :: e.seqNo > k
  {
    hide Filter;
    var early, late := log[..k], log[k..];
    assert log == early + late;
    Halves(log, k);
    forall e | e in early ensures !keep(e) {
      assert !(e.seqNo > k);
    }
    FilterConcat(early, late, keep);
    FilterAllOrNone(early, keep);
    assert [] + Filter(late, keep) == Filter(late, keep);
  }

  /** A numbered log splits at `k` into the events up to number `k` and those after it. */
  lemma Halves(log: seq<SyncEvent>, k: nat)
    requires k <= |log| && forall i | 0 <= i < |log| :: log[i].seqNo == i + 1
    ensures (forall e | e in log[..k] :: e.seqNo <= k) && (forall e | e in log[k..] :: e.seqNo > k)
  {
    var early, late := log[..k], log[k..];
    forall e | e in early ensures e.seqNo <= k {
      var i :| 0 <= i < |early| && early[i] == e;
      assert log[i] == e;
    }
    forall e | e in late ensures e.seqNo > k {
      var i :| 0 <= i < |late| && late[i] == e;
      assert log[k + i] == e;
    }
  }

  /** Dropping typing before or after showing events to the viewer is the same. */
  lemma {:induction false} FilterCommutes(o: Options, events: seq<SyncEvent>, k: int, topics: set<string>)
    requires Transparent(o) && forall e | e in events :: e.seqNo > k
    ensures ForViewer(o, Filter(events, (e: SyncEvent) => e.seqNo > k && IsPlain(e) && e.topic in topics)) == PlainMine(o, events, topics)
  {
    if events != [] {
      var front, last := events[..|events| - 1], events[|events| - 1];
      var keep := (e: SyncEvent) => e.seqNo > k && IsPlain(e) && e.topic in topics;
      assert last in events;
      assert events == front + [last];
      FilterCommutes(o, front, k, topics);
      FilterConcat(front, [last], keep);
      ForViewerConcat(o, Filter(front, keep), Filter([last], keep));
      PlainMineConcat(o, front, [last], topics);
      OneCommutes(o, last, k, topics);
    }
  }

  lemma OneCommutes(o: Options, e: SyncEvent, k: int, topics: set<string>)
    requires Transparent(o) && e.seqNo > k
    ensures ForViewer(o, Filter([e], (e: SyncEvent) => e.seqNo > k && IsPlain(e) && e.topic in topics)) == PlainMine(o, [e], topics)
  {
    var shown := if o.show(e).Some? then [o.show(e).value] else [];
    assert [e][..0] == [];
    assert ForViewer(o, [e]) == shown;
    FilterAllOrNone([e], (e: SyncEvent) => e.seqNo > k && IsPlain(e) && e.topic in topics);
    FilterAllOrNone([e], (e: SyncEvent) => e.topic in topics);
    FilterAllOrNone(shown, IsPlain);
  }

  lemma CursorAfterHello(sent: seq<Sent>, extra: seq<Sent>)
    requires extra != [] && extra[0].frame.Welcome? && NoWelcome(extra[1..])
    ensures Cursor(sent + extra) ==
            if BatchEvents(extra) == [] then extra[0].frame.seqNo else BatchEvents(extra)[|BatchEvents(extra)| - 1].seqNo
  {
    hide SinceHello, WelcomeAt, BatchEvents, Cursor;
    FreshCursor(sent, extra[0]);
    BatchEventsConcat([extra[0]], extra[1..]);
    BatchOne(extra[0]);
    assert [extra[0]] + extra[1..] == extra;
    assert [] + BatchEvents(extra[1..]) == BatchEvents(extra[1..]);
    assert sent + extra == (sent + [extra[0]]) + extra[1..];
    CursorMoves(sent + [extra[0]], extra[1..]);
  }

  /** After a replay from `k` the client's point is the last replayed event, or still `k`. */
  lemma ReplayCatchesUp(o: Options, h: HubState, token: Token, topics: set<string>)
    requires RingIsTail(h) && Transparent(o) && CanResume(h, Some(token))
    ensures var events := Missed(o, h, token.seqNo, topics);
            var k := if events == [] then token.seqNo else events[|events| - 1].seqNo;
            0 <= k <= |h.log| && PlainMine(o, h.log[k..], topics) == []
  {
    var events := Missed(o, h, token.seqNo, topics);
    ReplayIsPlainMine(o, h, token, topics);
    MissedOrdered(o, h, token.seqNo, topics);
    PlainTwice(o, h.log[token.seqNo..], topics);
    hide Missed, PlainMine, CanResume;
    if events != [] {
      assert events[|events| - 1] in events;
      NothingAfterLast(o, h.log, token.seqNo, events, topics);
    }
  }

  /** Right after its hello a client is caught up, resumed or not. */
  lemma HelloCatchesUp(o: Options, s: Sys, c: nat, resume: Option<Token>, topics: seq<string>)
    requires Inv(o, s) && Transparent(o) && c in s.world.handles && s.world.handles[c].open
    ensures CaughtUp(o, SayHello(o, s, c, resume, topics), c)
  {
    var h, mine := s.world, {"user"} + Admitted(o, topics);
    hide SinceHello, SayHello, Admitted, Missed, PlainMine, BatchEvents, Inv, Cursor, CanResume;
    InvTail(o, s);
    HelloOnlySends(o, s, c, resume, topics);
    var extra := HelloExtra(o, s, c, resume, topics);
    CursorAfterHello(s.world.handles[c].sent, extra);
    if CanResume(h, resume) {
      assert resume.Some? by { CanResumeSome(h, resume); }
      ReplayCatchesUp(o, h, resume.value, mine);
    } else {
      assert h.log[|h.log|..] == [];
      PlainMineNothing(o, mine);
    }
  }

  lemma CanResumeSome(h: HubState, resume: Option<Token>)
    requires CanResume(h, resume)
    ensures resume.Some?
  {
  }

  lemma PlainMineNothing(o: Options, topics: set<string>)
    ensures PlainMine(o, [], topics) == []
  {
  }

  lemma PlainTwice(o: Options, events: seq<SyncEvent>, topics: set<string>)
    ensures Plain(PlainMine(o, events, topics)) == PlainMine(o, events, topics)
  {
    FilterAllOrNone(PlainMine(o, events, topics), IsPlain);
  }

  lemma FreshCursor(sent: seq<Sent>, welcome: Sent)
    requires welcome.frame.Welcome?
    ensures SinceHello(sent + [welcome]) == [] && Cursor(sent + [welcome]) == welcome.frame.seqNo
  {
    assert (sent + [welcome])[|sent|] == welcome;
  }

  /** The token a client offers after `sent`, while the epoch is still `epoch`. */
  function TokenOf(epoch: string, sent: seq<Sent>): Option<Token> {
    Some(Token(epoch, Cursor(sent)))
  }

  /**
   * Resume loses nothing and repeats nothing. A client `c` says hello (`hello`); a client `w` that
   * never drops is on the same topics. Some steps later (`dropped`) `c` is gone, and more steps later
   * (`back`) it is there again as `d` and offers the last event it applied. If the hub accepts, what
   * `c` was sent followed by the replay is, typing aside, exactly what `w` was sent all the while.
   */
  lemma ResumeLosesNothing(o: Options, start: Sys, c: nat, resume: Option<Token>, topics: seq<string>, hello: Sys, w: nat,
                           steps: seq<Step>, dropped: Sys, more: seq<Step>, back: Sys, d: nat, again: seq<string>, resumed: Sys)
    requires Inv(o, start) && Transparent(o)
    requires c in start.world.handles && start.world.handles[c].open && hello == SayHello(o, start, c, resume, topics)
    requires w in hello.world.handles && hello.world.handles[w].topics == {"user"} + Admitted(o, topics)
    requires Undisturbed(o, hello, steps, dropped, c) && Undisturbed(o, hello, steps, dropped, w)
    requires c in dropped.world.handles && Undisturbed(o, dropped, more, back, w)
    requires d in back.world.handles && back.world.handles[d].open
    requires Admitted(o, again) == Admitted(o, topics)
    requires CanResume(back.world, TokenOf(hello.world.epoch, dropped.world.handles[c].sent))
    requires resumed == SayHello(o, back, d, TokenOf(hello.world.epoch, dropped.world.handles[c].sent), again)
    ensures Plain(NewEvents(hello, dropped, c)) + NewEvents(back, resumed, d) == Plain(NewEvents(hello, back, w))
  {
    hide SayHello, Undisturbed, CanResume, Admitted, Inv, Cursor, Follows, CaughtUp, NewEvents;
    HelloKeeps(o, start, c, resume, topics);
    HelloCatchesUp(o, start, c, resume, topics);
    HelloOnlySends(o, start, c, resume, topics);
    RunFollows(o, hello, steps, dropped, c);
    RunFollows(o, hello, steps, dropped, w);
    RunFollows(o, dropped, more, back, w);
    FollowsTransitive(o, hello, dropped, back, w);
    InvTail(o, back);
    var token := Token(hello.world.epoch, Cursor(dropped.world.handles[c].sent));
    var extra := HelloExtra(o, back, d, Some(token), again);
    NewEventsOf(back, resumed, d, extra);
    JoinedReplay(o, hello, dropped, back, c, w, token);
  }

  /** The arithmetic of the logs behind `ResumeLosesNothing`. */
  lemma JoinedReplay(o: Options, hello: Sys, dropped: Sys, back: Sys, c: nat, w: nat, token: Token)
    requires Transparent(o) && RingIsTail(back.world) && CanResume(back.world, Some(token))
    requires Follows(o, hello, dropped, c) && CaughtUp(o, dropped, c)
    requires Follows(o, hello, dropped, w) && Follows(o, dropped, back, w) && Follows(o, hello, back, w)
    requires hello.world.handles[w].topics == hello.world.handles[c].topics
    requires token.seqNo == Cursor(dropped.world.handles[c].sent)
    ensures Plain(NewEvents(hello, dropped, c)) + Missed(o, back.world, token.seqNo, hello.world.handles[c].topics)
            == Plain(NewEvents(hello, back, w))
  {
    hide PlainMine, Missed, Cursor, NewEvents, CanResume, Filter;
    var mine, k := hello.world.handles[c].topics, token.seqNo;
    ReplayIsPlainMine(o, back.world, token, mine);
    var l, m, n := hello.world.log, dropped.world.log, back.world.log;
    assert n[k..] == m[k..] + n[|m|..];
    PlainMineConcat(o, m[k..], n[|m|..], mine);
    assert [] + PlainMine(o, n[|m|..], mine) == PlainMine(o, n[|m|..], mine);
    assert n[|l|..] == m[|l|..] + n[|m|..];
    PlainMineConcat(o, m[|l|..], n[|m|..], mine);
  }

  lemma InvTail(o: Options, s: Sys)
    requires Inv(o, s)
    ensures RingIsTail(s.world)
  {
  }
}
