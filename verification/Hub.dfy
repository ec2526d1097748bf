/**
 * The publish/subscribe hub of frontend/mock/sync.ts as functions on values: what each handler makes
 * of the hub and of the scheduler it arms its keep-alive pings on. `SyncHub` (SyncHub.dfy) is the
 * object itself, proved to do what these functions say.
 */
module Hub {
  import opened Common
  import opened Scheduler
  import Decimal

  const RING_SIZE := 500
  const PING_AFTER_MS := 15_000

  datatype Payload = Typing(userId: nat, on: bool) | Update(kind: string, data: string)

  datatype SyncEvent = SyncEvent(seqNo: nat, topic: string, payload: Payload)

  datatype Outgoing = Outgoing(topic: string, payload: Payload, unsubscribe: Option<string>)

  datatype ServerFrame =
    | Welcome(epoch: string, seqNo: int, resumed: bool, replayThrough: nat, viewerId: nat)
    | Batch(events: seq<SyncEvent>)
    | PingFrame
    | Bye(reconnect: bool, reason: string)
    | Resync(topics: set<string>, why: string)

  /** Where a returning client left off. The wire carries any integer. */
  datatype Token = Token(epoch: string, seqNo: int)

  datatype ClientFrame =
    | Hello(resume: Option<Token>, topics: seq<string>)
    | Sub(topics: seq<string>)
    | Unsub(topics: seq<string>)
    | TypingFrame(conv: string, on: bool)
    | Present(room: int)
    | Absent(room: int)
    | Heartbeat

  /** A frame given to the transport, and when. */
  datatype Sent = Sent(at: int, frame: ServerFrame)

  /** One socket. `sent` is everything `send` was called with; `hungUp` whether `drop` was called. */
  datatype Connection = Connection(
    connectedAt: int,
    topics: set<string>,
    present: set<int>,
    pingTimer: Option<nat>,
    open: bool,
    hungUp: bool,
    sent: seq<Sent>)

  /** Timers of the hub, and those other users of the same scheduler own. */
  datatype Action = PingTimer(conn: nat) | Foreign(tag: nat)

  /** `handles` is every connection ever made, `live` the `connections` set in insertion order.
      `log` is a history of the epoch that no operation reads. */
  datatype HubState = HubState(
    epoch: string,
    seqNo: nat,
    ring: seq<SyncEvent>,
    handles: map<nat, Connection>,
    live: seq<nat>,
    nextConnectionId: nat,
    log: seq<SyncEvent>)

  type Sys = State<HubState, Action>

  datatype Options = Options(
    viewerId: nat,
    memberOf: int -> bool,
    threadAccess: int -> bool,
    show: SyncEvent -> Option<SyncEvent>)

  function Initial(epoch: string, startMs: int): Sys {
    State(HubState(epoch, 0, [], map[], [], 1, []), Timers(startMs, 1, []))
  }

  // --- topics -----------------------------------------------------------------------------------

  /** The number after `prefix`, when the whole topic is the prefix and at least one digit. */
  function NumberAfter(prefix: string, topic: string): Option<nat> {
    if prefix < topic && Decimal.AllDigits(topic[|prefix|..]) then Some(Decimal.Value(topic[|prefix|..])) else None
  }

  function RoomIdOf(topic: string): Option<nat> {
    NumberAfter("room:", topic)
  }

  predicate Admit(o: Options, topic: string) {
    var thread := NumberAfter("thread:", topic);
    if thread.Some? && !o.threadAccess(thread.value) then false
    else
      var room := RoomIdOf(topic);
      room.None? || o.memberOf(room.value)
  }

  function Admitted(o: Options, topics: seq<string>): set<string> {
    set t | t in topics && Admit(o, t)
  }

  /** What `unsub` drops: every topic named but the user's own. */
  function Droppable(topics: seq<string>): set<string> {
    set t | t in topics && t != "user"
  }

  // --- what a viewer sees -----------------------------------------------------------------------

  function ForViewer(o: Options, events: seq<SyncEvent>): seq<SyncEvent> {
    if events == [] then []
    else
      var last := o.show(events[|events| - 1]);
      ForViewer(o, events[..|events| - 1]) + (if last.Some? then [last.value] else [])
  }

  function OnTopics(events: seq<SyncEvent>, topics: set<string>): seq<SyncEvent> {
    Filter(events, (e: SyncEvent) => e.topic in topics)
  }

  /** The batch a connection following `topics` gets out of `events`. */
  function Mine(o: Options, events: seq<SyncEvent>, topics: set<string>): seq<SyncEvent> {
    ForViewer(o, OnTopics(events, topics))
  }

  // --- frames out -------------------------------------------------------------------------------

  function WithConnection(s: Sys, c: nat, conn: Connection): Sys {
    s.(world := s.world.(handles := s.world.handles[c := conn]))
  }

  function ArmPing(s: Sys, c: nat): Sys
    requires c in s.world.handles
  {
    var conn := s.world.handles[c];
    var ts := if conn.pingTimer.Some? then Cancelled(s.timers, conn.pingTimer.value) else s.timers;
    WithConnection(s, c, conn.(pingTimer := Some(ts.nextId))).(timers := Scheduled(ts, PING_AFTER_MS, PingTimer(c)))
  }

  function Transmit(s: Sys, c: nat, frame: ServerFrame): (r: Sys)
    requires c in s.world.handles
    ensures r.world.handles.Keys == s.world.handles.Keys
  {
    var conn := s.world.handles[c];
    if !conn.open then s
    else ArmPing(WithConnection(s, c, conn.(sent := conn.sent + [Sent(s.timers.clock, frame)])), c)
  }

  function Forget(s: Sys, c: nat): (r: Sys)
    requires c in s.world.handles
    ensures r.world.handles.Keys == s.world.handles.Keys
  {
    var conn := s.world.handles[c];
    var ts := if conn.pingTimer.Some? then Cancelled(s.timers, conn.pingTimer.value) else s.timers;
    var handles := s.world.handles[c := conn.(open := false, pingTimer := None)];
    State(s.world.(handles := handles, live := Filter(s.world.live, (d: nat) => d != c)), ts)
  }

  // --- publishing -------------------------------------------------------------------------------

  function Stamp(seqNo: nat, out: Outgoing): SyncEvent {
    SyncEvent(seqNo, out.topic, out.payload)
  }

  function Trim(ring: seq<SyncEvent>): seq<SyncEvent> {
    if |ring| > RING_SIZE then ring[|ring| - RING_SIZE..] else ring
  }

  function Record(h: HubState, out: Outgoing): HubState {
    var event := Stamp(h.seqNo + 1, out);
    h.(seqNo := h.seqNo + 1, ring := Trim(h.ring + [event]), log := h.log + [event])
  }

  function RecordAll(h: HubState, outs: seq<Outgoing>): HubState {
    if outs == [] then h else Record(RecordAll(h, outs[..|outs| - 1]), outs[|outs| - 1])
  }

  /** `outs` with the sequence numbers after `seqNo`. */
  function Stamped(seqNo: nat, outs: seq<Outgoing>): (events: seq<SyncEvent>)
    ensures |events| == |outs|
    ensures forall i | 0 <= i < |outs| :: events[i] == Stamp(seqNo + i + 1, outs[i])
  {
    seq(|outs|, (i: nat) requires i < |outs| => Stamp(seqNo + i + 1, outs[i]))
  }

  ghost predicate Known(s: Sys, ids: seq<nat>) {
    forall c | c in ids :: c in s.world.handles
  }

  function DeliverTo(o: Options, s: Sys, ids: seq<nat>, events: seq<SyncEvent>, except: Option<nat>): (r: Sys)
    requires Known(s, ids)
    ensures r.world.handles.Keys == s.world.handles.Keys
  {
    if ids == [] then s
    else
      var c := ids[|ids| - 1];
      var before := DeliverTo(o, s, ids[..|ids| - 1], events, except);
      var mine := Mine(o, events, before.world.handles[c].topics);
      if Some(c) == except || mine == [] then before else Transmit(before, c, Batch(mine))
  }

  function Deliver(o: Options, s: Sys, events: seq<SyncEvent>, except: Option<nat>): (r: Sys)
    requires Known(s, s.world.live)
    ensures r.world.handles.Keys == s.world.handles.Keys
  {
    DeliverTo(o, s, s.world.live, events, except)
  }

  /** One event's `unsubscribe`: every live connection on its topic stops following `gone`. */
  function Unfollow(h: HubState, topic: string, gone: string): HubState {
    h.(handles := map c | c in h.handles ::
         if c in h.live && topic in h.handles[c].topics
         then h.handles[c].(topics := h.handles[c].topics - {gone})
         else h.handles[c])
  }

  function UnfollowAll(h: HubState, outs: seq<Outgoing>): HubState {
    if outs == [] then h
    else
      var before, out := UnfollowAll(h, outs[..|outs| - 1]), outs[|outs| - 1];
      if out.unsubscribe.None? then before else Unfollow(before, out.topic, out.unsubscribe.value)
  }

  function Publish(o: Options, s: Sys, outs: seq<Outgoing>): Sys
    requires Known(s, s.world.live)
  {
    var recorded := s.(world := RecordAll(s.world, outs));
    RecordAllKeeps(s.world, outs);
    var delivered := Deliver(o, recorded, Stamped(s.world.seqNo, outs), None);
    delivered.(world := UnfollowAll(delivered.world, outs))
  }

  lemma RecordAllKeeps(h: HubState, outs: seq<Outgoing>)
    ensures var r := RecordAll(h, outs);
            && r.handles == h.handles && r.live == h.live && r.epoch == h.epoch
            && r.nextConnectionId == h.nextConnectionId && r.seqNo == h.seqNo + |outs|
            && r.log == h.log + Stamped(h.seqNo, outs)
  {
    if outs != [] {
      RecordAllKeeps(h, outs[..|outs| - 1]);
    }
  }

  // --- hello and resume -------------------------------------------------------------------------

  predicate CanResume(h: HubState, resume: Option<Token>) {
    var oldest := if h.ring != [] then h.ring[0].seqNo else h.seqNo + 1;
    resume.Some? && resume.value.epoch == h.epoch && resume.value.seqNo <= h.seqNo && resume.value.seqNo >= oldest - 1
  }

  predicate IsPlain(e: SyncEvent) {
    !e.payload.Typing?
  }

  function Missed(o: Options, h: HubState, from: int, topics: set<string>): seq<SyncEvent> {
    ForViewer(o, Filter(h.ring, (e: SyncEvent) => e.seqNo > from && IsPlain(e) && e.topic in topics))
  }

  function SayHello(o: Options, s: Sys, c: nat, resume: Option<Token>, topics: seq<string>): (r: Sys)
    requires c in s.world.handles
    ensures r.world.handles.Keys == s.world.handles.Keys
  {
    var mine := {"user"} + Admitted(o, topics);
    var h := s.world;
    var following := WithConnection(s, c, h.handles[c].(topics := mine));
    if !CanResume(h, resume) then
      Transmit(following, c, Welcome(h.epoch, h.seqNo, false, h.seqNo, o.viewerId))
    else
      var welcomed := Transmit(following, c, Welcome(h.epoch, resume.value.seqNo, true, h.seqNo, o.viewerId));
      var missed := Missed(o, h, resume.value.seqNo, mine);
      if missed == [] then welcomed else Transmit(welcomed, c, Batch(missed))
  }

  // --- frames in --------------------------------------------------------------------------------

  function Receive(o: Options, s: Sys, c: nat, frame: ClientFrame): Sys
    requires c in s.world.handles && Known(s, s.world.live)
  {
    var conn := s.world.handles[c];
    if !conn.open then s
    else
      match frame
      case Hello(resume, topics) => SayHello(o, s, c, resume, topics)
      case Sub(topics) => WithConnection(s, c, conn.(topics := conn.topics + Admitted(o, topics)))
      case Unsub(topics) => WithConnection(s, c, conn.(topics := conn.topics - Droppable(topics)))
      case TypingFrame(conv, on) =>
        if !Admit(o, conv) then s
        else
          var out := Outgoing(conv, Typing(o.viewerId, on), None);
          Deliver(o, s.(world := Record(s.world, out)), [Stamp(s.world.seqNo + 1, out)], Some(c))
      case Present(room) =>
        if o.memberOf(room) then WithConnection(s, c, conn.(present := conn.present + {room})) else s
      case Absent(room) => WithConnection(s, c, conn.(present := conn.present - {room}))
      case Heartbeat => s
  }

  // --- connections ------------------------------------------------------------------------------

  function Connect(s: Sys): Sys {
    var c := s.world.nextConnectionId;
    var conn := Connection(s.timers.clock, {"user"}, {}, None, true, false, []);
    var h := s.world.(handles := s.world.handles[c := conn], live := s.world.live + [c], nextConnectionId := c + 1);
    ArmPing(s.(world := h), c)
  }

  function HangUp(s: Sys, c: nat, bye: bool): (r: Sys)
    requires c in s.world.handles
    ensures r.world.handles.Keys == s.world.handles.Keys
  {
    var told := if bye then Transmit(s, c, Bye(true, "server_restart")) else s;
    var forgotten := Forget(told, c);
    WithConnection(forgotten, c, forgotten.world.handles[c].(hungUp := true))
  }

  function HangUpAll(s: Sys, ids: seq<nat>, bye: bool): (r: Sys)
    requires Known(s, ids)
    ensures r.world.handles.Keys == s.world.handles.Keys
  {
    if ids == [] then s else HangUp(HangUpAll(s, ids[..|ids| - 1], bye), ids[|ids| - 1], bye)
  }

  function DropAll(s: Sys, bye: bool): Sys
    requires Known(s, s.world.live)
  {
    HangUpAll(s, s.world.live, bye)
  }

  function ResyncTo(s: Sys, ids: seq<nat>, why: string): (r: Sys)
    requires Known(s, ids)
    ensures r.world.handles.Keys == s.world.handles.Keys
  {
    if ids == [] then s
    else
      var before, c := ResyncTo(s, ids[..|ids| - 1], why), ids[|ids| - 1];
      Transmit(before, c, Resync(before.world.handles[c].topics, why))
  }

  function Restart(s: Sys, epoch: string): Sys
    requires Known(s, s.world.live)
  {
    var dropped := DropAll(s, true);
    dropped.(world := dropped.world.(epoch := epoch, seqNo := 0, ring := [], log := []))
  }

  function PresentRooms(h: HubState): set<int> {
    set c, room | c in h.live && c in h.handles && room in h.handles[c].present :: room
  }

  function SubscribedRooms(h: HubState): set<int> {
    set c, topic | c in h.live && c in h.handles && topic in h.handles[c].topics && RoomIdOf(topic).Some?
      :: RoomIdOf(topic).value
  }

  // --- runs -------------------------------------------------------------------------------------

  /** Everything the hub, its clients and the other users of its scheduler can do. */
  datatype Call =
    | Connects
    | Receives(conn: nat, frame: ClientFrame)
    | Closes(conn: nat)
    | Publishes(outs: seq<Outgoing>)
    | DropsAll(bye: bool)
    | ResyncsAll(why: string)
    | Restarts(epoch: string)
    | Schedules(delay: int, tag: nat)
    | CancelsForeign(tag: nat)

  function Apply(o: Options, s: Sys, call: Call): Sys
    requires Known(s, s.world.live)
  {
    match call
    case Connects => Connect(s)
    case Receives(c, frame) => if c in s.world.handles then Receive(o, s, c, frame) else s
    case Closes(c) => if c in s.world.handles then Forget(s, c) else s
    case Publishes(outs) => Publish(o, s, outs)
    case DropsAll(bye) => DropAll(s, bye)
    case ResyncsAll(why) => ResyncTo(s, s.world.live, why)
    case Restarts(epoch) => Restart(s, epoch)
    case Schedules(delay, tag) => s.(timers := Scheduled(s.timers, delay, Foreign(tag)))
    case CancelsForeign(tag) =>
      s.(timers := s.timers.(pending := Filter(s.timers.pending, (t: Timer<Action>) => t.action != Foreign(tag))))
  }

  /** What a timer's callback does. A foreign timer's callback shows up as the calls that follow it. */
  function RunTimer(a: Action, s: Sys): Sys {
    match a
    case Foreign(_) => s
    case PingTimer(c) =>
      if c in s.world.handles
      then Transmit(WithConnection(s, c, s.world.handles[c].(pingTimer := None)), c, PingFrame)
      else s
  }

  /** A call; one round of a running `advance`; or the end of one, when nothing more is due. */
  datatype Step = Do(call: Call) | FireDue(until: int) | Settle(until: int)

  predicate Enabled(s: Sys, step: Step) {
    match step
    case Do(_) => true
    case FireDue(until) => NextDue(s.timers.pending, until).Some?
    case Settle(until) => s.timers.clock <= until && NextDue(s.timers.pending, until).None?
  }

  function Next(o: Options, s: Sys, step: Step): Sys
    requires Known(s, s.world.live) && Enabled(s, step)
  {
    match step
    case Do(call) => Apply(o, s, call)
    case FireDue(until) => Fire(RunTimer, s, NextDue(s.timers.pending, until).value)
    case Settle(until) => AtTime(s, until)
  }
}
