/**
 * Read state in the mock server (frontend/mock/server.ts): an append-only timeline per room, the
 * viewer's last read message and unread mark, and what posting, marking read and marking unread do to
 * them. Times are milliseconds.
 */
module ReadState {
  import opened Common

  datatype Involvement = Everything | Mentions | Muted | Nothing

  /** Who or what a message is from. `clientId` is the sender's own id for it when it came in as a send of
      the viewer's. */
  datatype Draft = Draft(fromViewer: bool, systemNote: bool, mentionsViewer: bool, streaming: bool, clientId: Option<string>)

  datatype Message = Message(id: nat, draft: Draft, createdAt: int)

  /** What the viewer's read state depends on of a room's record. */
  datatype Room = Room(
    member: bool,
    updatedAt: int,
    involvement: Involvement,
    messages: seq<Message>,
    unreadAt: Option<int>,
    lastRead: Option<nat>,
    mentionCount: nat)

  datatype Divider = Divider(firstUnread: nat, count: nat)

  // ---------------------------------------------------------------------------------------------
  // Reads
  // ---------------------------------------------------------------------------------------------

  function LastReadOf(r: Room): nat {
    if r.lastRead.Some? then r.lastRead.value else 0
  }

  /** The messages after the last read one that count as something to read. */
  function Backlog(r: Room): seq<Message> {
    var last := LastReadOf(r);
    Filter(r.messages, (m: Message) => m.id > last && !m.draft.systemNote)
  }

  function UnreadMessages(r: Room): seq<Message> {
    if r.unreadAt.None? then [] else Backlog(r)
  }

  function UnreadDivider(r: Room): Option<Divider> {
    var unread := UnreadMessages(r);
    if unread == [] then None else Some(Divider(unread[0].id, |unread|))
  }

  // ---------------------------------------------------------------------------------------------
  // Writes
  // ---------------------------------------------------------------------------------------------

  function MarkReadUpTo(r: Room, id: Option<nat>): Room {
    r.(unreadAt := None, lastRead := id, mentionCount := 0)
  }

  /** The message `createMessage` makes: later than anything in the room, whatever the clock says. */
  function NewMessage(r: Room, draft: Draft, id: nat, now: int): Message {
    Message(id, draft, Max(now, r.updatedAt + 1))
  }

  /** Whether a message is too quiet to mark the room unread. */
  predicate Quiet(r: Room, draft: Draft) {
    r.involvement == Muted && !draft.mentionsViewer
  }

  function Post(r: Room, draft: Draft, id: nat, now: int, viewing: bool): Room {
    var m := NewMessage(r, draft, id, now);
    var posted := r.(messages := r.messages + [m], updatedAt := m.createdAt);
    if draft.fromViewer then MarkReadUpTo(posted, Some(id))
    else if draft.systemNote then posted
    else if viewing && r.unreadAt.None? then MarkReadUpTo(posted, Some(id))
    else if !viewing && !Quiet(r, draft) then
      posted.(unreadAt := if r.unreadAt.None? then Some(m.createdAt) else r.unreadAt,
              mentionCount := if draft.mentionsViewer then r.mentionCount + 1 else r.mentionCount)
    else posted
  }

  function MarkRead(r: Room): Room {
    MarkReadUpTo(r, if r.messages == [] then None else Some(r.messages[|r.messages| - 1].id))
  }

  function IndexOf(messages: seq<Message>, id: int): (i: Option<nat>)
    ensures i.Some? ==> i.value < |messages| && messages[i.value].id == id
    ensures i.None? ==> forall m | m in messages :: m.id != id
  {
    if messages == [] then None
    else if messages[0].id == id then Some(0)
    else
      var rest := IndexOf(messages[1..], id);
      if rest.None? then None else Some(rest.value + 1)
  }

  function MarkUnreadAt(r: Room, i: nat): Room
    requires i < |r.messages|
  {
    r.(unreadAt := Some(r.messages[i].createdAt), lastRead := if i == 0 then None else Some(r.messages[i - 1].id))
  }

  // ---------------------------------------------------------------------------------------------
  // The invariant
  // ---------------------------------------------------------------------------------------------

  /** Ascending both by id and by time. */
  ghost predicate Ascending(messages: seq<Message>) {
    forall i, j | 0 <= i < j < |messages| ::
      messages[i].id < messages[j].id && messages[i].createdAt < messages[j].createdAt
  }

  /** `nextId` is the next id the server hands out. */
  ghost predicate RoomOk(r: Room, nextId: nat) {
    && Ascending(r.messages)
    && (forall m | m in r.messages :: 0 < m.id < nextId && m.createdAt <= r.updatedAt)
    && (r.unreadAt.None? ==> r.mentionCount == 0)
    && LastReadOf(r) < nextId
  }

  lemma PostKeeps(r: Room, draft: Draft, nextId: nat, now: int, viewing: bool)
    requires RoomOk(r, nextId) && nextId > 0
    ensures RoomOk(Post(r, draft, nextId, now, viewing), nextId + 1)
    ensures Post(r, draft, nextId, now, viewing).messages == r.messages + [NewMessage(r, draft, nextId, now)]
  {
    AppendAscending(r.messages, NewMessage(r, draft, nextId, now));
  }

  lemma AppendAscending(messages: seq<Message>, m: Message)
    requires Ascending(messages) && forall old' | old' in messages :: old'.id < m.id && old'.createdAt < m.createdAt
    ensures Ascending(messages + [m])
  {
    forall i | 0 <= i < |messages| ensures messages[i] in messages {
    }
  }

  lemma MarkReadKeeps(r: Room, nextId: nat)
    requires RoomOk(r, nextId) && nextId > 0
    ensures RoomOk(MarkRead(r), nextId) && MarkRead(r).messages == r.messages
  {
    if r.messages != [] { assert r.messages[|r.messages| - 1] in r.messages; }
  }

  lemma MarkUnreadKeeps(r: Room, nextId: nat, i: nat)
    requires RoomOk(r, nextId) && nextId > 0 && i < |r.messages|
    ensures RoomOk(MarkUnreadAt(r, i), nextId) && MarkUnreadAt(r, i).messages == r.messages
  {
    if i > 0 { assert r.messages[i - 1] in r.messages; }
  }

  // ---------------------------------------------------------------------------------------------
  // What marking and posting mean for the divider
  // ---------------------------------------------------------------------------------------------

  function NonSystem(messages: seq<Message>): seq<Message> {
    Filter(messages, (m: Message) => !m.draft.systemNote)
  }

  lemma BeforeAndAfter(r: Room, nextId: nat, i: nat)
    requires RoomOk(r, nextId) && i <= |r.messages|
    ensures forall m | m in r.messages[..i] :: m.id <= r.messages[i - 1].id
    ensures forall m | m in r.messages[i..] :: m.id > if i == 0 then 0 else r.messages[i - 1].id
  {
    var early, late := r.messages[..i], r.messages[i..];
    forall m | m in early ensures m.id <= r.messages[i - 1].id {
      var j :| 0 <= j < |early| && early[j] == m;
      assert r.messages[j] == m;
    }
    forall m | m in late ensures m.id > if i == 0 then 0 else r.messages[i - 1].id {
      var j :| 0 <= j < |late| && late[j] == m;
      assert r.messages[i + j] == m && m in r.messages;
    }
  }

  /** With the timeline ascending, the backlog after the message before `i` is everything from `i` on. */
  lemma BacklogFrom(r: Room, nextId: nat, i: nat)
    requires RoomOk(r, nextId) && i <= |r.messages|
    requires LastReadOf(r) == if i == 0 then 0 else r.messages[i - 1].id
    ensures Backlog(r) == NonSystem(r.messages[i..])
  {
    var last := LastReadOf(r);
    var keep := (m: Message) => m.id > last && !m.draft.systemNote;
    hide Filter, RoomOk;
    var early, late := r.messages[..i], r.messages[i..];
    assert r.messages == early + late;
    BeforeAndAfter(r, nextId, i);
    FilterConcat(early, late, keep);
    FilterAllOrNone(early, keep);
    SameFilter(late, keep, (m: Message) => !m.draft.systemNote);
    assert [] + NonSystem(late) == NonSystem(late);
  }

  lemma {:induction false} SameFilter(messages: seq<Message>, f: Message -> bool, g: Message -> bool)
    requires forall m | m in messages :: f(m) == g(m)
    ensures Filter(messages, f) == Filter(messages, g)
  {
    if messages != [] {
      assert messages[|messages| - 1] in messages;
      SameFilter(messages[..|messages| - 1], f, g);
    }
  }

  /** Marking unread at a message makes the unread messages exactly the non-system ones from it on; the
      message itself is the divider exactly when it is not a system note. */
  lemma MarkUnreadDivider(r: Room, nextId: nat, i: nat)
    requires RoomOk(r, nextId) && nextId > 0 && i < |r.messages|
    ensures var u := MarkUnreadAt(r, i);
            var rest := NonSystem(r.messages[i..]);
            && UnreadMessages(u) == rest
            && (UnreadDivider(u) == Some(Divider(r.messages[i].id, |rest|)) <==> !r.messages[i].draft.systemNote)
            && (UnreadDivider(u).None? <==> forall m | m in r.messages[i..] :: m.draft.systemNote)
  {
    hide Filter, NonSystem;
    var u := MarkUnreadAt(r, i);
    MarkUnreadKeeps(r, nextId, i);
    BacklogFrom(u, nextId, i);
    var rest, tail := NonSystem(r.messages[i..]), r.messages[i..];
    NonSystemFirst(tail);
    if rest != [] {
      assert rest[0] in rest && rest[0] in tail;
      var j :| 0 <= j < |tail| && tail[j] == rest[0];
      assert r.messages[i + j] == rest[0];
    }
  }

  /** A room whose only message is a system note: marked unread there, the server answers with the note as
      the first unread message, and there is no divider. */
  lemma NoteHasNoDivider()
    ensures var note := Message(1, Draft(false, true, false, false, None), 5);
            var r := Room(true, 5, Everything, [note], None, None, 0);
            RoomOk(r, 2) && MarkUnreadAt(r, 0).unreadAt.Some? && UnreadDivider(MarkUnreadAt(r, 0)).None?
  {
    var note := Message(1, Draft(false, true, false, false, None), 5);
    MarkUnreadDivider(Room(true, 5, Everything, [note], None, None, 0), 2, 0);
  }

  lemma {:induction false} NonSystemFirst(messages: seq<Message>)
    requires messages != []
    ensures !messages[0].draft.systemNote ==> NonSystem(messages) != [] && NonSystem(messages)[0] == messages[0]
    ensures NonSystem(messages) == [] <==> forall m | m in messages :: m.draft.systemNote
    ensures messages[0].draft.systemNote ==> messages[0] !in NonSystem(messages)
  {
    if |messages| > 1 {
      NonSystemFirst(messages[..|messages| - 1]);
      assert messages == messages[..|messages| - 1] + [messages[|messages| - 1]];
    } else {
      assert messages[..0] == [];
    }
  }

  /** Marking read leaves nothing to read, and nothing counts as backlog. */
  lemma MarkReadClears(r: Room, nextId: nat)
    requires RoomOk(r, nextId) && nextId > 0
    ensures UnreadDivider(MarkRead(r)).None? && Backlog(MarkRead(r)) == [] && MarkRead(r).mentionCount == 0
  {
    MarkReadKeeps(r, nextId);
    BacklogFrom(MarkRead(r), nextId, |r.messages|);
    assert r.messages[|r.messages|..] == [];
  }

  /** A message that arrives in a room the viewer has read and is looking at is read on arrival. */
  lemma ReadAndPresentStaysRead(r: Room, draft: Draft, nextId: nat, now: int)
    requires RoomOk(r, nextId) && nextId > 0 && r.unreadAt.None?
    ensures var p := Post(r, draft, nextId, now, true);
            && p.unreadAt.None? && p.mentionCount == 0 && UnreadDivider(p).None?
            && (!draft.systemNote ==> p.lastRead == Some(nextId) && Backlog(p) == [])
  {
    PostKeeps(r, draft, nextId, now, true);
    var p := Post(r, draft, nextId, now, true);
    if !draft.systemNote {
      assert p.messages[|r.messages|].id == nextId;
      BacklogFrom(p, nextId + 1, |p.messages|);
      assert p.messages[|p.messages|..] == [];
    }
  }

  /** The viewer's own message reads everything up to it. */
  lemma OwnPostReads(r: Room, draft: Draft, nextId: nat, now: int, viewing: bool)
    requires RoomOk(r, nextId) && nextId > 0 && draft.fromViewer
    ensures var p := Post(r, draft, nextId, now, viewing);
            p.unreadAt.None? && p.lastRead == Some(nextId) && p.mentionCount == 0 && Backlog(p) == []
  {
    PostKeeps(r, draft, nextId, now, viewing);
    var p := Post(r, draft, nextId, now, viewing);
    assert p.messages[|r.messages|].id == nextId;
    BacklogFrom(p, nextId + 1, |p.messages|);
    assert p.messages[|p.messages|..] == [];
  }

  /** Someone else's message adds itself to the backlog unless it is read on arrival. */
  lemma PostGrowsBacklog(r: Room, draft: Draft, nextId: nat, now: int, viewing: bool)
    requires RoomOk(r, nextId) && nextId > 0 && !draft.fromViewer
    requires !draft.systemNote && viewing ==> r.unreadAt.Some?
    ensures var p := Post(r, draft, nextId, now, viewing);
            Backlog(p) == Backlog(r) + if draft.systemNote then [] else [NewMessage(r, draft, nextId, now)]
  {
    var p, m := Post(r, draft, nextId, now, viewing), NewMessage(r, draft, nextId, now);
    assert p.messages == r.messages + [m] && LastReadOf(p) == LastReadOf(r);
    var last := LastReadOf(r);
    FilterConcat(r.messages, [m], (m: Message) => m.id > last && !m.draft.systemNote);
    FilterAllOrNone([m], (m: Message) => m.id > last && !m.draft.systemNote);
  }

  /** While a room stays unread its divider stays put and its count grows by one a message. */
  lemma DividerStays(r: Room, draft: Draft, nextId: nat, now: int, viewing: bool)
    requires RoomOk(r, nextId) && nextId > 0 && !draft.fromViewer && UnreadDivider(r).Some?
    ensures var d := UnreadDivider(r).value;
            UnreadDivider(Post(r, draft, nextId, now, viewing)) ==
            Some(Divider(d.firstUnread, if draft.systemNote then d.count else d.count + 1))
  {
    hide Backlog, RoomOk, NewMessage;
    PostGrowsBacklog(r, draft, nextId, now, viewing);
  }

  /** When a message turns a read room unread, the divider is that message exactly when nothing was left
      in the backlog; messages too quiet to mark the room are otherwise counted along with it. */
  lemma UnreadStartsHere(r: Room, draft: Draft, nextId: nat, now: int)
    requires RoomOk(r, nextId) && nextId > 0 && r.unreadAt.None?
    requires !draft.fromViewer && !draft.systemNote && (r.involvement != Muted || draft.mentionsViewer)
    ensures var p := Post(r, draft, nextId, now, false);
            && p.unreadAt == Some(NewMessage(r, draft, nextId, now).createdAt)
            && UnreadDivider(p).Some? && UnreadDivider(p).value.count == |Backlog(r)| + 1
            && (UnreadDivider(p).value.firstUnread == nextId <==> Backlog(r) == [])
  {
    PostGrowsBacklog(r, draft, nextId, now, false);
    if Backlog(r) != [] {
      assert Backlog(r)[0] in Backlog(r) && Backlog(r)[0] in r.messages;
    }
  }

  lemma EmptyBacklog()
    ensures Backlog(Room(true, 0, Muted, [], None, None, 0)) == []
  {
  }

  lemma ShortTimelines(m: Message)
    ensures Ascending([]) && Ascending([m])
  {
  }

  /** What someone else's message does to a room nobody looks at: a read room becomes unread exactly when it is
      not muted or the message mentions the viewer, an unread one stays so, and the mentions grow by one
      exactly when such a message mentions the viewer. */
  lemma UnreadExactly(r: Room, draft: Draft, nextId: nat, now: int)
    requires !draft.fromViewer && !draft.systemNote
    ensures var p := Post(r, draft, nextId, now, false);
            && (p.unreadAt.Some? <==> r.unreadAt.Some? || r.involvement != Muted || draft.mentionsViewer)
            && (r.unreadAt.Some? ==> p.unreadAt == r.unreadAt)
            && (r.unreadAt.None? && p.unreadAt.Some? ==> p.unreadAt.value == p.messages[|p.messages| - 1].createdAt)
            && p.mentionCount == r.mentionCount + (if draft.mentionsViewer then 1 else 0)
            && p.lastRead == r.lastRead
  {
  }

  /** And to a room someone looks at: a read one is read up to it, an unread one keeps its mark and its
      mentions; a system note changes neither anywhere. */
  lemma LookedAtExactly(r: Room, draft: Draft, nextId: nat, now: int, viewing: bool)
    requires !draft.fromViewer && (draft.systemNote || viewing)
    ensures var p := Post(r, draft, nextId, now, viewing);
            if !draft.systemNote && r.unreadAt.None?
            then p.unreadAt.None? && p.lastRead == Some(nextId) && p.mentionCount == 0
            else p.unreadAt == r.unreadAt && p.lastRead == r.lastRead && p.mentionCount == r.mentionCount
  {
  }

  /** A message is timed by the clock, but always after the room's last change, and the room changes with it. */
  lemma TimedAfter(r: Room, draft: Draft, nextId: nat, now: int, viewing: bool)
    ensures var p := Post(r, draft, nextId, now, viewing);
            && p.messages == r.messages + [Message(nextId, draft, p.updatedAt)]
            && p.updatedAt > r.updatedAt && p.updatedAt >= now && (p.updatedAt == now || p.updatedAt == r.updatedAt + 1)
            && p.member == r.member && p.involvement == r.involvement
  {
  }

  /** A room where that backlog is not empty: a muted room after a message without a mention. */
  lemma QuietMessageIsCounted()
    ensures var empty := Room(true, 0, Muted, [], None, None, 0);
            var quiet := Post(empty, Draft(false, false, false, false, None), 1, 5, false);
            var loud := Post(quiet, Draft(false, false, true, false, None), 2, 6, false);
            && RoomOk(empty, 1) && quiet.unreadAt.None?
            && loud.unreadAt == Some(6) && UnreadDivider(loud) == Some(Divider(1, 2))
  {
    hide Filter, Backlog, Ascending;
    EmptyBacklog();
    var empty := Room(true, 0, Muted, [], None, None, 0);
    var first, second := Message(1, Draft(false, false, false, false, None), 5), Message(2, Draft(false, false, true, false, None), 6);
    var quiet := Post(empty, Draft(false, false, false, false, None), 1, 5, false);
    assert quiet == Room(true, 5, Muted, [first], None, None, 0);
    var loud := Post(quiet, Draft(false, false, true, false, None), 2, 6, false);
    assert loud == Room(true, 6, Muted, [first, second], Some(6), None, 1);
    assert RoomOk(empty, 1) && RoomOk(quiet, 2) by { ShortTimelines(first); }
    PostGrowsBacklog(empty, Draft(false, false, false, false, None), 1, 5, false);
    assert Backlog(quiet) == [first];
    PostGrowsBacklog(quiet, Draft(false, false, true, false, None), 2, 6, false);
    assert Backlog(loud) == [first, second];
  }

  // ---------------------------------------------------------------------------------------------
  // The server's world
  // ---------------------------------------------------------------------------------------------

  datatype State = State(rooms: map<nat, Room>, nextMessageId: nat)

  datatype Step =
    | Posts(room: nat, draft: Draft, now: int, present: set<int>)
    | MarksRead(room: nat)
    | MarksUnread(room: nat, message: int)
    | Belongs(room: nat, member: bool)

  /** A step on a room or message that is not there changes nothing, and only members mark. */
  function Next(s: State, step: Step): State {
    if step.room !in s.rooms then s
    else
      var r := s.rooms[step.room];
      match step
      case Posts(room, draft, now, present) =>
        State(s.rooms[room := Post(r, draft, s.nextMessageId, now, room in present)], s.nextMessageId + 1)
      case MarksRead(room) => if r.member then s.(rooms := s.rooms[room := MarkRead(r)]) else s
      case Belongs(room, member) => s.(rooms := s.rooms[room := r.(member := member)])
      case MarksUnread(room, message) =>
        var i := IndexOf(r.messages, message);
        if i.None? || !r.member then s else s.(rooms := s.rooms[room := MarkUnreadAt(r, i.value)])
  }

  /** The room is as it was but for what the viewer has read, from and up to where, and their mentions. */
  ghost predicate ReadFrom(r: Room, after: Room, unreadAt: Option<int>, lastRead: Option<nat>, mentionCount: nat) {
    && after.messages == r.messages && after.member == r.member && after.involvement == r.involvement && after.updatedAt == r.updatedAt
    && after.unreadAt == unreadAt && after.lastRead == lastRead && after.mentionCount == mentionCount
  }

  /** Marking a member's room read takes it to its newest message; nothing else and no other room changes. */
  lemma MarkReadExactly(s: State, room: nat, other: nat)
    requires other in s.rooms
    ensures var r, v, was := Next(s, MarksRead(room)), Next(s, MarksRead(room)).rooms, s.rooms[other];
            && r.nextMessageId == s.nextMessageId && v.Keys == s.rooms.Keys
            && (other != room || !was.member ==> v[other] == was)
            && (other == room && was.member ==>
                  ReadFrom(was, v[other], None, if was.messages == [] then None else Some(was.messages[|was.messages| - 1].id), 0))
  {
  }

  /** Marking it unread at its `i`-th message takes it to just before that one and keeps its mentions; at a
      message that is not there it changes nothing. */
  lemma MarkUnreadExactly(s: State, room: nat, message: int, other: nat, i: nat)
    requires other in s.rooms && RoomOk(s.rooms[other], s.nextMessageId)
    ensures var r, v, was := Next(s, MarksUnread(room, message)), Next(s, MarksUnread(room, message)).rooms, s.rooms[other];
            && r.nextMessageId == s.nextMessageId && v.Keys == s.rooms.Keys
            && (other != room || !was.member || (forall m | m in was.messages :: m.id != message) ==> v[other] == was)
            && (other == room && was.member && i < |was.messages| && was.messages[i].id == message ==>
                  ReadFrom(was, v[other], Some(was.messages[i].createdAt), if i == 0 then None else Some(was.messages[i - 1].id), was.mentionCount))
  {
    hide IndexOf;
    if i < |s.rooms[other].messages| { IndexOfId(s.rooms[other].messages, message, i); }
  }

  lemma IndexOfId(messages: seq<Message>, id: int, i: nat)
    requires Ascending(messages) && i < |messages|
    ensures messages[i].id == id ==> IndexOf(messages, id) == Some(i)
  {
    hide IndexOf;
    assert messages[i] in messages;
  }

  function Run(s: State, steps: seq<Step>): State {
    if steps == [] then s else Next(Run(s, steps[..|steps| - 1]), steps[|steps| - 1])
  }

  ghost predicate Inv(s: State) {
    s.nextMessageId > 0 && forall room | room in s.rooms :: RoomOk(s.rooms[room], s.nextMessageId)
  }

  lemma OkLater(r: Room, nextId: nat)
    requires RoomOk(r, nextId)
    ensures RoomOk(r, nextId + 1)
  {
  }

  lemma BelongsKeeps(r: Room, nextId: nat, member: bool)
    requires RoomOk(r, nextId)
    ensures RoomOk(r.(member := member), nextId)
  {
  }

  lemma NextKeeps(s: State, step: Step)
    requires Inv(s)
    ensures Inv(Next(s, step))
    ensures forall room | room in s.rooms :: room in Next(s, step).rooms && s.rooms[room].messages <= Next(s, step).rooms[room].messages
  {
    hide RoomOk, Post, MarkRead, MarkUnreadAt, IndexOf;
    forall room | room in s.rooms ensures RoomOk(s.rooms[room], s.nextMessageId + 1) {
      OkLater(s.rooms[room], s.nextMessageId);
    }
    if step.room in s.rooms {
      var r := s.rooms[step.room];
      match step
      case Posts(room, draft, now, present) => PostKeeps(r, draft, s.nextMessageId, now, room in present);
      case MarksRead(room) => MarkReadKeeps(r, s.nextMessageId);
      case Belongs(room, member) => BelongsKeeps(r, s.nextMessageId, member);
      case MarksUnread(room, message) =>
        var i := IndexOf(r.messages, message);
        if i.Some? { MarkUnreadKeeps(r, s.nextMessageId, i.value); }
    }
  }

  /** However the viewer and others post and mark, and whatever the clock does, every timeline only
      grows and stays ascending in both id and time, and a read room has no mentions. */
  lemma {:induction false} RunKeeps(s: State, steps: seq<Step>)
    requires Inv(s)
    ensures Inv(Run(s, steps))
    ensures forall room | room in s.rooms :: room in Run(s, steps).rooms && s.rooms[room].messages <= Run(s, steps).rooms[room].messages
  {
    if steps != [] {
      hide Next, RoomOk;
      RunKeeps(s, steps[..|steps| - 1]);
      NextKeeps(Run(s, steps[..|steps| - 1]), steps[|steps| - 1]);
    }
  }

  /** The server's answer to `markUnread`. */
  datatype ReadAnswer = ReadAnswer(room: nat, unread: bool, firstUnread: Option<nat>, unreadCount: nat)

  class World {
    var rooms: map<nat, Room>
    var nextMessageId: nat

    ghost function Now(): State
      reads this
    {
      State(rooms, nextMessageId)
    }

    constructor (s: State)
      ensures Now() == s
    {
      rooms, nextMessageId := s.rooms, s.nextMessageId;
    }

    /** `createMessage`, with the rooms some connection is looking at. */
    method CreateMessage(room: nat, draft: Draft, now: int, present: set<int>) returns (message: Message)
      requires Inv(Now()) && room in rooms
      modifies this
      ensures Now() == Next(old(Now()), Posts(room, draft, now, present)) && Inv(Now())
      ensures message == NewMessage(old(rooms)[room], draft, old(nextMessageId), now)
      ensures rooms[room].messages == old(rooms)[room].messages + [message]
    {
      hide RoomOk, Ascending;
      NextKeeps(Now(), Posts(room, draft, now, present));
      var r := rooms[room];
      var createdAt := Max(now, r.updatedAt + 1);
      message := Message(nextMessageId, draft, createdAt);
      nextMessageId := nextMessageId + 1;
      r := r.(messages := r.messages + [message]);
      r := r.(updatedAt := createdAt);
      if draft.fromViewer {
        r := MarkReadUpTo(r, Some(message.id));
      } else if !draft.systemNote {
        var quiet := r.involvement == Muted && !draft.mentionsViewer;
        var viewing := room in present;
        if viewing && r.unreadAt.None? {
          r := MarkReadUpTo(r, Some(message.id));
        } else if !viewing && !quiet {
          if r.unreadAt.None? {
            r := r.(unreadAt := Some(createdAt));
          }
          if draft.mentionsViewer {
            r := r.(mentionCount := r.mentionCount + 1);
          }
        }
      }
      rooms := rooms[room := r];
    }

    method MarkRoomRead(room: nat) returns (answer: Option<ReadAnswer>)
      requires Inv(Now())
      modifies this
      ensures Now() == Next(old(Now()), MarksRead(room)) && Inv(Now())
      ensures answer.Some? <==> room in rooms && rooms[room].member
      ensures answer.Some? ==> answer.value == ReadAnswer(room, false, None, 0) && UnreadDivider(rooms[room]).None?
    {
      NextKeeps(Now(), MarksRead(room));
      if room !in rooms || !rooms[room].member {
        return None;
      }
      MarkReadClears(rooms[room], nextMessageId);
      var r := rooms[room];
      rooms := rooms[room := MarkReadUpTo(r, if |r.messages| == 0 then None else Some(r.messages[|r.messages| - 1].id))];
      answer := Some(ReadAnswer(room, false, None, 0));
    }

    /** `markUnread`: the answer names the message itself, and counts what there is to read from it on. */
    method MarkRoomUnread(room: nat, messageId: int) returns (answer: Option<ReadAnswer>)
      requires Inv(Now())
      modifies this
      ensures Now() == Next(old(Now()), MarksUnread(room, messageId)) && Inv(Now())
      ensures answer.Some? <==> room in rooms && rooms[room].member && exists m | m in rooms[room].messages :: m.id == messageId
      ensures answer.Some? ==>
                && answer.value.unread && answer.value.firstUnread == Some(messageId)
                && answer.value.unreadCount == |UnreadMessages(rooms[room])|
    {
      NextKeeps(Now(), MarksUnread(room, messageId));
      if room !in rooms || !rooms[room].member {
        return None;
      }
      var r := rooms[room];
      var index := IndexOf(r.messages, messageId);
      if index.None? {
        return None;
      }
      var message := r.messages[index.value];
      assert message in r.messages;
      r := r.(unreadAt := Some(message.createdAt), lastRead := if index.value == 0 then None else Some(r.messages[index.value - 1].id));
      rooms := rooms[room := r];
      answer := Some(ReadAnswer(room, true, Some(message.id), |UnreadMessages(r)|));
    }
  }
}
