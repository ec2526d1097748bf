/**
 * The world the mock starts from (frontend/mock/seed.ts): timestamps drawn backwards from now, all
 * rooms' drafts put in order, ids handed out per room, and the viewer's place in each room. It
 * satisfies the invariant of `ReadState`.
 */
module Seed {
  import opened Common
  import opened ReadState

  const MINUTE := 60_000
  const HOUR := 60 * MINUTE
  const DAY := 24 * HOUR
  const MESSAGE_ID_BLOCK := 10_000
  const FIRST_LIVE_MESSAGE_ID := 1_000_000

  // ---------------------------------------------------------------------------------------------
  // Times
  // ---------------------------------------------------------------------------------------------

  /** UTC hours 3 to 12. */
  predicate IsNight(ms: int) {
    3 <= ms % DAY / HOUR < 12
  }

  /** What the random source gives one message: the gap before it, and an hour of the evening. */
  datatype Draw = Draw(gap: int, hour: int, minute: int, second: int)

  predicate InRange(d: Draw) {
    && (15_000 <= d.gap <= 4 * MINUTE || 25 * MINUTE <= d.gap <= 5 * HOUR)
    && 0 <= d.hour <= 2 && 0 <= d.minute <= 59 && 0 <= d.second <= 59
  }

  /** `setUTCHours(hour, minute, second, 0)`. */
  function Evening(ms: int, d: Draw): int {
    ms / DAY * DAY + d.hour * HOUR + d.minute * MINUTE + d.second * 1000
  }

  function Before(at: int, d: Draw): int {
    var back := at - d.gap;
    if IsNight(back) then Evening(back, d) else back
  }

  /** Where one message further back lies: the gap before, or where that is at night the drawn time of that
      day's first hours. */
  lemma BeforeExactly(at: int, d: Draw, day: int, into: int)
    requires at - d.gap == day * 86_400_000 + into && 0 <= into < 86_400_000
    ensures Before(at, d) == if 10_800_000 <= into < 43_200_000
                             then day * 86_400_000 + d.hour * 3_600_000 + d.minute * 60_000 + d.second * 1000 else at - d.gap
  {
    Remainder(day, into);
    assert (at - d.gap) / DAY == day;
  }

  /** One message further back is strictly earlier, and by day. */
  lemma BeforeIsEarlier(at: int, d: Draw)
    requires InRange(d)
    ensures Before(at, d) < at && !IsNight(Before(at, d))
  {
    var back := at - d.gap;
    if IsNight(back) {
      var into := d.hour * HOUR + d.minute * MINUTE + d.second * 1000;
      assert 0 <= into < 3 * HOUR;
      hide IsNight;
      IntoTheDay(back, into);
      NightFrom(back);
    }
  }

  /** A time of day put on a day. */
  lemma IntoTheDay(ms: int, into: int)
    requires 0 <= into < 3 * HOUR
    ensures (ms / DAY * DAY + into) % DAY == into && !IsNight(ms / DAY * DAY + into)
    ensures ms == ms / DAY * DAY + ms % DAY
  {
    Remainder(ms / DAY, into);
  }

  lemma Remainder(q: int, r: int)
    requires 0 <= r < DAY
    ensures (q * DAY + r) % DAY == r
  {
  }

  lemma NightFrom(ms: int)
    requires IsNight(ms)
    ensures ms % DAY >= 3 * HOUR
  {
  }

  /** The times of a room's messages, the newest at `at`. */
  function Times(at: int, draws: seq<Draw>): (times: seq<int>)
    ensures |times| == |draws|
    decreases |draws|
  {
    if draws == [] then [] else Times(Before(at, draws[0]), draws[1..]) + [at]
  }

  /** They strictly ascend, and none is at night except perhaps the newest. */
  lemma {:induction false} TimesClimb(at: int, draws: seq<Draw>)
    requires forall d | d in draws :: InRange(d)
    ensures var times := Times(at, draws);
            && |times| == |draws| && Climbing(times) && (forall t | t in times :: t <= at)
            && (forall i | 0 <= i < |times| - 1 :: !IsNight(times[i]))
            && (draws != [] ==> times[|times| - 1] == at)
    decreases |draws|
  {
    if draws != [] {
      hide IsNight, Before;
      assert draws[0] in draws && forall d | d in draws[1..] :: d in draws;
      BeforeIsEarlier(at, draws[0]);
      TimesClimb(Before(at, draws[0]), draws[1..]);
      var rest := Times(Before(at, draws[0]), draws[1..]);
      forall i | 0 <= i < |rest| ensures rest[i] < at && !IsNight(rest[i]) {
        assert rest[i] in rest;
      }
    }
  }

  /** A room has a message at night exactly when its newest is. */
  lemma NightExactly(at: int, draws: seq<Draw>)
    requires forall d | d in draws :: InRange(d)
    ensures (exists t | t in Times(at, draws) :: IsNight(t)) <==> draws != [] && IsNight(at)
  {
    hide IsNight;
    TimesClimb(at, draws);
    var times := Times(at, draws);
    if draws != [] { assert times[|times| - 1] in times; }
  }

  /** `messageTimes`: one time per draw, the last one `lastAgoMs` before now. */
  method MessageTimes(now: int, lastAgoMs: int, draws: seq<Draw>) returns (times: seq<int>)
    requires forall d | d in draws :: InRange(d)
    ensures times == Times(now - lastAgoMs, draws)
    ensures |times| == |draws| && Climbing(times)
    ensures |times| > 0 ==> times[|times| - 1] == now - lastAgoMs
    ensures forall i | 0 <= i < |times| - 1 :: !IsNight(times[i])
    ensures (exists t | t in times :: IsNight(t)) <==> |times| > 0 && IsNight(now - lastAgoMs)
  {
    hide IsNight, Before;
    times := [];
    var at := now - lastAgoMs;
    for i := 0 to |draws|
      invariant Times(now - lastAgoMs, draws) == Times(at, draws[i..]) + times
    {
      // The source pushes newest first and reverses at the end.
      assert draws[i..][0] == draws[i] && draws[i..][1..] == draws[i + 1..];
      times := [at] + times;
      at := Before(at, draws[i]);
    }
    assert [] + times == times;
    TimesClimb(now - lastAgoMs, draws);
    NightExactly(now - lastAgoMs, draws);
  }

  /** A room seeded at five in the morning with a message of that moment has one at night, whatever is
      drawn; seeded at three in the afternoon it has none. */
  lemma NewestAtNight(draws: seq<Draw>)
    requires draws != [] && forall d | d in draws :: InRange(d)
    ensures exists t | t in Times(5 * HOUR, draws) :: IsNight(t)
    ensures forall t | t in Times(15 * HOUR, draws) :: !IsNight(t)
  {
    NightExactly(5 * HOUR, draws);
    NightExactly(15 * HOUR, draws);
  }

  // ---------------------------------------------------------------------------------------------
  // Putting all rooms' drafts in order
  // ---------------------------------------------------------------------------------------------

  datatype SeedDraft = SeedDraft(room: int, fromViewer: bool, mentionsViewer: bool, createdAt: int)

  /** The sort's comparison: by time, then by room. */
  predicate InOrder(a: SeedDraft, b: SeedDraft) {
    a.createdAt < b.createdAt || (a.createdAt == b.createdAt && a.room <= b.room)
  }

  ghost predicate Sorted(drafts: seq<SeedDraft>) {
    forall i, j | 0 <= i < j < |drafts| :: InOrder(drafts[i], drafts[j])
  }

  lemma InsertSorted(d: SeedDraft, drafts: seq<SeedDraft>)
    requires Sorted(drafts)
    ensures Sorted(Insert(d, drafts, InOrder)) && multiset(Insert(d, drafts, InOrder)) == multiset(drafts) + multiset{d}
  {
    InsertKeepsOrder(d, drafts, InOrder);
  }

  method SortDrafts(drafts: seq<SeedDraft>) returns (sorted: seq<SeedDraft>)
    ensures Sorted(sorted) && multiset(sorted) == multiset(drafts)
  {
    sorted := [];
    for i := 0 to |drafts|
      invariant Sorted(sorted) && multiset(sorted) == multiset(drafts[..i])
    {
      assert drafts[..i + 1] == drafts[..i] + [drafts[i]];
      InsertSorted(drafts[i], sorted);
      sorted := Insert(drafts[i], sorted, InOrder);
    }
    assert drafts[..|drafts|] == drafts;
  }

  function OfRoom(drafts: seq<SeedDraft>, room: int): seq<SeedDraft> {
    Filter(drafts, (d: SeedDraft) => d.room == room)
  }

  ghost predicate Rising(drafts: seq<SeedDraft>) {
    forall i, j | 0 <= i < j < |drafts| :: drafts[i].createdAt < drafts[j].createdAt
  }

  lemma {:induction false} FilterMultiset(drafts: seq<SeedDraft>, room: int, d: SeedDraft)
    ensures multiset(OfRoom(drafts, room))[d] == if d.room == room then multiset(drafts)[d] else 0
  {
    if drafts != [] {
      FilterMultiset(drafts[..|drafts| - 1], room, d);
      assert drafts == drafts[..|drafts| - 1] + [drafts[|drafts| - 1]];
    }
  }

  lemma FilterSorted(drafts: seq<SeedDraft>, room: int)
    requires Sorted(drafts)
    ensures Sorted(OfRoom(drafts, room))
  {
    FilterPairwise(drafts, (d: SeedDraft) => d.room == room, InOrder);
  }

  /** A list with strictly rising times is the only sorted list of its members. */
  lemma {:induction false} RisingUnique(a: seq<SeedDraft>, b: seq<SeedDraft>)
    requires Rising(a) && Sorted(b) && multiset(a) == multiset(b)
    ensures a == b
    decreases |a|
  {
    hide Rising, Sorted;
    SameSize(a, b);
    if a != [] {
      SameLast(a, b);
      DropLast(a);
      DropLast(b);
      FrontsOrdered(a, b);
      RisingUnique(a[..|a| - 1], b[..|b| - 1]);
      assert a == a[..|a| - 1] + [a[|a| - 1]] && b == b[..|b| - 1] + [b[|b| - 1]];
    }
  }

  lemma SameSize(a: seq<SeedDraft>, b: seq<SeedDraft>)
    requires multiset(a) == multiset(b)
    ensures |a| == |b|
  {
    assert |a| == |multiset(a)| && |b| == |multiset(b)|;
  }

  lemma DropLast(a: seq<SeedDraft>)
    requires a != []
    ensures multiset(a[..|a| - 1]) == multiset(a) - multiset{a[|a| - 1]}
  {
    assert a == a[..|a| - 1] + [a[|a| - 1]];
  }

  lemma FrontsOrdered(a: seq<SeedDraft>, b: seq<SeedDraft>)
    requires Rising(a) && Sorted(b) && a != [] && b != []
    ensures Rising(a[..|a| - 1]) && Sorted(b[..|b| - 1])
  {
  }

  lemma SameLast(a: seq<SeedDraft>, b: seq<SeedDraft>)
    requires Rising(a) && Sorted(b) && multiset(a) == multiset(b) && a != [] && b != []
    ensures a[|a| - 1] == b[|b| - 1]
  {
    hide Rising, Sorted;
    var x, y := a[|a| - 1], b[|b| - 1];
    assert x in multiset(b) && y in multiset(a);
    LastIsLatest(a, y);
    LastIsLatestSorted(b, x);
  }

  lemma LastIsLatest(a: seq<SeedDraft>, y: SeedDraft)
    requires Rising(a) && a != [] && y in a
    ensures y == a[|a| - 1] || y.createdAt < a[|a| - 1].createdAt
  {
  }

  lemma LastIsLatestSorted(b: seq<SeedDraft>, x: SeedDraft)
    requires Sorted(b) && b != [] && x in b
    ensures x.createdAt <= b[|b| - 1].createdAt
  {
  }

  /** Sorting everything at once leaves each room's drafts as they were. */
  lemma RoomOrderKept(drafts: seq<SeedDraft>, sorted: seq<SeedDraft>, room: int)
    requires Sorted(sorted) && multiset(sorted) == multiset(drafts) && Rising(OfRoom(drafts, room))
    ensures OfRoom(sorted, room) == OfRoom(drafts, room)
  {
    var a, b := OfRoom(drafts, room), OfRoom(sorted, room);
    FilterSorted(sorted, room);
    forall d ensures multiset(a)[d] == multiset(b)[d] {
      FilterMultiset(drafts, room, d);
      FilterMultiset(sorted, room, d);
    }
    RisingUnique(a, b);
  }

  // ---------------------------------------------------------------------------------------------
  // Messages and rooms
  // ---------------------------------------------------------------------------------------------

  function SeededMessageId(room: nat, index: nat): nat {
    room * MESSAGE_ID_BLOCK + index
  }

  function DraftOf(d: SeedDraft): Draft {
    Draft(d.fromViewer, false, d.mentionsViewer, false, None)
  }

  /** A room's drafts with the ids they are given. */
  function Numbered(room: nat, drafts: seq<SeedDraft>): (messages: seq<Message>)
    ensures |messages| == |drafts|
  {
    seq(|drafts|, (i: nat) requires i < |drafts| =>
      Message(SeededMessageId(room, i), DraftOf(drafts[i]), drafts[i].createdAt))
  }

  lemma NumberedMore(room: nat, drafts: seq<SeedDraft>, d: SeedDraft)
    ensures Numbered(room, drafts + [d]) == Numbered(room, drafts) + [Message(SeededMessageId(room, |drafts|), DraftOf(d), d.createdAt)]
    ensures Numbered(room, []) == []
  {
  }

  /** The loop over the sorted drafts: every room's list grows in the order its drafts come by. */
  method Group(drafts: seq<SeedDraft>) returns (lists: map<int, seq<Message>>)
    requires forall d | d in drafts :: d.room >= 0
    ensures forall room | room in lists :: room >= 0 && lists[room] == Numbered(room, OfRoom(drafts, room))
    ensures forall room | room !in lists :: OfRoom(drafts, room) == []
  {
    lists := map[];
    for i := 0 to |drafts|
      invariant forall room | room in lists :: room >= 0 && lists[room] == Numbered(room, OfRoom(drafts[..i], room))
      invariant forall room | room !in lists :: OfRoom(drafts[..i], room) == []
    {
      var d := drafts[i];
      hide Numbered, SeededMessageId;
      assert d in drafts && drafts[..i + 1][..i] == drafts[..i];
      NumberedMore(d.room, [], d);
      var list := if d.room in lists then lists[d.room] else [];
      ghost var had := OfRoom(drafts[..i], d.room);
      assert list == Numbered(d.room, had);
      assert OfRoom(drafts[..i + 1], d.room) == had + [d];
      NumberedMore(d.room, had, d);
      list := list + [Message(SeededMessageId(d.room, |list|), DraftOf(d), d.createdAt)];
      lists := lists[d.room := list];
    }
    assert drafts[..|drafts|] == drafts;
  }

  /** A row of the table of rooms. */
  datatype RoomSeed = RoomSeed(id: nat, count: nat, unread: nat, lastAgoMs: int, createdAt: int, involvement: Involvement)

  /** What the table keeps to: ids below the first live one, and no more unread than there is. */
  predicate SeedOk(seed: RoomSeed) {
    1 <= seed.id < FIRST_LIVE_MESSAGE_ID / MESSAGE_ID_BLOCK && seed.count <= MESSAGE_ID_BLOCK && seed.unread <= seed.count
  }

  function CountMentions(messages: seq<Message>): nat {
    |Filter(messages, (m: Message) => m.draft.mentionsViewer)|
  }

  /** `viewerMembership` and the record around it: read up to just before the unread tail. */
  function SeededRoom(seed: RoomSeed, messages: seq<Message>): Room
    requires seed.unread <= |messages|
  {
    var split := |messages| - seed.unread;
    Room(
      true,
      if messages == [] then seed.createdAt else messages[|messages| - 1].createdAt,
      seed.involvement,
      messages,
      if seed.unread > 0 then Some(messages[split].createdAt) else None,
      if split > 0 then Some(messages[split - 1].id) else None,
      CountMentions(messages[split..]))
  }

  lemma NumberedAscending(room: nat, drafts: seq<SeedDraft>)
    requires Rising(drafts)
    ensures Ascending(Numbered(room, drafts))
  {
  }

  /** A seeded room satisfies the invariant, and its divider marks exactly its unread tail. */
  lemma SeededRoomOk(seed: RoomSeed, drafts: seq<SeedDraft>)
    requires SeedOk(seed) && Rising(drafts) && |drafts| == seed.count
    ensures var messages := Numbered(seed.id, drafts);
            var r := SeededRoom(seed, messages);
            && RoomOk(r, FIRST_LIVE_MESSAGE_ID)
            && UnreadMessages(r) == messages[|messages| - seed.unread..]
  {
    var messages := Numbered(seed.id, drafts);
    var r, split := SeededRoom(seed, messages), |messages| - seed.unread;
    NumberedAscending(seed.id, drafts);
    NumberedInBlock(seed, drafts);
    hide Filter, Numbered, Rising, Ascending;
    SeededState(seed, messages);
    UnreadTail(seed, messages);
  }

  lemma SeededState(seed: RoomSeed, messages: seq<Message>)
    requires SeedOk(seed) && |messages| == seed.count && Ascending(messages)
    requires forall m | m in messages ::
               0 < m.id < FIRST_LIVE_MESSAGE_ID && m.createdAt <= messages[|messages| - 1].createdAt && !m.draft.systemNote
    ensures RoomOk(SeededRoom(seed, messages), FIRST_LIVE_MESSAGE_ID)
  {
    hide Filter, Ascending;
    var split := |messages| - seed.unread;
    if split > 0 { assert messages[split - 1] in messages; }
    assert seed.unread == 0 ==> messages[split..] == [];
  }

  lemma UnreadTail(seed: RoomSeed, messages: seq<Message>)
    requires SeedOk(seed) && |messages| == seed.count && RoomOk(SeededRoom(seed, messages), FIRST_LIVE_MESSAGE_ID)
    requires forall m | m in messages :: !m.draft.systemNote
    ensures UnreadMessages(SeededRoom(seed, messages)) == messages[|messages| - seed.unread..]
  {
    hide Filter, RoomOk;
    var r, split := SeededRoom(seed, messages), |messages| - seed.unread;
    BacklogFrom(r, FIRST_LIVE_MESSAGE_ID, split);
    FilterAllOrNone(messages[split..], (m: Message) => !m.draft.systemNote);
  }

  lemma NumberedInBlock(seed: RoomSeed, drafts: seq<SeedDraft>)
    requires SeedOk(seed) && Rising(drafts) && |drafts| == seed.count
    ensures var messages := Numbered(seed.id, drafts);
            forall m | m in messages ::
              0 < m.id < FIRST_LIVE_MESSAGE_ID && m.createdAt <= messages[|messages| - 1].createdAt && !m.draft.systemNote
  {
    var messages := Numbered(seed.id, drafts);
    forall m | m in messages
      ensures 0 < m.id < FIRST_LIVE_MESSAGE_ID && m.createdAt <= messages[|messages| - 1].createdAt && !m.draft.systemNote
    {
      var i :| 0 <= i < |messages| && messages[i] == m;
    }
  }

  // ---------------------------------------------------------------------------------------------
  // The world
  // ---------------------------------------------------------------------------------------------

  /** What the random source and the scripts give one room: a draw, an author and a mention a message. */
  datatype Script = Script(draws: seq<Draw>, authors: seq<bool>, mentions: seq<bool>)

  ghost predicate ScriptOk(seed: RoomSeed, script: Script) {
    && |script.draws| == |script.authors| == |script.mentions| == seed.count
    && forall d | d in script.draws :: InRange(d)
  }

  /** What a room's script says: message by message its author, whether it mentions the viewer, and its time. */
  function Drafted(now: int, seed: RoomSeed, script: Script): (drafts: seq<SeedDraft>)
    requires |script.draws| == |script.authors| == |script.mentions|
    ensures |drafts| == |script.draws|
  {
    var times := Times(now - seed.lastAgoMs, script.draws);
    seq(|script.draws|, (i: nat) requires i < |script.draws| => SeedDraft(seed.id, script.authors[i], script.mentions[i], times[i]))
  }

  lemma DraftedRises(now: int, seed: RoomSeed, script: Script)
    requires ScriptOk(seed, script)
    ensures var drafts := Drafted(now, seed, script);
            |drafts| == seed.count && Rising(drafts) && forall d | d in drafts :: d.room == seed.id
  {
    hide InRange;
    TimesClimb(now - seed.lastAgoMs, script.draws);
  }

  /** `draftRoom`, as far as the timeline goes. */
  method DraftRoom(now: int, seed: RoomSeed, script: Script) returns (drafts: seq<SeedDraft>)
    requires ScriptOk(seed, script)
    ensures drafts == Drafted(now, seed, script)
    ensures |drafts| == seed.count && Rising(drafts) && forall d | d in drafts :: d.room == seed.id
  {
    var times := MessageTimes(now, seed.lastAgoMs, script.draws);
    drafts := [];
    for i := 0 to |times|
      invariant |drafts| == i && forall j | 0 <= j < i :: drafts[j] == SeedDraft(seed.id, script.authors[j], script.mentions[j], times[j])
    {
      drafts := drafts + [SeedDraft(seed.id, script.authors[i], script.mentions[i], times[i])];
    }
    DraftedRises(now, seed, script);
  }

  ghost predicate TableOk(seeds: seq<RoomSeed>, scripts: seq<Script>) {
    && |seeds| == |scripts|
    && (forall i | 0 <= i < |seeds| :: SeedOk(seeds[i]) && ScriptOk(seeds[i], scripts[i]))
    && forall i, j | 0 <= i < j < |seeds| :: seeds[i].id != seeds[j].id
  }

  /** All drafts of the first `n` rooms: each room's share is what its script says. */
  ghost predicate DraftsOk(now: int, seeds: seq<RoomSeed>, scripts: seq<Script>, n: nat, drafts: seq<SeedDraft>)
    requires TableOk(seeds, scripts) && n <= |seeds|
  {
    && (forall d | d in drafts :: exists i | 0 <= i < n :: seeds[i].id == d.room)
    && forall i | 0 <= i < n :: OfRoom(drafts, seeds[i].id) == Drafted(now, seeds[i], scripts[i])
  }

  lemma MoreDrafts(now: int, seeds: seq<RoomSeed>, scripts: seq<Script>, n: nat, drafts: seq<SeedDraft>, more: seq<SeedDraft>)
    requires TableOk(seeds, scripts) && n < |seeds| && DraftsOk(now, seeds, scripts, n, drafts)
    requires more == Drafted(now, seeds[n], scripts[n]) && forall d | d in more :: d.room == seeds[n].id
    ensures DraftsOk(now, seeds, scripts, n + 1, drafts + more)
  {
    hide Filter, Drafted, InRange;
    forall i | 0 <= i < n + 1 ensures OfRoom(drafts + more, seeds[i].id) == Drafted(now, seeds[i], scripts[i]) {
      var mine := (d: SeedDraft) => d.room == seeds[i].id;
      FilterConcat(drafts, more, mine);
      FilterAllOrNone(more, mine);
      if i < n {
        assert OfRoom(drafts, seeds[i].id) + [] == OfRoom(drafts, seeds[i].id);
      } else {
        NoneYet(now, seeds, scripts, n, drafts);
        FilterAllOrNone(drafts, mine);
        assert [] + more == more;
      }
    }
    forall d | d in drafts + more ensures exists i | 0 <= i < n + 1 :: seeds[i].id == d.room {
      if d in drafts {
        var i :| 0 <= i < n && seeds[i].id == d.room;
      } else {
        assert d in more && seeds[n].id == d.room;
      }
    }
  }

  lemma NoneYet(now: int, seeds: seq<RoomSeed>, scripts: seq<Script>, n: nat, drafts: seq<SeedDraft>)
    requires TableOk(seeds, scripts) && n < |seeds| && DraftsOk(now, seeds, scripts, n, drafts)
    ensures forall d | d in drafts :: d.room != seeds[n].id
  {
    forall d | d in drafts ensures d.room != seeds[n].id {
      var i :| 0 <= i < n && seeds[i].id == d.room;
    }
  }

  /** None of the messages was sent by a client. */
  ghost predicate Unsent(messages: seq<Message>) {
    forall m | m in messages :: m.draft.clientId.None?
  }

  /** The room a table row and its script stand for. */
  function Planned(now: int, seed: RoomSeed, script: Script): (r: Room)
    requires |script.draws| == |script.authors| == |script.mentions| == seed.count && seed.unread <= seed.count
    ensures |r.messages| == seed.count
  {
    SeededRoom(seed, Numbered(seed.id, Drafted(now, seed, script)))
  }

  /** Its timeline is its script, numbered in the room's own block. */
  lemma PlannedMessage(now: int, seed: RoomSeed, script: Script, k: nat)
    requires ScriptOk(seed, script) && SeedOk(seed) && k < seed.count
    ensures var times, m := Times(now - seed.lastAgoMs, script.draws), Planned(now, seed, script).messages[k];
            && m.id == seed.id * 10_000 + k && m.createdAt == times[k]
            && m.draft == Draft(script.authors[k], false, script.mentions[k], false, None)
            && (k == seed.count - 1 ==> m.createdAt == now - seed.lastAgoMs)
  {
    TimesClimb(now - seed.lastAgoMs, script.draws);
    hide InRange, CountMentions, Times, Filter;
    var d := Drafted(now, seed, script)[k];
    assert Numbered(seed.id, Drafted(now, seed, script))[k] == Message(SeededMessageId(seed.id, k), DraftOf(d), d.createdAt);
  }

  /** The viewer is a member of a seeded room and has read it up to just before its unread tail, of whose
      messages those that mention them are counted. */
  lemma SeededReadState(seed: RoomSeed, messages: seq<Message>, mentions: seq<bool>)
    requires SeedOk(seed) && seed.count == |messages| == |mentions|
    requires forall i | 0 <= i < |messages| :: messages[i].draft.mentionsViewer == mentions[i]
    ensures var r, n, split := SeededRoom(seed, messages), seed.count, seed.count - seed.unread;
            && r.member && r.involvement == seed.involvement && r.messages == messages
            && r.unreadAt == (if seed.unread > 0 then Some(messages[split].createdAt) else None)
            && r.lastRead == (if split > 0 then Some(messages[split - 1].id) else None)
            && r.mentionCount == |MentionsIn(mentions, split, n)|
            && r.updatedAt == (if n > 0 then messages[n - 1].createdAt else seed.createdAt)
  {
    hide Filter, CountMentions;
    var split := seed.count - seed.unread;
    MentionsCounted(messages, mentions, split, |messages|);
    assert messages[split..|messages|] == messages[split..];
  }

  lemma OneMoreMention(messages: seq<Message>, m: Message)
    ensures CountMentions(messages + [m]) == CountMentions(messages) + if m.draft.mentionsViewer then 1 else 0
    ensures CountMentions([]) == 0
  {
    assert (messages + [m])[..|messages|] == messages;
  }

  function MentionsIn(mentions: seq<bool>, a: nat, b: nat): set<nat>
    requires a <= b <= |mentions|
  {
    set i: nat | a <= i < b && mentions[i]
  }

  lemma {:induction false} MentionsCounted(messages: seq<Message>, mentions: seq<bool>, a: nat, b: nat)
    requires a <= b <= |messages| == |mentions| && forall i | 0 <= i < |messages| :: messages[i].draft.mentionsViewer == mentions[i]
    ensures CountMentions(messages[a..b]) == |MentionsIn(mentions, a, b)|
  {
    hide CountMentions;
    if a == b {
      OneMoreMention([], Message(0, Draft(false, false, false, false, None), 0));
      assert MentionsIn(mentions, a, b) == {};
      assert messages[a..b] == [];
    } else {
      MentionsCounted(messages, mentions, a, b - 1);
      OneMoreMention(messages[a..b - 1], messages[b - 1]);
      assert messages[a..b] == messages[a..b - 1] + [messages[b - 1]];
      var fewer := MentionsIn(mentions, a, b - 1);
      assert MentionsIn(mentions, a, b) == if mentions[b - 1] then fewer + {b - 1} else fewer;
    }
  }

  /** `seedWorld`: every room is as its own script says, whatever the others are, and the state every run
      starts from satisfies the invariant. */
  method SeedWorld(now: int, seeds: seq<RoomSeed>, scripts: seq<Script>) returns (s: State)
    requires TableOk(seeds, scripts)
    ensures Inv(s)
    ensures s.nextMessageId == 1_000_000
    ensures forall i | 0 <= i < |seeds| :: seeds[i].id in s.rooms && s.rooms[seeds[i].id] == Planned(now, seeds[i], scripts[i])
    ensures forall room | room in s.rooms :: exists i | 0 <= i < |seeds| :: seeds[i].id == room
    ensures forall room | room in s.rooms :: s.rooms[room].member && Unsent(s.rooms[room].messages)
  {
    hide Filter, Rising, Sorted, RoomOk, Numbered, InRange, UnreadMessages, SeededRoom, Drafted, Planned, Times;
    var drafts := [];
    for i := 0 to |seeds|
      invariant DraftsOk(now, seeds, scripts, i, drafts)
    {
      var more := DraftRoom(now, seeds[i], scripts[i]);
      MoreDrafts(now, seeds, scripts, i, drafts, more);
      drafts := drafts + more;
    }
    var sorted := SortDrafts(drafts);
    forall d | d in sorted ensures d.room >= 0 {
      assert d in multiset(sorted) && d in multiset(drafts) && d in drafts;
    }
    var lists := Group(sorted);
    var rooms := BuildRooms(now, seeds, scripts, drafts, sorted, lists);
    s := State(rooms, FIRST_LIVE_MESSAGE_ID);
  }

  /** The loop over the table: a room a row. */
  method BuildRooms(now: int, seeds: seq<RoomSeed>, scripts: seq<Script>, drafts: seq<SeedDraft>, sorted: seq<SeedDraft>, lists: map<int, seq<Message>>)
    returns (rooms: map<nat, Room>)
    requires TableOk(seeds, scripts) && DraftsOk(now, seeds, scripts, |seeds|, drafts)
    requires Sorted(sorted) && multiset(sorted) == multiset(drafts)
    requires forall room | room in lists :: room >= 0 && lists[room] == Numbered(room, OfRoom(sorted, room))
    requires forall room | room !in lists :: OfRoom(sorted, room) == []
    ensures forall i | 0 <= i < |seeds| :: seeds[i].id in rooms && rooms[seeds[i].id] == Planned(now, seeds[i], scripts[i])
    ensures forall room | room in rooms :: exists i | 0 <= i < |seeds| :: seeds[i].id == room
    ensures forall room | room in rooms ::
              RoomOk(rooms[room], FIRST_LIVE_MESSAGE_ID) && rooms[room].member && Unsent(rooms[room].messages)
  {
    hide Filter, Rising, Sorted, RoomOk, Numbered, InRange, SeededRoom, Drafted, Planned, Times, Unsent;
    rooms := map[];
    for i := 0 to |seeds|
      invariant forall room | room in rooms ::
                  RoomOk(rooms[room], FIRST_LIVE_MESSAGE_ID) && rooms[room].member && Unsent(rooms[room].messages)
      invariant forall j | 0 <= j < i :: seeds[j].id in rooms && rooms[seeds[j].id] == Planned(now, seeds[j], scripts[j])
      invariant forall room | room in rooms :: exists j | 0 <= j < i :: seeds[j].id == room
    {
      var seed := seeds[i];
      var messages := if seed.id in lists then lists[seed.id] else [];
      BuildRoom(now, seed, scripts[i], drafts, sorted, messages, if seed.id in lists then Some(lists[seed.id]) else None);
      rooms := rooms[seed.id := SeededRoom(seed, messages)];
    }
  }

  lemma BuildRoom(now: int, seed: RoomSeed, script: Script, drafts: seq<SeedDraft>, sorted: seq<SeedDraft>, messages: seq<Message>, list: Option<seq<Message>>)
    requires SeedOk(seed) && ScriptOk(seed, script) && Sorted(sorted) && multiset(sorted) == multiset(drafts)
    requires OfRoom(drafts, seed.id) == Drafted(now, seed, script)
    requires list.Some? ==> messages == list.value == Numbered(seed.id, OfRoom(sorted, seed.id))
    requires list.None? ==> messages == [] && OfRoom(sorted, seed.id) == []
    ensures seed.unread <= |messages| && SeededRoom(seed, messages) == Planned(now, seed, script)
    ensures RoomOk(SeededRoom(seed, messages), FIRST_LIVE_MESSAGE_ID)
    ensures SeededRoom(seed, messages).messages == messages && SeededRoom(seed, messages).member && Unsent(messages)
  {
    hide Filter, Rising, Sorted, RoomOk, UnreadMessages, InRange, Drafted;
    DraftedRises(now, seed, script);
    RoomOrderKept(drafts, sorted, seed.id);
    assert list.None? ==> messages == Numbered(seed.id, OfRoom(sorted, seed.id));
    SeededRoomOk(seed, OfRoom(drafts, seed.id));
  }
}
