/**
 * Posting from a client (frontend/mock/server.ts): a client message id makes a retry harmless, and sends
 * can be held back and released. A message that is created goes through `createMessage`, so the read
 * state of its room moves with it. `answers` and `arrived` are histories no operation reads.
 */
module Posting {
  import opened Common
  import opened Splitting
  import opened ReadState
  import Decimal

  const VIEWER_ID: nat := 1

  /** What a request says, and whether the rest of it parses. */
  datatype Body = Body(clientId: Option<string>, parses: bool, replyTo: Option<nat>, mentionsViewer: bool)

  datatype Response = Created(message: Message) | Repeated(message: Message) | NotFound | Invalid(field: string)

  datatype Request = Request(ticket: nat, room: nat, body: Body)

  datatype Answer = Answer(request: Request, response: Response)

  datatype Server = Server(
    world: State,
    sent: map<string, Message>,
    holding: bool,
    held: seq<Request>,
    answers: seq<Answer>,
    arrived: seq<Request>)

  /** What the clock reads and which rooms are looked at when the message with a given id is made. */
  datatype Outside = Outside(now: nat -> int, present: nat -> set<int>)

  function KeyOf(room: nat, clientId: string): string {
    Decimal.Print(room) + ":" + (Decimal.Print(VIEWER_ID) + ":" + clientId)
  }

  /** Different rooms or ids never share a key, whatever the client puts into its id. */
  lemma KeyInjective(room: nat, clientId: string, other: nat, otherId: string)
    requires KeyOf(room, clientId) == KeyOf(other, otherId)
    ensures room == other && clientId == otherId
  {
    var x, y := Decimal.Print(VIEWER_ID) + ":" + clientId, Decimal.Print(VIEWER_ID) + ":" + otherId;
    NoColon(room);
    NoColon(other);
    NoColon(VIEWER_ID);
    SplitFirstAt(Decimal.Print(room), x, ':');
    SplitFirstAt(Decimal.Print(other), y, ':');
    assert Decimal.Print(room) + ":" + x == KeyOf(room, clientId) && Decimal.Print(other) + ":" + y == KeyOf(other, otherId);
    SplitFirstAt(Decimal.Print(VIEWER_ID), clientId, ':');
    SplitFirstAt(Decimal.Print(VIEWER_ID), otherId, ':');
    Decimal.PrintInjective(room, other);
  }

  lemma NoColon(n: nat)
    ensures ':' !in Decimal.Print(n)
  {
    assert forall c | c in Decimal.Print(n) :: Decimal.IsDigit(c);
  }

  // ---------------------------------------------------------------------------------------------
  // One request
  // ---------------------------------------------------------------------------------------------

  predicate HasMessage(r: Room, id: nat) {
    exists m | m in r.messages :: m.id == id
  }

  function DraftFrom(body: Body): Draft {
    Draft(true, false, body.mentionsViewer, false, body.clientId)
  }

  /** The checks of `createFromClient`, in order. A duplicate is answered before the body is parsed. */
  function Respond(e: Outside, s: Server, room: nat, body: Body): Response {
    if room !in s.world.rooms || !s.world.rooms[room].member then NotFound
    else if body.clientId.None? || body.clientId.value == "" then Invalid("clientMessageId")
    else
      var key := KeyOf(room, body.clientId.value);
      if key in s.sent then Repeated(s.sent[key])
      else if !body.parses then Invalid("message")
      else if body.replyTo.Some? && !HasMessage(s.world.rooms[room], body.replyTo.value) then Invalid("replyToMessageId")
      else Created(NewMessage(s.world.rooms[room], DraftFrom(body), s.world.nextMessageId, e.now(s.world.nextMessageId)))
  }

  /** The member's request, as far as its room and key go. */
  predicate FromMember(s: Server, room: nat, body: Body) {
    && room in s.world.rooms && s.world.rooms[room].member
    && body.clientId.Some? && body.clientId.value != ""
  }

  predicate Replies(r: Room, replyTo: Option<nat>) {
    replyTo.None? || exists i | 0 <= i < |r.messages| :: r.messages[i].id == replyTo.value
  }

  /** What a request is answered with, case by case. The first of a key creates its message exactly when the
      viewer is a member, the rest of it parses, and it replies to nothing or to a message of the room; the
      new message is the viewer's, under the next id and the request's own client id. */
  lemma AnswersExactly(e: Outside, s: Server, room: nat, body: Body)
    ensures var r := Respond(e, s, room, body);
            && (r.NotFound? <==> room !in s.world.rooms || !s.world.rooms[room].member)
            && (r == Invalid("clientMessageId") <==>
                  room in s.world.rooms && s.world.rooms[room].member && (body.clientId.None? || body.clientId.value == ""))
            && (r.Repeated? <==> FromMember(s, room, body) && KeyOf(room, body.clientId.value) in s.sent)
            && (r == Invalid("message") <==>
                  FromMember(s, room, body) && KeyOf(room, body.clientId.value) !in s.sent && !body.parses)
            && (r == Invalid("replyToMessageId") <==>
                  FromMember(s, room, body) && KeyOf(room, body.clientId.value) !in s.sent && body.parses
                  && !Replies(s.world.rooms[room], body.replyTo))
            && (r.Created? <==>
                  FromMember(s, room, body) && KeyOf(room, body.clientId.value) !in s.sent && body.parses
                  && Replies(s.world.rooms[room], body.replyTo))
            && (r.Created? ==>
                  && r.message.id == s.world.nextMessageId && r.message.draft.clientId == body.clientId
                  && r.message.draft.fromViewer && !r.message.draft.systemNote && !r.message.draft.streaming)
            && (r.Repeated? ==> r.message == s.sent[KeyOf(room, body.clientId.value)])
  {
    hide KeyOf;
    if room in s.world.rooms && body.replyTo.Some? {
      FoundAt(s.world.rooms[room], body.replyTo.value);
    }
    assert "clientMessageId"[0] == 'c' && "message"[0] == 'm' && "replyToMessageId"[0] == 'r';
  }

  lemma FoundAt(r: Room, id: nat)
    ensures HasMessage(r, id) <==> exists i | 0 <= i < |r.messages| :: r.messages[i].id == id
  {
    forall i | 0 <= i < |r.messages| ensures r.messages[i] in r.messages {
    }
  }

  /** `createMessage` by anyone. */
  function Append(e: Outside, w: State, room: nat, draft: Draft): State {
    ReadState.Next(w, Posts(room, draft, e.now(w.nextMessageId), e.present(w.nextMessageId)))
  }

  function CreateFromClient(e: Outside, s: Server, room: nat, body: Body): Server {
    var response := Respond(e, s, room, body);
    if response.Created? then
      s.(world := Append(e, s.world, room, DraftFrom(body)), sent := s.sent[KeyOf(room, body.clientId.value) := response.message])
    else s
  }

  /** A request runs and is answered. */
  function Serve(e: Outside, s: Server, request: Request): Server {
    CreateFromClient(e, s, request.room, request.body).(answers := s.answers + [Answer(request, Respond(e, s, request.room, request.body))])
  }

  function ServeAll(e: Outside, s: Server, requests: seq<Request>): Server {
    if requests == [] then s else Serve(e, ServeAll(e, s, requests[..|requests| - 1]), requests[|requests| - 1])
  }

  // ---------------------------------------------------------------------------------------------
  // Steps
  // ---------------------------------------------------------------------------------------------

  function Release(e: Outside, s: Server): Server {
    ServeAll(e, s.(held := []), s.held)
  }

  /** A send, holding and releasing, or anything else that happens to the rooms: other people's messages,
      marking read and unread, joining and leaving. */
  datatype Step =
    | Sends(request: Request)
    | Holds(on: bool)
    | Releases
    | Else(step: ReadState.Step)

  /** Only a send carries a client message id. */
  function Anonymous(step: ReadState.Step): ReadState.Step {
    if step.Posts? then step.(draft := step.draft.(clientId := None)) else step
  }

  function Stepped(e: Outside, s: Server, step: Step): Server {
    match step
    case Sends(request) =>
      var arriving := s.(arrived := s.arrived + [request]);
      if s.holding then arriving.(held := s.held + [request]) else Serve(e, arriving, request)
    case Holds(on) => if on then s.(holding := true) else Release(e, s.(holding := false))
    case Releases => Release(e, s)
    case Else(other) => s.(world := ReadState.Next(s.world, Anonymous(other)))
  }

  function Run(e: Outside, s: Server, steps: seq<Step>): Server {
    if steps == [] then s else Stepped(e, Run(e, s, steps[..|steps| - 1]), steps[|steps| - 1])
  }

  // ---------------------------------------------------------------------------------------------
  // At most once
  // ---------------------------------------------------------------------------------------------

  /** Every message with a client id is the one remembered for it. */
  ghost predicate Remembered(w: State, sent: map<string, Message>) {
    forall room, m | room in w.rooms && m in w.rooms[room].messages && m.draft.clientId.Some? ::
      KeyOf(room, m.draft.clientId.value) in sent && sent[KeyOf(room, m.draft.clientId.value)] == m
  }

  /** Every remembered message is in the timeline of its own room, under its own client id. */
  ghost predicate Stored(w: State, sent: map<string, Message>) {
    forall room: nat, id: string {:trigger KeyOf(room, id)} | KeyOf(room, id) in sent ::
      && room in w.rooms && sent[KeyOf(room, id)] in w.rooms[room].messages
      && sent[KeyOf(room, id)].draft.clientId == Some(id)
  }

  /** A successful answer carries the message remembered for its key. */
  ghost predicate AnswerOk(sent: map<string, Message>, a: Answer) {
    Succeeded(a) ==>
      && a.request.body.clientId.Some? && a.request.body.clientId.value != ""
      && KeyOf(a.request.room, a.request.body.clientId.value) in sent
      && sent[KeyOf(a.request.room, a.request.body.clientId.value)] == a.response.message
  }

  ghost predicate Inv(s: Server) {
    && ReadState.Inv(s.world)
    && Remembered(s.world, s.sent) && Stored(s.world, s.sent)
    && (forall key | key in s.sent :: s.sent[key].id < s.world.nextMessageId)
    && (forall a | a in s.answers :: AnswerOk(s.sent, a))
    && CreatedOnce(s.answers)
  }

  /** Only the first success for a key is a creation. */
  ghost predicate CreatedOnce(answers: seq<Answer>) {
    forall i, j | 0 <= i < j < |answers| && answers[i].response.Created? && answers[j].response.Created? ::
      answers[i].response.message.id < answers[j].response.message.id
  }

  /** What a step of the rooms does to a timeline. */
  lemma WorldStep(w: State, step: ReadState.Step, room: nat, m: Message)
    requires room in ReadState.Next(w, step).rooms && m in ReadState.Next(w, step).rooms[room].messages
    ensures room in w.rooms
    ensures m in w.rooms[room].messages ||
            (step.Posts? && step.room == room && m == NewMessage(w.rooms[room], step.draft, w.nextMessageId, step.now))
  {
  }

  lemma ElseKeeps(s: Server, step: ReadState.Step)
    requires Inv(s) && (step.Posts? ==> step.draft.clientId.None?)
    ensures Inv(s.(world := ReadState.Next(s.world, step)))
  {
    hide KeyOf, AnswerOk, ReadState.Next, ReadState.Inv;
    ReadState.NextKeeps(s.world, step);
    IdsGrow(s.world, step);
    var w := ReadState.Next(s.world, step);
    forall room, m | room in w.rooms && m in w.rooms[room].messages && m.draft.clientId.Some?
      ensures KeyOf(room, m.draft.clientId.value) in s.sent && s.sent[KeyOf(room, m.draft.clientId.value)] == m
    {
      WorldStep(s.world, step, room, m);
    }
    StoredLater(s.world, w, s.sent);
  }

  /** Timelines only grow, so what is stored stays stored. */
  lemma StoredLater(w: State, v: State, sent: map<string, Message>)
    requires Stored(w, sent)
    requires forall room | room in w.rooms :: room in v.rooms && w.rooms[room].messages <= v.rooms[room].messages
    ensures Stored(v, sent)
  {
    hide KeyOf;
    forall room: nat, id: string | KeyOf(room, id) in sent
      ensures room in v.rooms && sent[KeyOf(room, id)] in v.rooms[room].messages
      ensures sent[KeyOf(room, id)].draft.clientId == Some(id)
    {
      var messages, m := w.rooms[room].messages, sent[KeyOf(room, id)];
      var i :| 0 <= i < |messages| && messages[i] == m;
      assert v.rooms[room].messages[i] == m;
    }
  }

  /** One message more, under a key of its own: no other room or client id has that key. */
  lemma StoredMore(w: State, sent: map<string, Message>, room: nat, id: string, m: Message)
    requires Stored(w, sent) && room in w.rooms && m in w.rooms[room].messages && m.draft.clientId == Some(id)
    ensures Stored(w, sent[KeyOf(room, id) := m])
  {
    hide KeyOf;
    forall other: nat, otherId: string | KeyOf(other, otherId) in sent[KeyOf(room, id) := m]
      ensures var more := sent[KeyOf(room, id) := m];
              && other in w.rooms && more[KeyOf(other, otherId)] in w.rooms[other].messages
              && more[KeyOf(other, otherId)].draft.clientId == Some(otherId)
    {
      if KeyOf(other, otherId) == KeyOf(room, id) { KeyInjective(other, otherId, room, id); }
    }
  }

  lemma IdsGrow(w: State, step: ReadState.Step)
    ensures w.nextMessageId <= ReadState.Next(w, step).nextMessageId
    ensures step.Posts? && step.room in w.rooms ==> ReadState.Next(w, step).nextMessageId == w.nextMessageId + 1
  {
  }

  lemma ServeKeeps(e: Outside, s: Server, request: Request)
    requires Inv(s)
    ensures Inv(Serve(e, s, request))
  {
    hide KeyOf, ReadState.Next, ReadState.Inv, Remembered, Stored;
    var body, room, response := request.body, request.room, Respond(e, s, request.room, request.body);
    if response.Created? {
      CreateKeeps(e, s, room, body);
    }
    var made := CreateFromClient(e, s, room, body);
    AnswerKeeps(s, made, Answer(request, response));
  }

  lemma CreateKeeps(e: Outside, s: Server, room: nat, body: Body)
    requires Inv(s) && Respond(e, s, room, body).Created?
    ensures Inv(CreateFromClient(e, s, room, body))
  {
    hide KeyOf, ReadState.Next, ReadState.Inv, Stored;
    var message, key := Respond(e, s, room, body).message, KeyOf(room, body.clientId.value);
    var step := Posts(room, DraftFrom(body), e.now(s.world.nextMessageId), e.present(s.world.nextMessageId));
    ReadState.NextKeeps(s.world, step);
    IdsGrow(s.world, step);
    var w, sent := ReadState.Next(s.world, step), s.sent[key := message];
    forall other, m | other in w.rooms && m in w.rooms[other].messages && m.draft.clientId.Some?
      ensures KeyOf(other, m.draft.clientId.value) in sent && sent[KeyOf(other, m.draft.clientId.value)] == m
    {
      WorldStep(s.world, step, other, m);
    }
    forall a | a in s.answers ensures AnswerOk(sent, a) {
      assert AnswerOk(s.sent, a);
    }
    StoredLater(s.world, w, s.sent);
    Appended(s.world, step);
    StoredMore(w, s.sent, room, body.clientId.value, message);
  }

  lemma Appended(w: State, step: ReadState.Step)
    requires step.Posts? && step.room in w.rooms
    ensures var v := ReadState.Next(w, step);
            step.room in v.rooms && NewMessage(w.rooms[step.room], step.draft, w.nextMessageId, step.now) in v.rooms[step.room].messages
  {
    var v, m := ReadState.Next(w, step), NewMessage(w.rooms[step.room], step.draft, w.nextMessageId, step.now);
    assert v.rooms[step.room].messages == w.rooms[step.room].messages + [m];
  }

  lemma AnswerKeeps(s: Server, made: Server, answer: Answer)
    requires Inv(s) && Inv(made) && made.answers == s.answers && AnswerOk(made.sent, answer)
    requires answer.response.Created? ==> answer.response.message.id == s.world.nextMessageId
    ensures Inv(made.(answers := s.answers + [answer]))
  {
    hide KeyOf, ReadState.Inv, Remembered, Stored;
    forall i | 0 <= i < |s.answers| && s.answers[i].response.Created?
      ensures s.answers[i].response.message.id < s.world.nextMessageId
    {
      assert s.answers[i] in s.answers && AnswerOk(s.sent, s.answers[i]);
    }
  }

  lemma {:induction false} ServeAllKeeps(e: Outside, s: Server, requests: seq<Request>)
    requires Inv(s)
    ensures Inv(ServeAll(e, s, requests))
  {
    if requests != [] {
      hide Inv, Serve;
      ServeAllKeeps(e, s, requests[..|requests| - 1]);
      ServeKeeps(e, ServeAll(e, s, requests[..|requests| - 1]), requests[|requests| - 1]);
    }
  }

  /** Fields the invariant does not look at. */
  lemma QueueKeeps(s: Server, holding: bool, held: seq<Request>, arrived: seq<Request>)
    requires Inv(s)
    ensures Inv(s.(holding := holding, held := held, arrived := arrived))
  {
    hide ReadState.Inv, Remembered, Stored, AnswerOk;
  }

  lemma StepKeeps(e: Outside, s: Server, step: Step)
    requires Inv(s)
    ensures Inv(Stepped(e, s, step))
  {
    hide Inv, Serve, ServeAll, ReadState.Next;
    match step
    case Sends(request) =>
      QueueKeeps(s, s.holding, s.held, s.arrived + [request]);
      if s.holding {
        QueueKeeps(s, s.holding, s.held + [request], s.arrived + [request]);
      } else {
        ServeKeeps(e, s.(arrived := s.arrived + [request]), request);
      }
    case Holds(on) =>
      QueueKeeps(s, on, s.held, s.arrived);
      if !on {
        QueueKeeps(s, on, [], s.arrived);
        ServeAllKeeps(e, s.(holding := on, held := []), s.held);
      }
    case Releases =>
      QueueKeeps(s, s.holding, [], s.arrived);
      ServeAllKeeps(e, s.(held := []), s.held);
    case Else(other) => ElseKeeps(s, Anonymous(other));
  }

  lemma {:induction false} RunKeeps(e: Outside, s: Server, steps: seq<Step>)
    requires Inv(s)
    ensures Inv(Run(e, s, steps))
  {
    if steps != [] {
      hide Inv, Stepped;
      RunKeeps(e, s, steps[..|steps| - 1]);
      StepKeeps(e, Run(e, s, steps[..|steps| - 1]), steps[|steps| - 1]);
    }
  }

  /** A server that has served nothing yet, with timelines no client has written to. */
  ghost predicate Untouched(s: Server) {
    && s.sent == map[] && s.answers == [] && s.held == [] && s.arrived == []
    && ReadState.Inv(s.world)
    && forall room, m | room in s.world.rooms && m in s.world.rooms[room].messages :: m.draft.clientId.None?
  }

  /** Each room holds at most one message per client message id, every success for that id carries that
      very message of the room, and only one success is a creation. */
  ghost predicate Once(s: Server, room: nat, clientId: string) {
    && (room in s.world.rooms ==>
          forall i, j | 0 <= i < |s.world.rooms[room].messages| && 0 <= j < |s.world.rooms[room].messages|
                        && s.world.rooms[room].messages[i].draft.clientId == Some(clientId) == s.world.rooms[room].messages[j].draft.clientId :: i == j)
    && (forall a | a in s.answers && For(a, room, clientId) && Succeeded(a) ::
          room in s.world.rooms && a.response.message in s.world.rooms[room].messages && a.response.message.draft.clientId == Some(clientId))
    && (forall a, b | a in s.answers && b in s.answers && For(a, room, clientId) && For(b, room, clientId) && Succeeded(a) && Succeeded(b) ::
          a.response.message == b.response.message)
    && (forall i, j | 0 <= i < |s.answers| && 0 <= j < |s.answers| && For(s.answers[i], room, clientId) && For(s.answers[j], room, clientId)
                      && s.answers[i].response.Created? && s.answers[j].response.Created? :: i == j)
  }

  lemma InvMeansOnce(r: Server, room: nat, clientId: string)
    requires Inv(r)
    ensures Once(r, room, clientId)
  {
    hide KeyOf;
    if room in r.world.rooms {
      assert RoomOk(r.world.rooms[room], r.world.nextMessageId);
      var messages := r.world.rooms[room].messages;
      forall i, j | 0 <= i < |messages| && 0 <= j < |messages| && messages[i].draft.clientId == Some(clientId) == messages[j].draft.clientId
        ensures i == j
      {
        assert messages[i] in messages && messages[j] in messages;
        assert messages[i] == messages[j];
      }
    }
    forall a | a in r.answers && For(a, room, clientId) && Succeeded(a)
      ensures KeyOf(room, clientId) in r.sent && a.response.message == r.sent[KeyOf(room, clientId)]
    {
      assert AnswerOk(r.sent, a);
    }
    forall i, j | 0 <= i < |r.answers| && 0 <= j < |r.answers| && For(r.answers[i], room, clientId) && For(r.answers[j], room, clientId)
                  && r.answers[i].response.Created? && r.answers[j].response.Created?
      ensures i == j
    {
      assert r.answers[i] in r.answers && r.answers[j] in r.answers;
      assert Succeeded(r.answers[i]) && Succeeded(r.answers[j]);
    }
  }

  /** So it is over any interleaving of sends, retries, holds, releases and whatever else happens to the
      rooms, under any clock. */
  lemma AtMostOnce(e: Outside, s: Server, steps: seq<Step>, room: nat, clientId: string)
    requires Untouched(s)
    ensures Once(Run(e, s, steps), room, clientId)
  {
    hide Stepped, Once;
    RunKeeps(e, s, steps);
    InvMeansOnce(Run(e, s, steps), room, clientId);
  }

  predicate For(a: Answer, room: nat, clientId: string) {
    a.request.room == room && a.request.body.clientId == Some(clientId)
  }

  predicate Succeeded(a: Answer) {
    a.response.Created? || a.response.Repeated?
  }

  /** What is remembered once is never forgotten or replaced. */
  lemma {:induction false} ServeAllRemembers(e: Outside, s: Server, requests: seq<Request>, key: string)
    requires key in s.sent
    ensures key in ServeAll(e, s, requests).sent && ServeAll(e, s, requests).sent[key] == s.sent[key]
  {
    hide KeyOf, ReadState.Next;
    if requests != [] { ServeAllRemembers(e, s, requests[..|requests| - 1], key); }
  }

  lemma {:induction false} RunRemembers(e: Outside, s: Server, steps: seq<Step>, key: string)
    requires key in s.sent
    ensures key in Run(e, s, steps).sent && Run(e, s, steps).sent[key] == s.sent[key]
  {
    hide ServeAll, Serve, ReadState.Next;
    if steps != [] {
      RunRemembers(e, s, steps[..|steps| - 1], key);
      var r := Run(e, s, steps[..|steps| - 1]);
      match steps[|steps| - 1]
      case Sends(request) =>
        var arriving := r.(arrived := r.arrived + [request]);
        ServeAllRemembers(e, arriving, [request], key);
        ServeOne(e, arriving, request);
      case Holds(on) => ServeAllRemembers(e, r.(holding := on, held := []), r.held, key);
      case Releases => ServeAllRemembers(e, r.(held := []), r.held, key);
      case Else(_) =>
    }
  }

  /** The retry: once a request has succeeded, whatever happens after it, every request with its room and
      client id is answered with its message, whatever else the request says, or with not found where the
      viewer is no member any more; and it changes no room. */
  lemma RetryAnswers(e: Outside, s: Server, steps: seq<Step>, a: Answer, again: Request)
    requires Inv(s) && a in s.answers && Succeeded(a)
    requires again.room == a.request.room && again.body.clientId == a.request.body.clientId
    ensures var r := Run(e, s, steps);
            && again.room in r.world.rooms
            && Respond(e, r, again.room, again.body) ==
               (if r.world.rooms[again.room].member then Repeated(a.response.message) else NotFound)
            && Serve(e, r, again).world == r.world && Serve(e, r, again).sent == r.sent
  {
    hide KeyOf, Run, ReadState.Inv, ReadState.Next;
    var r := Run(e, s, steps);
    assert AnswerOk(s.sent, a);
    RunKeeps(e, s, steps);
    RunRemembers(e, s, steps, KeyOf(again.room, again.body.clientId.value));
  }

  /** A send that creates its message leaves its room read up to it, and every other answer leaves every
      room as it was. */
  lemma SendReads(e: Outside, s: Server, request: Request)
    requires Inv(s)
    ensures var response, w := Respond(e, s, request.room, request.body), Serve(e, s, request).world;
            if response.Created? then
              && request.room in w.rooms && w.rooms[request.room].lastRead == Some(response.message.id)
              && w.rooms[request.room].unreadAt.None? && w.rooms[request.room].mentionCount == 0 && Backlog(w.rooms[request.room]) == []
              && w.rooms[request.room].messages == s.world.rooms[request.room].messages + [response.message]
              && forall other | other in s.world.rooms && other != request.room :: other in w.rooms && w.rooms[other] == s.world.rooms[other]
            else w == s.world
  {
    hide KeyOf, Backlog, RoomOk;
    var id := s.world.nextMessageId;
    if Respond(e, s, request.room, request.body).Created? {
      var r := s.world.rooms[request.room];
      OwnPostReads(r, DraftFrom(request.body), id, e.now(id), request.room in e.present(id));
    }
  }

  // ---------------------------------------------------------------------------------------------
  // Every request once, in order
  // ---------------------------------------------------------------------------------------------

  function Asked(answers: seq<Answer>): seq<Request> {
    seq(|answers|, (i: nat) requires i < |answers| => answers[i].request)
  }

  /** What has arrived is what has been answered, then what is held, in order. */
  ghost predicate Queued(s: Server) {
    && Asked(s.answers) + s.held == s.arrived
    && (!s.holding ==> s.held == [])
  }

  lemma ServeAnswers(e: Outside, s: Server, request: Request)
    ensures var r := Serve(e, s, request);
            Asked(r.answers) == Asked(s.answers) + [request] && r.held == s.held && r.arrived == s.arrived && r.holding == s.holding
  {
    hide Respond;
  }

  lemma {:induction false} ServeAllAnswers(e: Outside, s: Server, requests: seq<Request>)
    ensures var r := ServeAll(e, s, requests);
            Asked(r.answers) == Asked(s.answers) + requests && r.held == s.held && r.arrived == s.arrived && r.holding == s.holding
  {
    if requests == [] {
      assert Asked(s.answers) + [] == Asked(s.answers);
    } else {
      hide Serve, Asked;
      var front, last := requests[..|requests| - 1], requests[|requests| - 1];
      ServeAllAnswers(e, s, front);
      ServeAnswers(e, ServeAll(e, s, front), last);
      assert Asked(s.answers) + requests == (Asked(s.answers) + front) + [last];
    }
  }

  lemma StepQueued(e: Outside, s: Server, step: Step)
    requires Queued(s)
    ensures Queued(Stepped(e, s, step))
    ensures step.Releases? || step == Holds(false) ==> Stepped(e, s, step).held == []
  {
    hide Respond, ServeAll;
    match step
    case Sends(request) =>
      if s.holding {
        assert Asked(s.answers) + (s.held + [request]) == (Asked(s.answers) + s.held) + [request];
      } else {
        var arriving := s.(arrived := s.arrived + [request]);
        ServeAllAnswers(e, arriving, [request]);
        ServeOne(e, arriving, request);
      }
    case Holds(on) => ServeAllAnswers(e, s.(holding := on, held := []), s.held);
    case Releases => ServeAllAnswers(e, s.(held := []), s.held);
    case Else(_) =>
  }

  lemma ServeOne(e: Outside, s: Server, request: Request)
    ensures ServeAll(e, s, [request]) == Serve(e, s, request)
  {
    assert [request][..0] == [];
  }

  /** Every request that has arrived is answered exactly once, in arrival order, as soon as nothing is
      held; while sends are held the rest wait in order. */
  lemma {:induction false} AnsweredInOrder(e: Outside, s: Server, steps: seq<Step>)
    requires Untouched(s)
    ensures Queued(Run(e, s, steps))
    ensures !Run(e, s, steps).holding ==> Asked(Run(e, s, steps).answers) == Run(e, s, steps).arrived
  {
    if steps == [] {
      assert Asked([]) == [];
    } else {
      hide Stepped, Untouched;
      AnsweredInOrder(e, s, steps[..|steps| - 1]);
      StepQueued(e, Run(e, s, steps[..|steps| - 1]), steps[|steps| - 1]);
    }
  }

  // ---------------------------------------------------------------------------------------------
  // The server's closures
  // ---------------------------------------------------------------------------------------------

  class PostingServer {
    const outside: Outside
    /** The rooms and their read state. */
    var world: State
    var sent: map<string, Message>
    var holding: bool
    var held: seq<Request>
    ghost var answers: seq<Answer>
    ghost var arrived: seq<Request>

    ghost function Now(): Server
      reads this
    {
      Server(world, sent, holding, held, answers, arrived)
    }

    /** `createFromClient`. */
    method CreateFrom(room: nat, body: Body) returns (response: Response)
      modifies this
      ensures Now() == CreateFromClient(outside, old(Now()), room, body)
      ensures response == Respond(outside, old(Now()), room, body)
    {
      if room !in world.rooms || !world.rooms[room].member {
        return NotFound;
      }
      if body.clientId.None? || body.clientId.value == "" {
        return Invalid("clientMessageId");
      }
      var key := KeyOf(room, body.clientId.value);
      if key in sent {
        return Repeated(sent[key]);
      }
      if !body.parses {
        return Invalid("message");
      }
      if body.replyTo.Some? && !HasMessage(world.rooms[room], body.replyTo.value) {
        return Invalid("replyToMessageId");
      }
      var id := world.nextMessageId;
      var message := NewMessage(world.rooms[room], DraftFrom(body), id, outside.now(id));
      world := Append(outside, world, room, DraftFrom(body));
      sent := sent[key := message];
      response := Created(message);
    }

    /** `whenReleased` around a posting request. `None` stands for a promise still open. */
    method Send(request: Request) returns (response: Option<Response>)
      modifies this
      ensures Now() == Stepped(outside, old(Now()), Sends(request))
      ensures response.None? <==> old(holding)
      ensures response.Some? ==> response.value == Respond(outside, old(Now()), request.room, request.body)
    {
      hide ReadState.Next, KeyOf;
      arrived := arrived + [request];
      if holding {
        held := held + [request];
        return None;
      }
      var r := CreateFrom(request.room, request.body);
      answers := answers + [Answer(request, r)];
      response := Some(r);
    }

    /** `release`: the queue is emptied first, then run in order. */
    method ReleaseHeld()
      modifies this
      ensures Now() == Release(outside, old(Now()))
    {
      hide ReadState.Next, KeyOf, Respond;
      var waiting := held;
      held := [];
      ghost var start := Now();
      for i := 0 to |waiting|
        invariant Now() == ServeAll(outside, start, waiting[..i])
      {
        assert waiting[..i + 1][..i] == waiting[..i];
        var r := CreateFrom(waiting[i].room, waiting[i].body);
        answers := answers + [Answer(waiting[i], r)];
      }
      assert waiting[..|waiting|] == waiting;
    }

    method HoldSends(on: bool)
      modifies this
      ensures Now() == Stepped(outside, old(Now()), Holds(on))
    {
      hide ServeAll;
      holding := on;
      if !on {
        ReleaseHeld();
      }
    }
  }
}
