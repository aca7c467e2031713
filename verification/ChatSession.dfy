// The chat client: asynchronous replies that stream into a list of messages,
// with a generation number that cuts off requests of an earlier conversation.
module ChatSession {
  import opened Wrappers
  import opened Sequences
  import opened EventFraming

  datatype Role = User | Assistant

  datatype Turn = Turn(role: Role, content: string)

  datatype Status = Streaming | Stopped | Errored

  datatype Message = Message(id: nat, turn: Turn, status: Option<Status>)

  // Where a request's asynchronous function stands. An abandoned request found
  // that the conversation it belonged to is gone.
  datatype Phase = Fetching | Receiving | Finished | Halted | Broken | Abandoned

  // The variables one call of send closes over.
  datatype Request = Request(generation: nat, prompt: string, answer: string, buffer: string, phase: Phase)

  // How the fetch ends: no response, a response that refuses, one that is no
  // stream, or a stream to read.
  datatype Fetched = Rejected(message: string) | Refused(message: string) | NotAStream | Stream

  predicate InFlight(r: Request) {
    r.phase.Fetching? || r.phase.Receiving?
  }

  function Shown(phase: Phase): Option<Status> {
    match phase
    case Finished => None
    case Halted => Some(Stopped)
    case Broken => Some(Errored)
    case _ => Some(Streaming)
  }

  function Exchange(id: nat, r: Request): seq<Message>
    requires id > 0
  {
    [Message(id - 1, Turn(User, r.prompt), None), Message(id, Turn(Assistant, r.answer), Shown(r.phase))]
  }

  predicate Known(requests: map<nat, Request>, sent: seq<nat>) {
    forall id <- sent :: id in requests && id > 0
  }

  // The messages of a conversation: every prompt with its reply, in order.
  function Transcript(requests: map<nat, Request>, sent: seq<nat>): seq<Message>
    requires Known(requests, sent)
  {
    if sent == [] then []
    else Transcript(requests, sent[..|sent| - 1]) + Exchange(sent[|sent| - 1], requests[sent[|sent| - 1]])
  }

  // What the next request carries: the prompts that got a complete answer,
  // each with that answer.
  function Answered(requests: map<nat, Request>, sent: seq<nat>): seq<Turn>
    requires Known(requests, sent)
  {
    if sent == [] then []
    else
      var last := requests[sent[|sent| - 1]];
      Answered(requests, sent[..|sent| - 1])
      + if last.phase.Finished? then [Turn(User, last.prompt), Turn(Assistant, last.answer)] else []
  }

  // Every request sent uses two identifiers, its own the second.
  predicate Numbered(sent: seq<nat>, top: nat) {
    && (forall k :: 0 <= k < |sent| ==> 1 < sent[k] <= top)
    && (forall j, k :: 0 <= j < k < |sent| ==> sent[j] + 1 < sent[k])
  }

  function Replied(messages: seq<Message>, id: nat, content: string, status: Option<Status>): seq<Message> {
    seq(|messages|, i requires 0 <= i < |messages| =>
      if messages[i].id == id then Message(id, Turn(messages[i].turn.role, content), status) else messages[i])
  }

  lemma FrontKnown(requests: map<nat, Request>, sent: seq<nat>)
    requires sent != [] && Known(requests, sent)
    ensures var front := sent[..|sent| - 1]; Known(requests, front) && forall id <- front :: id in sent
  {
    assert forall id <- sent[..|sent| - 1] :: id in sent;
  }

  lemma {:induction false} TranscriptIds(requests: map<nat, Request>, sent: seq<nat>, top: nat)
    requires Known(requests, sent) && Numbered(sent, top)
    ensures forall i :: 0 <= i < |Transcript(requests, sent)| ==> Transcript(requests, sent)[i].id <= top
  {
    if sent != [] {
      FrontKnown(requests, sent);
      TranscriptIds(requests, sent[..|sent| - 1], top);
    }
  }

  // A change to a request that was not sent in this conversation is not seen.
  lemma {:induction false} OthersUnseen(requests: map<nat, Request>, sent: seq<nat>, id: nat, r: Request)
    requires Known(requests, sent) && id !in sent
    ensures Known(requests[id := r], sent)
    ensures Transcript(requests[id := r], sent) == Transcript(requests, sent)
    ensures Answered(requests[id := r], sent) == Answered(requests, sent)
  {
    if sent != [] {
      FrontKnown(requests, sent);
      OthersUnseen(requests, sent[..|sent| - 1], id, r);
    }
  }

  // Neither is a change that keeps what is shown of a request.
  lemma {:induction false} KeptUnseen(requests: map<nat, Request>, sent: seq<nat>, id: nat, r: Request)
    requires Known(requests, sent) && id in requests
    requires r.prompt == requests[id].prompt && r.answer == requests[id].answer
    requires Shown(r.phase) == Shown(requests[id].phase)
    ensures Known(requests[id := r], sent)
    ensures Transcript(requests[id := r], sent) == Transcript(requests, sent)
    ensures Answered(requests[id := r], sent) == Answered(requests, sent)
  {
    if sent != [] {
      FrontKnown(requests, sent);
      KeptUnseen(requests, sent[..|sent| - 1], id, r);
    }
  }

  // Updating the last reply on the screen follows an update of its request.
  lemma LastReplied(requests: map<nat, Request>, sent: seq<nat>, r: Request)
    requires sent != [] && Known(requests, sent) && Numbered(sent, sent[|sent| - 1])
    requires r.prompt == requests[sent[|sent| - 1]].prompt
    ensures var id := sent[|sent| - 1];
            && Known(requests[id := r], sent)
            && Transcript(requests[id := r], sent) == Replied(Transcript(requests, sent), id, r.answer, Shown(r.phase))
            && Answered(requests[id := r], sent) ==
               Answered(requests, sent[..|sent| - 1])
               + if r.phase.Finished? then [Turn(User, r.prompt), Turn(Assistant, r.answer)] else []
  {
    var front, id := sent[..|sent| - 1], sent[|sent| - 1];
    OthersUnseen(requests, front, id, r);
    TranscriptIds(requests, front, id - 2);
  }

  datatype View = View(generation: nat, history: seq<Turn>, messages: seq<Message>, draft: string, error: string,
                       busy: bool, controller: Option<nat>, stopped: bool, frame: Option<nat>, pendingText: string)

  // The state of the client that the invariant is about, with the text read
  // for each request and the requests of this conversation.
  datatype Chat = Chat(generation: nat, history: seq<Turn>, messages: seq<Message>, nextId: nat, busy: bool,
                       controller: Option<nat>, aborted: set<nat>, frame: Option<nat>, pendingText: string,
                       requests: map<nat, Request>, received: map<nat, string>, sent: seq<nat>)

  // Identifiers are never used twice; a conversation is what was sent since
  // the last reset.
  predicate Registered(c: Chat) {
    && c.requests.Keys == c.received.Keys
    && (forall id <- c.requests :: 1 < id <= c.nextId && c.requests[id].generation <= c.generation)
    && Known(c.requests, c.sent) && Numbered(c.sent, c.nextId)
    && (forall id <- c.requests :: id in c.sent <==> c.requests[id].generation == c.generation)
  }

  // The messages show the whole conversation, the history its answered part.
  predicate Showing(c: Chat)
    requires Known(c.requests, c.sent)
  {
    c.messages == Transcript(c.requests, c.sent) && c.history == Answered(c.requests, c.sent)
  }

  // One request of the conversation is in flight while the client is busy, its
  // last; those of earlier conversations were told to abort.
  predicate Flying(c: Chat)
    requires Known(c.requests, c.sent)
  {
    && (forall id <- c.sent ::
          !c.requests[id].phase.Abandoned? && (InFlight(c.requests[id]) <==> c.controller == Some(id)))
    && (c.controller.Some? <==> c.busy)
    && (c.controller.Some? ==> c.sent != [] && c.controller.value == c.sent[|c.sent| - 1])
    && (c.frame.Some? ==> c.frame == c.controller)
    && (c.frame.None? ==> c.pendingText == "")
    && (forall id <- c.requests :: InFlight(c.requests[id]) && id !in c.sent ==> id in c.aborted)
  }

  // A live reply with its pending text is what was received; a reply that is
  // over is all that was received, and finished only if that was complete.
  predicate Faithful(p: Parser, r: Request, pending: string, received: string) {
    var heard := ReadText(p, received);
    && r.answer + (if InFlight(r) then pending else "") == Concat(heard.deltas)
    && (r.phase.Finished? <==> heard.ending.Completed?)
    && (InFlight(r) ==> heard.ending.Open? && r.buffer == Frames(received).rest)
  }

  predicate AllFaithful(p: Parser, c: Chat)
    requires Registered(c)
  {
    forall id <- c.sent :: Faithful(p, c.requests[id], c.pendingText, c.received[id])
  }

  predicate Sound(p: Parser, c: Chat) {
    Registered(c) && Showing(c) && Flying(c) && AllFaithful(p, c)
  }

  // ---- What each event does to that state ----

  function Asked(c: Chat, prompt: string): Chat {
    var id := c.nextId + 2;
    var r := Request(c.generation, prompt, "", "", Fetching);
    c.(nextId := id, messages := c.messages + Exchange(id, r), busy := true, controller := Some(id),
       requests := c.requests[id := r], received := c.received[id := ""], sent := c.sent + [id])
  }

  lemma AskedRegistered(c: Chat, prompt: string)
    requires Registered(c)
    ensures Registered(Asked(c, prompt))
  {
    var c' := Asked(c, prompt);
    var id := c.nextId + 2;
    assert c'.sent == c.sent + [id];
    assert forall i <- c.sent :: i in c'.sent;
    assert forall i <- c'.sent :: i in c.sent || i == id;
  }

  lemma NewFaithful(p: Parser, generation: nat, prompt: string)
    ensures Faithful(p, Request(generation, prompt, "", "", Fetching), "", "")
  {
    assert Frames("") == Framing([], "");
    assert Effects(p, []) == [];
  }

  // What is pending matters to nobody but the request in flight.
  lemma OthersFaithful(p: Parser, c: Chat, c': Chat, id: nat)
    requires Registered(c) && Flying(c) && AllFaithful(p, c) && Registered(c')
    requires forall k <- c'.sent :: k != id ==>
               k in c.sent && c'.requests[k] == c.requests[k] && c'.received[k] == c.received[k]
    requires c.controller.None? || c.controller == Some(id) || c'.pendingText == c.pendingText
    requires id in c'.sent ==> Faithful(p, c'.requests[id], c'.pendingText, c'.received[id])
    ensures AllFaithful(p, c')
  {
    forall k <- c'.sent | k != id
      ensures Faithful(p, c'.requests[k], c'.pendingText, c'.received[k])
    {
      assert InFlight(c.requests[k]) ==> c.controller == Some(k);
      StillFaithful(p, c.requests[k], c.pendingText, c'.pendingText, c.received[k]);
    }
  }

  lemma StillFaithful(p: Parser, r: Request, pending: string, later: string, received: string)
    requires Faithful(p, r, pending, received)
    requires InFlight(r) ==> later == pending
    ensures Faithful(p, r, later, received)
  {
  }

  lemma AskedKeeps(p: Parser, c: Chat, prompt: string)
    requires Sound(p, c) && !c.busy
    ensures Sound(p, Asked(c, prompt))
  {
    AskedRegistered(c, prompt);
    AskedFlying(c, prompt);
    AskedFaithful(p, c, prompt);
  }

  lemma AskedFaithful(p: Parser, c: Chat, prompt: string)
    requires Registered(c) && Flying(c) && AllFaithful(p, c) && !c.busy
    requires Registered(Asked(c, prompt))
    ensures AllFaithful(p, Asked(c, prompt))
  {
    NewFaithful(p, c.generation, prompt);
    OthersFaithful(p, c, Asked(c, prompt), c.nextId + 2);
  }

  lemma AskedFlying(c: Chat, prompt: string)
    requires Registered(c) && Showing(c) && Flying(c) && !c.busy
    requires Registered(Asked(c, prompt))
    ensures Showing(Asked(c, prompt)) && Flying(Asked(c, prompt))
  {
    var c' := Asked(c, prompt);
    var id := c.nextId + 2;
    SentSnoc(c.requests, c.sent, id, c'.requests[id]);
    AskedAlone(c, prompt);
  }

  lemma SentSnoc(requests: map<nat, Request>, sent: seq<nat>, id: nat, r: Request)
    requires Known(requests, sent) && id !in requests && id > 0 && InFlight(r)
    ensures Known(requests[id := r], sent + [id])
    ensures Transcript(requests[id := r], sent + [id]) == Transcript(requests, sent) + Exchange(id, r)
    ensures Answered(requests[id := r], sent + [id]) == Answered(requests, sent)
  {
    OthersUnseen(requests, sent, id, r);
    assert (sent + [id])[..|sent|] == sent;
  }

  lemma AskedAlone(c: Chat, prompt: string)
    requires Registered(c) && Flying(c) && !c.busy
    requires Registered(Asked(c, prompt))
    ensures Flying(Asked(c, prompt))
  {
    assert forall id <- Asked(c, prompt).sent :: id in c.sent || id == c.nextId + 2;
  }

  // A request of an earlier conversation moves on.
  function Moved(c: Chat, id: nat, r: Request, text: string): Chat {
    c.(requests := c.requests[id := r], received := c.received[id := text])
  }

  lemma StaleKeeps(p: Parser, c: Chat, id: nat, r: Request, text: string)
    requires Sound(p, c) && id in c.requests && id !in c.sent
    requires r.generation == c.requests[id].generation
    requires InFlight(r) ==> InFlight(c.requests[id])
    ensures Sound(p, Moved(c, id, r, text))
  {
    StaleFlying(c, id, r, text);
    OthersFaithful(p, c, Moved(c, id, r, text), id);
  }

  lemma StaleFlying(c: Chat, id: nat, r: Request, text: string)
    requires Registered(c) && Showing(c) && Flying(c) && id in c.requests && id !in c.sent
    requires r.generation == c.requests[id].generation
    requires InFlight(r) ==> InFlight(c.requests[id])
    ensures var c' := Moved(c, id, r, text); Registered(c') && Showing(c') && Flying(c')
  {
    OthersUnseen(c.requests, c.sent, id, r);
  }

  // The request in flight moves on without being shown differently.
  function Progressed(c: Chat, id: nat, r: Request, text: string, frame: Option<nat>, pending: string): Chat {
    Moved(c, id, r, text).(frame := frame, pendingText := pending)
  }

  lemma ProgressKeeps(p: Parser, c: Chat, id: nat, r: Request, text: string, frame: Option<nat>, pending: string)
    requires Sound(p, c) && c.controller == Some(id)
    requires r.generation == c.requests[id].generation && InFlight(r)
    requires r.prompt == c.requests[id].prompt && r.answer == c.requests[id].answer
    requires frame.Some? ==> frame == Some(id)
    requires frame.None? ==> pending == ""
    requires Faithful(p, r, pending, text)
    ensures Sound(p, Progressed(c, id, r, text, frame, pending))
  {
    ProgressFlying(c, id, r, text, frame, pending);
    OthersFaithful(p, c, Progressed(c, id, r, text, frame, pending), id);
  }

  lemma ProgressFlying(c: Chat, id: nat, r: Request, text: string, frame: Option<nat>, pending: string)
    requires Registered(c) && Showing(c) && Flying(c) && c.controller == Some(id)
    requires r.generation == c.requests[id].generation && InFlight(r)
    requires r.prompt == c.requests[id].prompt && r.answer == c.requests[id].answer
    requires frame.Some? ==> frame == Some(id)
    requires frame.None? ==> pending == ""
    ensures var c' := Progressed(c, id, r, text, frame, pending); Registered(c') && Showing(c') && Flying(c')
  {
    ProgressRegistered(c, id, r, text, frame, pending);
    KeptUnseen(c.requests, c.sent, id, r);
  }

  lemma ProgressRegistered(c: Chat, id: nat, r: Request, text: string, frame: Option<nat>, pending: string)
    requires Registered(c) && id in c.requests && r.generation == c.requests[id].generation
    ensures Registered(Progressed(c, id, r, text, frame, pending))
  {
  }

  // A frame draws what is pending.
  function Drawn(c: Chat, id: nat): Chat
    requires id in c.requests
  {
    var r := c.requests[id];
    var r' := r.(answer := r.answer + c.pendingText);
    c.(requests := c.requests[id := r'], messages := Replied(c.messages, id, r'.answer, Some(Streaming)),
       frame := None, pendingText := "")
  }

  lemma DrawnKeeps(p: Parser, c: Chat, id: nat)
    requires Sound(p, c) && c.controller == Some(id)
    ensures Sound(p, Drawn(c, id))
  {
    DrawnFlying(c, id);
    DrawnFaithful(p, c.requests[id], c.pendingText, c.received[id]);
    OthersFaithful(p, c, Drawn(c, id), id);
  }

  lemma DrawnFaithful(p: Parser, r: Request, pending: string, received: string)
    requires Faithful(p, r, pending, received) && InFlight(r)
    ensures Faithful(p, r.(answer := r.answer + pending), "", received)
  {
    assert r.answer + pending + "" == r.answer + pending;
  }

  lemma DrawnFlying(c: Chat, id: nat)
    requires Registered(c) && Showing(c) && Flying(c) && c.controller == Some(id)
    ensures Registered(Drawn(c, id)) && Showing(Drawn(c, id)) && Flying(Drawn(c, id))
  {
    ReplyShown(c, id, Drawn(c, id).requests[id]);
  }

  lemma NothingDrawn(c: Chat, id: nat)
    requires Registered(c) && Showing(c) && Flying(c) && c.controller == Some(id) && c.pendingText == ""
    ensures Drawn(c, id).messages == c.messages
  {
    var r := c.requests[id];
    assert r.answer + "" == r.answer;
    assert c.requests[id := r] == c.requests;
    ReplyShown(c, id, r);
  }

  // The history is the answered part of the messages but for the last request.
  lemma ReplyShown(c: Chat, id: nat, r: Request)
    requires Registered(c) && Showing(c) && Flying(c) && c.controller == Some(id)
    requires r.prompt == c.requests[id].prompt
    ensures Known(c.requests[id := r], c.sent)
    ensures Transcript(c.requests[id := r], c.sent) == Replied(c.messages, id, r.answer, Shown(r.phase))
    ensures Answered(c.requests[id := r], c.sent) ==
            c.history + if r.phase.Finished? then [Turn(User, r.prompt), Turn(Assistant, r.answer)] else []
  {
    LastReplied(c.requests, c.sent, r);
    assert InFlight(c.requests[id]);
    assert c.history == Answered(c.requests, c.sent[..|c.sent| - 1]);
  }

  // A reply ends, after the text and what is pending have moved on.
  function Ended(c: Chat, id: nat, phase: Phase, text: string, pending: string): Chat
    requires id in c.requests
  {
    var r := c.requests[id];
    var r' := r.(answer := r.answer + pending, phase := phase);
    c.(requests := c.requests[id := r'], received := c.received[id := text],
       messages := Replied(c.messages, id, r'.answer, Shown(phase)),
       history := c.history + (if phase.Finished? then [Turn(User, r.prompt), Turn(Assistant, r'.answer)] else []),
       frame := None, pendingText := "", controller := None, busy := false)
  }

  lemma EndedKeeps(p: Parser, c: Chat, id: nat, phase: Phase, text: string, pending: string)
    requires Sound(p, c) && c.controller == Some(id)
    requires phase.Finished? || phase.Halted? || phase.Broken?
    requires c.requests[id].answer + pending == Concat(ReadText(p, text).deltas)
    requires phase.Finished? <==> ReadText(p, text).ending.Completed?
    ensures Sound(p, Ended(c, id, phase, text, pending))
  {
    EndedFlying(c, id, phase, text, pending);
    var r := Ended(c, id, phase, text, pending).requests[id];
    assert r.answer + "" == r.answer;
    OthersFaithful(p, c, Ended(c, id, phase, text, pending), id);
  }

  lemma EndedFlying(c: Chat, id: nat, phase: Phase, text: string, pending: string)
    requires Registered(c) && Showing(c) && Flying(c) && c.controller == Some(id)
    requires phase.Finished? || phase.Halted? || phase.Broken?
    ensures var c' := Ended(c, id, phase, text, pending); Registered(c') && Showing(c') && Flying(c')
  {
    ReplyShown(c, id, Ended(c, id, phase, text, pending).requests[id]);
  }

  // What happens to a request whose text is complete, and to one that fails.

  function Succeeding(c: Chat, id: nat, text: string, pending: string): Chat
    requires id in c.requests
  {
    if c.requests[id].generation != c.generation then Moved(c, id, c.requests[id].(phase := Abandoned), text)
    else Ended(c, id, Finished, text, pending)
  }

  function Failing(c: Chat, id: nat, stopped: bool, text: string, pending: string): Chat
    requires id in c.requests
  {
    if c.requests[id].generation != c.generation then Moved(c, id, c.requests[id].(phase := Abandoned), text)
    else Ended(c, id, if stopped then Halted else Broken, text, pending)
  }

  lemma SucceedingKeeps(p: Parser, c: Chat, id: nat, text: string, pending: string)
    requires Sound(p, c) && id in c.requests && InFlight(c.requests[id])
    requires c.requests[id].generation == c.generation ==>
               && ReadText(p, text).ending.Completed?
               && c.requests[id].answer + pending == Concat(ReadText(p, text).deltas)
    ensures Sound(p, Succeeding(c, id, text, pending))
  {
    if c.requests[id].generation != c.generation {
      StaleKeeps(p, c, id, c.requests[id].(phase := Abandoned), text);
    } else {
      EndedKeeps(p, c, id, Finished, text, pending);
    }
  }

  lemma FailingKeeps(p: Parser, c: Chat, id: nat, stopped: bool, text: string, pending: string)
    requires Sound(p, c) && id in c.requests && InFlight(c.requests[id])
    requires c.requests[id].generation == c.generation ==>
               && !ReadText(p, text).ending.Completed?
               && c.requests[id].answer + pending == Concat(ReadText(p, text).deltas)
    ensures Sound(p, Failing(c, id, stopped, text, pending))
  {
    if c.requests[id].generation != c.generation {
      StaleKeeps(p, c, id, c.requests[id].(phase := Abandoned), text);
    } else {
      EndedKeeps(p, c, id, if stopped then Halted else Broken, text, pending);
    }
  }

  // A chunk arrives: what its events say is taken in, and may end the reply.

  function TakenIn(c: Chat, id: nat, deltas: seq<string>): Chat
    requires id in c.requests
  {
    if c.requests[id].generation != c.generation then c
    else c.(pendingText := c.pendingText + Concat(deltas),
            frame := if deltas != [] && c.frame.None? then Some(id) else c.frame)
  }

  lemma TakenInTwice(c: Chat, id: nat, deltas: seq<string>, more: seq<string>)
    requires id in c.requests && Concat(deltas + more) == Concat(deltas) + Concat(more)
    ensures TakenIn(TakenIn(c, id, deltas), id, more) == TakenIn(c, id, deltas + more)
  {
  }

  function Turned(c: Chat, id: nat, text: string, rest: string, ending: Ending, stopped: bool): Chat
    requires id in c.requests
  {
    match ending
    case Open => Moved(c, id, c.requests[id].(buffer := rest), text)
    case Completed => Succeeding(c, id, text, c.pendingText)
    case Failed(_) => Failing(c, id, stopped, text, c.pendingText)
  }

  function Chunked(p: Parser, c: Chat, id: nat, chunk: string, stopped: bool): Chat
    requires id in c.requests && id in c.received
  {
    var text := c.requests[id].buffer + chunk;
    var said := ReadText(p, text);
    Turned(TakenIn(c, id, said.deltas), id, c.received[id] + chunk, Frames(text).rest, said.ending, stopped)
  }

  // The message on the page after a chunk: that of a failing event, unless the
  // request is cut off or the user stopped it.
  function ErrorAfter(p: Parser, c: Chat, id: nat, chunk: string, stopped: bool, error: string): string
    requires id in c.requests
  {
    var ending := ReadText(p, c.requests[id].buffer + chunk).ending;
    if c.requests[id].generation == c.generation && !stopped && ending.Failed? then ending.message else error
  }

  // A reply that was faithful takes in what a chunk adds.
  predicate Continues(r: Request, pending: string, before: Reading, said: Reading, heard: Reading) {
    && heard.ending == said.ending
    && r.answer + (pending + Concat(said.deltas)) == Concat(heard.deltas)
  }

  lemma HeardMore(r: Request, pending: string, before: Reading, said: Reading)
    requires before.ending.Open? && r.answer + pending == Concat(before.deltas)
    ensures Continues(r, pending, before, said, Then(before, said))
  {
    ConcatAppend(before.deltas, said.deltas);
    assert r.answer + (pending + Concat(said.deltas)) == (r.answer + pending) + Concat(said.deltas);
  }

  lemma ChunkHeard(p: Parser, r: Request, pending: string, received: string, chunk: string)
    requires Faithful(p, r, pending, received) && InFlight(r)
    ensures Continues(r, pending, ReadText(p, received), ReadText(p, r.buffer + chunk), ReadText(p, received + chunk))
    ensures Frames(received + chunk).rest == Frames(r.buffer + chunk).rest
  {
    FeedReads(p, received, r.buffer, chunk);
    HeardMore(r, pending, ReadText(p, received), ReadText(p, r.buffer + chunk));
  }

  lemma TurnedKeeps(p: Parser, c: Chat, id: nat, text: string, rest: string, said: Reading, stopped: bool)
    requires Sound(p, c) && id in c.requests && c.requests[id].phase.Receiving?
    requires c.requests[id].generation == c.generation ==>
               && Continues(c.requests[id], c.pendingText, ReadText(p, c.received[id]), said, ReadText(p, text))
               && rest == Frames(text).rest
    ensures Sound(p, Turned(TakenIn(c, id, said.deltas), id, text, rest, said.ending, stopped))
  {
    var c1 := TakenIn(c, id, said.deltas);
    match said.ending {
      case Open =>
        var r := c.requests[id].(buffer := rest);
        if r.generation != c.generation {
          StaleKeeps(p, c, id, r, text);
        } else {
          ProgressKeeps(p, c, id, r, text, c1.frame, c1.pendingText);
          assert Moved(c1, id, r, text) == Progressed(c, id, r, text, c1.frame, c1.pendingText);
        }
      case Completed => SucceedingKeeps(p, c, id, text, c1.pendingText);
      case Failed(_) => FailingKeeps(p, c, id, stopped, text, c1.pendingText);
    }
  }

  lemma ChunkedKeeps(p: Parser, c: Chat, id: nat, chunk: string, stopped: bool)
    requires Sound(p, c) && id in c.requests && c.requests[id].phase.Receiving?
    ensures Sound(p, Chunked(p, c, id, chunk, stopped))
  {
    var r := c.requests[id];
    if r.generation == c.generation {
      ChunkHeard(p, r, c.pendingText, c.received[id], chunk);
    }
    var text := r.buffer + chunk;
    TurnedKeeps(p, c, id, c.received[id] + chunk, Frames(text).rest, ReadText(p, text), stopped);
  }

  // The history grows only by a prompt with its complete answer, and only when
  // the text received for a request of this conversation becomes complete.
  lemma HistoryGrowsByAnswers(p: Parser, c: Chat, id: nat, chunk: string, stopped: bool)
    requires Sound(p, c) && id in c.requests && c.requests[id].phase.Receiving?
    ensures var heard := ReadText(p, c.received[id] + chunk);
            Chunked(p, c, id, chunk, stopped).history == c.history +
              if c.requests[id].generation == c.generation && heard.ending.Completed?
              then [Turn(User, c.requests[id].prompt), Turn(Assistant, Concat(heard.deltas))]
              else []
  {
    var r := c.requests[id];
    var text := r.buffer + chunk;
    var said := ReadText(p, text);
    if r.generation == c.generation {
      ChunkHeard(p, r, c.pendingText, c.received[id], chunk);
    }
    TurnedHistory(c, id, c.received[id] + chunk, Frames(text).rest, said, stopped);
  }

  lemma TurnedHistory(c: Chat, id: nat, text: string, rest: string, said: Reading, stopped: bool)
    requires id in c.requests
    ensures var r := c.requests[id];
            Turned(TakenIn(c, id, said.deltas), id, text, rest, said.ending, stopped).history == c.history +
              if r.generation == c.generation && said.ending.Completed?
              then [Turn(User, r.prompt), Turn(Assistant, r.answer + (c.pendingText + Concat(said.deltas)))]
              else []
  {
    assert c.history + [] == c.history;
  }

  // All that is not a request's own.
  function Shared(c: Chat): Chat {
    c.(requests := map[], received := map[])
  }

  lemma StaleChunk(p: Parser, c: Chat, id: nat, chunk: string, stopped: bool)
    requires id in c.requests && id in c.received && c.requests[id].generation != c.generation
    ensures Shared(Chunked(p, c, id, chunk, stopped)) == Shared(c)
    ensures forall k <- c.requests :: k != id ==> Chunked(p, c, id, chunk, stopped).requests[k] == c.requests[k]
  {
  }

  lemma FailedKeeps(p: Parser, c: Chat, id: nat, stopped: bool)
    requires Sound(p, c) && id in c.requests && InFlight(c.requests[id])
    ensures Sound(p, Failing(c, id, stopped, c.received[id], c.pendingText))
  {
    FailingKeeps(p, c, id, stopped, c.received[id], c.pendingText);
  }

  function Opened(c: Chat, id: nat): Chat
    requires id in c.requests && id in c.received
  {
    Moved(c, id, c.requests[id].(phase := Receiving), c.received[id])
  }

  lemma OpenedKeeps(p: Parser, c: Chat, id: nat)
    requires Sound(p, c) && id in c.requests && c.requests[id].phase.Fetching?
    ensures Sound(p, Opened(c, id))
  {
    var r := c.requests[id].(phase := Receiving);
    if id in c.sent {
      ProgressKeeps(p, c, id, r, c.received[id], c.frame, c.pendingText);
      assert Opened(c, id) == Progressed(c, id, r, c.received[id], c.frame, c.pendingText);
    } else {
      StaleKeeps(p, c, id, r, c.received[id]);
    }
  }

  function Cleared(c: Chat): Chat {
    c.(generation := c.generation + 1, history := [], messages := [], busy := false, controller := None,
       aborted := if c.controller.Some? then c.aborted + {c.controller.value} else c.aborted,
       frame := None, pendingText := "", sent := [])
  }

  lemma ClearedKeeps(p: Parser, c: Chat)
    requires Sound(p, c)
    ensures Sound(p, Cleared(c))
  {
  }

  function Told(c: Chat): Chat {
    c.(aborted := if c.controller.Some? then c.aborted + {c.controller.value} else c.aborted)
  }

  lemma ToldKeeps(p: Parser, c: Chat)
    requires Sound(p, c)
    ensures Sound(p, Told(c))
  {
  }

  // ---- What the page shows ----

  // One reply is shown anew, with this content and status; no other message
  // changes.
  predicate Shows(before: seq<Message>, after: seq<Message>, id: nat, content: string, status: Option<Status>) {
    && |after| == |before|
    && forall i :: 0 <= i < |before| ==>
         after[i] == if before[i].id == id then Message(id, Turn(before[i].turn.role, content), status) else before[i]
  }

  // A reply is over: shown with this answer and status, and the page is free
  // for the next.
  predicate ReplyOver(c: Chat, c': Chat, id: nat, answer: string, status: Option<Status>) {
    && Shows(c.messages, c'.messages, id, answer, status)
    && !c'.busy && c'.controller == None && c'.frame == None && c'.pendingText == ""
  }

  // A question appears with an empty reply that is streaming, and is the one
  // request in flight.
  predicate AskedShown(c: Chat, c': Chat, prompt: string) {
    var id := c.nextId + 2;
    && c'.messages == c.messages + [Message(id - 1, Turn(User, prompt), None),
                                    Message(id, Turn(Assistant, ""), Some(Streaming))]
    && c'.busy && c'.controller == Some(id) && c'.nextId == id && c'.history == c.history
    && c'.generation == c.generation && c'.aborted == c.aborted
  }

  lemma AskedShows(c: Chat, prompt: string)
    ensures AskedShown(c, Asked(c, prompt), prompt)
  {
  }

  // A failed reply keeps what was received and says whether the user stopped
  // it; it is not part of the history.
  lemma FailingShows(c: Chat, id: nat, stopped: bool, text: string, pending: string)
    requires id in c.requests && c.requests[id].generation == c.generation
    ensures var c' := Failing(c, id, stopped, text, pending);
            && ReplyOver(c, c', id, c.requests[id].answer + pending, if stopped then Some(Stopped) else Some(Errored))
            && c'.history == c.history
  {
    assert c.history + [] == c.history;
  }

  // A complete reply has no status any more, and the history gains it with its
  // prompt.
  lemma SucceedingShows(c: Chat, id: nat, text: string, pending: string)
    requires id in c.requests && c.requests[id].generation == c.generation
    ensures var c', r := Succeeding(c, id, text, pending), c.requests[id];
            && ReplyOver(c, c', id, r.answer + pending, None)
            && c'.history == c.history + [Turn(User, r.prompt), Turn(Assistant, r.answer + pending)]
  {
  }

  // What a chunk does to the page: it waits for the next frame, or ends the
  // reply as complete, failed or stopped, with all that was received.
  predicate ChunkShown(c: Chat, c': Chat, id: nat, said: Reading, stopped: bool)
    requires id in c.requests
  {
    var r, pending := c.requests[id], c.pendingText + Concat(said.deltas);
    match said.ending
    case Open =>
      c'.messages == c.messages && c'.history == c.history && c'.busy == c.busy && c'.pendingText == pending
    case Completed =>
      && ReplyOver(c, c', id, r.answer + pending, None)
      && c'.history == c.history + [Turn(User, r.prompt), Turn(Assistant, r.answer + pending)]
    case Failed(_) =>
      && ReplyOver(c, c', id, r.answer + pending, if stopped then Some(Stopped) else Some(Errored))
      && c'.history == c.history
  }

  lemma ChunkShows(p: Parser, c: Chat, id: nat, chunk: string, stopped: bool)
    requires id in c.requests && id in c.received && c.requests[id].generation == c.generation
    ensures ChunkShown(c, Chunked(p, c, id, chunk, stopped), id, ReadText(p, c.requests[id].buffer + chunk), stopped)
  {
    var said := ReadText(p, c.requests[id].buffer + chunk);
    var c1, text := TakenIn(c, id, said.deltas), c.received[id] + chunk;
    match said.ending
    case Open =>
    case Completed => SucceedingShows(c1, id, text, c1.pendingText);
    case Failed(_) => FailingShows(c1, id, stopped, text, c1.pendingText);
  }

  // The page in any state: the k-th exchange is its prompt and its reply, with
  // a status that says how the reply stands.
  lemma {:induction false} ExchangeShown(requests: map<nat, Request>, sent: seq<nat>, k: nat)
    requires Known(requests, sent) && k < |sent|
    ensures var page, r := Transcript(requests, sent), requests[sent[k]];
            && |page| == 2 * |sent|
            && page[2 * k] == Message(sent[k] - 1, Turn(User, r.prompt), None)
            && page[2 * k + 1] == Message(sent[k], Turn(Assistant, r.answer),
                 if r.phase == Finished then None
                 else if r.phase == Halted then Some(Stopped)
                 else if r.phase == Broken then Some(Errored)
                 else Some(Streaming))
    decreases |sent|
  {
    var front := sent[..|sent| - 1];
    FrontKnown(requests, sent);
    if front == [] {
      assert Transcript(requests, front) == [];
    } else {
      ExchangeShown(requests, front, if k < |front| then k else 0);
    }
  }

  // ---- Runs ----

  // Whatever can happen next: fetches, reads and frames complete in any order
  // and at any time.
  datatype Happening =
    | Asks(prompt: string)
    | Opens(id: nat)
    | Reads(id: nat, chunk: string, stopped: bool)
    | Fails(id: nat, stopped: bool)
    | Draws
    | Stops
    | Resets

  predicate CanHappen(c: Chat, e: Happening) {
    match e
    case Asks(_) => !c.busy
    case Opens(id) => id in c.requests && id in c.received && c.requests[id].phase.Fetching?
    case Reads(id, _, _) => id in c.requests && id in c.received && c.requests[id].phase.Receiving?
    case Fails(id, _) => id in c.requests && id in c.received && InFlight(c.requests[id])
    case Draws => c.frame.Some? && c.frame.value in c.requests
    case Stops => true
    case Resets => true
  }

  function Happened(p: Parser, c: Chat, e: Happening): Chat
    requires CanHappen(c, e)
  {
    match e
    case Asks(prompt) => Asked(c, prompt)
    case Opens(id) => Opened(c, id)
    case Reads(id, chunk, stopped) => Chunked(p, c, id, chunk, stopped)
    case Fails(id, stopped) => Failing(c, id, stopped, c.received[id], c.pendingText)
    case Draws => Drawn(c, c.frame.value)
    case Stops => Told(c)
    case Resets => Cleared(c)
  }

  // The request whose fetch or read an event is.
  function Caller(e: Happening): Option<nat> {
    match e
    case Opens(id) => Some(id)
    case Reads(id, _, _) => Some(id)
    case Fails(id, _) => Some(id)
    case _ => None
  }

  // Whatever comes of a request of an earlier conversation, it changes nothing
  // that is shared and no other request.
  lemma StaleChangesNothing(p: Parser, c: Chat, e: Happening)
    requires CanHappen(c, e) && Caller(e).Some? && c.requests[Caller(e).value].generation != c.generation
    ensures Shared(Happened(p, c, e)) == Shared(c)
    ensures forall id <- c.requests :: id != Caller(e).value ==>
              id in Happened(p, c, e).requests && Happened(p, c, e).requests[id] == c.requests[id]
  {
    if e.Reads? {
      StaleChunk(p, c, e.id, e.chunk, e.stopped);
    }
  }

  lemma HappenedKeeps(p: Parser, c: Chat, e: Happening)
    requires Sound(p, c) && CanHappen(c, e)
    ensures Sound(p, Happened(p, c, e))
  {
    match e
    case Asks(prompt) => AskedKeeps(p, c, prompt);
    case Opens(id) => OpenedKeeps(p, c, id);
    case Reads(id, chunk, stopped) => ChunkedKeeps(p, c, id, chunk, stopped);
    case Fails(id, stopped) => FailedKeeps(p, c, id, stopped);
    case Draws => DrawnKeeps(p, c, c.frame.value);
    case Stops => ToldKeeps(p, c);
    case Resets => ClearedKeeps(p, c);
  }

  const FRESH_CHAT := Chat(0, [], [], 0, false, None, {}, None, "", map[], map[], [])

  ghost predicate IsRun(p: Parser, states: seq<Chat>, events: seq<Happening>) {
    && |states| == |events| + 1 && states[0] == FRESH_CHAT
    && forall i :: 0 <= i < |events| ==>
         CanHappen(states[i], events[i]) && states[i + 1] == Happened(p, states[i], events[i])
  }

  // In every state of every run each reply of the conversation, with what is
  // pending, is what was received for it, and the history is the part of the
  // messages that was answered completely.
  lemma {:induction false} RunIsSound(p: Parser, states: seq<Chat>, events: seq<Happening>, i: nat)
    requires IsRun(p, states, events) && i < |states|
    ensures Sound(p, states[i])
  {
    if i > 0 {
      RunIsSound(p, states, events, i - 1);
      HappenedKeeps(p, states[i - 1], events[i - 1]);
    }
  }

  // The events taken from a text so far, what they said, and what is left.
  ghost predicate Taken(p: Parser, text: string, taken: seq<string>, deltas: seq<string>, rest: string,
                        ending: Ending)
  {
    Frames(text) == After(taken, Frames(rest)) && ReadEvents(p, taken) == Reading(deltas, ending)
  }

  lemma NoneTaken(p: Parser, text: string)
    ensures Taken(p, text, [], [], text, Open)
  {
    assert Effects(p, []) == [];
  }

  lemma TakeOne(p: Parser, text: string, taken: seq<string>, deltas: seq<string>, rest: string,
                first: Boundary, more: seq<string>, ending: Ending)
    requires FirstBoundary(rest) == Some(first) && Taken(p, text, taken, deltas, rest, Open)
    requires ReadEvents(p, [rest[..first.index]]) == Reading(more, ending)
    ensures Taken(p, text, taken + [rest[..first.index]], deltas + more, rest[first.index + first.len..], ending)
    ensures Concat(deltas + more) == Concat(deltas) + Concat(more)
  {
    var event := rest[..first.index];
    FramesUnfold(rest, first);
    TakenThen(taken, event, Frames(rest[first.index + first.len..]));
    ReadEventsAppend(p, taken, [event]);
    ConcatAppend(deltas, more);
  }

  lemma TakenThen(taken: seq<string>, event: string, later: Framing)
    ensures After(taken, Before(event, later)) == After(taken + [event], later)
  {
  }

  lemma AllTaken(p: Parser, text: string, taken: seq<string>, deltas: seq<string>, rest: string, ending: Ending)
    requires Taken(p, text, taken, deltas, rest, ending)
    requires ending.Open? ==> FirstBoundary(rest).None?
    ensures ReadText(p, text) == Reading(deltas, ending)
    ensures ending.Open? ==> rest == Frames(text).rest
  {
    ReadEventsAppend(p, taken, Frames(rest).events);
    if ending.Open? {
      assert Frames(rest) == Framing([], rest);
      assert taken + [] == taken;
    }
  }

  class ChatView {
    const parser: Parser
    const trim: string -> string
    var generation: nat
    var history: seq<Turn>
    var messages: seq<Message>
    var nextId: nat
    var draft: string
    var error: string
    var busy: bool
    var controller: Option<nat>    // the request that stop and reset abort
    var aborted: set<nat>
    var stopped: bool
    var frame: Option<nat>         // the request whose flush the next frame runs
    var pendingText: string
    var requests: map<nat, Request>
    ghost var received: map<nat, string>
    ghost var sent: seq<nat>

    ghost function State(): Chat
      reads this
    {
      Chat(generation, history, messages, nextId, busy, controller, aborted, frame, pendingText,
           requests, received, sent)
    }

    ghost predicate Valid()
      reads this
    {
      Sound(parser, State())
    }

    // What the user of the page can notice, now or later.
    ghost function Page(): View
      reads this
    {
      View(generation, history, messages, draft, error, busy, controller, stopped, frame, pendingText)
    }

    predicate IsStale(id: nat)
      requires id in requests
      reads this
    {
      requests[id].generation != generation
    }

    constructor (parser: Parser, trim: string -> string)
      ensures Valid() && this.parser == parser && this.trim == trim && State() == FRESH_CHAT
    {
      this.parser, this.trim := parser, trim;
      generation, history, messages, nextId := 0, [], [], 0;
      draft, error, busy, controller, aborted, stopped := "", "", false, None, {}, false;
      frame, pendingText, requests, received, sent := None, "", map[], map[], [];
    }

    // Starts a request; the result is the conversation it carries.
    method Send(model: string, account: string) returns (body: Option<seq<Turn>>)
      requires Valid()
      modifies this
      ensures Valid()
      ensures body.None? <==> trim(old(draft)) == "" || model == "" || old(busy) || account == ""
      ensures body.None? ==> Page() == old(Page()) && State() == old(State())
      ensures body.Some? ==>
                var id, prompt := old(nextId) + 2, trim(old(draft));
                && body.value == old(history) + [Turn(User, prompt)]
                && State() == Asked(old(State()), prompt)
                && draft == "" && error == "" && !stopped
                && AskedShown(old(State()), State(), prompt)
    {
      var prompt := trim(draft);
      if prompt == "" || model == "" || busy || account == "" {
        return None;
      }
      AskedKeeps(parser, State(), prompt);
      AskedShows(State(), prompt);
      Ask(prompt);
      return Some(history + [Turn(User, prompt)]);
    }

    method Ask(prompt: string)
      modifies this
      ensures State() == Asked(old(State()), prompt)
      ensures draft == "" && error == "" && !stopped
    {
      ghost var c := State();
      ShowPrompt(prompt);
      var id := nextId;
      draft, error, busy, stopped, controller := "", "", true, false, Some(id);
      requests := requests[id := Request(generation, prompt, "", "", Fetching)];
      received, sent := received[id := ""], sent + [id];
    }

    method ShowPrompt(prompt: string)
      modifies this`nextId, this`messages
      ensures nextId == old(nextId) + 2
      ensures messages == old(messages) + Exchange(nextId, Request(generation, prompt, "", "", Fetching))
    {
      var user := Message(nextId + 1, Turn(User, prompt), None);
      nextId := nextId + 2;
      messages := messages + [user, Message(nextId, Turn(Assistant, ""), Some(Streaming))];
    }

    method UpdateReply(id: nat, content: string, status: Option<Status>)
      modifies this`messages
      ensures messages == Replied(old(messages), id, content, status)
    {
      messages := Replied(messages, id, content, status);
    }

    // The callback of an animation frame, also run when a reply ends.
    method Flush(id: nat)
      requires id in requests
      modifies this`frame, this`pendingText, this`requests, this`messages
      ensures frame == None
      ensures old(IsStale(id)) ==>
                pendingText == old(pendingText) && requests == old(requests) && messages == old(messages)
      ensures !old(IsStale(id)) ==>
                var r := old(requests[id]);
                && pendingText == ""
                && requests == old(requests)[id := r.(answer := r.answer + old(pendingText))]
                && messages == if old(pendingText) == "" then old(messages)
                               else Replied(old(messages), id, requests[id].answer, Some(Streaming))
    {
      frame := None;
      if requests[id].generation != generation {
        return;
      }
      if pendingText == "" {
        assert requests[id].answer + "" == requests[id].answer;
        assert requests[id := requests[id]] == requests;
      } else {
        requests := requests[id := requests[id].(answer := requests[id].answer + pendingText)];
        pendingText := "";
        UpdateReply(id, requests[id].answer, Some(Streaming));
      }
    }

    method Accept(id: nat, text: string)
      requires id in requests
      modifies this`frame, this`pendingText
      ensures IsStale(id) ==> frame == old(frame) && pendingText == old(pendingText)
      ensures !IsStale(id) ==>
                && pendingText == old(pendingText) + text
                && frame == if old(frame).None? then Some(id) else old(frame)
    {
      if requests[id].generation != generation {
        return;
      }
      pendingText := pendingText + text;
      if frame.None? {
        frame := Some(id);
      }
    }

    method ProcessEvent(id: nat, event: string) returns (ending: Ending, ghost deltas: seq<string>)
      requires id in requests
      modifies this`frame, this`pendingText
      ensures ReadEvents(parser, [event]) == Reading(deltas, ending)
      ensures State() == TakenIn(old(State()), id, deltas)
    {
      ReadOneEvent(parser, event);
      match EffectOf(parser, EventData(parser, event)) {
        case Skip => return Open, [];
        case Delta(content) =>
          Accept(id, content);
          assert Concat([content]) == content by { assert [content][..0] == []; }
          return Open, [content];
        case Done => return Completed, [];
        case Fail(message) => return Failed(message), [];
      }
    }

    // Handles every event that is whole, until one ends the reply.
    method TakeEvents(id: nat, text: string) returns (rest: string, ending: Ending)
      requires id in requests
      modifies this`frame, this`pendingText
      ensures var reading := ReadText(parser, text);
              && ending == reading.ending
              && (ending.Open? ==> rest == Frames(text).rest)
              && State() == TakenIn(old(State()), id, reading.deltas)
    {
      ghost var c := State();
      rest, ending := text, Open;
      ghost var taken: seq<string>, deltas: seq<string> := [], [];
      NoneTaken(parser, text);
      while FirstBoundary(rest).Some? && ending.Open?
        invariant Taken(parser, text, taken, deltas, rest, ending)
        invariant State() == TakenIn(c, id, deltas)
        decreases |rest|
      {
        var boundary := FirstBoundary(rest).value;
        var event := rest[..boundary.index];
        ghost var more, left := [], rest;
        rest := rest[boundary.index + boundary.len..];
        ending, more := ProcessEvent(id, event);
        TakeOne(parser, text, taken, deltas, left, boundary, more, ending);
        TakenInTwice(c, id, deltas, more);
        taken, deltas := taken + [event], deltas + more;
      }
      AllTaken(parser, text, taken, deltas, rest, ending);
    }

    // The end of a reply on the screen.
    method Conclude(id: nat, phase: Phase)
      requires id in requests && !IsStale(id)
      modifies this`frame, this`pendingText, this`requests, this`messages, this`controller, this`busy
      ensures frame == None && pendingText == "" && controller == None && !busy
      ensures var r := old(requests[id]);
              && requests == old(requests)[id := r.(answer := r.answer + old(pendingText), phase := phase)]
              && messages == Replied(old(messages), id, requests[id].answer, Shown(phase))
    {
      Flush(id);
      UpdateReply(id, requests[id].answer, Shown(phase));
      requests := requests[id := requests[id].(phase := phase)];
      controller, busy := None, false;
    }

    // The success path: shown without a status, and added to the history.
    method Finish(id: nat, ghost text: string)
      requires id in requests && id in received
      modifies this
      ensures State() == Succeeding(old(State()), id, text, old(pendingText))
      ensures draft == old(draft) && error == old(error) && stopped == old(stopped)
    {
      received := received[id := text];
      if requests[id].generation != generation {
        requests := requests[id := requests[id].(phase := Abandoned)];
        return;
      }
      Conclude(id, Finished);
      history := history + [Turn(User, requests[id].prompt), Turn(Assistant, requests[id].answer)];
    }

    // The failure path, also taken when the user stopped the reply.
    method Catch(id: nat, message: string, ghost text: string)
      requires id in requests && id in received
      modifies this
      ensures State() == Failing(old(State()), id, old(stopped), text, old(pendingText))
      ensures draft == old(draft) && stopped == old(stopped)
      ensures error == if old(IsStale(id) || stopped) then old(error) else message
    {
      received := received[id := text];
      if requests[id].generation != generation {
        requests := requests[id := requests[id].(phase := Abandoned)];
        return;
      }
      Conclude(id, if stopped then Halted else Broken);
      if !stopped {
        error := message;
      }
    }

    // The fetch of a request settles.
    method FetchSettles(id: nat, outcome: Fetched)
      requires Valid() && id in requests && requests[id].phase.Fetching?
      modifies this
      ensures Valid()
      ensures State() == (if outcome.Stream? then Opened(old(State()), id)
                          else Failing(old(State()), id, old(stopped), old(received[id]), old(pendingText)))
      ensures draft == old(draft) && stopped == old(stopped)
      ensures error == if old(IsStale(id)) || stopped then old(error)
                       else match outcome
                            case Rejected(message) => message
                            case Refused(message) => message
                            case NotAStream => "The model did not return a stream."
                            case Stream => old(error)
      ensures old(IsStale(id)) ==> Page() == old(Page())
      ensures !old(IsStale(id)) && !outcome.Stream? ==>
                && ReplyOver(old(State()), State(), id, old(requests[id].answer + pendingText),
                             if stopped then Some(Stopped) else Some(Errored))
                && history == old(history)
      ensures outcome.Stream? ==> requests[id].phase == Receiving && messages == old(messages)
    {
      match outcome {
        case Rejected(message) => Fail(id, message);
        case Refused(message) => Fail(id, message);
        case NotAStream => Fail(id, "The model did not return a stream.");
        case Stream =>
          OpenedKeeps(parser, State(), id);
          BeginReading(id);
      }
    }

    method BeginReading(id: nat)
      requires id in requests && id in received
      modifies this`requests
      ensures State() == Opened(old(State()), id)
    {
      requests := requests[id := requests[id].(phase := Receiving)];
      assert received == received[id := received[id]];
    }

    // A read fails, at the latest after an abort, or the text ends too soon.
    method Fail(id: nat, message: string)
      requires Valid() && id in requests && InFlight(requests[id])
      modifies this
      ensures Valid()
      ensures State() == Failing(old(State()), id, old(stopped), old(received[id]), old(pendingText))
      ensures draft == old(draft) && stopped == old(stopped)
      ensures error == if old(IsStale(id)) || stopped then old(error) else message
      ensures old(IsStale(id)) ==> Page() == old(Page())
      ensures !old(IsStale(id)) ==>
                && ReplyOver(old(State()), State(), id, old(requests[id].answer + pendingText),
                             if stopped then Some(Stopped) else Some(Errored))
                && history == old(history)
    {
      FailingKeeps(parser, State(), id, stopped, received[id], pendingText);
      if !IsStale(id) {
        FailingShows(State(), id, stopped, received[id], pendingText);
      }
      Catch(id, message, received[id]);
    }

    method ReadEnds(id: nat)
      requires Valid() && id in requests && requests[id].phase.Receiving?
      modifies this
      ensures Valid()
      ensures State() == Failing(old(State()), id, old(stopped), old(received[id]), old(pendingText))
      ensures draft == old(draft) && stopped == old(stopped)
      ensures error == if old(IsStale(id)) || stopped then old(error)
                       else "The response ended before it was complete."
      ensures old(IsStale(id)) ==> Page() == old(Page())
      ensures !old(IsStale(id)) ==>
                && ReplyOver(old(State()), State(), id, old(requests[id].answer + pendingText),
                             if stopped then Some(Stopped) else Some(Errored))
                && history == old(history)
    {
      Fail(id, "The response ended before it was complete.");
    }

    // A chunk arrives. Everything up to the next read happens in one turn.
    method ReadChunk(id: nat, chunk: string)
      requires Valid() && id in requests && requests[id].phase.Receiving?
      modifies this
      ensures Valid()
      ensures State() == Chunked(parser, old(State()), id, chunk, old(stopped))
      ensures draft == old(draft) && stopped == old(stopped)
      ensures var said := ReadText(parser, old(requests[id].buffer) + chunk);
              && error == (if !old(IsStale(id)) && !stopped && said.ending.Failed? then said.ending.message
                           else old(error))
              && (!old(IsStale(id)) ==> ChunkShown(old(State()), State(), id, said, stopped))
      ensures old(IsStale(id)) ==> Page() == old(Page())
    {
      ChunkedKeeps(parser, State(), id, chunk, stopped);
      if !IsStale(id) {
        ChunkShows(parser, State(), id, chunk, stopped);
      }
      ReadTurn(id, chunk);
    }

    method ReadTurn(id: nat, chunk: string)
      requires id in requests && id in received
      modifies this
      ensures State() == Chunked(parser, old(State()), id, chunk, old(stopped))
      ensures draft == old(draft) && stopped == old(stopped)
      ensures error == ErrorAfter(parser, old(State()), id, chunk, stopped, old(error))
      ensures old(IsStale(id)) ==> Page() == old(Page())
    {
      ghost var c := State();
      if IsStale(id) {
        StaleChunk(parser, c, id, chunk, stopped);
      }
      ghost var text := received[id] + chunk;
      var rest, ending := TakeEvents(id, requests[id].buffer + chunk);
      EndTurn(id, rest, ending, text);
      assert Shared(State()) == Shared(Chunked(parser, c, id, chunk, stopped));
    }

    method EndTurn(id: nat, rest: string, ending: Ending, ghost text: string)
      requires id in requests && id in received
      modifies this
      ensures State() == Turned(old(State()), id, text, rest, ending, old(stopped))
      ensures draft == old(draft) && stopped == old(stopped)
      ensures error == if !old(IsStale(id) || stopped) && ending.Failed? then ending.message else old(error)
    {
      match ending {
        case Open =>
          requests := requests[id := requests[id].(buffer := rest)];
          received := received[id := text];
        case Completed => Finish(id, text);
        case Failed(message) => Catch(id, message, text);
      }
    }

    method FrameRuns()
      requires Valid() && frame.Some?
      modifies this
      ensures Valid() && State() == Drawn(old(State()), old(frame.value))
      ensures draft == old(draft) && error == old(error) && stopped == old(stopped)
      ensures var id, answer := old(frame.value), old(requests[frame.value].answer + pendingText);
              && requests == old(requests)[id := old(requests[frame.value]).(answer := answer)]
              && Shows(old(messages), messages, id, answer, Some(Streaming))
              && frame == None && pendingText == "" && history == old(history) && busy
    {
      DrawnKeeps(parser, State(), frame.value);
      if pendingText == "" {
        NothingDrawn(State(), frame.value);
      }
      Draw(frame.value);
    }

    method Draw(id: nat)
      requires id in requests && !IsStale(id)
      requires pendingText == "" ==> Drawn(State(), id).messages == messages
      modifies this`frame, this`pendingText, this`requests, this`messages
      ensures State() == Drawn(old(State()), id)
    {
      Flush(id);
    }

    // Aborting makes a pending fetch or read of that request reject later.
    method Stop()
      requires Valid()
      modifies this`stopped, this`aborted
      ensures Valid() && stopped
      ensures State() == Told(old(State()))
      ensures aborted == old(aborted) + if controller.Some? then {controller.value} else {}
    {
      stopped := true;
      if controller.Some? {
        aborted := aborted + {controller.value};
      }
    }

    method Reset()
      requires Valid()
      modifies this
      ensures Valid() && State() == Cleared(old(State()))
      ensures draft == "" && error == "" && stopped == old(stopped)
      ensures generation == old(generation) + 1 && messages == [] && history == [] && !busy
      ensures controller == None && frame == None && pendingText == "" && requests == old(requests)
      ensures aborted == old(aborted) + if old(controller).Some? then {old(controller).value} else {}
    {
      ClearedKeeps(parser, State());
      Clear();
      draft, error := "", "";
    }

    method Clear()
      modifies this`generation, this`controller, this`aborted, this`frame, this`pendingText, this`history,
               this`messages, this`busy, this`sent
      ensures State() == Cleared(old(State()))
    {
      generation := generation + 1;
      if controller.Some? {
        aborted := aborted + {controller.value};
      }
      controller, frame, pendingText := None, None, "";
      history, messages, busy, sent := [], [], false, [];
    }
  }
}
