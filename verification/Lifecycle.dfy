// The life of metered requests on one gateway, interleaved with each other,
// with crashes, and with the maintenance of the ledger.
module Lifecycle {
  import opened Wrappers
  import opened Metering
  import opened Ledger
  import opened LedgerInvariant
  import opened LedgerTheorems
  import opened UsageScan

  // Admitted: holds a slot, nothing recorded. Inserting: the insert of its row
  // was sent. Recorded: the gateway heard that it took effect. Dispatched: sent
  // upstream. Answered: response headers arrived. Closing: the proxy has
  // returned and only the accounting is left. Finishing: the final update of
  // the row was sent.
  datatype Phase = Admitted | Inserting | Recorded | Dispatched | Answered | Closing | Finishing

  datatype Request = Request(phase: Phase, response: Response, interrupted: bool)

  // What was known about a request when its finish was written.
  datatype Evidence = Evidence(id: string, response: Response, interrupted: bool)

  // Statements on their way to the database. They take effect at any later
  // time, or never, whatever becomes of the request or the gateway.
  datatype Insert = Insert(account: string, key: string, model: string)
  datatype Update = Update(backend: string, response: Response, interrupted: bool)

  // `seen`, `tickets`, `dispatched` and `evidence` are history: every id ever
  // admitted, the ledger ticket of every id with a row, every id ever sent
  // upstream, and the evidence behind every finish that took effect.
  datatype Gateway = Gateway(
    limit: nat, slots: int, requests: map<string, Request>,
    inserts: map<string, Insert>, updates: map<string, Update>,
    seen: set<string>, tickets: map<string, nat>, dispatched: set<string>, evidence: map<nat, Evidence>)

  datatype World = World(gateway: Gateway, ledger: System)

  datatype GatewayEvent =
    | Arrive(id: string, stream: bool)
    | Reject(id: string)
    | SendBegin(id: string, account: string, key: string, model: string)
    | LandBegin(id: string, priceId: Option<nat>)
    | HearBegin(id: string)
    | LoseBegin(id: string)
    | Unavailable(id: string)
    | Dispatch(id: string)
    | Headers(id: string, code: int, eventStream: bool)
    | ProxyError(id: string, code: int)
    | GiveUp(id: string)
    | Read(id: string, bytes: seq<Byte>, atEOF: bool)
    | Interrupt(id: string)
    | Return(id: string)
    | SendFinish(id: string, backend: string)
    | LandFinish(id: string)
    | EndRequest(id: string)
    | Crash
    | Background(step: Step)

  function SetRequest(g: Gateway, id: string, r: Request): Gateway {
    g.(requests := g.requests[id := r])
  }

  // The request is over: its slot goes back.
  function Release(g: Gateway, id: string): Gateway {
    g.(requests := g.requests - {id}, slots := g.slots - 1)
  }

  predicate InPhase(g: Gateway, id: string, phase: Phase) {
    id in g.requests && g.requests[id].phase == phase
  }

  function Moved(g: Gateway, id: string, phase: Phase): Gateway
    requires id in g.requests
  {
    SetRequest(g, id, g.requests[id].(phase := phase))
  }

  function Heard(g: Gateway, id: string, response: Response, phase: Phase): Gateway
    requires id in g.requests
  {
    SetRequest(g, id, g.requests[id].(response := response, phase := phase))
  }

  // Steps of the request handler that leave the ledger alone.
  predicate HandlerStep(g: Gateway, event: GatewayEvent, g': Gateway) {
    match event
    case Arrive(id, stream) =>
      // A full gateway turns the request away, which is no step. Ids are
      // random and never repeat.
      && g.slots < g.limit && id !in g.seen
      && g' == SetRequest(g, id, Request(Admitted, Response(0, stream, false, []), false))
               .(slots := g.slots + 1, seen := g.seen + {id})
    case Reject(id) => InPhase(g, id, Admitted) && g' == Release(g, id)
    case SendBegin(id, account, key, model) =>
      && InPhase(g, id, Admitted)
      && g' == Moved(g, id, Inserting).(inserts := g.inserts[id := Insert(account, key, model)])
    case HearBegin(id) => InPhase(g, id, Inserting) && id in g.tickets && g' == Moved(g, id, Recorded)
    case LoseBegin(id) =>
      // An error or a timeout: the row may have been inserted, or may be yet.
      // Either way the request is refused and never dispatched.
      InPhase(g, id, Inserting) && g' == Release(g, id)
    case Unavailable(id) => InPhase(g, id, Recorded) && g' == Moved(g, id, Closing)
    case Dispatch(id) =>
      InPhase(g, id, Recorded) && g' == Moved(g, id, Dispatched).(dispatched := g.dispatched + {id})
    case Headers(id, code, eventStream) =>
      && InPhase(g, id, Dispatched)
      && var r := g.requests[id].response;
         g' == Heard(g, id, r.(status := code, stream := r.stream || eventStream), Answered)
    case ProxyError(id, code) =>
      && InPhase(g, id, Dispatched) && (code == 502 || code == 504)
      && g' == Heard(g, id, g.requests[id].response.(status := code), Closing)
    case GiveUp(id) =>
      InPhase(g, id, Dispatched) && g.requests[id].interrupted && g' == Moved(g, id, Closing)
    case Read(id, bytes, atEOF) =>
      // Only the body of a success response is metered.
      && InPhase(g, id, Answered)
      && var r := g.requests[id].response;
         && 200 <= r.status < 300
         && g' == Heard(g, id, r.(body := r.body + bytes, eof := r.eof || atEOF), Answered)
    case Interrupt(id) =>
      id in g.requests && g' == SetRequest(g, id, g.requests[id].(interrupted := true))
    case Return(id) => InPhase(g, id, Answered) && g' == Moved(g, id, Closing)
    case SendFinish(id, backend) =>
      && InPhase(g, id, Closing)
      && var r := g.requests[id];
         g' == Moved(g, id, Finishing).(updates := g.updates[id := Update(backend, r.response, r.interrupted)])
    case EndRequest(id) =>
      // The gateway heard of the update, or gave up waiting.
      InPhase(g, id, Finishing) && g' == Release(g, id)
    case Crash => g' == g.(requests := map[], slots := 0)
    case _ => false
  }

  ghost predicate Begins(w: World, id: string, account: string, key: string, model: string, priceId: Option<nat>,
                         ledger': System) {
    SystemNext(w.ledger, Begin(id, account, key, model, priceId), ledger')
  }

  function FinishOf(lib: Library, id: string, u: Update): Step {
    var m := Report(lib, u.response, u.interrupted);
    Finish(id, u.backend, m.status, m.outcome, m.prompt, m.completion)
  }

  // One step of anything: the handler of some request, a statement on its
  // behalf, or a statement of maintenance, pricing or the clock.
  ghost predicate WorldNext(lib: Library, w: World, event: GatewayEvent, w': World) {
    var g, g' := w.gateway, w'.gateway;
    match event
    case LandBegin(id, priceId) =>
      && id in g.inserts
      && var row := g.inserts[id];
         && Begins(w, id, row.account, row.key, row.model, priceId, w'.ledger)
         && g' == g.(inserts := g.inserts - {id}, tickets := g.tickets[id := w.ledger.log.begun])
    case LandFinish(id) =>
      // An update that finds no pending row takes no effect and is no step.
      && id in g.updates && id in w.ledger.log.ticket
      && var u := g.updates[id];
         && SystemNext(w.ledger, FinishOf(lib, id, u), w'.ledger)
         && g' == g.(updates := g.updates - {id},
                     evidence := g.evidence[w.ledger.log.ticket[id] := Evidence(id, u.response, u.interrupted)])
    case Background(step) =>
      !step.Begin? && !step.Finish? && SystemNext(w.ledger, step, w'.ledger) && g' == g
    case _ => HandlerStep(g, event, g') && w'.ledger == w.ledger
  }

  ghost predicate WorldStart(w: World) {
    && w.gateway == Gateway(w.gateway.limit, 0, map[], map[], map[], {}, map[], {}, map[])
    && Initial(w.ledger.db) && w.ledger.log == EMPTY_LOG
  }

  // ---- Invariant ----

  // Admission: slots in use are the requests in the handler, at most the limit.
  predicate Bounded(g: Gateway) {
    g.slots == |g.requests| && g.slots <= g.limit
  }

  // Nothing is sent upstream, and no status is known, before a row exists.
  predicate RecordedFirst(g: Gateway) {
    && g.requests.Keys <= g.seen && g.tickets.Keys <= g.seen && g.inserts.Keys <= g.seen
    && g.dispatched <= g.tickets.Keys && g.inserts.Keys !! g.tickets.Keys
    && (forall id <- g.requests :: Placed(g, id))
    && (forall id <- g.updates :: id in g.tickets && (g.updates[id].response.status != 0 ==> id in g.dispatched))
  }

  // Where a request in the handler stands with its row.
  predicate Placed(g: Gateway, id: string)
    requires id in g.requests
  {
    var r := g.requests[id];
    && (r.phase.Admitted? ==> id !in g.tickets && id !in g.inserts)
    && (!r.phase.Admitted? && !r.phase.Inserting? ==> id in g.tickets)
    && (r.response.status != 0 ==> id in g.dispatched)
    && (r.phase.Dispatched? || r.phase.Answered? ==> id in g.dispatched)
  }

  // The gateway's tickets are the ledger's, and no two requests share one.
  ghost predicate SameTickets(w: World) {
    && Injective(w.gateway.tickets)
    && (forall id <- w.ledger.log.ticket ::
          id in w.gateway.tickets && w.gateway.tickets[id] == w.ledger.log.ticket[id])
    && (forall id <- w.gateway.tickets :: w.gateway.tickets[id] < w.ledger.log.begun)
  }

  // A row stands for the evidence behind it.
  ghost predicate Earned(lib: Library, w: World, t: nat)
    requires t in w.ledger.log.final
  {
    w.ledger.log.final[t].state == Ended(Complete) ==>
      && t in w.gateway.evidence
      && var e := w.gateway.evidence[t];
         && e.id in w.gateway.tickets && w.gateway.tickets[e.id] == t && e.id in w.gateway.dispatched
         && Report(lib, e.response, e.interrupted)
            == Metered(e.response.status, Complete, w.ledger.log.final[t].prompt, w.ledger.log.final[t].completion)
  }

  ghost predicate WorldInv(lib: Library, w: World) {
    && Inv(w.ledger)
    && Bounded(w.gateway) && RecordedFirst(w.gateway) && SameTickets(w)
    && (forall t <- w.gateway.evidence :: t in w.ledger.log.final)
    && (forall t <- w.ledger.log.final :: Earned(lib, w, t))
  }

  lemma HandlerKeeps(g: Gateway, event: GatewayEvent, g': Gateway)
    requires Bounded(g) && RecordedFirst(g) && HandlerStep(g, event, g')
    ensures Bounded(g') && RecordedFirst(g')
    ensures g'.tickets == g.tickets && g'.evidence == g.evidence && g.dispatched <= g'.dispatched
  {
    match event
    case Reject(id) => ReleaseKeeps(g, id);
    case LoseBegin(id) => ReleaseKeeps(g, id);
    case EndRequest(id) => ReleaseKeeps(g, id);
    case _ => StayKeeps(g, event, g');
  }

  lemma StayKeeps(g: Gateway, event: GatewayEvent, g': Gateway)
    requires Bounded(g) && RecordedFirst(g) && HandlerStep(g, event, g')
    requires !event.Reject? && !event.LoseBegin? && !event.EndRequest?
    ensures Bounded(g') && RecordedFirst(g')
    ensures g'.tickets == g.tickets && g'.evidence == g.evidence && g.dispatched <= g'.dispatched
  {
    forall id | id in g'.requests
      ensures Placed(g', id)
    {
      StayPlaced(g, event, g', id);
    }
  }

  lemma StayPlaced(g: Gateway, event: GatewayEvent, g': Gateway, id: string)
    requires RecordedFirst(g) && HandlerStep(g, event, g') && id in g'.requests
    requires !event.Reject? && !event.LoseBegin? && !event.EndRequest?
    ensures Placed(g', id)
  {
    assert id in g.requests ==> Placed(g, id);
  }

  lemma ReleaseKeeps(g: Gateway, id: string)
    requires Bounded(g) && RecordedFirst(g) && id in g.requests
    ensures Bounded(Release(g, id)) && RecordedFirst(Release(g, id))
  {
    var g' := Release(g, id);
    assert g.requests.Keys == g'.requests.Keys + {id};
    forall other | other in g'.requests
      ensures Placed(g', other)
    {
      assert Placed(g, other);
    }
  }

  // Steps that do not touch the ledger's final rows keep every proof of work.
  lemma EarnedFrame(lib: Library, w: World, w': World)
    requires forall t <- w.ledger.log.final :: Earned(lib, w, t)
    requires w'.ledger.log.final == w.ledger.log.final && w'.gateway.evidence == w.gateway.evidence
    requires w.gateway.dispatched <= w'.gateway.dispatched
    requires forall id <- w.gateway.tickets ::
               id in w'.gateway.tickets && w'.gateway.tickets[id] == w.gateway.tickets[id]
    ensures forall t <- w'.ledger.log.final :: Earned(lib, w', t)
  {
    forall t | t in w'.ledger.log.final ensures Earned(lib, w', t) {
      assert Earned(lib, w, t);
    }
  }

  lemma BeginTickets(w: World, id: string, account: string, key: string, model: string, priceId: Option<nat>, w': World)
    requires Inv(w.ledger) && SameTickets(w) && id !in w.gateway.tickets
    requires Begins(w, id, account, key, model, priceId, w'.ledger)
    requires w'.gateway.tickets == w.gateway.tickets[id := w.ledger.log.begun]
    ensures Inv(w'.ledger) && SameTickets(w') && w'.ledger.log.final == w.ledger.log.final
  {
    var step := Begin(id, account, key, model, priceId);
    StepKeeps(w.ledger, step, w'.ledger);
    BeginInserts(w.ledger, step, w'.ledger);
    InsertedTickets(w, id, w');
  }

  lemma InsertedTickets(w: World, id: string, w': World)
    requires Ticketed(w.ledger) && SameTickets(w) && id !in w.gateway.tickets && Inserted(w.ledger, id, w'.ledger)
    requires w'.gateway.tickets == w.gateway.tickets[id := w.ledger.log.begun]
    ensures SameTickets(w')
  {
  }

  lemma LandBeginKeeps(lib: Library, w: World, event: GatewayEvent, w': World)
    requires WorldInv(lib, w) && WorldNext(lib, w, event, w') && event.LandBegin?
    ensures WorldInv(lib, w')
  {
    BeginKeepsLedger(lib, w, event, w');
    BeginKeepsGateway(lib, w, event, w');
    BeginsEarned(lib, w, event.id, w');
  }

  lemma BeginsEarned(lib: Library, w: World, id: string, w': World)
    requires forall t <- w.ledger.log.final :: Earned(lib, w, t)
    requires w'.ledger.log.final == w.ledger.log.final && w'.gateway.evidence == w.gateway.evidence
    requires w'.gateway.dispatched == w.gateway.dispatched && id !in w.gateway.tickets
    requires w'.gateway.tickets == w.gateway.tickets[id := w.ledger.log.begun]
    ensures forall t <- w'.ledger.log.final :: Earned(lib, w', t)
  {
    EarnedFrame(lib, w, w');
  }

  lemma BeginKeepsLedger(lib: Library, w: World, event: GatewayEvent, w': World)
    requires Inv(w.ledger) && RecordedFirst(w.gateway) && SameTickets(w)
    requires WorldNext(lib, w, event, w') && event.LandBegin?
    ensures Inv(w'.ledger) && SameTickets(w') && w'.ledger.log.final == w.ledger.log.final
  {
    var row := w.gateway.inserts[event.id];
    BeginTickets(w, event.id, row.account, row.key, row.model, event.priceId, w');
  }

  lemma BeginKeepsGateway(lib: Library, w: World, event: GatewayEvent, w': World)
    requires Bounded(w.gateway) && RecordedFirst(w.gateway) && WorldNext(lib, w, event, w') && event.LandBegin?
    ensures Bounded(w'.gateway) && RecordedFirst(w'.gateway)
    ensures w'.gateway.evidence == w.gateway.evidence && w'.gateway.dispatched == w.gateway.dispatched
    ensures event.id !in w.gateway.tickets
    ensures w'.gateway.tickets == w.gateway.tickets[event.id := w.ledger.log.begun]
  {
    LandKeepsPlaces(w.gateway, event.id, w'.gateway);
  }

  lemma LandKeepsPlaces(g: Gateway, id: string, g': Gateway)
    requires Bounded(g) && RecordedFirst(g) && id in g.inserts
    requires g' == g.(inserts := g.inserts - {id}, tickets := g'.tickets)
    requires g'.tickets.Keys == g.tickets.Keys + {id}
    ensures Bounded(g') && RecordedFirst(g')
  {
    forall other | other in g'.requests
      ensures Placed(g', other)
    {
      assert Placed(g, other);
    }
  }

  lemma FinishedRow(db: Db, id: string, backend: string, m: Metered, db': Db)
    requires Next(db, Finish(id, backend, m.status, m.outcome, m.prompt, m.completion), db')
    ensures id in db'.events
    ensures var row := db'.events[id];
            && row.state == Ended(m.outcome) && row.prompt == m.prompt && row.completion == m.completion
            && row.backend == backend && row.httpStatus == Some(m.status) && row.finishedAt == Some(db.now)
  {
  }

  // The row that a finish ends is the row of that very request.
  lemma FinishEarns(lib: Library, w: World, event: GatewayEvent, w': World)
    requires WorldInv(lib, w) && WorldNext(lib, w, event, w') && event.LandFinish?
    ensures var t := w.ledger.log.ticket[event.id];
            && t !in w.ledger.log.final && t in w'.ledger.log.final
            && w'.ledger.log.final == w.ledger.log.final[t := w'.ledger.log.final[t]]
            && Earned(lib, w', t)
    ensures var u, row := w.gateway.updates[event.id], w'.ledger.log.final[w.ledger.log.ticket[event.id]];
            var m := Report(lib, u.response, u.interrupted);
            && row.state == Ended(m.outcome) && row.prompt == m.prompt && row.completion == m.completion
            && row.backend == u.backend && row.httpStatus == Some(u.response.status)
            && row.finishedAt == Some(w.ledger.db.now)
  {
    var u := w.gateway.updates[event.id];
    var m := Report(lib, u.response, u.interrupted);
    FinishEnds(w.ledger, FinishOf(lib, event.id, u), w'.ledger);
    OneRowEnds(w.ledger, event.id, w'.ledger);
    FinishedRow(w.ledger.db, event.id, u.backend, m, w'.ledger.db);
    CountsOnlyWhenComplete(lib, u.response, u.interrupted);
    ReportStatus(lib, u.response, u.interrupted);
  }

  lemma ReportStatus(lib: Library, r: Response, interrupted: bool)
    ensures Report(lib, r, interrupted).status == r.status
  {
  }

  lemma LandFinishKeeps(lib: Library, w: World, event: GatewayEvent, w': World)
    requires WorldInv(lib, w) && WorldNext(lib, w, event, w') && event.LandFinish?
    ensures WorldInv(lib, w')
  {
    FinishKeepsLedger(lib, w, event, w');
    FinishKeepsGateway(lib, w, event, w');
    FinishesEarned(lib, w, event, w');
  }

  lemma FinishKeepsLedger(lib: Library, w: World, event: GatewayEvent, w': World)
    requires Inv(w.ledger) && SameTickets(w) && WorldNext(lib, w, event, w') && event.LandFinish?
    ensures Inv(w'.ledger) && SameTickets(w')
  {
    StepKeeps(w.ledger, FinishOf(lib, event.id, w.gateway.updates[event.id]), w'.ledger);
  }

  lemma FinishKeepsGateway(lib: Library, w: World, event: GatewayEvent, w': World)
    requires Bounded(w.gateway) && RecordedFirst(w.gateway) && WorldNext(lib, w, event, w') && event.LandFinish?
    ensures Bounded(w'.gateway) && RecordedFirst(w'.gateway)
  {
    forall id | id in w'.gateway.requests
      ensures Placed(w'.gateway, id)
    {
      assert Placed(w.gateway, id);
    }
  }

  lemma FinishesEarned(lib: Library, w: World, event: GatewayEvent, w': World)
    requires WorldInv(lib, w) && WorldNext(lib, w, event, w') && event.LandFinish?
    ensures forall t <- w'.ledger.log.final :: Earned(lib, w', t)
    ensures forall t <- w'.gateway.evidence :: t in w'.ledger.log.final
  {
    FinishEarns(lib, w, event, w');
    forall t | t in w'.ledger.log.final ensures Earned(lib, w', t) {
      if t in w.ledger.log.final { assert Earned(lib, w, t); }
    }
  }

  lemma ExpiredRow(db: Db, id: string)
    requires id in NewlyEnded(db, ExpirePendingUsage(db))
    ensures ExpirePendingUsage(db).events[id].state == Ended(Incomplete)
  {
  }

  lemma ExpiryEnds(s: System, s': System, t: nat)
    requires Inv(s) && SystemNext(s, Expire, s') && t in s'.log.final
    ensures if t in s.log.final then s'.log.final[t] == s.log.final[t] else s'.log.final[t].state == Ended(Incomplete)
  {
    var ids := NewlyEnded(s.db, s'.db);
    ExpireEnds(s, Expire, s');
    if t !in s.log.final {
      var id :| id in ids && s.log.ticket[id] == t;
      ExpiredRow(s.db, id);
    }
  }

  // Maintenance never marks a row complete.
  lemma BackgroundEnds(s: System, step: Step, s': System, t: nat)
    requires Inv(s) && SystemNext(s, step, s') && !step.Begin? && !step.Finish?
    requires t in s'.log.final
    ensures if t in s.log.final then s'.log.final[t] == s.log.final[t] else s'.log.final[t].state == Ended(Incomplete)
  {
    if step.Expire? {
      ExpiryEnds(s, s', t);
    } else {
      StepKeeps(s, step, s');
    }
  }

  lemma BackgroundKeeps(lib: Library, w: World, event: GatewayEvent, w': World)
    requires WorldInv(lib, w) && WorldNext(lib, w, event, w') && event.Background?
    ensures WorldInv(lib, w')
  {
    StepKeeps(w.ledger, event.step, w'.ledger);
    forall t | t in w'.ledger.log.final ensures Earned(lib, w', t) {
      BackgroundEnds(w.ledger, event.step, w'.ledger, t);
      if t in w.ledger.log.final { assert Earned(lib, w, t); }
    }
  }

  lemma WorldKeeps(lib: Library, w: World, event: GatewayEvent, w': World)
    requires WorldInv(lib, w) && WorldNext(lib, w, event, w')
    ensures WorldInv(lib, w')
  {
    if event.LandBegin? {
      LandBeginKeeps(lib, w, event, w');
    } else if event.LandFinish? {
      LandFinishKeeps(lib, w, event, w');
    } else if event.Background? {
      BackgroundKeeps(lib, w, event, w');
    } else {
      HandlerStepKeeps(lib, w, event, w');
    }
  }

  lemma HandlerStepKeeps(lib: Library, w: World, event: GatewayEvent, w': World)
    requires WorldInv(lib, w) && w'.ledger == w.ledger && HandlerStep(w.gateway, event, w'.gateway)
    ensures WorldInv(lib, w')
  {
    HandlerKeeps(w.gateway, event, w'.gateway);
    EarnedFrame(lib, w, w');
  }

  // ---- All runs ----

  ghost predicate WorldRun(lib: Library, worlds: seq<World>, events: seq<GatewayEvent>) {
    && |worlds| == |events| + 1
    && WorldStart(worlds[0])
    && forall i :: 0 <= i < |events| ==> WorldNext(lib, worlds[i], events[i], worlds[i + 1])
  }

  lemma {:induction false} WorldRunKeeps(lib: Library, worlds: seq<World>, events: seq<GatewayEvent>, i: nat)
    requires WorldRun(lib, worlds, events) && i < |worlds|
    ensures WorldInv(lib, worlds[i])
    decreases i
  {
    if i == 0 {
      InitialInv(worlds[0].ledger);
    } else {
      WorldRunKeeps(lib, worlds, events, i - 1);
      WorldKeeps(lib, worlds[i - 1], events[i - 1], worlds[i]);
    }
  }

  // At every moment of every run at most `limit` requests are admitted, and
  // each request sent upstream has a row that was inserted before, for it and
  // for no other request.
  lemma AdmissionAndRecording(lib: Library, worlds: seq<World>, events: seq<GatewayEvent>, i: nat)
    requires WorldRun(lib, worlds, events) && i < |worlds|
    ensures |worlds[i].gateway.requests| <= worlds[i].gateway.limit
    ensures i < |events| && events[i].Dispatch? ==>
              && events[i].id in worlds[i].gateway.tickets
              && worlds[i].gateway.tickets[events[i].id] in worlds[i].ledger.log.agreed
              && forall other <- worlds[i].gateway.tickets :: other != events[i].id ==>
                   worlds[i].gateway.tickets[other] != worlds[i].gateway.tickets[events[i].id]
  {
    WorldRunKeeps(lib, worlds, events, i);
    if i < |events| {
      assert WorldNext(lib, worlds[i], events[i], worlds[i + 1]);
    }
  }

  // The request that owns a complete row was dispatched, was answered with a
  // success, was not interrupted, was read to the end of its body, and the
  // counts in its row are those the whole body reports.
  lemma CompleteIsEarned(lib: Library, worlds: seq<World>, events: seq<GatewayEvent>, i: nat, t: nat)
    requires WorldRun(lib, worlds, events) && i < |worlds|
    requires t in worlds[i].ledger.log.final && worlds[i].ledger.log.final[t].state == Ended(Complete)
    ensures var row := worlds[i].ledger.log.final[t];
            && t in worlds[i].gateway.evidence
            && var e := worlds[i].gateway.evidence[t];
               && e.id in worlds[i].gateway.tickets && worlds[i].gateway.tickets[e.id] == t
               && e.id in worlds[i].gateway.dispatched && !e.interrupted
               && 200 <= e.response.status < 300 && e.response.eof
               && row.prompt.Some? && row.completion.Some?
               && BodyReports(lib, e.response, TokenUsage(row.prompt, row.completion))
  {
    WorldRunKeeps(lib, worlds, events, i);
    var row, e := worlds[i].ledger.log.final[t], worlds[i].gateway.evidence[t];
    assert Earned(lib, worlds[i], t);
    CountsOnlyWhenComplete(lib, e.response, e.interrupted);
    CompleteMeaning(lib, e.response, e.interrupted, row.prompt.value, row.completion.value);
  }
}
