// What the ledger says of a request, against the events of the whole run: for
// whom it was sent, and what was read for it.
module LifecycleRuns {
  import opened Wrappers
  import opened UsageScan
  import opened Metering
  import opened Ledger
  import opened LedgerInvariant
  import opened LedgerViews
  import opened Lifecycle

  // ---- Whom a row charges ----

  predicate Charges(e: Event, sent: Insert) {
    e.account == sent.account && e.key == sent.key && e.model == sent.model
  }

  // The insert on its way, the row, and the row as it ended are those of the
  // account, key and model the request was begun for.
  ghost predicate AsSent(w: World, id: string, sent: Insert) {
    && id in w.gateway.seen && !InPhase(w.gateway, id, Admitted)
    && (id in w.gateway.inserts ==> w.gateway.inserts[id] == sent)
    && (id in w.ledger.db.events ==> Charges(w.ledger.db.events[id], sent))
    && (id in w.gateway.tickets && w.gateway.tickets[id] in w.ledger.log.final ==>
          Charges(w.ledger.log.final[w.gateway.tickets[id]], sent))
  }

  // No statement changes whom a row charges.
  lemma OwnersStay(db: Db, step: Step, db': Db, id: string, sent: Insert)
    requires Next(db, step, db') && id in db'.events && (step.Begin? ==> step.id != id)
    ensures id in db.events
    ensures Charges(db.events[id], sent) ==> Charges(db'.events[id], sent)
  {
  }

  lemma FinalsCharge(s: System, step: Step, s': System, id: string, t: nat, sent: Insert)
    requires Inv(s) && SystemNext(s, step, s') && t in s'.log.final
    requires t in s.log.final ==> Charges(s.log.final[t], sent)
    requires forall other <- s.log.ticket :: s.log.ticket[other] == t ==> other == id
    requires id in s'.db.events ==> Charges(s'.db.events[id], sent)
    ensures Charges(s'.log.final[t], sent)
  {
    StepFinals(s, step, s');
    if t !in s.log.final {
      var other :| other in RowsEndedBy(s.db, s'.db) && s.log.ticket[other] == t;
    }
  }

  // A step of the ledger on behalf of another request, or of nobody.
  lemma LedgerKeepsSent(w: World, step: Step, w': World, id: string, sent: Insert)
    requires Inv(w.ledger) && SameTickets(w) && AsSent(w, id, sent)
    requires SystemNext(w.ledger, step, w'.ledger) && !step.Begin?
    requires w'.gateway.tickets == w.gateway.tickets && w'.gateway.seen == w.gateway.seen
    requires w'.gateway.requests == w.gateway.requests && w'.gateway.inserts == w.gateway.inserts
    ensures AsSent(w', id, sent)
  {
    if id in w'.ledger.db.events {
      OwnersStay(w.ledger.db, step, w'.ledger.db, id, sent);
    }
    if id in w'.gateway.tickets && w'.gateway.tickets[id] in w'.ledger.log.final {
      FinalsCharge(w.ledger, step, w'.ledger, id, w'.gateway.tickets[id], sent);
    }
  }

  lemma BeginKeepsSent(lib: Library, w: World, event: GatewayEvent, w': World, id: string, sent: Insert)
    requires WorldInv(lib, w) && WorldNext(lib, w, event, w') && event.LandBegin? && AsSent(w, id, sent)
    ensures AsSent(w', id, sent)
  {
    var row := w.gateway.inserts[event.id];
    var step := Begin(event.id, row.account, row.key, row.model, event.priceId);
    BeginInserts(w.ledger, step, w'.ledger);
    BeginCharges(w.ledger.db, step, w'.ledger.db);
    if id in w'.ledger.db.events && id != event.id {
      OwnersStay(w.ledger.db, step, w'.ledger.db, id, sent);
    }
    BeginEndsNothing(w.ledger, step, w'.ledger);
  }

  lemma BeginCharges(db: Db, step: Step, db': Db)
    requires Next(db, step, db') && step.Begin?
    ensures step.id in db'.events && Charges(db'.events[step.id], Insert(step.account, step.key, step.model))
  {
  }

  // What has ended is older than a row that begins.
  lemma BeginEndsNothing(s: System, step: Step, s': System)
    requires Inv(s) && SystemNext(s, step, s') && step.Begin?
    ensures s'.log.final == s.log.final && s.log.begun !in s.log.final
  {
    BeginStep(s, step, s');
  }

  lemma SentStays(lib: Library, w: World, event: GatewayEvent, w': World, id: string, sent: Insert)
    requires WorldInv(lib, w) && WorldNext(lib, w, event, w') && AsSent(w, id, sent)
    ensures AsSent(w', id, sent)
  {
    if event.LandBegin? {
      BeginKeepsSent(lib, w, event, w', id, sent);
    } else if event.LandFinish? {
      FinishKeepsSent(lib, w, event, w', id, sent);
    } else if event.Background? {
      BackgroundKeepsSent(lib, w, event, w', id, sent);
    } else {
      EventKeepsSent(lib, w, event, w', id, sent);
    }
  }

  lemma BackgroundKeepsSent(lib: Library, w: World, event: GatewayEvent, w': World, id: string, sent: Insert)
    requires WorldInv(lib, w) && WorldNext(lib, w, event, w') && event.Background?
    requires AsSent(w, id, sent)
    ensures AsSent(w', id, sent)
  {
    LedgerKeepsSent(w, event.step, w', id, sent);
  }

  lemma FinishKeepsSent(lib: Library, w: World, event: GatewayEvent, w': World, id: string, sent: Insert)
    requires WorldInv(lib, w) && WorldNext(lib, w, event, w') && event.LandFinish?
    requires AsSent(w, id, sent)
    ensures AsSent(w', id, sent)
  {
    LedgerKeepsSent(w, FinishOf(lib, event.id, w.gateway.updates[event.id]), w', id, sent);
  }

  lemma EventKeepsSent(lib: Library, w: World, event: GatewayEvent, w': World, id: string, sent: Insert)
    requires WorldInv(lib, w) && WorldNext(lib, w, event, w')
    requires !event.LandBegin? && !event.LandFinish? && !event.Background? && AsSent(w, id, sent)
    ensures AsSent(w', id, sent)
  {
    HandlerKeeps(w.gateway, event, w'.gateway);
    HandlerKeepsSent(w.gateway, event, w'.gateway, id, sent);
  }

  lemma HandlerKeepsSent(g: Gateway, event: GatewayEvent, g': Gateway, id: string, sent: Insert)
    requires HandlerStep(g, event, g') && id in g.seen && !InPhase(g, id, Admitted)
    requires id in g.inserts ==> g.inserts[id] == sent
    ensures id in g'.seen && !InPhase(g', id, Admitted)
    ensures id in g'.inserts ==> g'.inserts[id] == sent
  {
  }

  lemma SentFirst(lib: Library, w: World, event: GatewayEvent, w': World)
    requires WorldInv(lib, w) && WorldNext(lib, w, event, w') && event.SendBegin?
    ensures AsSent(w', event.id, Insert(event.account, event.key, event.model))
  {
    assert Placed(w.gateway, event.id);
  }

  // Over every run: once a request was begun for an account, key and model, its
  // row charges them, whenever the insert took effect, and so does the row as
  // it ended, which is what every total is made of.
  lemma {:induction false} ChargedAsSent(lib: Library, worlds: seq<World>, events: seq<GatewayEvent>, j: nat, i: nat,
                                         id: string, sent: Insert)
    requires WorldRun(lib, worlds, events) && j < i < |worlds|
    requires events[j] == SendBegin(id, sent.account, sent.key, sent.model)
    ensures AsSent(worlds[i], id, sent)
    decreases i
  {
    if j == i - 1 {
      SentAt(lib, worlds, events, j, id, sent);
    } else {
      ChargedAsSent(lib, worlds, events, j, i - 1, id, sent);
      SentThrough(lib, worlds, events, i - 1, id, sent);
    }
  }

  lemma SentAt(lib: Library, worlds: seq<World>, events: seq<GatewayEvent>, j: nat, id: string, sent: Insert)
    requires WorldRun(lib, worlds, events) && j < |events|
    requires events[j] == SendBegin(id, sent.account, sent.key, sent.model)
    ensures AsSent(worlds[j + 1], id, sent)
  {
    WorldRunKeeps(lib, worlds, events, j);
    SentFirst(lib, worlds[j], events[j], worlds[j + 1]);
  }

  lemma SentThrough(lib: Library, worlds: seq<World>, events: seq<GatewayEvent>, i: nat, id: string, sent: Insert)
    requires WorldRun(lib, worlds, events) && i < |events| && AsSent(worlds[i], id, sent)
    ensures AsSent(worlds[i + 1], id, sent)
  {
    WorldRunKeeps(lib, worlds, events, i);
    SentStays(lib, worlds[i], events[i], worlds[i + 1], id, sent);
  }

  // ---- What was read for a request ----

  // The bytes of all reads of one request, in order.
  function BytesRead(past: seq<GatewayEvent>, id: string): seq<Byte> {
    if past == [] then []
    else
      var last := past[|past| - 1];
      BytesRead(past[..|past| - 1], id) + if last.Read? && last.id == id then last.bytes else []
  }

  predicate ReadToEnd(past: seq<GatewayEvent>, id: string) {
    exists e <- past :: e.Read? && e.id == id && e.atEOF
  }

  predicate Told(past: seq<GatewayEvent>, id: string, r: Response) {
    r.body == BytesRead(past, id) && (r.eof <==> ReadToEnd(past, id))
  }

  lemma NothingRead(past: seq<GatewayEvent>, id: string)
    requires forall e <- past :: e.Read? ==> e.id != id
    ensures BytesRead(past, id) == [] && !ReadToEnd(past, id)
  {
  }

  lemma ReadSnoc(past: seq<GatewayEvent>, event: GatewayEvent, id: string)
    ensures BytesRead(past + [event], id) ==
            BytesRead(past, id) + if event.Read? && event.id == id then event.bytes else []
    ensures ReadToEnd(past + [event], id) <==>
            ReadToEnd(past, id) || (event.Read? && event.id == id && event.atEOF)
  {
    assert (past + [event])[..|past|] == past;
    assert forall e :: e in past + [event] <==> e in past || e == event;
  }

  lemma ToldStays(past: seq<GatewayEvent>, event: GatewayEvent, id: string, r: Response)
    requires Told(past, id, r) && !(event.Read? && event.id == id)
    ensures Told(past + [event], id, r)
  {
    ReadSnoc(past, event, id);
    assert BytesRead(past, id) + [] == BytesRead(past, id);
  }

  // A request whose finish was sent reads no more.
  predicate Over(g: Gateway, id: string) {
    id in g.seen && (id in g.requests ==> g.requests[id].phase == Finishing)
  }

  // What the gateway holds of every response is what was read for that very
  // request: while it is read, in the update on its way, and as evidence.
  ghost predicate Hears(g: Gateway, past: seq<GatewayEvent>) {
    && (forall id <- g.requests :: id in g.seen && Told(past, id, g.requests[id].response))
    && (forall id <- g.updates :: Over(g, id) && Told(past, id, g.updates[id].response))
    && (forall t <- g.evidence :: Over(g, g.evidence[t].id) && Told(past, g.evidence[t].id, g.evidence[t].response))
    && (forall e <- past :: e.Read? ==> e.id in g.seen)
  }

  lemma OverStays(lib: Library, w: World, event: GatewayEvent, w': World, id: string)
    requires WorldNext(lib, w, event, w') && Over(w.gateway, id)
    ensures Over(w'.gateway, id) && !(event.Read? && event.id == id)
  {
    if !event.LandBegin? && !event.LandFinish? && !event.Background? {
      OverHandled(w.gateway, event, w'.gateway, id);
    }
  }

  lemma OverHandled(g: Gateway, event: GatewayEvent, g': Gateway, id: string)
    requires HandlerStep(g, event, g') && Over(g, id)
    ensures Over(g', id) && !(event.Read? && event.id == id)
  {
  }

  lemma RequestsHear(lib: Library, w: World, event: GatewayEvent, w': World, past: seq<GatewayEvent>, id: string)
    requires WorldNext(lib, w, event, w') && Hears(w.gateway, past) && id in w'.gateway.requests
    ensures id in w'.gateway.seen && Told(past + [event], id, w'.gateway.requests[id].response)
  {
    if event.Arrive? && event.id == id {
      NothingRead(past, id);
      ToldStays(past, event, id, w'.gateway.requests[id].response);
    } else if event.Read? && event.id == id {
      ReadSnoc(past, event, id);
    } else {
      ToldStays(past, event, id, w.gateway.requests[id].response);
      SameBytes(lib, w, event, w', id);
    }
  }

  lemma SameBytes(lib: Library, w: World, event: GatewayEvent, w': World, id: string)
    requires WorldNext(lib, w, event, w') && id in w.gateway.requests && id in w'.gateway.requests
    requires !(event.Read? && event.id == id) && !(event.Arrive? && event.id == id)
    ensures var r, r' := w.gateway.requests[id].response, w'.gateway.requests[id].response;
            r'.body == r.body && r'.eof == r.eof
  {
    if !event.LandBegin? && !event.LandFinish? && !event.Background? {
      SameBytesHandled(w.gateway, event, w'.gateway, id);
    }
  }

  lemma SameBytesHandled(g: Gateway, event: GatewayEvent, g': Gateway, id: string)
    requires HandlerStep(g, event, g') && id in g.requests && id in g'.requests
    requires !(event.Read? && event.id == id) && !(event.Arrive? && event.id == id)
    ensures var r, r' := g.requests[id].response, g'.requests[id].response; r'.body == r.body && r'.eof == r.eof
  {
  }

  lemma UpdatesHear(lib: Library, w: World, event: GatewayEvent, w': World, past: seq<GatewayEvent>, id: string)
    requires WorldNext(lib, w, event, w') && Hears(w.gateway, past) && id in w'.gateway.updates
    ensures Over(w'.gateway, id) && Told(past + [event], id, w'.gateway.updates[id].response)
  {
    if event.SendFinish? && event.id == id {
      ToldStays(past, event, id, w.gateway.requests[id].response);
    } else {
      OverStays(lib, w, event, w', id);
      ToldStays(past, event, id, w.gateway.updates[id].response);
    }
  }

  lemma EvidenceHears(lib: Library, w: World, event: GatewayEvent, w': World, past: seq<GatewayEvent>, t: nat)
    requires WorldNext(lib, w, event, w') && Hears(w.gateway, past) && t in w'.gateway.evidence
    ensures var e := w'.gateway.evidence[t]; Over(w'.gateway, e.id) && Told(past + [event], e.id, e.response)
  {
    var e := w'.gateway.evidence[t];
    if event.LandFinish? && w.ledger.log.ticket[event.id] == t {
      OverStays(lib, w, event, w', e.id);
      ToldStays(past, event, e.id, e.response);
    } else {
      assert t in w.gateway.evidence && w.gateway.evidence[t] == e;
      OverStays(lib, w, event, w', e.id);
      ToldStays(past, event, e.id, e.response);
    }
  }

  lemma HearsStays(lib: Library, w: World, event: GatewayEvent, w': World, past: seq<GatewayEvent>)
    requires WorldNext(lib, w, event, w') && Hears(w.gateway, past)
    ensures Hears(w'.gateway, past + [event])
  {
    var g' := w'.gateway;
    forall id | id in g'.requests ensures id in g'.seen && Told(past + [event], id, g'.requests[id].response) {
      RequestsHear(lib, w, event, w', past, id);
    }
    forall id | id in g'.updates ensures Over(g', id) && Told(past + [event], id, g'.updates[id].response) {
      UpdatesHear(lib, w, event, w', past, id);
    }
    forall t | t in g'.evidence
      ensures Over(g', g'.evidence[t].id) && Told(past + [event], g'.evidence[t].id, g'.evidence[t].response)
    {
      EvidenceHears(lib, w, event, w', past, t);
    }
    ReadsAreSeen(lib, w, event, w', past);
  }

  lemma ReadsAreSeen(lib: Library, w: World, event: GatewayEvent, w': World, past: seq<GatewayEvent>)
    requires WorldNext(lib, w, event, w') && Hears(w.gateway, past)
    ensures forall e <- past + [event] :: e.Read? ==> e.id in w'.gateway.seen
  {
    assert w.gateway.seen <= w'.gateway.seen;
  }

  lemma {:induction false} RunHears(lib: Library, worlds: seq<World>, events: seq<GatewayEvent>, i: nat)
    requires WorldRun(lib, worlds, events) && i < |worlds|
    ensures Hears(worlds[i].gateway, events[..i])
    decreases i
  {
    if i > 0 {
      RunHears(lib, worlds, events, i - 1);
      HearsStays(lib, worlds[i - 1], events[i - 1], worlds[i], events[..i - 1]);
      assert events[..i] == events[..i - 1] + [events[i - 1]];
    }
  }

  // Over every run: a complete row is charged with the counts that the bytes
  // read for its own request report, and these were read to their end.
  lemma CompleteIsWhatWasRead(lib: Library, worlds: seq<World>, events: seq<GatewayEvent>, i: nat, t: nat)
    requires WorldRun(lib, worlds, events) && i < |worlds|
    requires t in worlds[i].ledger.log.final && worlds[i].ledger.log.final[t].state == Ended(Complete)
    ensures var g, row := worlds[i].gateway, worlds[i].ledger.log.final[t];
            && t in g.evidence && g.evidence[t].id in g.tickets && g.tickets[g.evidence[t].id] == t
            && ReadToEnd(events[..i], g.evidence[t].id)
            && var r := g.evidence[t].response;
               BodyReports(lib, r.(body := BytesRead(events[..i], g.evidence[t].id)),
                           TokenUsage(row.prompt, row.completion))
  {
    CompleteIsEarned(lib, worlds, events, i, t);
    RunHears(lib, worlds, events, i);
  }
}
