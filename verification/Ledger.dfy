// The usage ledger: its tables, and what each statement does to them.
module Ledger {
  import opened Wrappers
  import opened Sums
  import opened Metering

  // Times are microseconds in the database's time zone.
  const DAY := 86_400_000_000
  const WEEK := 7 * DAY
  const MAX_BIGINT := 0x7FFF_FFFF_FFFF_FFFF

  datatype RowState = Pending | Ended(outcome: Outcome)

  // Price ids stand in for random text ids; only their order matters.
  datatype Price = Price(model: string, input: int, output: int, createdAt: int)

  datatype Event = Event(
    account: string, key: string, model: string, backend: string, priceId: Option<nat>,
    startedAt: int, finishedAt: Option<int>, state: RowState, httpStatus: Option<int>,
    prompt: Option<int>, completion: Option<int>, cost: Option<int>, rolledUpAt: Option<int>)

  datatype DayKey = DayKey(day: int, account: string, key: string, model: string)

  // A rollup in flight holds locks on its claimed rows; the map remembers
  // their values as its statement returned them.
  datatype Db = Db(
    now: int, prices: map<nat, Price>, events: map<string, Event>, daily: map<DayKey, Totals>,
    locks: map<nat, map<string, Event>>)

  datatype DbError = DuplicateKey | MissingCounts | NotPending | CheckFailed | OutOfRange

  function DayOf(time: int): int { time / DAY }

  function KeyOf(e: Event): DayKey { DayKey(DayOf(e.startedAt), e.account, e.key, e.model) }

  predicate Unrolled(e: Event) { e.rolledUpAt.None? && e.state.Ended? }

  function OrZero(x: Option<int>): int { if x.Some? then x.value else 0 }

  function Bit(b: bool): int { if b then 1 else 0 }

  // What one row adds to the totals of its cell.
  function Contribution(e: Event): Totals {
    Totals(1, Bit(e.state == Ended(Complete)), Bit(e.state == Ended(Incomplete)), Bit(e.state == Ended(Failed)),
           OrZero(e.prompt), OrZero(e.completion), OrZero(e.cost), Bit(e.cost.Some?))
  }

  function Get(daily: map<DayKey, Totals>, k: DayKey): Totals {
    if k in daily then daily[k] else ZERO
  }

  predicate Fits(t: Totals) {
    && t.requests <= MAX_BIGINT && t.complete <= MAX_BIGINT && t.incomplete <= MAX_BIGINT && t.failed <= MAX_BIGINT
    && t.prompt <= MAX_BIGINT && t.completion <= MAX_BIGINT && t.cost <= MAX_BIGINT && t.priced <= MAX_BIGINT
  }

  // ---- Prices ----

  predicate Older(p: nat, a: Price, q: nat, b: Price) {
    a.createdAt < b.createdAt || (a.createdAt == b.createdAt && p <= q)
  }

  // The price that a new request for the model is given.
  predicate InForce(prices: map<nat, Price>, model: string, choice: Option<nat>) {
    match choice
    case None => forall p <- prices :: prices[p].model != model
    case Some(p) =>
      && p in prices && prices[p].model == model
      && forall q <- prices :: prices[q].model == model ==> Older(q, prices[q], p, prices[p])
  }

  function Lookup(prices: map<nat, Price>, id: Option<nat>): Option<Price> {
    if id.Some? && id.value in prices then Some(prices[id.value]) else None
  }

  // Token counts times rates, in millionths of a micro-dollar.
  function Numerator(price: Price, prompt: int, completion: int): int {
    prompt * price.input + completion * price.output
  }

  // Rounding half away from zero, on nonnegative numerators.
  function RoundMillionths(x: int): int { (x + 500_000) / 1_000_000 }

  function CostOf(price: Option<Price>, outcome: Outcome, prompt: Option<int>, completion: Option<int>): Option<int> {
    if outcome.Complete? && price.Some? && prompt.Some? && completion.Some?
    then Some(RoundMillionths(Numerator(price.value, prompt.value, completion.value)))
    else None
  }

  // ---- Statements ----

  function Advance(db: Db, to: int): Db {
    db.(now := to)
  }

  function BeginUsage(db: Db, id: string, account: string, key: string, model: string, priceId: Option<nat>)
    : Result<Db, DbError>
  {
    if id in db.events then Err(DuplicateKey)
    else
      var row := Event(account, key, model, "", priceId, db.now, None, Pending, None, None, None, None, None);
      Ok(db.(events := db.events[id := row]))
  }

  function FinishUsage(db: Db, id: string, backend: string, status: int, outcome: Outcome,
                       prompt: Option<int>, completion: Option<int>): Result<Db, DbError>
  {
    if outcome.Complete? && (prompt.None? || completion.None?) then Err(MissingCounts)
    else if id !in db.events || !db.events[id].state.Pending? then Err(NotPending)
    else if OrZero(prompt) < 0 || OrZero(completion) < 0 then Err(CheckFailed)
    else
      var cost := CostOf(Lookup(db.prices, db.events[id].priceId), outcome, prompt, completion);
      if OrZero(cost) > MAX_BIGINT then Err(OutOfRange)
      else
        var row := db.events[id].(backend := backend, httpStatus := Some(status), state := Ended(outcome),
                                  prompt := prompt, completion := completion, finishedAt := Some(db.now), cost := cost);
        Ok(db.(events := db.events[id := row]))
  }

  predicate Stale(e: Event, now: int) {
    e.state.Pending? && e.startedAt < now - WEEK
  }

  function ExpireRow(e: Event, now: int): Event {
    if Stale(e, now) then e.(state := Ended(Incomplete), finishedAt := Some(now)) else e
  }

  function ExpireRows(events: map<string, Event>, now: int): map<string, Event> {
    map id | id in events :: ExpireRow(events[id], now)
  }

  function ExpirePendingUsage(db: Db): Db {
    db.(events := ExpireRows(db.events, db.now))
  }

  function SetPrice(db: Db, id: nat, model: string, input: int, output: int): Result<Db, DbError> {
    if model == "" || input < 0 || output < 0 then Err(CheckFailed)
    else if id in db.prices then Err(DuplicateKey)
    else Ok(db.(prices := db.prices[id := Price(model, input, output, db.now)]))
  }

  // The first half of a rollup: claim and lock rows that nobody has locked.
  predicate Claimable(db: Db, ids: set<string>) {
    && (forall id <- ids :: id in db.events && Unrolled(db.events[id]))
    && (forall tx <- db.locks :: ids !! db.locks[tx].Keys)
  }

  function LockBatch(db: Db, tx: nat, ids: set<string>): Db
    requires Claimable(db, ids)
  {
    db.(locks := db.locks[tx := map id | id in ids :: db.events[id]])
  }

  function Marked(events: map<string, Event>, ids: set<string>, now: int): map<string, Event> {
    map id | id in events :: if id in ids then events[id].(rolledUpAt := Some(now)) else events[id]
  }

  function RowKey(rows: map<string, Event>): string -> DayKey {
    (id: string) => if id in rows then KeyOf(rows[id]) else DayKey(0, "", "", "")
  }

  function RowTotals(rows: map<string, Event>): string -> Totals {
    (id: string) => if id in rows then Contribution(rows[id]) else ZERO
  }

  // One group of the claimed rows.
  ghost function ClaimedTotal(claimed: map<string, Event>, k: DayKey): Totals {
    GroupSum(claimed.Keys, RowKey(claimed), RowTotals(claimed), k)
  }

  function ClaimedKeys(claimed: map<string, Event>): set<DayKey> {
    set id | id in claimed :: KeyOf(claimed[id])
  }

  // Insert each group, or add it to the stored row.
  ghost function Upsert(daily: map<DayKey, Totals>, claimed: map<string, Event>): map<DayKey, Totals> {
    map k | k in daily.Keys + ClaimedKeys(claimed) :: Add(Get(daily, k), ClaimedTotal(claimed, k))
  }

  // The second half of a rollup: its effects become visible together.
  ghost function CommitBatch(db: Db, tx: nat): Result<Db, DbError>
    requires tx in db.locks
  {
    var claimed := db.locks[tx];
    var daily := Upsert(db.daily, claimed);
    if exists k :: k in ClaimedKeys(claimed) && !Fits(daily[k]) then Err(OutOfRange)
    else Ok(db.(events := Marked(db.events, claimed.Keys, db.now), daily := daily, locks := db.locks - {tx}))
  }

  function AbortBatch(db: Db, tx: nat): Db {
    db.(locks := db.locks - {tx})
  }

  predicate Deletable(db: Db, cutoff: int, ids: set<string>) {
    forall id <- ids :: id in db.events && db.events[id].rolledUpAt.Some? && db.events[id].startedAt < cutoff
  }

  function DeleteOldUsageBatch(db: Db, ids: set<string>): Db {
    db.(events := db.events - ids)
  }

  // ---- Runs ----

  datatype Step =
    | Tick(to: int)
    | Begin(id: string, account: string, key: string, model: string, priceId: Option<nat>)
    | Finish(id: string, backend: string, status: int, outcome: Outcome, prompt: Option<int>, completion: Option<int>)
    | Expire
    | Lock(tx: nat, ids: set<string>)
    | Commit(tx: nat)
    | Abort(tx: nat)
    | Delete(cutoff: int, ids: set<string>)
    | NewPrice(newId: nat, priced: string, input: int, output: int)

  // One committed statement of some gateway or maintenance worker. A statement
  // that fails leaves the tables as they were and is no step; so does a
  // gateway crash.
  ghost predicate Next(db: Db, step: Step, db': Db) {
    match step
    case Tick(to) => to >= db.now && db' == Advance(db, to)
    case Begin(id, account, key, model, priceId) =>
      InForce(db.prices, model, priceId) && BeginUsage(db, id, account, key, model, priceId) == Ok(db')
    case Finish(id, backend, status, outcome, prompt, completion) =>
      FinishUsage(db, id, backend, status, outcome, prompt, completion) == Ok(db')
    case Expire => db' == ExpirePendingUsage(db)
    case Lock(tx, ids) => tx !in db.locks && Claimable(db, ids) && db' == LockBatch(db, tx, ids)
    case Commit(tx) => tx in db.locks && CommitBatch(db, tx) == Ok(db')
    case Abort(tx) => tx in db.locks && db' == AbortBatch(db, tx)
    case Delete(cutoff, ids) => Deletable(db, cutoff, ids) && db' == DeleteOldUsageBatch(db, ids)
    case NewPrice(id, model, input, output) => SetPrice(db, id, model, input, output) == Ok(db')
  }

  predicate Initial(db: Db) {
    db.prices == map[] && db.events == map[] && db.daily == map[] && db.locks == map[]
  }

  // ---- History ----

  // An observer's log of a run. Every request gets a ticket when its row is
  // inserted, with the price it was promised; `final` keeps the row as it was
  // when it left pending, and `rolled` says which tickets a rollup counted.
  datatype Log = Log(
    begun: nat, ticket: map<string, nat>, agreed: map<nat, Option<Price>>,
    final: map<nat, Event>, rolled: set<nat>)

  const EMPTY_LOG := Log(0, map[], map[], map[], {})

  predicate Injective(ticket: map<string, nat>) {
    forall a <- ticket, b <- ticket :: ticket[a] == ticket[b] ==> a == b
  }

  function NewlyEnded(db: Db, db': Db): set<string> {
    set id | id in db.events && id in db'.events && db.events[id].state.Pending? && db'.events[id].state.Ended?
  }

  function Tickets(log: Log, ids: set<string>): set<nat>
    requires ids <= log.ticket.Keys
  {
    set id | id in ids :: log.ticket[id]
  }

  // The rows that a statement moved out of pending, by ticket.
  function EndedRows(log: Log, db: Db, db': Db): (rows: map<nat, Event>)
    requires Injective(log.ticket) && log.ticket.Keys == db.events.Keys
    ensures rows.Keys == Tickets(log, NewlyEnded(db, db'))
    ensures forall id <- NewlyEnded(db, db') :: rows[log.ticket[id]] == db'.events[id]
  {
    var ids := NewlyEnded(db, db');
    var rows := map id | id in ids :: log.ticket[id] := db'.events[id];
    assert rows.Keys == Tickets(log, ids) by {
      forall t ensures t in rows <==> t in Tickets(log, ids) {
        if t in Tickets(log, ids) {
          var id :| id in ids && log.ticket[id] == t;
          assert log.ticket[id] in rows;
        }
      }
    }
    rows
  }

  function Record(log: Log, db: Db, step: Step, db': Db): Log
    requires Injective(log.ticket) && log.ticket.Keys == db.events.Keys
    requires step.Commit? ==> step.tx in db.locks && db.locks[step.tx].Keys <= db.events.Keys
    requires step.Begin? ==> step.id in db'.events
  {
    match step
    case Begin(id, _, _, _, _) =>
      log.(begun := log.begun + 1, ticket := log.ticket[id := log.begun],
           agreed := log.agreed[log.begun := Lookup(db.prices, db'.events[id].priceId)])
    case Commit(tx) => log.(rolled := log.rolled + Tickets(log, db.locks[tx].Keys))
    case Delete(_, ids) => log.(ticket := log.ticket - ids)
    case Finish(_, _, _, _, _, _) => log.(final := log.final + EndedRows(log, db, db'))
    case Expire => log.(final := log.final + EndedRows(log, db, db'))
    case _ => log
  }

  datatype System = System(db: Db, log: Log)

  // What recording a step needs of the log; every reachable state has it.
  ghost predicate Recordable(s: System, step: Step, db': Db) {
    && Injective(s.log.ticket) && s.log.ticket.Keys == s.db.events.Keys
    && (step.Commit? ==> step.tx in s.db.locks && s.db.locks[step.tx].Keys <= s.db.events.Keys)
    && (step.Begin? ==> step.id in db'.events)
  }

  ghost predicate SystemNext(s: System, step: Step, s': System) {
    Next(s.db, step, s'.db) && Recordable(s, step, s'.db) && s'.log == Record(s.log, s.db, step, s'.db)
  }

  // A run from empty tables: states[i] goes to states[i + 1] by steps[i].
  ghost predicate Run(states: seq<System>, steps: seq<Step>) {
    && |states| == |steps| + 1
    && Initial(states[0].db) && states[0].log == EMPTY_LOG
    && forall i :: 0 <= i < |steps| ==> SystemNext(states[i], steps[i], states[i + 1])
  }
}
