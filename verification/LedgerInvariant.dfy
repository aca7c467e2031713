// What every statement keeps: conservation and exactly-once counting.
module LedgerInvariant {
  import opened Wrappers
  import opened Sums
  import opened Metering
  import opened Ledger

  function FinalKey(log: Log): nat -> DayKey {
    (t: nat) => if t in log.final then KeyOf(log.final[t]) else DayKey(0, "", "", "")
  }

  function FinalTotals(log: Log): nat -> Totals {
    (t: nat) => if t in log.final then Contribution(log.final[t]) else ZERO
  }

  // What the requests counted so far add up to in one cell.
  ghost function RolledTotal(log: Log, k: DayKey): Totals {
    GroupSum(log.rolled, FinalKey(log), FinalTotals(log), k)
  }

  // The terminal rows that no rollup has counted, and their tickets.
  function LiveRows(db: Db): set<string> {
    set id | id in db.events && Unrolled(db.events[id])
  }

  ghost function LiveTickets(s: System): set<nat>
    requires s.db.events.Keys <= s.log.ticket.Keys
  {
    Tickets(s.log, LiveRows(s.db))
  }

  ghost predicate Ticketed(s: System) {
    && s.log.ticket.Keys == s.db.events.Keys
    && Injective(s.log.ticket)
    && (forall id <- s.log.ticket :: s.log.ticket[id] < s.log.begun)
    && (forall t :: t in s.log.agreed <==> 0 <= t < s.log.begun)
  }

  ghost predicate RowMatches(s: System, id: string)
    requires id in s.db.events && id in s.log.ticket
  {
    var e, t := s.db.events[id], s.log.ticket[id];
    && (e.state.Ended? <==> t in s.log.final)
    && (e.state.Ended? ==> s.log.final[t] == e.(rolledUpAt := None))
    && (e.rolledUpAt.Some? <==> t in s.log.rolled)
  }

  // Exactly once: the tickets that ended are those a rollup has counted and
  // those whose row still waits, and no ticket is both.
  ghost predicate Partitioned(s: System)
    requires Ticketed(s)
  {
    && s.log.final.Keys <= s.log.agreed.Keys
    && (forall id <- s.db.events :: RowMatches(s, id))
    && s.log.rolled !! LiveTickets(s)
    && s.log.final.Keys == s.log.rolled + LiveTickets(s)
  }

  ghost predicate Locked(db: Db) {
    && (forall tx, id :: tx in db.locks && id in db.locks[tx] ==>
          id in db.events && db.events[id] == db.locks[tx][id] && Unrolled(db.events[id]))
    && (forall a, b :: a in db.locks && b in db.locks && a != b ==> db.locks[a].Keys !! db.locks[b].Keys)
  }

  // Each stored cell holds the requests counted in it, and only those.
  ghost predicate Counted(s: System) {
    && s.db.daily.Keys == (set t | t in s.log.rolled :: FinalKey(s.log)(t))
    && forall k :: Get(s.db.daily, k) == RolledTotal(s.log, k)
  }

  ghost predicate Priced(s: System)
    requires Ticketed(s)
  {
    && (forall p <- s.db.prices :: s.db.prices[p].input >= 0 && s.db.prices[p].output >= 0)
    && (forall id <- s.db.events ::
          && (s.db.events[id].priceId.Some? ==> s.db.events[id].priceId.value in s.db.prices)
          && s.log.agreed[s.log.ticket[id]] == Lookup(s.db.prices, s.db.events[id].priceId))
    && (forall t <- s.log.agreed :: s.log.agreed[t].Some? ==>
          s.log.agreed[t].value.input >= 0 && s.log.agreed[t].value.output >= 0)
  }

  // A terminal row that has counts has nonnegative ones, a complete one has
  // both, and its cost is the cost at the promised price.
  predicate FairlyPriced(e: Event, price: Option<Price>) {
    && e.state.Ended?
    && (e.state.outcome.Complete? ==> e.prompt.Some? && e.completion.Some?)
    && OrZero(e.prompt) >= 0 && OrZero(e.completion) >= 0
    && e.cost == CostOf(price, e.state.outcome, e.prompt, e.completion)
  }

  ghost predicate Fair(s: System)
    requires Ticketed(s)
  {
    && (forall t <- s.log.final :: t in s.log.agreed && FairlyPriced(s.log.final[t], s.log.agreed[t]))
    && (forall id <- s.db.events :: s.db.events[id].state.Pending? ==>
          s.db.events[id].prompt.None? && s.db.events[id].completion.None? && s.db.events[id].cost.None?)
  }

  ghost predicate Inv(s: System) {
    Ticketed(s) && Partitioned(s) && Locked(s.db) && Counted(s) && Priced(s) && Fair(s)
  }

  lemma InitialInv(s: System)
    requires Initial(s.db) && s.log == EMPTY_LOG
    ensures Inv(s)
  {
  }

  // ---- Frames ----

  // A step that keeps the counted rows keeps every cell.
  lemma RolledFrame(log: Log, log': Log)
    requires log.rolled == log'.rolled
    requires forall t <- log.rolled :: t in log.final && t in log'.final && log.final[t] == log'.final[t]
    ensures forall k :: RolledTotal(log, k) == RolledTotal(log', k)
    ensures (set t | t in log.rolled :: FinalKey(log)(t)) == (set t | t in log'.rolled :: FinalKey(log')(t))
  {
    forall k ensures RolledTotal(log, k) == RolledTotal(log', k) {
      assert InGroups(log.rolled, FinalKey(log), {k}) == InGroups(log'.rolled, FinalKey(log'), {k});
      SumCongruent(InGroups(log.rolled, FinalKey(log), {k}), FinalTotals(log), FinalTotals(log'));
    }
  }

  lemma CountedFrame(s: System, s': System)
    requires Ticketed(s) && Partitioned(s) && Counted(s)
    requires s'.db.daily == s.db.daily && s'.log.rolled == s.log.rolled
    requires forall t <- s.log.rolled :: t in s'.log.final && s'.log.final[t] == s.log.final[t]
    ensures Counted(s')
  {
    RolledFrame(s.log, s'.log);
  }

  // A step that touches no row and no daily total.
  lemma RowsKept(s: System, s': System)
    requires Inv(s) && Locked(s'.db)
    requires s'.db.events == s.db.events && s'.db.daily == s.db.daily && s'.log == s.log
    requires forall p <- s.db.prices :: p in s'.db.prices && s'.db.prices[p] == s.db.prices[p]
    requires forall p <- s'.db.prices :: s'.db.prices[p].input >= 0 && s'.db.prices[p].output >= 0
    ensures Inv(s')
  {
    CountedFrame(s, s');
  }

  lemma LockKeeps(db: Db, tx: nat, ids: set<string>)
    requires Locked(db) && tx !in db.locks && Claimable(db, ids)
    ensures Locked(LockBatch(db, tx, ids))
  {
    var db' := LockBatch(db, tx, ids);
    forall a, b | a in db'.locks && b in db'.locks && a != b ensures db'.locks[a].Keys !! db'.locks[b].Keys {
      assert db'.locks[tx].Keys == ids;
      assert a != tx ==> db'.locks[a] == db.locks[a];
      assert b != tx ==> db'.locks[b] == db.locks[b];
    }
  }

  lemma QuietStep(s: System, step: Step, s': System)
    requires Inv(s) && SystemNext(s, step, s')
    requires step.Tick? || step.Lock? || step.Abort? || step.NewPrice?
    ensures Inv(s') && s'.log == s.log
  {
    if step.Lock? {
      LockKeeps(s.db, step.tx, step.ids);
    }
    RowsKept(s, s');
  }

  // ---- A row is inserted ----

  lemma LockedFrame(db: Db, db': Db)
    requires Locked(db) && db'.locks == db.locks
    requires forall id :: id in db.events && Unrolled(db.events[id]) ==>
               id in db'.events && db'.events[id] == db.events[id]
    ensures Locked(db')
  {
  }

  ghost predicate Inserted(s: System, id: string, s': System)
    requires Ticketed(s)
  {
    && id !in s.db.events
    && s'.db.events.Keys == s.db.events.Keys + {id}
    && (forall i <- s.db.events :: s'.db.events[i] == s.db.events[i])
    && s'.db.events[id].state.Pending? && s'.db.events[id].rolledUpAt.None?
    && s'.log.ticket == s.log.ticket[id := s.log.begun] && s'.log.begun == s.log.begun + 1
    && s'.log.agreed.Keys == s.log.agreed.Keys + {s.log.begun}
    && s'.log.final == s.log.final && s'.log.rolled == s.log.rolled
  }

  lemma InsertedTicketed(s: System, id: string, s': System)
    requires Ticketed(s) && Inserted(s, id, s')
    ensures Ticketed(s')
  {
  }

  lemma InsertedLive(s: System, id: string, s': System)
    requires Ticketed(s) && Inserted(s, id, s') && Ticketed(s')
    ensures LiveTickets(s') == LiveTickets(s)
  {
    assert LiveRows(s'.db) == LiveRows(s.db);
  }

  lemma BeginPartition(s: System, id: string, s': System)
    requires Ticketed(s) && Partitioned(s) && Inserted(s, id, s')
    ensures Ticketed(s') && Partitioned(s')
  {
    InsertedTicketed(s, id, s');
    InsertedLive(s, id, s');
    forall i | i in s.db.events ensures RowMatches(s', i) {
      assert RowMatches(s, i);
    }
  }

  lemma BeginInserts(s: System, step: Step, s': System)
    requires Ticketed(s) && SystemNext(s, step, s') && step.Begin?
    ensures Inserted(s, step.id, s')
    ensures s'.db == s.db.(events := s'.db.events)
    ensures s'.db.events[step.id].priceId == step.priceId && InForce(s.db.prices, step.model, step.priceId)
    ensures s'.log.agreed == s.log.agreed[s.log.begun := Lookup(s.db.prices, step.priceId)]
    ensures var row := s'.db.events[step.id]; row.prompt.None? && row.completion.None? && row.cost.None?
  {
  }

  lemma BeginPriced(s: System, step: Step, s': System)
    requires Ticketed(s) && Partitioned(s) && Ticketed(s') && Priced(s) && Fair(s)
    requires SystemNext(s, step, s') && step.Begin?
    ensures Priced(s') && Fair(s')
  {
    BeginInserts(s, step, s');
  }

  lemma BeginStep(s: System, step: Step, s': System)
    requires Inv(s) && SystemNext(s, step, s') && step.Begin?
    ensures Inv(s')
    ensures s'.log.final == s.log.final && s'.log.rolled == s.log.rolled
  {
    BeginInserts(s, step, s');
    BeginPartition(s, step.id, s');
    BeginPriced(s, step, s');
    LockedFrame(s.db, s'.db);
    CountedFrame(s, s');
  }

  // ---- Rows leave pending ----

  // Rows of the set leave pending together; no other row changes.
  ghost predicate RowsEnd(s: System, ids: set<string>, s': System)
    requires Ticketed(s)
  {
    && s'.db.events.Keys == s.db.events.Keys && ids <= s.db.events.Keys
    && (forall id <- s.db.events :: id !in ids ==> s'.db.events[id] == s.db.events[id])
    && (forall id <- ids ::
          && s.db.events[id].state.Pending? && s'.db.events[id].state.Ended?
          && s'.db.events[id].rolledUpAt == s.db.events[id].rolledUpAt
          && s'.db.events[id].priceId == s.db.events[id].priceId
          && FairlyPriced(s'.db.events[id], s.log.agreed[s.log.ticket[id]]))
    && s'.db == s.db.(events := s'.db.events)
    && s'.log == s.log.(final := s'.log.final)
    && s'.log.final.Keys == s.log.final.Keys + Tickets(s.log, ids)
    && (forall t <- s.log.final :: s'.log.final[t] == s.log.final[t])
    && (forall id <- ids :: s'.log.final[s.log.ticket[id]] == s'.db.events[id])
  }

  lemma EndMatches(s: System, ids: set<string>, s': System, id: string)
    requires Ticketed(s) && Partitioned(s) && RowsEnd(s, ids, s') && id in s.db.events
    ensures RowMatches(s', id)
    ensures id in ids ==> s.db.events[id].rolledUpAt.None? && s.log.ticket[id] !in s.log.final
  {
    assert RowMatches(s, id);
  }

  lemma EndPartition(s: System, ids: set<string>, s': System)
    requires Ticketed(s) && Partitioned(s) && RowsEnd(s, ids, s')
    ensures Ticketed(s') && Partitioned(s')
  {
    forall id | id in s.db.events
      ensures RowMatches(s', id)
      ensures id in ids ==> s.db.events[id].rolledUpAt.None? && s.log.ticket[id] !in s.log.final
    {
      EndMatches(s, ids, s', id);
    }
    assert LiveRows(s'.db) == LiveRows(s.db) + ids;
    assert Tickets(s.log, LiveRows(s.db) + ids) == LiveTickets(s) + Tickets(s.log, ids);
  }

  lemma EndFair(s: System, ids: set<string>, s': System)
    requires Ticketed(s) && Partitioned(s) && Fair(s) && RowsEnd(s, ids, s') && Ticketed(s')
    ensures Fair(s')
  {
    forall t | t in s'.log.final ensures t in s'.log.agreed && FairlyPriced(s'.log.final[t], s'.log.agreed[t]) {
      if t !in s.log.final {
        var id :| id in ids && s.log.ticket[id] == t;
      }
    }
  }

  lemma RowsEndKeeps(s: System, ids: set<string>, s': System)
    requires Inv(s) && RowsEnd(s, ids, s')
    ensures Inv(s')
  {
    EndPartition(s, ids, s');
    EndFair(s, ids, s');
    CountedFrame(s, s');
    LockedFrame(s.db, s'.db);
  }

  lemma PendingIsOpen(s: System, ids: set<string>)
    requires Ticketed(s) && Partitioned(s)
    requires forall id <- ids :: id in s.db.events && s.db.events[id].state.Pending?
    ensures forall id <- ids :: s.log.ticket[id] !in s.log.final
  {
    forall id | id in ids
      ensures s.log.ticket[id] !in s.log.final
    {
      assert RowMatches(s, id);
    }
  }

  // What the record gains when pending rows end.
  lemma RecordsEnds(s: System, s': System)
    requires Ticketed(s) && Partitioned(s) && s'.db.events.Keys == s.db.events.Keys
    requires s'.log == s.log.(final := s.log.final + EndedRows(s.log, s.db, s'.db))
    ensures var ids := NewlyEnded(s.db, s'.db);
            && ids <= s.log.ticket.Keys
            && s'.log.final.Keys == s.log.final.Keys + Tickets(s.log, ids)
            && (forall t <- s.log.final :: s'.log.final[t] == s.log.final[t])
            && (forall id <- ids :: s'.log.final[s.log.ticket[id]] == s'.db.events[id])
  {
    var ids := NewlyEnded(s.db, s'.db);
    PendingIsOpen(s, ids);
    FinalGrows(s.log, s.db, s'.db, ids);
  }

  lemma FinalGrows(log: Log, db: Db, db': Db, ids: set<string>)
    requires Injective(log.ticket) && log.ticket.Keys == db.events.Keys && ids == NewlyEnded(db, db')
    requires forall id <- ids :: log.ticket[id] !in log.final
    ensures var grown := log.final + EndedRows(log, db, db');
            && grown.Keys == log.final.Keys + Tickets(log, ids)
            && (forall t <- log.final :: grown[t] == log.final[t])
            && (forall id <- ids :: grown[log.ticket[id]] == db'.events[id])
  {
    var rows := EndedRows(log, db, db');
    assert forall t <- log.final :: t !in rows;
  }

  // A finished row keeps its promise.
  lemma FinishedFairly(db: Db, step: Step, db': Db, price: Option<Price>)
    requires Next(db, step, db') && step.Finish?
    requires price == Lookup(db.prices, db.events[step.id].priceId)
    ensures db' == db.(events := db'.events) && db'.events.Keys == db.events.Keys
    ensures NewlyEnded(db, db') == {step.id}
    ensures forall id <- db.events :: id != step.id ==> db'.events[id] == db.events[id]
    ensures var row, row' := db.events[step.id], db'.events[step.id];
            row'.rolledUpAt == row.rolledUpAt && row'.priceId == row.priceId && FairlyPriced(row', price)
  {
  }

  lemma ExpiredRows(db: Db)
    ensures NewlyEnded(db, ExpirePendingUsage(db)) == set id | id in db.events && Stale(db.events[id], db.now)
    ensures var db' := ExpirePendingUsage(db);
            && db' == db.(events := db'.events) && db'.events.Keys == db.events.Keys
            && forall id <- db.events ::
                 if id in NewlyEnded(db, db')
                 then Stale(db.events[id], db.now) && db'.events[id] == ExpireRow(db.events[id], db.now)
                 else db'.events[id] == db.events[id]
  {
  }

  lemma ExpiredFairly(row: Event, price: Option<Price>, now: int)
    requires Stale(row, now) && row.prompt.None? && row.completion.None? && row.cost.None?
    ensures var row' := ExpireRow(row, now);
            row'.rolledUpAt == row.rolledUpAt && row'.priceId == row.priceId && FairlyPriced(row', price)
  {
  }

  lemma FinishEnds(s: System, step: Step, s': System)
    requires Inv(s) && SystemNext(s, step, s') && step.Finish?
    ensures RowsEnd(s, {step.id}, s')
  {
    FinishedFairly(s.db, step, s'.db, s.log.agreed[s.log.ticket[step.id]]);
    RecordsEnds(s, s');
  }

  lemma ExpireEnds(s: System, step: Step, s': System)
    requires Inv(s) && SystemNext(s, step, s') && step.Expire?
    ensures RowsEnd(s, NewlyEnded(s.db, s'.db), s')
    ensures NewlyEnded(s.db, s'.db) == set id | id in s.db.events && Stale(s.db.events[id], s.db.now)
  {
    var ids := NewlyEnded(s.db, s'.db);
    ExpiredRows(s.db);
    forall id | id in ids
      ensures FairlyPriced(s'.db.events[id], s.log.agreed[s.log.ticket[id]])
    {
      ExpiredFairly(s.db.events[id], s.log.agreed[s.log.ticket[id]], s.db.now);
    }
    RecordsEnds(s, s');
  }

  // ---- A rollup commits ----

  lemma TicketsMember(log: Log, ids: set<string>, id: string)
    requires Injective(log.ticket) && ids <= log.ticket.Keys && id in log.ticket
    ensures log.ticket[id] in Tickets(log, ids) <==> id in ids
  {
  }

  lemma CommitMatches(s: System, claimed: set<string>, s': System, id: string)
    requires Ticketed(s) && Partitioned(s) && id in s.db.events && claimed <= LiveRows(s.db)
    requires s'.db.events == Marked(s.db.events, claimed, s.db.now)
    requires s'.log == s.log.(rolled := s.log.rolled + Tickets(s.log, claimed))
    ensures RowMatches(s', id)
    ensures id in claimed ==> s.log.ticket[id] !in s.log.rolled
  {
    assert RowMatches(s, id);
    TicketsMember(s.log, claimed, id);
  }

  lemma TicketsApart(log: Log, left: set<string>, claimed: set<string>)
    requires Injective(log.ticket) && left + claimed <= log.ticket.Keys && left !! claimed
    ensures Tickets(log, left + claimed) == Tickets(log, left) + Tickets(log, claimed)
    ensures Tickets(log, left) !! Tickets(log, claimed)
  {
  }

  // The claimed rows are counted: no ticket among them was counted before.
  lemma CommitPartition(s: System, claimed: set<string>, s': System)
    requires Ticketed(s) && Partitioned(s) && claimed <= LiveRows(s.db)
    requires s'.db.events == Marked(s.db.events, claimed, s.db.now)
    requires s'.log == s.log.(rolled := s.log.rolled + Tickets(s.log, claimed))
    ensures Ticketed(s') && Partitioned(s')
    ensures s.log.rolled !! Tickets(s.log, claimed)
  {
    forall id | id in s.db.events
      ensures RowMatches(s', id)
      ensures id in claimed ==> s.log.ticket[id] !in s.log.rolled
    {
      CommitMatches(s, claimed, s', id);
    }
    var left := LiveRows(s.db) - claimed;
    assert LiveRows(s'.db) == left;
    assert LiveRows(s.db) == left + claimed;
    TicketsApart(s.log, left, claimed);
    assert LiveTickets(s') == Tickets(s.log, left);
  }

  lemma CommitLocked(db: Db, tx: nat, db': Db)
    requires Locked(db) && tx in db.locks
    requires db'.events == Marked(db.events, db.locks[tx].Keys, db.now) && db'.locks == db.locks - {tx}
    ensures Locked(db')
  {
    forall a, id | a in db'.locks && id in db'.locks[a]
      ensures id in db'.events && db'.events[id] == db'.locks[a][id] && Unrolled(db'.events[id])
    {
      assert db.locks[a].Keys !! db.locks[tx].Keys;
    }
  }

  ghost predicate ClaimOf(s: System, claimed: map<string, Event>)
    requires Ticketed(s)
  {
    forall id <- claimed :: id in s.db.events && s.db.events[id] == claimed[id] && Unrolled(claimed[id])
  }

  lemma ClaimedTicket(s: System, claimed: map<string, Event>, id: string)
    requires Ticketed(s) && Partitioned(s) && ClaimOf(s, claimed) && id in claimed
    ensures s.log.ticket[id] in s.log.final
    ensures FinalKey(s.log)(s.log.ticket[id]) == KeyOf(claimed[id])
    ensures FinalTotals(s.log)(s.log.ticket[id]) == Contribution(claimed[id])
  {
    assert RowMatches(s, id);
  }

  // The claim, seen through its tickets.
  ghost predicate ClaimAgrees(log: Log, claimed: map<string, Event>) {
    && Injective(log.ticket) && claimed.Keys <= log.ticket.Keys
    && forall id <- claimed ::
         && RowKey(claimed)(id) == FinalKey(log)(log.ticket[id])
         && RowTotals(claimed)(id) == FinalTotals(log)(log.ticket[id])
  }

  lemma ClaimAgreement(s: System, claimed: map<string, Event>)
    requires Ticketed(s) && Partitioned(s) && ClaimOf(s, claimed)
    ensures ClaimAgrees(s.log, claimed)
  {
    forall id | id in claimed
      ensures RowKey(claimed)(id) == FinalKey(s.log)(s.log.ticket[id])
      ensures RowTotals(claimed)(id) == FinalTotals(s.log)(s.log.ticket[id])
    {
      ClaimedTicket(s, claimed, id);
    }
  }

  function TicketOf(log: Log): string -> nat {
    (id: string) => if id in log.ticket then log.ticket[id] else 0
  }

  lemma ClaimedGroup(log: Log, claimed: map<string, Event>, k: DayKey)
    requires ClaimAgrees(log, claimed)
    ensures Image(InGroups(claimed.Keys, RowKey(claimed), {k}), TicketOf(log))
         == InGroups(Tickets(log, claimed.Keys), FinalKey(log), {k})
  {
    var rows := InGroups(claimed.Keys, RowKey(claimed), {k});
    var ts := InGroups(Tickets(log, claimed.Keys), FinalKey(log), {k});
    forall t | t in ts ensures t in Image(rows, TicketOf(log)) {
      var id :| id in claimed && log.ticket[id] == t;
      assert id in rows && TicketOf(log)(id) == t;
    }
    forall t | t in Image(rows, TicketOf(log)) ensures t in ts {
      var id :| id in rows && TicketOf(log)(id) == t;
    }
  }

  lemma ClaimedSum(log: Log, claimed: map<string, Event>, rows: set<string>)
    requires ClaimAgrees(log, claimed) && rows <= claimed.Keys
    ensures Sum(rows, RowTotals(claimed)) == Sum(Image(rows, TicketOf(log)), FinalTotals(log))
  {
    SumReindex(rows, TicketOf(log), RowTotals(claimed), FinalTotals(log));
  }

  // Grouping claimed rows is grouping their tickets.
  lemma ClaimedAsTickets(log: Log, claimed: map<string, Event>, k: DayKey)
    requires ClaimAgrees(log, claimed)
    ensures ClaimedTotal(claimed, k) == GroupSum(Tickets(log, claimed.Keys), FinalKey(log), FinalTotals(log), k)
  {
    ClaimedGroup(log, claimed, k);
    ClaimedSum(log, claimed, InGroups(claimed.Keys, RowKey(claimed), {k}));
  }

  lemma CommitCell(s: System, tx: nat, k: DayKey)
    requires Ticketed(s) && Partitioned(s) && Locked(s.db) && tx in s.db.locks
    requires s.log.rolled !! Tickets(s.log, s.db.locks[tx].Keys)
    ensures RolledTotal(s.log.(rolled := s.log.rolled + Tickets(s.log, s.db.locks[tx].Keys)), k)
         == Add(RolledTotal(s.log, k), ClaimedTotal(s.db.locks[tx], k))
  {
    var ts := Tickets(s.log, s.db.locks[tx].Keys);
    ClaimAgreement(s, s.db.locks[tx]);
    ClaimedAsTickets(s.log, s.db.locks[tx], k);
    assert InGroups(s.log.rolled + ts, FinalKey(s.log), {k})
        == InGroups(s.log.rolled, FinalKey(s.log), {k}) + InGroups(ts, FinalKey(s.log), {k});
    SumUnion(InGroups(s.log.rolled, FinalKey(s.log), {k}), InGroups(ts, FinalKey(s.log), {k}), FinalTotals(s.log));
    var log' := s.log.(rolled := s.log.rolled + ts);
    assert InGroups(log'.rolled, FinalKey(log'), {k}) == InGroups(s.log.rolled + ts, FinalKey(s.log), {k});
    SumCongruent(InGroups(log'.rolled, FinalKey(log'), {k}), FinalTotals(log'), FinalTotals(s.log));
  }

  lemma NothingClaimed(claimed: map<string, Event>, k: DayKey)
    requires k !in ClaimedKeys(claimed)
    ensures ClaimedTotal(claimed, k) == ZERO
  {
    assert InGroups(claimed.Keys, RowKey(claimed), {k}) == {};
  }

  lemma CommitKeys(s: System, claimed: map<string, Event>, log': Log)
    requires Ticketed(s) && Partitioned(s) && ClaimOf(s, claimed)
    requires log' == s.log.(rolled := s.log.rolled + Tickets(s.log, claimed.Keys))
    ensures (set t | t in log'.rolled :: FinalKey(log')(t))
         == (set t | t in s.log.rolled :: FinalKey(s.log)(t)) + ClaimedKeys(claimed)
  {
    assert forall t :: FinalKey(log')(t) == FinalKey(s.log)(t);
    var before := set t | t in s.log.rolled :: FinalKey(s.log)(t);
    var after := set t | t in log'.rolled :: FinalKey(log')(t);
    forall id | id in claimed ensures KeyOf(claimed[id]) in after {
      ClaimedTicket(s, claimed, id);
      assert s.log.ticket[id] in log'.rolled;
    }
    forall k | k in after ensures k in before + ClaimedKeys(claimed) {
      var t :| t in log'.rolled && FinalKey(log')(t) == k;
      if t !in s.log.rolled {
        var id :| id in claimed && s.log.ticket[id] == t;
        ClaimedTicket(s, claimed, id);
      }
    }
  }

  lemma UpsertCell(daily: map<DayKey, Totals>, claimed: map<string, Event>, k: DayKey)
    ensures Get(Upsert(daily, claimed), k) == Add(Get(daily, k), ClaimedTotal(claimed, k))
  {
    if k !in ClaimedKeys(claimed) { NothingClaimed(claimed, k); }
  }

  lemma CommitCounted(s: System, tx: nat, s': System)
    requires Ticketed(s) && Partitioned(s) && Locked(s.db) && Counted(s) && tx in s.db.locks
    requires s.log.rolled !! Tickets(s.log, s.db.locks[tx].Keys)
    requires s'.db.daily == Upsert(s.db.daily, s.db.locks[tx])
    requires s'.log == s.log.(rolled := s.log.rolled + Tickets(s.log, s.db.locks[tx].Keys))
    ensures Counted(s')
  {
    CommitKeys(s, s.db.locks[tx], s'.log);
    forall k ensures Get(s'.db.daily, k) == RolledTotal(s'.log, k) {
      CommitCell(s, tx, k);
      UpsertCell(s.db.daily, s.db.locks[tx], k);
    }
  }

  lemma CommitStep(s: System, step: Step, s': System)
    requires Inv(s) && SystemNext(s, step, s') && step.Commit?
    ensures Inv(s')
    ensures s'.log.final == s.log.final
  {
    CommitPartition(s, s.db.locks[step.tx].Keys, s');
    CommitLocked(s.db, step.tx, s'.db);
    CommitCounted(s, step.tx, s');
  }

  // ---- Old rows are deleted ----

  lemma DeletePartition(s: System, ids: set<string>, s': System)
    requires Ticketed(s) && Partitioned(s)
    requires forall id <- ids :: id in s.db.events && s.db.events[id].rolledUpAt.Some?
    requires s'.db.events == s.db.events - ids && s'.log == s.log.(ticket := s.log.ticket - ids)
    ensures Ticketed(s') && Partitioned(s')
  {
    forall id | id in s'.db.events ensures RowMatches(s', id) {
      assert RowMatches(s, id);
    }
    assert LiveRows(s'.db) == LiveRows(s.db);
    assert LiveTickets(s') == LiveTickets(s);
  }

  lemma DeleteStep(s: System, step: Step, s': System)
    requires Inv(s) && SystemNext(s, step, s') && step.Delete?
    ensures Inv(s')
    ensures s'.log.final == s.log.final && s'.log.rolled == s.log.rolled
  {
    DeletePartition(s, step.ids, s');
    LockedFrame(s.db, s'.db);
    CountedFrame(s, s');
  }

  // ---- All runs ----

  // Terminal rows are never forgotten and never change, and what a rollup
  // counted stays counted.
  ghost predicate Grows(log: Log, log': Log) {
    && (forall t <- log.final :: t in log'.final && log'.final[t] == log.final[t])
    && log.rolled <= log'.rolled
    && (forall t <- log.agreed :: t in log'.agreed && log'.agreed[t] == log.agreed[t])
  }

  lemma StepKeeps(s: System, step: Step, s': System)
    requires Inv(s) && SystemNext(s, step, s')
    ensures Inv(s') && Grows(s.log, s'.log)
  {
    match step
    case Begin(_, _, _, _, _) => BeginStep(s, step, s'); BeginInserts(s, step, s');
    case Finish(id, _, _, _, _, _) => FinishEnds(s, step, s'); RowsEndKeeps(s, {id}, s');
    case Expire => ExpireEnds(s, step, s'); RowsEndKeeps(s, NewlyEnded(s.db, s'.db), s');
    case Commit(_) => CommitStep(s, step, s');
    case Delete(_, _) => DeleteStep(s, step, s');
    case _ => QuietStep(s, step, s');
  }

  // Recording never blocks a statement: every step of the tables is a step
  // of the recorded system.
  lemma RecordingIsTotal(s: System, step: Step, db': Db)
    requires Inv(s) && Next(s.db, step, db')
    ensures Recordable(s, step, db')
    ensures SystemNext(s, step, System(db', Record(s.log, s.db, step, db')))
  {
    if step.Begin? {
      BeginIsRecordable(s.db, step, db');
    } else if step.Commit? {
      CommitIsRecordable(s.db, step.tx);
    }
    assert Recordable(s, step, db');
  }

  lemma BeginIsRecordable(db: Db, step: Step, db': Db)
    requires Next(db, step, db') && step.Begin?
    ensures step.id in db'.events
  {
  }

  lemma CommitIsRecordable(db: Db, tx: nat)
    requires Locked(db) && tx in db.locks
    ensures db.locks[tx].Keys <= db.events.Keys
  {
  }

  // Conservation, in every state of every run and every interleaving.
  lemma {:induction false} RunKeeps(states: seq<System>, steps: seq<Step>, i: nat)
    requires Run(states, steps) && i < |states|
    ensures Inv(states[i])
    decreases i
  {
    if i == 0 {
      InitialInv(states[0]);
    } else {
      RunKeeps(states, steps, i - 1);
      StepKeeps(states[i - 1], steps[i - 1], states[i]);
    }
  }
}
