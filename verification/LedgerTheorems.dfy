// What an account holder and an auditor can rely on in every reachable state.
module LedgerTheorems {
  import opened Wrappers
  import opened Sums
  import opened Metering
  import opened Ledger
  import opened LedgerInvariant
  import opened Columns

  // ---- Conservation ----

  // The terminal rows of one cell that no rollup has counted.
  ghost function LiveTotal(db: Db, k: DayKey): Totals {
    GroupSum(LiveRows(db), RowKey(db.events), RowTotals(db.events), k)
  }

  // All requests of one cell that ever became terminal.
  ghost function EverTotal(log: Log, k: DayKey): Totals {
    GroupSum(log.final.Keys, FinalKey(log), FinalTotals(log), k)
  }

  // Live rows, seen through their tickets.
  lemma LiveAgreement(s: System)
    requires Inv(s)
    ensures ClaimAgrees(s.log, LiveClaim(s.db))
    ensures Tickets(s.log, LiveRows(s.db)) == LiveTickets(s)
  {
    ClaimAgreement(s, LiveClaim(s.db));
  }

  function LiveClaim(db: Db): map<string, Event> {
    map id | id in LiveRows(db) :: db.events[id]
  }

  lemma LiveTotalAsClaim(db: Db, k: DayKey)
    ensures LiveTotal(db, k) == ClaimedTotal(LiveClaim(db), k)
  {
    var claim := LiveClaim(db);
    assert InGroups(LiveRows(db), RowKey(db.events), {k}) == InGroups(claim.Keys, RowKey(claim), {k});
    SumCongruent(InGroups(claim.Keys, RowKey(claim), {k}), RowTotals(db.events), RowTotals(claim));
  }

  // In every column of every cell, the stored row and the terminal rows still
  // waiting add up to all the requests that ever became terminal.
  lemma Conservation(s: System, k: DayKey)
    requires Inv(s)
    ensures Add(Get(s.db.daily, k), LiveTotal(s.db, k)) == EverTotal(s.log, k)
  {
    LiveTotalAsTickets(s, k);
    GroupSplits(s.log.rolled, LiveTickets(s), FinalKey(s.log), FinalTotals(s.log), k);
    assert s.log.final.Keys == s.log.rolled + LiveTickets(s);
  }

  lemma LiveTotalAsTickets(s: System, k: DayKey)
    requires Inv(s)
    ensures LiveTotal(s.db, k) == GroupSum(LiveTickets(s), FinalKey(s.log), FinalTotals(s.log), k)
  {
    LiveAgreement(s);
    LiveTotalAsClaim(s.db, k);
    ClaimedAsTickets(s.log, LiveClaim(s.db), k);
    assert LiveClaim(s.db).Keys == LiveRows(s.db);
  }

  lemma GroupSplits(a: set<nat>, b: set<nat>, key: nat -> DayKey, f: nat -> Totals, k: DayKey)
    requires a !! b
    ensures GroupSum(a + b, key, f, k) == Add(GroupSum(a, key, f, k), GroupSum(b, key, f, k))
  {
    assert InGroups(a + b, key, {k}) == InGroups(a, key, {k}) + InGroups(b, key, {k});
    SumUnion(InGroups(a, key, {k}), InGroups(b, key, {k}), f);
  }

  lemma RunConservation(states: seq<System>, steps: seq<Step>, i: nat, k: DayKey)
    requires Run(states, steps) && i < |states|
    ensures Add(Get(states[i].db.daily, k), LiveTotal(states[i].db, k)) == EverTotal(states[i].log, k)
  {
    RunKeeps(states, steps, i);
    Conservation(states[i], k);
  }

  // What ended is all that the totals of ever depend on.
  lemma EverFrame(log: Log, log': Log, k: DayKey)
    requires log'.final == log.final
    ensures EverTotal(log', k) == EverTotal(log, k)
  {
    assert InGroups(log'.final.Keys, FinalKey(log'), {k}) == InGroups(log.final.Keys, FinalKey(log), {k});
    SumCongruent(InGroups(log.final.Keys, FinalKey(log), {k}), FinalTotals(log'), FinalTotals(log));
  }

  // ---- Exactly once ----

  // Two rollups in flight never hold the same row, nothing they hold has been
  // counted, and no other statement but their own end can take it from them.
  lemma ClaimsAreExclusive(s: System, a: nat, b: nat, id: string)
    requires Inv(s) && a in s.db.locks && b in s.db.locks && id in s.db.locks[a]
    ensures id in s.db.locks[b] ==> a == b
    ensures id in s.log.ticket && s.log.ticket[id] in s.log.final && s.log.ticket[id] !in s.log.rolled
  {
    assert RowMatches(s, id);
  }

  lemma LocksPersist(db: Db, step: Step, db': Db, tx: nat)
    requires Next(db, step, db') && tx in db.locks && step != Commit(tx) && step != Abort(tx)
    ensures tx in db'.locks && db'.locks[tx] == db.locks[tx]
  {
  }

  lemma ClaimsAreStable(s: System, step: Step, s': System, tx: nat)
    requires Inv(s) && SystemNext(s, step, s') && tx in s.db.locks
    requires step != Commit(tx) && step != Abort(tx)
    ensures tx in s'.db.locks && s'.db.locks[tx] == s.db.locks[tx]
    ensures forall id <- s.db.locks[tx] :: id in s'.db.events && s'.db.events[id] == s.db.locks[tx][id]
  {
    LocksPersist(s.db, step, s'.db, tx);
    StepKeeps(s, step, s');
  }

  // A commit counts each claimed request once, none of which was counted
  // before: every column of every stored row grows by the claimed rows alone.
  lemma CommitCountsOnce(s: System, tx: nat, s': System)
    requires Inv(s) && SystemNext(s, Commit(tx), s')
    ensures s.log.rolled !! Tickets(s.log, s.db.locks[tx].Keys)
    ensures s'.log.rolled == s.log.rolled + Tickets(s.log, s.db.locks[tx].Keys)
    ensures DailyGrew(s.db.daily, s'.db.daily, s.db.locks[tx], s.db.locks[tx].Keys)
  {
    CommitPartition(s, s.db.locks[tx].Keys, s');
    UpsertGrows(s.db.daily, s.db.locks[tx]);
  }

  // An aborted rollup leaves no trace.
  lemma AbortLeavesNoTrace(db: Db, tx: nat, ids: set<string>)
    requires tx !in db.locks && Claimable(db, ids)
    ensures AbortBatch(LockBatch(db, tx, ids), tx) == db
  {
    assert LockBatch(db, tx, ids).locks - {tx} == db.locks;
  }

  // A row that has ended stays ended while it exists. So expiry and a late
  // finish cannot both end it: whichever comes second changes nothing.
  lemma EndedStaysEnded(db: Db, step: Step, db': Db, id: string)
    requires Next(db, step, db') && id in db.events && id in db'.events && db.events[id].state.Ended?
    ensures db'.events[id].(rolledUpAt := None) == db.events[id].(rolledUpAt := None)
    ensures id !in NewlyEnded(db, db')
    ensures ExpirePendingUsage(db').events[id] == db'.events[id]
    ensures forall backend, status, outcome, prompt, completion ::
              FinishUsage(db', id, backend, status, outcome, prompt, completion).Err?
  {
  }

  // Every row leaves pending at most once: a ticket that a statement ends was
  // not final before, is final after, and (StepKeeps) stays as it ended.
  lemma LeavesPendingOnce(s: System, step: Step, s': System, id: string)
    requires Inv(s) && SystemNext(s, step, s') && id in NewlyEnded(s.db, s'.db)
    ensures id in s.log.ticket && s.log.ticket[id] !in s.log.final
    ensures s.log.ticket[id] in s'.log.final && Grows(s.log, s'.log)
  {
    StepKeeps(s, step, s');
    TicketBecomesFinal(s, step, s', id);
  }

  lemma TicketBecomesFinal(s: System, step: Step, s': System, id: string)
    requires Inv(s) && SystemNext(s, step, s') && id in NewlyEnded(s.db, s'.db)
    ensures id in s.log.ticket && s.log.ticket[id] !in s.log.final && s.log.ticket[id] in s'.log.final
  {
    PendingIsOpen(s, {id});
    assert step.Finish? || step.Expire?;
    if step.Finish? {
      FinishEnds(s, step, s');
    } else {
      ExpireEnds(s, step, s');
    }
  }

  // ---- The account view ----

  datatype Cell = Cell(day: int, model: string)

  function CellOf(k: DayKey): Cell { Cell(k.day, k.model) }

  function Midnight(day: int): int { day * DAY }

  predicate InView(k: DayKey, account: string, since: int) {
    k.account == account && k.day >= since
  }

  // The two branches of the view: stored rows chosen by day, live rows chosen
  // by their starting time.
  function StoredPart(db: Db, account: string, since: int): set<DayKey> {
    set k | k in db.daily && InView(k, account, since)
  }

  function LivePart(db: Db, account: string, since: int): set<string> {
    set id | id in db.events && Unrolled(db.events[id])
             && db.events[id].account == account && db.events[id].startedAt >= Midnight(since)
  }

  function StoredTotals(db: Db): DayKey -> Totals {
    (k: DayKey) => Get(db.daily, k)
  }

  ghost function StoredIn(db: Db, account: string, since: int, c: Cell): set<DayKey> {
    set k | k in StoredPart(db, account, since) && CellOf(k) == c
  }

  ghost function LiveIn(db: Db, account: string, since: int, c: Cell): set<string> {
    set id | id in LivePart(db, account, since) && CellOf(KeyOf(db.events[id])) == c
  }

  ghost function UsageView(db: Db, account: string, since: int): map<Cell, Totals> {
    var cells := (set k | k in StoredPart(db, account, since) :: CellOf(k))
               + (set id | id in LivePart(db, account, since) :: CellOf(KeyOf(db.events[id])));
    map c | c in cells ::
      Add(Sum(StoredIn(db, account, since, c), StoredTotals(db)),
          Sum(LiveIn(db, account, since, c), RowTotals(db.events)))
  }

  // The same view computed from the history of terminal requests alone.
  ghost function Seen(log: Log, among: set<nat>, account: string, since: int, c: Cell): set<nat> {
    set t | t in among && InView(FinalKey(log)(t), account, since) && CellOf(FinalKey(log)(t)) == c
  }

  ghost function HistoryView(log: Log, account: string, since: int): map<Cell, Totals> {
    var cells := set t | t in log.final && InView(FinalKey(log)(t), account, since) :: CellOf(FinalKey(log)(t));
    map c | c in cells :: Sum(Seen(log, log.final.Keys, account, since, c), FinalTotals(log))
  }

  // day >= D is the same choice as started_at >= midnight of D.
  lemma DaysStartAtMidnight(time: int, day: int)
    ensures DayOf(time) >= day <==> time >= Midnight(day)
  {
  }

  lemma StoredSum(s: System, account: string, since: int, c: Cell)
    requires Inv(s)
    ensures Sum(StoredIn(s.db, account, since, c), StoredTotals(s.db))
         == Sum(Seen(s.log, s.log.rolled, account, since, c), FinalTotals(s.log))
  {
    var ks := StoredIn(s.db, account, since, c);
    SumOfGroups(ks, StoredTotals(s.db), s.log.rolled, FinalKey(s.log), FinalTotals(s.log));
    assert InGroups(s.log.rolled, FinalKey(s.log), ks) == Seen(s.log, s.log.rolled, account, since, c);
  }

  lemma LiveSum(s: System, account: string, since: int, c: Cell)
    requires Inv(s)
    ensures Sum(LiveIn(s.db, account, since, c), RowTotals(s.db.events))
         == Sum(Seen(s.log, LiveTickets(s), account, since, c), FinalTotals(s.log))
  {
    var rows, claim := LiveIn(s.db, account, since, c), LiveClaim(s.db);
    LiveAgreement(s);
    SumCongruent(rows, RowTotals(s.db.events), RowTotals(claim));
    ClaimedSum(s.log, claim, rows);
    LiveSeen(s, account, since, c);
  }

  lemma LiveSeen(s: System, account: string, since: int, c: Cell)
    requires Inv(s) && ClaimAgrees(s.log, LiveClaim(s.db))
    ensures Image(LiveIn(s.db, account, since, c), TicketOf(s.log)) == Seen(s.log, LiveTickets(s), account, since, c)
  {
    var rows, ts := LiveIn(s.db, account, since, c), Seen(s.log, LiveTickets(s), account, since, c);
    forall id | id in LiveRows(s.db)
      ensures id in rows <==> s.log.ticket[id] in ts
    {
      var k := KeyOf(s.db.events[id]);
      assert FinalKey(s.log)(s.log.ticket[id]) == RowKey(LiveClaim(s.db))(id) == k;
      DaysStartAtMidnight(s.db.events[id].startedAt, since);
    }
    forall t | t in ts ensures t in Image(rows, TicketOf(s.log)) {
      var id :| id in LiveRows(s.db) && s.log.ticket[id] == t;
      assert TicketOf(s.log)(id) == t;
    }
  }

  lemma SeenSplits(s: System, account: string, since: int, c: Cell)
    requires Inv(s)
    ensures Sum(Seen(s.log, s.log.final.Keys, account, since, c), FinalTotals(s.log))
         == Add(Sum(Seen(s.log, s.log.rolled, account, since, c), FinalTotals(s.log)),
                Sum(Seen(s.log, LiveTickets(s), account, since, c), FinalTotals(s.log)))
  {
    var a, b := Seen(s.log, s.log.rolled, account, since, c), Seen(s.log, LiveTickets(s), account, since, c);
    assert Seen(s.log, s.log.final.Keys, account, since, c) == a + b;
    SumUnion(a, b, FinalTotals(s.log));
  }

  lemma ViewCells(s: System, account: string, since: int)
    requires Inv(s)
    ensures UsageView(s.db, account, since).Keys == HistoryView(s.log, account, since).Keys
  {
    ViewCellsAreEarned(s, account, since);
    EarnedCellsAreViewed(s, account, since);
  }

  lemma ViewCellsAreEarned(s: System, account: string, since: int)
    requires Inv(s)
    ensures UsageView(s.db, account, since).Keys <= HistoryView(s.log, account, since).Keys
  {
    LiveAgreement(s);
    forall c | c in UsageView(s.db, account, since).Keys ensures c in HistoryView(s.log, account, since).Keys {
      if k :| k in StoredPart(s.db, account, since) && CellOf(k) == c {
        var t :| t in s.log.rolled && FinalKey(s.log)(t) == k;
      } else {
        var id :| id in LivePart(s.db, account, since) && CellOf(KeyOf(s.db.events[id])) == c;
        assert s.log.ticket[id] in LiveTickets(s);
        assert RowKey(LiveClaim(s.db))(id) == FinalKey(s.log)(s.log.ticket[id]);
        DaysStartAtMidnight(s.db.events[id].startedAt, since);
      }
    }
  }

  lemma EarnedCellsAreViewed(s: System, account: string, since: int)
    requires Inv(s)
    ensures HistoryView(s.log, account, since).Keys <= UsageView(s.db, account, since).Keys
  {
    LiveAgreement(s);
    forall c | c in HistoryView(s.log, account, since).Keys ensures c in UsageView(s.db, account, since).Keys {
      var t :| t in s.log.final && InView(FinalKey(s.log)(t), account, since) && CellOf(FinalKey(s.log)(t)) == c;
      if t in s.log.rolled {
        assert FinalKey(s.log)(t) in s.db.daily;
      } else {
        var id :| id in LiveRows(s.db) && s.log.ticket[id] == t;
        assert RowKey(LiveClaim(s.db))(id) == FinalKey(s.log)(t);
        DaysStartAtMidnight(s.db.events[id].startedAt, since);
        assert id in LivePart(s.db, account, since);
      }
    }
  }

  // The view depends only on which requests ended and how.
  lemma ViewIsHistory(s: System, account: string, since: int)
    requires Inv(s)
    ensures UsageView(s.db, account, since) == HistoryView(s.log, account, since)
  {
    ViewCells(s, account, since);
    var view, history := UsageView(s.db, account, since), HistoryView(s.log, account, since);
    forall c | c in view
      ensures view[c] == history[c]
    {
      CellIsHistory(s, account, since, c);
    }
    SameCells(view, history);
  }

  lemma SameCells(a: map<Cell, Totals>, b: map<Cell, Totals>)
    requires a.Keys == b.Keys && forall c <- a :: a[c] == b[c]
    ensures a == b
  {
  }

  lemma CellIsHistory(s: System, account: string, since: int, c: Cell)
    requires Inv(s) && c in UsageView(s.db, account, since) && c in HistoryView(s.log, account, since)
    ensures UsageView(s.db, account, since)[c] == HistoryView(s.log, account, since)[c]
  {
    StoredSum(s, account, since, c);
    LiveSum(s, account, since, c);
    SeenSplits(s, account, since, c);
  }

  // Claiming, committing, aborting and deleting leave every view as it was;
  // so do new requests, new prices and the passing of time.
  lemma MaintenanceKeepsViews(s: System, step: Step, s': System, account: string, since: int)
    requires Inv(s) && SystemNext(s, step, s') && !step.Finish? && !step.Expire?
    ensures UsageView(s'.db, account, since) == UsageView(s.db, account, since)
  {
    StepKeeps(s, step, s');
    ViewIsHistory(s, account, since);
    ViewIsHistory(s', account, since);
    assert s'.log.final == s.log.final;
    HistoryFrame(s.log, s'.log, account, since);
  }

  lemma HistoryFrame(log: Log, log': Log, account: string, since: int)
    requires log'.final == log.final
    ensures HistoryView(log', account, since) == HistoryView(log, account, since)
  {
    assert forall t :: FinalKey(log')(t) == FinalKey(log)(t) && FinalTotals(log')(t) == FinalTotals(log)(t);
    forall c ensures Sum(Seen(log', log'.final.Keys, account, since, c), FinalTotals(log'))
                  == Sum(Seen(log, log.final.Keys, account, since, c), FinalTotals(log)) {
      assert Seen(log', log'.final.Keys, account, since, c) == Seen(log, log.final.Keys, account, since, c);
      SumCongruent(Seen(log, log.final.Keys, account, since, c), FinalTotals(log'), FinalTotals(log));
    }
  }

  lemma OneRowEnds(s: System, id: string, s': System)
    requires Ticketed(s) && Partitioned(s) && RowsEnd(s, {id}, s')
    ensures s.log.ticket[id] !in s.log.final
    ensures s'.log.final == s.log.final[s.log.ticket[id] := s'.db.events[id]]
  {
    EndMatches(s, {id}, s', id);
    assert Tickets(s.log, {id}) == {s.log.ticket[id]};
  }

  lemma UnseenCell(log: Log, account: string, since: int, c: Cell)
    ensures c !in HistoryView(log, account, since) ==>
              Sum(Seen(log, log.final.Keys, account, since, c), FinalTotals(log)) == ZERO
  {
    if c !in HistoryView(log, account, since) {
      assert Seen(log, log.final.Keys, account, since, c) == {};
    }
  }
}
