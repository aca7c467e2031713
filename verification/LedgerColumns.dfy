// The stored daily rows, the waiting rows and the account view, column by
// column: how many requests, which outcomes, how many tokens, what cost.
module LedgerColumns {
  import opened Wrappers
  import opened Sums
  import opened Metering
  import opened Ledger
  import opened LedgerInvariant
  import opened LedgerTheorems
  import opened Columns

  // A stored row exists for the cells with counted requests, and counts each
  // of them once, with its outcome, its tokens and its cost.
  lemma StoredRowCounts(s: System, k: DayKey)
    requires Inv(s)
    ensures k in s.db.daily <==> InCell(s.log.final, s.log.rolled, k) != {}
    ensures k in s.db.daily ==> Counts(s.db.daily[k], s.log.final, InCell(s.log.final, s.log.rolled, k))
  {
    RolledCells(s, k);
    GroupCounts(ZERO, s.log.final, s.log.rolled, FinalKey(s.log), FinalTotals(s.log), k);
    NothingToAdd(RolledTotal(s.log, k));
  }

  lemma RolledCells(s: System, k: DayKey)
    requires Inv(s)
    ensures k in s.db.daily <==> InCell(s.log.final, s.log.rolled, k) != {}
  {
    if k in s.db.daily {
      var t :| t in s.log.rolled && FinalKey(s.log)(t) == k;
      assert t in InCell(s.log.final, s.log.rolled, k);
    }
    if t :| t in InCell(s.log.final, s.log.rolled, k) {
      assert FinalKey(s.log)(t) == k;
    }
  }

  // The total of a cell counts every request of it that ever ended.
  lemma EverCounts(log: Log, k: DayKey)
    ensures Counts(EverTotal(log, k), log.final, InCell(log.final, log.final.Keys, k))
  {
    GroupCounts(ZERO, log.final, log.final.Keys, FinalKey(log), FinalTotals(log), k);
    NothingToAdd(EverTotal(log, k));
  }

  // The rows that have ended and wait for a rollup.
  ghost function Waiting(db: Db): set<string> {
    set id | id in db.events && db.events[id].state != Pending && db.events[id].rolledUpAt == None
  }

  // Those that no rollup in flight holds.
  ghost function Unclaimed(db: Db): set<string> {
    set id | id in Waiting(db) && forall tx <- db.locks :: id !in db.locks[tx]
  }

  // The rows that may be deleted: counted, and begun before the cutoff.
  ghost function Aged(db: Db, cutoff: int): set<string> {
    set id | id in db.events && db.events[id].rolledUpAt != None && db.events[id].startedAt < cutoff
  }

  // What was stored and what waits make up all that ever ended: the stored row
  // and the waiting rows of a cell, counted once each, are its requests.
  lemma RequestsConserved(s: System, k: DayKey)
    requires Inv(s)
    ensures var stored := if k in s.db.daily then s.db.daily[k] else Totals(0, 0, 0, 0, 0, 0, 0, 0);
            && GrewBy(stored, EverTotal(s.log, k), s.db.events, InCell(s.db.events, Waiting(s.db), k))
            && Counts(EverTotal(s.log, k), s.log.final, InCell(s.log.final, s.log.final.Keys, k))
  {
    EverCounts(s.log, k);
    Conservation(s, k);
    WaitingCounts(s.db, Get(s.db.daily, k), k);
  }

  lemma WaitingCounts(db: Db, before: Totals, k: DayKey)
    ensures GrewBy(before, Add(before, LiveTotal(db, k)), db.events, InCell(db.events, Waiting(db), k))
  {
    assert Waiting(db) == LiveRows(db);
    GroupCounts(before, db.events, LiveRows(db), RowKey(db.events), RowTotals(db.events), k);
  }

  // The requests one cell of an account's view is about.
  ghost function Viewed(log: Log, account: string, since: int, c: Cell): set<nat> {
    set t | t in log.final
            && log.final[t].account == account && log.final[t].model == c.model
            && log.final[t].startedAt / 86_400_000_000 == c.day && c.day >= since
  }

  lemma ViewedIsSeen(log: Log, account: string, since: int, c: Cell)
    ensures Viewed(log, account, since, c) == Seen(log, log.final.Keys, account, since, c)
  {
    forall t | t in log.final
      ensures t in Viewed(log, account, since, c) <==> t in Seen(log, log.final.Keys, account, since, c)
    {
      assert FinalKey(log)(t) == KeyOf(log.final[t]);
    }
  }

  // What an account sees of a day and a model: every ended request of it,
  // counted or waiting, deleted or not, once.
  lemma ViewCounts(s: System, account: string, since: int, c: Cell)
    requires Inv(s)
    ensures c in UsageView(s.db, account, since) <==> Viewed(s.log, account, since, c) != {}
    ensures c in UsageView(s.db, account, since) ==>
              Counts(UsageView(s.db, account, since)[c], s.log.final, Viewed(s.log, account, since, c))
  {
    ViewIsHistory(s, account, since);
    ViewedIsSeen(s.log, account, since, c);
    HistoryCell(s.log, account, since, c);
    SumCounts(ZERO, Viewed(s.log, account, since, c), FinalTotals(s.log), s.log.final);
    NothingToAdd(Sum(Viewed(s.log, account, since, c), FinalTotals(s.log)));
  }

  lemma HistoryCell(log: Log, account: string, since: int, c: Cell)
    ensures c in HistoryView(log, account, since) <==> Seen(log, log.final.Keys, account, since, c) != {}
  {
    if t :| t in Seen(log, log.final.Keys, account, since, c) {
      assert InView(FinalKey(log)(t), account, since);
    }
    if c in HistoryView(log, account, since) {
      var t :| t in log.final && InView(FinalKey(log)(t), account, since) && CellOf(FinalKey(log)(t)) == c;
      assert t in Seen(log, log.final.Keys, account, since, c);
    }
  }
}
