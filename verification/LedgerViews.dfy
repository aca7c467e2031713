// How the account view grows: by the rows that leave pending, whichever
// statement ends them, and by nothing else.
module LedgerViews {
  import opened Wrappers
  import opened Sums
  import opened Ledger
  import opened LedgerInvariant
  import opened LedgerTheorems
  import opened Metering
  import opened Columns

  // The rows a statement ended, as they ended.
  function RowsEndedBy(db: Db, db': Db): map<string, Event> {
    map id | id in NewlyEnded(db, db') :: db'.events[id]
  }

  function CellsOf(rows: map<string, Event>, account: string, since: int): set<Cell> {
    set id | id in rows && InView(KeyOf(rows[id]), account, since) :: CellOf(KeyOf(rows[id]))
  }

  function RowsIn(rows: map<string, Event>, account: string, since: int, c: Cell): set<string> {
    set id | id in rows && InView(KeyOf(rows[id]), account, since) && CellOf(KeyOf(rows[id])) == c
  }

  function CellOrZero(view: map<Cell, Totals>, c: Cell): Totals {
    if c in view then view[c] else ZERO
  }

  // Each cell grows by the rows that belong to it, and there are no others.
  ghost predicate GrowsBy(before: map<Cell, Totals>, after: map<Cell, Totals>, rows: map<string, Event>,
                          account: string, since: int)
  {
    && after.Keys == before.Keys + CellsOf(rows, account, since)
    && forall c <- after ::
         GrewBy(if c in before then before[c] else Totals(0, 0, 0, 0, 0, 0, 0, 0), after[c], rows,
                RowsIn(rows, account, since, c))
  }

  // Some tickets became final, each with the row it stands for.
  ghost predicate Finals(log: Log, log': Log, rows: map<string, Event>) {
    && Injective(log.ticket) && rows.Keys <= log.ticket.Keys
    && log'.final.Keys == log.final.Keys + Tickets(log, rows.Keys)
    && (forall t <- log.final :: log'.final[t] == log.final[t])
    && (forall id <- rows :: log.ticket[id] !in log.final && log'.final[log.ticket[id]] == rows[id])
  }

  lemma NothingFinal(log: Log, log': Log)
    requires Injective(log.ticket) && log'.final == log.final
    ensures Finals(log, log', map[])
  {
    assert Tickets(log, {}) == {};
  }

  lemma QuietEnds(s: System, step: Step, s': System)
    requires SystemNext(s, step, s') && Injective(s.log.ticket) && !step.Finish? && !step.Expire?
    ensures s'.log.final == s.log.final && RowsEndedBy(s.db, s'.db) == map[]
  {
    assert NewlyEnded(s.db, s'.db) == {};
  }

  lemma StepFinals(s: System, step: Step, s': System)
    requires Inv(s) && SystemNext(s, step, s')
    ensures Finals(s.log, s'.log, RowsEndedBy(s.db, s'.db))
  {
    var ids := NewlyEnded(s.db, s'.db);
    assert RowsEndedBy(s.db, s'.db).Keys == ids;
    if step.Finish? || step.Expire? {
      EndingFinals(s, step, s');
    } else {
      QuietEnds(s, step, s');
      NothingFinal(s.log, s'.log);
    }
  }

  lemma EndingFinals(s: System, step: Step, s': System)
    requires Inv(s) && SystemNext(s, step, s') && (step.Finish? || step.Expire?)
    ensures Finals(s.log, s'.log, RowsEndedBy(s.db, s'.db))
  {
    var ids := NewlyEnded(s.db, s'.db);
    PendingIsOpen(s, ids);
    EndingIsRowsEnd(s, step, s');
    assert RowsEndedBy(s.db, s'.db).Keys == ids;
  }

  lemma EndingIsRowsEnd(s: System, step: Step, s': System)
    requires Inv(s) && SystemNext(s, step, s') && (step.Finish? || step.Expire?)
    ensures RowsEnd(s, NewlyEnded(s.db, s'.db), s')
  {
    if step.Finish? {
      FinishEnds(s, step, s');
      FinishedFairly(s.db, step, s'.db, Lookup(s.db.prices, s.db.events[step.id].priceId));
    } else {
      ExpireEnds(s, step, s');
    }
  }

  lemma SeenGrowsBy(log: Log, log': Log, rows: map<string, Event>, account: string, since: int, c: Cell)
    requires Finals(log, log', rows)
    ensures var before, more := Seen(log, log.final.Keys, account, since, c),
                                Image(RowsIn(rows, account, since, c), TicketOf(log));
            before !! more && Seen(log', log'.final.Keys, account, since, c) == before + more
  {
    var before, more := Seen(log, log.final.Keys, account, since, c),
                        Image(RowsIn(rows, account, since, c), TicketOf(log));
    assert forall t <- log.final :: FinalKey(log')(t) == FinalKey(log)(t);
    forall t | t in Seen(log', log'.final.Keys, account, since, c) && t !in log.final
      ensures t in more
    {
      var id :| id in rows && log.ticket[id] == t;
      assert TicketOf(log)(id) == t && FinalKey(log')(t) == KeyOf(rows[id]);
    }
    forall t | t in more
      ensures t in Seen(log', log'.final.Keys, account, since, c) && t !in log.final
    {
      var id :| id in RowsIn(rows, account, since, c) && TicketOf(log)(id) == t;
      assert FinalKey(log')(t) == KeyOf(rows[id]);
    }
  }

  lemma SumGrowsBy(log: Log, log': Log, rows: map<string, Event>, account: string, since: int, c: Cell)
    requires Finals(log, log', rows)
    ensures Sum(Seen(log', log'.final.Keys, account, since, c), FinalTotals(log')) ==
            Add(Sum(Seen(log, log.final.Keys, account, since, c), FinalTotals(log)),
                Sum(RowsIn(rows, account, since, c), RowTotals(rows)))
  {
    var before, more := Seen(log, log.final.Keys, account, since, c), RowsIn(rows, account, since, c);
    SeenGrowsBy(log, log', rows, account, since, c);
    SumUnion(before, Image(more, TicketOf(log)), FinalTotals(log'));
    SumCongruent(before, FinalTotals(log'), FinalTotals(log));
    SumReindex(more, TicketOf(log), RowTotals(rows), FinalTotals(log'));
  }

  lemma CellsGrowBy(log: Log, log': Log, rows: map<string, Event>, account: string, since: int)
    requires Finals(log, log', rows)
    ensures HistoryView(log', account, since).Keys ==
            HistoryView(log, account, since).Keys + CellsOf(rows, account, since)
  {
    assert forall t <- log.final :: FinalKey(log')(t) == FinalKey(log)(t);
    forall c | c in HistoryView(log', account, since)
      ensures c in HistoryView(log, account, since).Keys + CellsOf(rows, account, since)
    {
      var t :| t in log'.final && InView(FinalKey(log')(t), account, since) && CellOf(FinalKey(log')(t)) == c;
      if t !in log.final {
        var id :| id in rows && log.ticket[id] == t;
        assert FinalKey(log')(t) == KeyOf(rows[id]);
      }
    }
    forall c | c in CellsOf(rows, account, since)
      ensures c in HistoryView(log', account, since)
    {
      var id :| id in rows && InView(KeyOf(rows[id]), account, since) && CellOf(KeyOf(rows[id])) == c;
      assert log.ticket[id] in Tickets(log, rows.Keys);
      assert FinalKey(log')(log.ticket[id]) == KeyOf(rows[id]);
    }
    forall c | c in HistoryView(log, account, since)
      ensures c in HistoryView(log', account, since)
    {
      var t :| t in log.final && InView(FinalKey(log)(t), account, since) && CellOf(FinalKey(log)(t)) == c;
      assert t in log'.final;
    }
  }

  // Whatever a statement does, a view grows by exactly the rows it ended, each
  // in its own cell: one row for a finish, any number for an expiry, and none
  // for all others.
  lemma ViewsGrowByEnding(s: System, step: Step, s': System, account: string, since: int)
    requires Inv(s) && SystemNext(s, step, s')
    ensures GrowsBy(UsageView(s.db, account, since), UsageView(s'.db, account, since),
                    RowsEndedBy(s.db, s'.db), account, since)
  {
    StepKeeps(s, step, s');
    StepFinals(s, step, s');
    ViewIsHistory(s, account, since);
    ViewIsHistory(s', account, since);
    HistoryGrowsBy(s.log, s'.log, RowsEndedBy(s.db, s'.db), account, since);
  }

  lemma HistoryGrowsBy(log: Log, log': Log, rows: map<string, Event>, account: string, since: int)
    requires Finals(log, log', rows)
    ensures GrowsBy(HistoryView(log, account, since), HistoryView(log', account, since), rows, account, since)
  {
    CellsGrowBy(log, log', rows, account, since);
    var before, after := HistoryView(log, account, since), HistoryView(log', account, since);
    forall c | c in after
      ensures GrewBy(if c in before then before[c] else Totals(0, 0, 0, 0, 0, 0, 0, 0), after[c], rows,
                     RowsIn(rows, account, since, c))
    {
      SumGrowsBy(log, log', rows, account, since, c);
      UnseenCell(log, account, since, c);
      SumCounts(CellOrZero(before, c), RowsIn(rows, account, since, c), RowTotals(rows), rows);
    }
  }

  // An expiry ends the pending rows that began more than a week ago, as
  // incomplete and without a cost, and changes no other row.
  lemma ExpiryEndsStale(db: Db)
    ensures var rows, after := RowsEndedBy(db, ExpirePendingUsage(db)), ExpirePendingUsage(db).events;
            && rows.Keys == (set id | id in db.events && db.events[id].state == Pending
                                      && db.events[id].startedAt < db.now - 604_800_000_000)
            && (forall id <- rows ::
                  rows[id] == db.events[id].(state := Ended(Incomplete), finishedAt := Some(db.now)))
            && after.Keys == db.events.Keys
            && forall id <- after :: id !in rows ==> after[id] == db.events[id]
  {
    ExpiredRows(db);
  }

  // ---- One row ----

  ghost predicate SameElsewhere(a: map<Cell, Totals>, b: map<Cell, Totals>, c: Cell) {
    forall other :: other != c ==> (other in a <==> other in b) && (other in a ==> a[other] == b[other])
  }

  ghost predicate GrowsByOne(before: map<Cell, Totals>, after: map<Cell, Totals>, e: Event,
                            account: string, since: int)
  {
    var c := CellOf(KeyOf(e));
    && SameElsewhere(before, after, c)
    && if InView(KeyOf(e), account, since)
       then c in after && GrewByRow(if c in before then before[c] else Totals(0, 0, 0, 0, 0, 0, 0, 0), after[c], e)
       else after == before
  }

  lemma OneRowGrows(before: map<Cell, Totals>, after: map<Cell, Totals>, id: string, e: Event,
                    account: string, since: int)
    requires GrowsBy(before, after, map[id := e], account, since)
    ensures GrowsByOne(before, after, e, account, since)
  {
    var rows, own, shown := map[id := e], CellOf(KeyOf(e)), InView(KeyOf(e), account, since);
    CellOfOne(rows, id, e, account, since);
    forall c | c in after
      ensures if shown && c == own then GrewByRow(CellOrZero(before, c), after[c], e)
              else after[c] == CellOrZero(before, c)
    {
      CellByOneRow(CellOrZero(before, c), after[c], id, e, account, since, c);
    }
    OtherCellsSame(before, after, own, shown);
  }

  lemma CellOfOne(rows: map<string, Event>, id: string, e: Event, account: string, since: int)
    requires rows == map[id := e]
    ensures CellsOf(rows, account, since) == if InView(KeyOf(e), account, since) then {CellOf(KeyOf(e))} else {}
  {
    assert id in rows;
    assert forall x <- rows :: x == id;
  }

  lemma OtherCellsSame(before: map<Cell, Totals>, after: map<Cell, Totals>, own: Cell, shown: bool)
    requires after.Keys == before.Keys + if shown then {own} else {}
    requires forall c <- after :: !(shown && c == own) ==> after[c] == CellOrZero(before, c)
    ensures SameElsewhere(before, after, own) && (!shown ==> after == before)
  {
    if !shown {
      assert after == before;
    }
  }

  lemma CellByOneRow(before: Totals, after: Totals, id: string, e: Event, account: string, since: int, c: Cell)
    requires GrewBy(before, after, map[id := e], RowsIn(map[id := e], account, since, c))
    ensures if InView(KeyOf(e), account, since) && c == CellOf(KeyOf(e)) then GrewByRow(before, after, e)
            else after == before
  {
    var rows := map[id := e];
    if InView(KeyOf(e), account, since) && c == CellOf(KeyOf(e)) {
      assert RowsIn(rows, account, since, c) == {id};
      GrewByThatRow(before, after, rows, id);
    } else {
      assert RowsIn(rows, account, since, c) == {};
      GrewByNoRow(before, after, rows);
    }
  }

  lemma FinishEndsOne(db: Db, step: Step, db': Db)
    requires Next(db, step, db') && step.Finish?
    ensures step.id in db'.events && RowsEndedBy(db, db') == map[step.id := db'.events[step.id]]
  {
    FinishedFairly(db, step, db', Lookup(db.prices, db.events[step.id].priceId));
  }

  // A finish adds exactly its own request to the one cell it belongs to, in
  // its account's views that reach back to its day, and changes nothing else.
  lemma FinishGrowsView(s: System, step: Step, s': System, account: string, since: int)
    requires Inv(s) && SystemNext(s, step, s') && step.Finish?
    ensures step.id in s'.db.events
    ensures GrowsByOne(UsageView(s.db, account, since), UsageView(s'.db, account, since),
                       s'.db.events[step.id], account, since)
  {
    FinishEndsOne(s.db, step, s'.db);
    ViewsGrowByEnding(s, step, s', account, since);
    OneRowGrows(UsageView(s.db, account, since), UsageView(s'.db, account, since), step.id,
                s'.db.events[step.id], account, since);
  }
}
