// The account store: its statements as methods that change the tables, and
// the maintenance pass built from them.
module AccountStore {
  import opened Wrappers
  import opened Sums
  import opened Metering
  import opened Ledger
  import opened LedgerInvariant
  import opened LedgerTheorems
  import opened Columns
  import opened LedgerColumns
  import opened LedgerPricing

  const ROLLUP_BATCH: nat := 1000
  const DELETE_BATCH: nat := 1000

  // The rows a limited, ordered selection returns: up to the limit, none
  // younger than a row left behind.
  ghost predicate OldestBatch(events: map<string, Event>, eligible: set<string>, limit: nat, ids: set<string>)
    requires eligible <= events.Keys
  {
    && ids <= eligible
    && |ids| == (if |eligible| < limit then |eligible| else limit)
    && forall a <- ids, b <- eligible - ids :: events[a].startedAt <= events[b].startedAt
  }

  method Oldest(events: map<string, Event>, rows: set<string>) returns (oldest: string)
    requires rows != {} && rows <= events.Keys
    ensures oldest in rows && forall id <- rows :: events[oldest].startedAt <= events[id].startedAt
  {
    oldest :| oldest in rows;
    var rest := rows - {oldest};
    while rest != {}
      invariant rest <= rows && oldest in rows - rest
      invariant forall id <- rows - rest :: events[oldest].startedAt <= events[id].startedAt
      decreases rest
    {
      var id :| id in rest;
      if events[id].startedAt < events[oldest].startedAt {
        oldest := id;
      }
      rest := rest - {id};
    }
  }

  method SelectOldest(events: map<string, Event>, eligible: set<string>, limit: nat) returns (ids: set<string>)
    requires eligible <= events.Keys
    ensures OldestBatch(events, eligible, limit, ids)
  {
    ids := {};
    var rest := eligible;
    while |ids| < limit && rest != {}
      invariant ids <= eligible && rest == eligible - ids && |ids| <= limit
      invariant forall a <- ids, b <- rest :: events[a].startedAt <= events[b].startedAt
      decreases rest
    {
      var id := Oldest(events, rest);
      OneMoreOldest(events, eligible, ids, id);
      ids := ids + {id};
      rest := rest - {id};
    }
    assert eligible == ids + rest;
    assert |eligible| == |ids| + |rest|;
  }

  lemma OneMoreOldest(events: map<string, Event>, eligible: set<string>, ids: set<string>, id: string)
    requires ids <= eligible <= events.Keys && id in eligible - ids
    requires forall a <- ids, b <- eligible - ids :: events[a].startedAt <= events[b].startedAt
    requires forall b <- eligible - ids :: events[id].startedAt <= events[b].startedAt
    ensures eligible - (ids + {id}) == eligible - ids - {id}
    ensures |ids + {id}| == |ids| + 1
    ensures forall a <- ids + {id}, b <- eligible - ids - {id} :: events[a].startedAt <= events[b].startedAt
  {
  }

  method LatestPrice(prices: map<nat, Price>, model: string) returns (choice: Option<nat>)
    ensures InForce(prices, model, choice)
    ensures if choice.Some? then SetLast(prices, model, choice.value)
            else forall p <- prices :: prices[p].model != model
  {
    choice := None;
    var rest := prices.Keys;
    while rest != {}
      invariant rest <= prices.Keys
      invariant choice.Some? ==>
        && choice.value in prices && prices[choice.value].model == model
        && forall q <- prices.Keys - rest ::
             prices[q].model == model ==> Older(q, prices[q], choice.value, prices[choice.value])
      invariant choice.None? ==> forall q <- prices.Keys - rest :: prices[q].model != model
      decreases rest
    {
      var p :| p in rest;
      if prices[p].model == model && (choice.None? || Older(choice.value, prices[choice.value], p, prices[p])) {
        choice := Some(p);
      }
      rest := rest - {p};
    }
    InForceMeaning(prices, model, choice);
  }

  ghost predicate CellsGrouped(claimed: map<string, Event>, groups: map<DayKey, Totals>) {
    forall k :: Get(groups, k) == ClaimedTotal(claimed, k)
  }

  function AddRow(groups: map<DayKey, Totals>, e: Event): map<DayKey, Totals> {
    groups[KeyOf(e) := Add(Get(groups, KeyOf(e)), Contribution(e))]
  }

  // GROUP BY over the claimed rows.
  method GroupClaim(claimed: map<string, Event>) returns (groups: map<DayKey, Totals>)
    ensures groups.Keys == ClaimedKeys(claimed) && CellsGrouped(claimed, groups)
  {
    groups := map[];
    var rest := claimed.Keys;
    ghost var part: map<string, Event> := map[];
    GroupNothing();
    while rest != {}
      invariant rest <= claimed.Keys && part == Claim(claimed, claimed.Keys - rest)
      invariant groups.Keys == ClaimedKeys(part) && CellsGrouped(part, groups)
      decreases rest
    {
      var id :| id in rest;
      KeysOneMore(part, id, claimed[id]);
      CellsOneMore(part, groups, id, claimed[id]);
      groups := AddRow(groups, claimed[id]);
      part := part[id := claimed[id]];
      rest := rest - {id};
    }
    assert part == claimed;
  }

  lemma GroupNothing()
    ensures CellsGrouped(map[], map[])
  {
    forall k ensures ClaimedTotal(map[], k) == ZERO {
      NothingClaimed(map[], k);
    }
  }

  lemma CellsOneMore(part: map<string, Event>, groups: map<DayKey, Totals>, id: string, e: Event)
    requires id !in part && CellsGrouped(part, groups)
    ensures CellsGrouped(part[id := e], AddRow(groups, e))
  {
    forall k ensures Get(AddRow(groups, e), k) == ClaimedTotal(part[id := e], k) {
      CellOneMore(part, groups, id, e, k);
    }
  }

  lemma CellOneMore(part: map<string, Event>, groups: map<DayKey, Totals>, id: string, e: Event, k: DayKey)
    requires id !in part && Get(groups, k) == ClaimedTotal(part, k)
    ensures Get(AddRow(groups, e), k) == ClaimedTotal(part[id := e], k)
  {
    ClaimOneMore(part, id, e, k);
  }

  lemma KeysOneMore(part: map<string, Event>, id: string, e: Event)
    requires id !in part
    ensures ClaimedKeys(part[id := e]) == ClaimedKeys(part) + {KeyOf(e)}
  {
    var after := part[id := e];
    forall k | k in ClaimedKeys(part) + {KeyOf(e)} ensures k in ClaimedKeys(after) {
      if k == KeyOf(e) {
        assert id in after;
      } else {
        var other :| other in part && KeyOf(part[other]) == k;
        assert other in after;
      }
    }
  }

  lemma RowsOneMore(part: map<string, Event>, id: string, e: Event, k: DayKey)
    requires id !in part
    ensures var before, all := InGroups(part.Keys, RowKey(part), {k}), part[id := e];
            && id !in before && before <= part.Keys
            && InGroups(all.Keys, RowKey(all), {k}) == if k == KeyOf(e) then before + {id} else before
  {
  }

  lemma ClaimOneMore(part: map<string, Event>, id: string, e: Event, k: DayKey)
    requires id !in part
    ensures ClaimedTotal(part[id := e], k)
         == if k == KeyOf(e) then Add(ClaimedTotal(part, k), Contribution(e)) else ClaimedTotal(part, k)
  {
    var before, f, f' := InGroups(part.Keys, RowKey(part), {k}), RowTotals(part), RowTotals(part[id := e]);
    RowsOneMore(part, id, e, k);
    SumCongruent(before, f', f);
    if k == KeyOf(e) {
      assert f'(id) == Contribution(e);
      SumOneMore(before, f', id);
    }
  }

  lemma SumOneMore(rows: set<string>, f: string -> Totals, id: string)
    requires id !in rows
    ensures Sum(rows + {id}, f) == Add(Sum(rows, f), f(id))
  {
    SumPick(rows + {id}, f, id);
    assert rows + {id} - {id} == rows;
  }

  function Merged(daily: map<DayKey, Totals>, groups: map<DayKey, Totals>): map<DayKey, Totals> {
    map k | k in daily.Keys + groups.Keys :: Add(Get(daily, k), Get(groups, k))
  }

  // INSERT ... ON CONFLICT DO UPDATE of each group. A total beyond 64 bits
  // fails the whole statement.
  method UpsertGroups(daily: map<DayKey, Totals>, groups: map<DayKey, Totals>)
    returns (r: Result<map<DayKey, Totals>, DbError>)
    ensures r.Ok? ==> r.value == Merged(daily, groups)
    ensures r.Ok? <==> forall k <- groups :: Fits(Merged(daily, groups)[k])
    ensures r.Err? ==> r.error == OutOfRange
  {
    var stored := daily;
    var rest := groups.Keys;
    while rest != {}
      invariant rest <= groups.Keys
      invariant stored.Keys == daily.Keys + (groups.Keys - rest)
      invariant forall k <- stored ::
                  stored[k] == if k in groups.Keys - rest then Merged(daily, groups)[k] else daily[k]
      invariant forall k <- groups.Keys - rest :: Fits(Merged(daily, groups)[k])
      decreases rest
    {
      var k :| k in rest;
      var total := Add(Get(daily, k), groups[k]);
      assert total == Merged(daily, groups)[k];
      if !Fits(total) {
        return Err(OutOfRange);
      }
      stored := stored[k := total];
      rest := rest - {k};
    }
    assert stored == Merged(daily, groups);
    return Ok(stored);
  }

  lemma MergedIsUpsert(daily: map<DayKey, Totals>, claimed: map<string, Event>, groups: map<DayKey, Totals>)
    requires groups.Keys == ClaimedKeys(claimed) && CellsGrouped(claimed, groups)
    ensures Merged(daily, groups) == Upsert(daily, claimed)
  {
    forall k | k in Merged(daily, groups) ensures Merged(daily, groups)[k] == Upsert(daily, claimed)[k] {
      assert Get(groups, k) == ClaimedTotal(claimed, k);
    }
  }

  function Claim(events: map<string, Event>, ids: set<string>): map<string, Event>
    requires ids <= events.Keys
  {
    map id | id in ids :: events[id]
  }

  // A statement of the tables and its record together keep the invariant.
  lemma StatementKeeps(s: System, step: Step, db': Db)
    requires Inv(s) && Next(s.db, step, db')
    ensures Recordable(s, step, db')
    ensures var s' := System(db', Record(s.log, s.db, step, db')); SystemNext(s, step, s') && Inv(s')
  {
    RecordingIsTotal(s, step, db');
    StepKeeps(s, step, System(db', Record(s.log, s.db, step, db')));
  }

  lemma Recorded(s: System, step: Step, db': Db) returns (s': System)
    requires Inv(s) && Next(s.db, step, db')
    ensures s'.db == db' && SystemNext(s, step, s') && Inv(s')
  {
    StatementKeeps(s, step, db');
    s' := System(db', Record(s.log, s.db, step, db'));
  }

  lemma {:induction false} SomeFresh(s: set<nat>) returns (n: nat)
    ensures forall x <- s :: x < n
    decreases s
  {
    n := 0;
    if s != {} {
      var x :| x in s;
      n := SomeFresh(s - {x});
      if x >= n { n := x + 1; }
      forall y | y in s ensures y < n { if y != x { assert y in s - {x}; } }
    }
  }

  // Group the claimed rows and add the groups to the stored rows.
  method AddGroups(daily: map<DayKey, Totals>, claimed: map<string, Event>)
    returns (r: Result<map<DayKey, Totals>, DbError>, count: nat)
    requires AllFit(daily)
    ensures r.Ok? <==> AllFit(Upsert(daily, claimed))
    ensures r == if r.Ok? then Ok(Upsert(daily, claimed)) else Err(OutOfRange)
    ensures count == |ClaimedKeys(claimed)|
  {
    var groups := GroupClaim(claimed);
    r := UpsertGroups(daily, groups);
    count := |groups|;
    MergedIsUpsert(daily, claimed, groups);
    MergedFits(daily, groups);
  }

  // Rows that no group is added to fit as before.
  lemma MergedFits(daily: map<DayKey, Totals>, groups: map<DayKey, Totals>)
    requires AllFit(daily)
    ensures (forall k <- groups :: Fits(Merged(daily, groups)[k])) <==> AllFit(Merged(daily, groups))
    ensures |groups| == |groups.Keys|
  {
    assert forall k <- daily :: k !in groups ==> Merged(daily, groups)[k] == daily[k];
  }

  lemma NoKeysNoRows(claimed: map<string, Event>)
    ensures |ClaimedKeys(claimed)| == 0 <==> claimed.Keys == {}
  {
    if id :| id in claimed {
      assert KeyOf(claimed[id]) in ClaimedKeys(claimed);
    }
  }

  // What a whole rollup statement does when it commits: exactly its batch is
  // counted and marked, and every cell grows by what the batch holds of it.
  ghost predicate RolledUp(s: System, ids: set<string>, s': System) {
    && ids <= s.db.events.Keys && ids <= s.log.ticket.Keys
    && s'.db == s.db.(events := Marked(s.db.events, ids, s.db.now),
                      daily := Upsert(s.db.daily, Claim(s.db.events, ids)))
    && s'.log == s.log.(rolled := s.log.rolled + Tickets(s.log, ids))
  }

  // The same, said of the rows: each claimed row is marked and nothing else of
  // it or any other row changes; every column of every stored row grows by the
  // claimed rows of its cell, each of them once.
  ghost predicate CountedOnce(db: Db, ids: set<string>, db': Db) {
    && ids <= db.events.Keys
    && db'.events.Keys == db.events.Keys
    && (forall id <- db.events ::
          db'.events[id] == if id in ids then db.events[id].(rolledUpAt := Some(db.now)) else db.events[id])
    && DailyGrew(db.daily, db'.daily, db.events, ids)
    && db' == Db(db.now, db.prices, db'.events, db'.daily, db.locks)
  }

  lemma RolledUpCounts(s: System, ids: set<string>, s': System)
    requires RolledUp(s, ids, s')
    ensures CountedOnce(s.db, ids, s'.db)
  {
    var claimed := Claim(s.db.events, ids);
    UpsertGrows(s.db.daily, claimed);
    assert claimed.Keys == ids;
    SameRowsDaily(s.db.daily, s'.db.daily, claimed, s.db.events, ids);
  }

  predicate Within64Bits(t: Totals) {
    && t.requests <= 9_223_372_036_854_775_807 && t.complete <= 9_223_372_036_854_775_807
    && t.incomplete <= 9_223_372_036_854_775_807 && t.failed <= 9_223_372_036_854_775_807
    && t.prompt <= 9_223_372_036_854_775_807 && t.completion <= 9_223_372_036_854_775_807
    && t.cost <= 9_223_372_036_854_775_807 && t.priced <= 9_223_372_036_854_775_807
  }

  // No column of any cell would leave the 64-bit range.
  ghost predicate HasRoomFor(db: Db, ids: set<string>) {
    forall k, t :: CellWouldBe(db, ids, k, t) ==> Within64Bits(t)
  }

  ghost predicate CellWouldBe(db: Db, ids: set<string>, k: DayKey, t: Totals) {
    GrewBy(if k in db.daily then db.daily[k] else Totals(0, 0, 0, 0, 0, 0, 0, 0), t, db.events,
           InCell(db.events, ids, k))
  }

  // What makes a rollup fail.
  lemma RoomMeaning(db: Db, ids: set<string>)
    requires ids <= db.events.Keys && AllFit(db.daily)
    ensures AllFit(Upsert(db.daily, Claim(db.events, ids))) <==> HasRoomFor(db, ids)
  {
    var claimed, after := Claim(db.events, ids), Upsert(db.daily, Claim(db.events, ids));
    UpsertGrows(db.daily, claimed);
    assert claimed.Keys == ids;
    SameRowsDaily(db.daily, after, claimed, db.events, ids);
    if AllFit(after) {
      FittingHasRoom(db, after, ids);
    }
    if HasRoomFor(db, ids) {
      RoomFits(db, after, ids);
    }
  }

  lemma RoomFits(db: Db, after: map<DayKey, Totals>, ids: set<string>)
    requires DailyGrew(db.daily, after, db.events, ids) && HasRoomFor(db, ids)
    ensures AllFit(after)
  {
    forall k | k in after
      ensures Fits(after[k])
    {
      assert CellWouldBe(db, ids, k, after[k]);
    }
  }

  lemma FittingHasRoom(db: Db, after: map<DayKey, Totals>, ids: set<string>)
    requires DailyGrew(db.daily, after, db.events, ids) && AllFit(after)
    ensures HasRoomFor(db, ids)
  {
    forall k, t | CellWouldBe(db, ids, k, t)
      ensures Within64Bits(t)
    {
      if k in after {
        SameGrowth(if k in db.daily then db.daily[k] else Totals(0, 0, 0, 0, 0, 0, 0, 0), t, after[k], db.events,
                   InCell(db.events, ids, k));
      } else {
        GrewByNoRow(Totals(0, 0, 0, 0, 0, 0, 0, 0), t, db.events);
      }
    }
  }

  // A rollup that nobody interrupts is a lock followed by a commit.
  lemma RollupKeeps(s: System, ids: set<string>, s': System)
    requires Inv(s) && Claimable(s.db, ids) && RolledUp(s, ids, s')
    requires forall k <- ClaimedKeys(Claim(s.db.events, ids)) :: Fits(s'.db.daily[k])
    ensures Inv(s')
  {
    var tx := LockFirst(s, ids);
    var locked := System(LockBatch(s.db, tx, ids), s.log);
    assert CommitBatch(locked.db, tx) == Ok(s'.db);
    StatementKeeps(locked, Commit(tx), s'.db);
  }

  lemma LockFirst(s: System, ids: set<string>) returns (tx: nat)
    requires Inv(s) && Claimable(s.db, ids)
    ensures var locked := LockBatch(s.db, tx, ids);
            && Inv(System(locked, s.log))
            && locked.locks[tx] == Claim(s.db.events, ids) && locked.locks[tx].Keys == ids
            && locked.locks - {tx} == s.db.locks
  {
    tx := SomeFresh(s.db.locks.Keys);
    LockKeeps(s.db, tx, ids);
    RowsKept(s, System(LockBatch(s.db, tx, ids), s.log));
    LockTables(s.db, tx, ids);
  }

  lemma LockTables(db: Db, tx: nat, ids: set<string>)
    requires tx !in db.locks && Claimable(db, ids)
    ensures var locks := LockBatch(db, tx, ids).locks;
            locks[tx] == Claim(db.events, ids) && locks[tx].Keys == ids && locks - {tx} == db.locks
  {
  }

  // ---- Capacity ----

  predicate AllFit(daily: map<DayKey, Totals>) {
    forall k <- daily :: Fits(daily[k])
  }

  // Every cell has room for all the requests that ever ended.
  ghost predicate Roomy(log: Log) {
    forall k :: Fits(EverTotal(log, k))
  }

  lemma LiveRowNonnegative(s: System, id: string)
    requires Inv(s) && id in LiveRows(s.db)
    ensures AtMost(ZERO, Contribution(s.db.events[id]))
  {
    assert RowMatches(s, id);
    var t := s.log.ticket[id];
    assert FairlyPriced(s.log.final[t], s.log.agreed[t]);
    CostNonnegative(s.log.final[t], s.log.agreed[t]);
  }

  lemma CostNonnegative(e: Event, price: Option<Price>)
    requires FairlyPriced(e, price)
    requires price.Some? ==> price.value.input >= 0 && price.value.output >= 0
    ensures OrZero(e.cost) >= 0
  {
    if e.cost.Some? {
      var x, y := e.prompt.value * price.value.input, e.completion.value * price.value.output;
      assert x >= 0 && y >= 0;
      assert Numerator(price.value, e.prompt.value, e.completion.value) == x + y;
    }
  }

  // Part of the waiting rows adds up to no more than all of them.
  lemma PartOfLive(s: System, ids: set<string>, k: DayKey)
    requires Inv(s) && ids <= LiveRows(s.db)
    ensures AtMost(ClaimedTotal(Claim(s.db.events, ids), k), LiveTotal(s.db, k))
  {
    var part, f := Claim(s.db.events, ids), RowTotals(s.db.events);
    var a := InGroups(part.Keys, RowKey(part), {k});
    var b := InGroups(LiveRows(s.db), RowKey(s.db.events), {k});
    SumCongruent(a, RowTotals(part), f);
    forall id | id in b
      ensures AtMost(ZERO, f(id))
    {
      LiveRowNonnegative(s, id);
    }
    SumSubset(a, b, f);
  }

  // A rollup fails only if some cell has no room for all that ever ended.
  lemma RoomyRollupFits(s: System, ids: set<string>, k: DayKey)
    requires Inv(s) && ids <= LiveRows(s.db) && Fits(EverTotal(s.log, k))
    ensures Fits(Add(Get(s.db.daily, k), ClaimedTotal(Claim(s.db.events, ids), k)))
  {
    PartOfLive(s, ids, k);
    Conservation(s, k);
  }

  lemma RoomyNeverFails(s: System, ids: set<string>)
    requires Inv(s) && AllFit(s.db.daily) && ids <= LiveRows(s.db)
    ensures Roomy(s.log) ==> AllFit(Upsert(s.db.daily, Claim(s.db.events, ids)))
  {
    var after := Upsert(s.db.daily, Claim(s.db.events, ids));
    if Roomy(s.log) {
      forall k | k in after
        ensures Fits(after[k])
      {
        RoomyRollupFits(s, ids, k);
      }
    }
  }

  lemma RoomyFrame(log: Log, log': Log)
    requires log'.final == log.final
    ensures Roomy(log') <==> Roomy(log)
  {
    forall k
      ensures EverTotal(log', k) == EverTotal(log, k)
    {
      EverFrame(log, log', k);
    }
  }

  // Once nothing waits, the stored cells are all there ever was.
  lemma DrainedFits(s: System)
    requires Inv(s) && LiveRows(s.db) == {} && AllFit(s.db.daily)
    ensures Roomy(s.log)
  {
    forall k
      ensures Fits(EverTotal(s.log, k))
    {
      Conservation(s, k);
      assert InGroups(LiveRows(s.db), RowKey(s.db.events), {k}) == {};
    }
  }

  lemma RollupShrinks(db: Db, ids: set<string>, db': Db)
    requires ids <= LiveRows(db) && ids != {}
    requires db'.events == Marked(db.events, ids, db.now)
    ensures |LiveRows(db')| < |LiveRows(db)|
  {
    assert LiveRows(db') == LiveRows(db) - ids;
    assert LiveRows(db) == LiveRows(db') + ids;
  }

  lemma DeleteShrinks(events: map<string, Event>, ids: set<string>)
    requires ids <= events.Keys
    ensures |events - ids| == |events| - |ids|
  {
    assert events.Keys == (events - ids).Keys + ids;
    assert |events.Keys| == |(events - ids).Keys| + |ids|;
  }

  // What expiry, rollup and deletion preserve between them.
  ghost predicate NothingStale(events: map<string, Event>, now: int) {
    forall id <- events :: !Stale(events[id], now)
  }

  lemma ExpiryClears(events: map<string, Event>, now: int)
    ensures NothingStale(ExpireRows(events, now), now)
  {
  }

  lemma MarkedStaysFresh(events: map<string, Event>, ids: set<string>, now: int, since: int)
    requires NothingStale(events, since)
    ensures NothingStale(Marked(events, ids, now), since)
  {
  }

  lemma DeletedStaysFresh(events: map<string, Event>, ids: set<string>, now: int)
    requires NothingStale(events, now)
    ensures NothingStale(events - ids, now)
  {
  }

  // The same rows, as far as their ages go.
  ghost predicate SameRows(a: map<string, Event>, b: map<string, Event>) {
    a.Keys == b.Keys && forall id <- a :: a[id].startedAt == b[id].startedAt
  }

  lemma MarkedSameRows(events: map<string, Event>, ids: set<string>, now: int)
    ensures SameRows(events, Marked(events, ids, now))
  {
  }

  lemma ExpiredSameRows(events: map<string, Event>, now: int)
    ensures SameRows(events, ExpireRows(events, now))
  {
  }

  function AllOf(batches: seq<set<string>>): set<string> {
    if batches == [] then {} else AllOf(batches[..|batches| - 1]) + batches[|batches| - 1]
  }

  // Rows that all began before a cutoff.
  ghost predicate AllBefore(events: map<string, Event>, ids: set<string>, cutoff: int) {
    ids <= events.Keys && forall id <- ids :: events[id].startedAt < cutoff
  }

  // Deletions by batches: each row that goes is older than the cutoff of its
  // batch.
  ghost predicate DeletedIn(before: map<string, Event>, batches: seq<set<string>>, clock: nat -> int,
                            after: map<string, Event>)
  {
    && after == before - AllOf(batches)
    && forall i :: 0 <= i < |batches| ==> AllBefore(before, batches[i], clock(i) - WEEK)
  }

  lemma NothingDeleted(events: map<string, Event>, clock: nat -> int)
    ensures DeletedIn(events, [], clock, events)
  {
  }

  // The rows of a pass that went, by batch, and those that stayed, by age.
  ghost predicate WentByBatch(before: map<string, Event>, batches: seq<set<string>>, clock: nat -> int,
                              after: map<string, Event>)
  {
    && after.Keys == before.Keys - AllOf(batches)
    && (forall id <- after :: id in before && after[id].startedAt == before[id].startedAt)
    && forall i :: 0 <= i < |batches| ==> AllBefore(before, batches[i], clock(i) - WEEK)
  }

  lemma BatchesWent(start: map<string, Event>, rolled: map<string, Event>, batches: seq<set<string>>,
                    clock: nat -> int, after: map<string, Event>)
    requires SameRows(start, rolled) && DeletedIn(rolled, batches, clock, after)
    ensures WentByBatch(start, batches, clock, after)
  {
    forall i | 0 <= i < |batches|
      ensures AllBefore(start, batches[i], clock(i) - WEEK)
    {
      assert AllBefore(rolled, batches[i], clock(i) - WEEK);
    }
  }

  lemma NothingWent(start: map<string, Event>, rolled: map<string, Event>, clock: nat -> int)
    requires SameRows(start, rolled)
    ensures WentByBatch(start, [], clock, rolled)
  {
  }

  // Batches that each found something, and a last one that found nothing.
  predicate AllFound(batches: seq<set<string>>) {
    batches == [] || (|batches[|batches| - 1]| > 0 && AllFound(batches[..|batches| - 1]))
  }

  predicate EndsEmpty(batches: seq<set<string>>) {
    batches != [] && |batches[|batches| - 1]| == 0 && AllFound(batches[..|batches| - 1])
  }

  lemma FoundSnoc(batches: seq<set<string>>, ids: set<string>)
    requires AllFound(batches)
    ensures |ids| == 0 ==> EndsEmpty(batches + [ids])
    ensures |ids| > 0 ==> AllFound(batches + [ids])
  {
    assert (batches + [ids])[..|batches|] == batches;
  }

  lemma BatchSnoc(before: map<string, Event>, batches: seq<set<string>>, clock: nat -> int,
                  after: map<string, Event>, ids: set<string>)
    requires DeletedIn(before, batches, clock, after)
    requires AllBefore(after, ids, clock(|batches|) - WEEK)
    ensures DeletedIn(before, batches + [ids], clock, after - ids)
  {
    var more := batches + [ids];
    assert more[..|batches|] == batches;
    forall i | 0 <= i < |more|
      ensures AllBefore(before, more[i], clock(i) - WEEK)
    {
      if i < |batches| {
        assert more[i] == batches[i];
      }
    }
  }

  // What a pass has reached when it comes to deletions.
  ghost predicate Swept(db: Db, since: int) {
    db.locks == map[] && NothingStale(db.events, since) && LiveRows(db) == {}
  }

  lemma DeletionSweeps(s: System, cutoff: int, ids: set<string>, s': System, since: int)
    requires SystemNext(s, Delete(cutoff, ids), s') && Swept(s.db, since)
    ensures Swept(s'.db, since) && s'.db.now == s.db.now && s'.log.final == s.log.final
    ensures |s'.db.events| == |s.db.events| - |ids| && s'.db.events == s.db.events - ids
    ensures AllBefore(s.db.events, ids, cutoff)
  {
    DeletedStaysFresh(s.db.events, ids, since);
    DeletedStaysRolled(s.db, ids);
    DeleteShrinks(s.db.events, ids);
  }

  lemma DeletedStaysRolled(db: Db, ids: set<string>)
    requires LiveRows(db) == {}
    ensures LiveRows(DeleteOldUsageBatch(db, ids)) == {}
  {
    assert forall id <- DeleteOldUsageBatch(db, ids).events :: id in db.events && id !in LiveRows(db);
  }

  class Store {
    var now: int
    var prices: map<nat, Price>
    var events: map<string, Event>
    var daily: map<DayKey, Totals>
    var locks: map<nat, map<string, Event>>   // rollups of other workers in flight
    ghost var log: Log

    ghost function Tables(): Db
      reads this
    {
      Db(now, prices, events, daily, locks)
    }

    ghost function State(): System
      reads this
    {
      System(Tables(), log)
    }

    ghost predicate Valid()
      reads this
    {
      Inv(State()) && AllFit(daily)
    }

    constructor (now: int)
      ensures Valid() && Initial(Tables()) && log == EMPTY_LOG
    {
      this.now := now;
      this.prices, this.events, this.daily, this.locks := map[], map[], map[], map[];
      this.log := EMPTY_LOG;
      new;
      InitialInv(State());
    }

    // One statement that rewrites event rows, with its record.
    method WriteEvents(rows: map<string, Event>, ghost step: Step, ghost after: System)
      requires Inv(after) && SystemNext(State(), step, after) && after.db == Tables().(events := rows) && AllFit(daily)
      modifies this`events, this`log
      ensures Valid() && State() == after && SystemNext(old(State()), step, State())
    {
      events, log := rows, after.log;
      assert State() == after;
    }

    method BeginUsage(id: string, account: string, key: string, model: string) returns (r: Result<(), DbError>)
      requires Valid()
      modifies this
      ensures Valid()
      ensures r.Err? <==> id in old(events)
      ensures r.Err? ==> State() == old(State()) && r.error == DuplicateKey
      ensures r.Ok? ==>
                && id in events
                && var choice := events[id].priceId;
                   && Tables() == old(Tables()).(events := old(events)[id := Event(
                        account, key, model, "", choice, now, None, Pending, None, None, None, None, None)])
                   && if choice.Some? then SetLast(old(prices), model, choice.value)
                      else forall p <- old(prices) :: old(prices)[p].model != model
      ensures r.Ok? ==>
                && id in events
                && SystemNext(old(State()), Begin(id, account, key, model, events[id].priceId), State())
    {
      if id in events {
        return Err(DuplicateKey);
      }
      var priceId := LatestPrice(prices, model);
      var row := Event(account, key, model, "", priceId, now, None, Pending, None, None, None, None, None);
      ghost var step := Begin(id, account, key, model, priceId);
      ghost var after := Recorded(State(), step, Tables().(events := events[id := row]));
      WriteEvents(events[id := row], step, after);
      return Ok(());
    }

    method FinishUsage(id: string, backend: string, status: int, outcome: Outcome,
                       prompt: Option<int>, completion: Option<int>) returns (r: Result<(), DbError>)
      requires Valid()
      modifies this
      ensures Valid()
      ensures r.Ok? ==> SystemNext(old(State()), Finish(id, backend, status, outcome, prompt, completion), State())
      ensures r.Err? ==>
                && State() == old(State())
                && Ledger.FinishUsage(old(Tables()), id, backend, status, outcome, prompt, completion) == Err(r.error)
      ensures FinishOutcome(old(Tables()), id, backend, status, outcome, prompt, completion,
                            if r.Ok? then Ok(Tables()) else Err(r.error))
    {
      FinishMeaning(Tables(), id, backend, status, outcome, prompt, completion);
      if outcome.Complete? && (prompt.None? || completion.None?) {
        return Err(MissingCounts);
      }
      if id !in events || !events[id].state.Pending? {
        return Err(NotPending);
      }
      if OrZero(prompt) < 0 || OrZero(completion) < 0 {
        return Err(CheckFailed);
      }
      var cost := CostOf(Lookup(prices, events[id].priceId), outcome, prompt, completion);
      if OrZero(cost) > MAX_BIGINT {
        return Err(OutOfRange);
      }
      var row := events[id].(backend := backend, httpStatus := Some(status), state := Ended(outcome),
                             prompt := prompt, completion := completion, finishedAt := Some(now), cost := cost);
      ghost var step := Finish(id, backend, status, outcome, prompt, completion);
      ghost var after := Recorded(State(), step, Tables().(events := events[id := row]));
      WriteEvents(events[id := row], step, after);
      return Ok(());
    }

    method SetPrice(id: nat, model: string, input: int, output: int) returns (r: Result<(), DbError>)
      requires Valid()
      modifies this
      ensures Valid()
      ensures r.Ok? ==> SystemNext(old(State()), NewPrice(id, model, input, output), State())
      ensures r.Err? ==>
                && State() == old(State())
                && Ledger.SetPrice(old(Tables()), id, model, input, output) == Err(r.error)
      ensures r.Ok? ==> Tables() == old(Tables()).(prices := old(prices)[id := Price(model, input, output, now)])
      ensures r == Err(CheckFailed) <==> |model| == 0 || input < 0 || output < 0
      ensures r == Err(DuplicateKey) <==> |model| > 0 && input >= 0 && output >= 0 && id in old(prices)
      ensures r.Err? ==> r.error == CheckFailed || r.error == DuplicateKey
    {
      if model == "" || input < 0 || output < 0 {
        return Err(CheckFailed);
      }
      if id in prices {
        return Err(DuplicateKey);
      }
      ghost var step, before := NewPrice(id, model, input, output), State();
      prices := prices[id := Price(model, input, output, now)];
      StatementKeeps(before, step, Tables());
      return Ok(());
    }

    method ExpirePendingUsage()
      requires Valid()
      modifies this
      ensures Valid() && SystemNext(old(State()), Expire, State())
      ensures events == Ledger.ExpirePendingUsage(old(Tables())).events
      ensures events.Keys == old(events).Keys && forall id <- events ::
                events[id] == if old(events)[id].state == Pending && old(events)[id].startedAt < now - 604_800_000_000
                              then old(events)[id].(state := Ended(Incomplete), finishedAt := Some(now))
                              else old(events)[id]
    {
      ghost var step := Expire;
      ghost var after := Recorded(State(), step, Tables().(events := ExpireRows(events, now)));
      WriteEvents(ExpireRows(events, now), step, after);
    }

    // The rows this statement may claim: those other workers have not locked.
    function Eligible(): (ids: set<string>)
      reads this
      ensures ids <= events.Keys && ids <= LiveRows(Tables()) && ids == Unclaimed(Tables())
      ensures locks == map[] ==> ids == LiveRows(Tables())
    {
      set id | id in events && Unrolled(events[id]) && forall tx <- locks :: id !in locks[tx]
    }

    // One rollup statement: claim, group, add, in one transaction. It returns
    // the number of groups, not of requests, and fails only if a total leaves
    // the 64-bit range.
    method RollupUsageBatch(limit: nat) returns (r: Result<nat, DbError>, ghost ids: set<string>)
      requires Valid() && limit > 0
      modifies this
      ensures Valid()
      ensures OldestBatch(old(events), Unclaimed(old(Tables())), limit, ids)
      ensures r.Ok? ==> CountedOnce(old(Tables()), ids, Tables())
      ensures r.Ok? <==> HasRoomFor(old(Tables()), ids)
      ensures r.Ok? <==> AllFit(Upsert(old(daily), Claim(old(events), ids)))
      ensures r.Err? ==> State() == old(State()) && r.error == OutOfRange
      ensures r.Ok? ==> RolledUp(old(State()), ids, State())
      ensures r.Ok? ==> r.value == |ClaimedKeys(Claim(old(events), ids))| && (r.value == 0 <==> ids == {})
    {
      ghost var before := Tables();
      var selected := SelectOldest(events, Eligible(), limit);
      ids := selected;
      r := CountRows(selected);
      NoKeysNoRows(Claim(old(events), ids));
      RoomMeaning(before, ids);
      if r.Ok? {
        RolledUpCounts(old(State()), ids, State());
      }
    }

    method CountRows(ids: set<string>) returns (r: Result<nat, DbError>)
      requires Valid() && ids <= Eligible()
      modifies this`events, this`daily, this`log
      ensures Valid()
      ensures r.Ok? <==> AllFit(Upsert(old(daily), Claim(old(events), ids)))
      ensures r.Err? ==> State() == old(State()) && r.error == OutOfRange
      ensures r.Ok? ==> RolledUp(old(State()), ids, State())
      ensures r.Ok? ==> r.value == |ClaimedKeys(Claim(old(events), ids))|
    {
      var claimed := Claim(events, ids);
      var stored, groups := AddGroups(daily, claimed);
      if stored.Err? {
        return Err(stored.error);
      }
      ghost var s' := State();
      s' := System(s'.db.(events := Marked(events, ids, now), daily := stored.value),
                   log.(rolled := log.rolled + Tickets(log, ids)));
      RollupKeeps(State(), ids, s');
      events, daily, log := Marked(events, ids, now), stored.value, s'.log;
      assert State() == s';
      return Ok(groups);
    }

    // The rows a deletion with this cutoff may remove.
    function Expired(cutoff: int): (ids: set<string>)
      reads this
      ensures ids <= events.Keys && ids == Aged(Tables(), cutoff)
    {
      set id | id in events && events[id].rolledUpAt.Some? && events[id].startedAt < cutoff
    }

    method DeleteOldUsageBatch(cutoff: int, limit: nat) returns (rows: nat, ghost ids: set<string>)
      requires Valid() && limit > 0
      modifies this
      ensures Valid()
      ensures OldestBatch(old(events), Aged(old(Tables()), cutoff), limit, ids) && rows == |ids|
      ensures Tables() == old(Tables()).(events := old(events) - ids)
      ensures rows == 0 ==> Aged(Tables(), cutoff) == {}
      ensures SystemNext(old(State()), Delete(cutoff, ids), State())
    {
      var selected := SelectOldest(events, Expired(cutoff), limit);
      ids := selected;
      ghost var step := Delete(cutoff, selected);
      ghost var after := Recorded(State(), step, Tables().(events := events - selected));
      WriteEvents(events - selected, step, after);
      return |selected|, ids;
    }

    // The database clock moves on before a statement.
    method Wait(to: int)
      requires Valid()
      modifies this`now
      ensures Valid() && now == if to > old(now) then to else old(now)
      ensures State() == old(State()).(db := Advance(old(Tables()), now))
    {
      ghost var before := State();
      if to > now {
        now := to;
        StatementKeeps(before, Tick(to), Tables());
      }
    }

    // One batch of the first loop.
    method RollupNext(ghost since: int, ghost start: map<string, Event>) returns (r: Result<nat, DbError>)
      requires Valid() && locks == map[] && NothingStale(events, since) && SameRows(start, events)
      modifies this
      ensures Valid() && locks == map[] && NothingStale(events, since) && SameRows(start, events)
      ensures now == old(now) && log.final == old(log.final)
      ensures r.Err? ==> r.error == OutOfRange && !Roomy(log)
      ensures r.Ok? && r.value == 0 ==> Roomy(log) && LiveRows(Tables()) == {}
      ensures r.Ok? && r.value > 0 ==> |LiveRows(Tables())| < old(|LiveRows(Tables())|)
    {
      ghost var before := State();
      assert Unclaimed(Tables()) == LiveRows(Tables());
      var rows, ids := RollupUsageBatch(ROLLUP_BATCH);
      r := rows;
      if rows.Err? {
        RoomyNeverFails(before, ids);
        return;
      }
      if rows.value == 0 {
        DrainedFits(State());
        return;
      }
      MarkedSameRows(before.db.events, ids, before.db.now);
      MarkedStaysFresh(before.db.events, ids, before.db.now, since);
      RollupShrinks(before.db, ids, Tables());
    }

    // The first loop of a maintenance pass, at the times the database clock
    // shows. It fails only if some cell has no room for all that ever ended.
    method RollupAll(times: nat -> int, ghost since: int, ghost start: map<string, Event>)
      returns (r: Result<(), DbError>)
      requires Valid() && locks == map[] && NothingStale(events, since) && SameRows(start, events)
      modifies this
      ensures Valid() && locks == map[] && NothingStale(events, since)
      ensures now >= old(now) && log.final == old(log.final)
      ensures r.Ok? <==> Roomy(log)
      ensures r.Ok? ==> LiveRows(Tables()) == {}
      ensures r.Err? ==> r.error == OutOfRange
      ensures SameRows(start, events)
    {
      var i: nat := 0;
      while true
        invariant Valid() && locks == map[] && NothingStale(events, since)
        invariant SameRows(start, events)
        invariant now >= old(now) && log.final == old(log.final)
        decreases |LiveRows(Tables())|
      {
        Wait(times(i));
        var rows := RollupNext(since, start);
        if rows.Err? {
          return Err(rows.error);
        }
        if rows.value == 0 {
          return Ok(());
        }
        i := i + 1;
      }
    }

    // One batch of the second loop.
    method DeleteNext(i: nat, clock: nat -> int, ghost since: int, ghost start: map<string, Event>,
                      ghost batches: seq<set<string>>)
      returns (rows: nat, ghost ids: set<string>)
      requires Valid() && Swept(Tables(), since)
      requires |batches| == i && DeletedIn(start, batches, clock, events) && AllFound(batches)
      modifies this
      ensures Valid() && Swept(Tables(), since)
      ensures now == old(now) && log.final == old(log.final)
      ensures DeletedIn(start, batches + [ids], clock, events)
      ensures if rows == 0 then EndsEmpty(batches + [ids]) else AllFound(batches + [ids])
      ensures rows == |ids| && |events| == |old(events)| - rows
      ensures rows == 0 ==> Expired(clock(i) - WEEK) == {}
    {
      ghost var before := State();
      rows, ids := DeleteOldUsageBatch(clock(i) - WEEK, DELETE_BATCH);
      DeletionSweeps(before, clock(i) - WEEK, ids, State(), since);
      BatchSnoc(start, batches, clock, before.db.events, ids);
      FoundSnoc(batches, ids);
    }

    // The second loop. The cutoff follows the gateway's clock from one batch
    // to the next.
    method DeleteAll(clock: nat -> int, ghost since: int) returns (ghost batches: seq<set<string>>)
      requires Valid() && Swept(Tables(), since)
      modifies this
      ensures Valid() && Swept(Tables(), since)
      ensures now == old(now) && log.final == old(log.final)
      ensures DeletedIn(old(events), batches, clock, events) && EndsEmpty(batches)
      ensures Expired(clock(|batches| - 1) - WEEK) == {}
    {
      ghost var start := events;
      var i: nat := 0;
      batches := [];
      NothingDeleted(start, clock);
      while true
        invariant Valid() && Swept(Tables(), since)
        invariant now == old(now) && log.final == old(log.final)
        invariant |batches| == i && DeletedIn(start, batches, clock, events) && AllFound(batches)
        decreases |events|
      {
        var rows, ids := DeleteNext(i, clock, since, start, batches);
        batches := batches + [ids];
        if rows == 0 {
          return;
        }
        i := i + 1;
      }
    }

    // The batches ended with one that found no counted row before its cutoff.
    ghost predicate NoneLeft(batches: seq<set<string>>, clock: nat -> int)
      reads this
    {
      EndsEmpty(batches) && Expired(clock(|batches| - 1) - WEEK) == {}
    }

    // A maintenance pass with no other worker at work. `times` gives the
    // readings of the database clock, one for each rollup, and `clock` those of
    // the gateway's own clock, one for each deletion.
    method Maintain(times: nat -> int, clock: nat -> int)
      returns (r: Result<(), DbError>, ghost batches: seq<set<string>>)
      requires Valid() && locks == map[]
      modifies this
      ensures Valid() && locks == map[] && now >= old(now)
      ensures NothingStale(events, old(now))
      ensures log.final == old(log.final) + EndedRows(old(log), old(Tables()), Ledger.ExpirePendingUsage(old(Tables())))
      ensures r.Ok? <==> Roomy(log)
      ensures r.Err? ==> r.error == OutOfRange
      ensures r.Ok? ==> LiveRows(Tables()) == {}
      ensures r.Ok? ==> NoneLeft(batches, clock)
      ensures WentByBatch(old(events), batches, clock, events)
    {
      ghost var start := events;
      ExpireStale();
      r := RollupAll(times, old(now), start);
      batches := [];
      NothingWent(start, events, clock);
      if r.Ok? {
        batches := DeleteAged(clock, old(now), start);
      }
    }

    // The first statement of a pass.
    method ExpireStale()
      requires Valid()
      modifies this
      ensures Valid() && locks == old(locks) && now == old(now)
      ensures NothingStale(events, now) && SameRows(old(events), events)
      ensures log.final == old(log.final) + EndedRows(old(log), old(Tables()), Ledger.ExpirePendingUsage(old(Tables())))
    {
      ExpiryClears(events, now);
      ExpiredSameRows(events, now);
      ExpirePendingUsage();
    }

    // The second loop, seen from the rows the pass began with.
    method DeleteAged(clock: nat -> int, ghost since: int, ghost start: map<string, Event>)
      returns (ghost batches: seq<set<string>>)
      requires Valid() && Swept(Tables(), since) && SameRows(start, events)
      modifies this
      ensures Valid() && Swept(Tables(), since)
      ensures now == old(now) && log.final == old(log.final) && (Roomy(log) <==> old(Roomy(log)))
      ensures NoneLeft(batches, clock)
      ensures WentByBatch(start, batches, clock, events)
    {
      ghost var rolled, before := events, log;
      batches := DeleteAll(clock, since);
      RoomyFrame(before, log);
      BatchesWent(start, rolled, batches, clock, events);
    }
  }
}
