// What the columns of a usage total count, said of the rows themselves.
module Columns {
  import opened Wrappers
  import opened Sums
  import opened Metering
  import opened Ledger

  // The rows of one day, account, key and model.
  ghost function InCell<K(!new)>(rows: map<K, Event>, among: set<K>, k: DayKey): set<K> {
    set x | x in among && x in rows
            && rows[x].startedAt / 86_400_000_000 == k.day
            && rows[x].account == k.account && rows[x].key == k.key && rows[x].model == k.model
  }

  ghost function PromptIn<K(!new)>(rows: map<K, Event>): K -> int {
    (x: K) => if x in rows && rows[x].prompt.Some? then rows[x].prompt.value else 0
  }

  ghost function CompletionIn<K(!new)>(rows: map<K, Event>): K -> int {
    (x: K) => if x in rows && rows[x].completion.Some? then rows[x].completion.value else 0
  }

  ghost function CostIn<K(!new)>(rows: map<K, Event>): K -> int {
    (x: K) => if x in rows && rows[x].cost.Some? then rows[x].cost.value else 0
  }

  ghost function Which<K(!new)>(rows: map<K, Event>, s: set<K>, outcome: Outcome): set<K> {
    set x | x in s && x in rows && rows[x].state == Ended(outcome)
  }

  ghost function WithCost<K(!new)>(rows: map<K, Event>, s: set<K>): set<K> {
    set x | x in s && x in rows && rows[x].cost.Some?
  }

  // A total grew by some rows: every request is one more, of its outcome and
  // with or without a cost, and the other columns grew by those very fields.
  ghost predicate GrewBy<K(!new)>(before: Totals, after: Totals, rows: map<K, Event>, s: set<K>) {
    && after.requests == before.requests + |s|
    && after.complete == before.complete + |Which(rows, s, Complete)|
    && after.incomplete == before.incomplete + |Which(rows, s, Incomplete)|
    && after.failed == before.failed + |Which(rows, s, Failed)|
    && after.prompt == before.prompt + IntSum(s, PromptIn(rows))
    && after.completion == before.completion + IntSum(s, CompletionIn(rows))
    && after.cost == before.cost + IntSum(s, CostIn(rows))
    && after.priced == before.priced + |WithCost(rows, s)|
  }

  // The whole of a total.
  ghost predicate Counts<K(!new)>(t: Totals, rows: map<K, Event>, s: set<K>) {
    GrewBy(Totals(0, 0, 0, 0, 0, 0, 0, 0), t, rows, s)
  }

  // A total grew by one row.
  predicate GrewByRow(before: Totals, after: Totals, e: Event) {
    && after.requests == before.requests + 1
    && after.complete == before.complete + (if e.state == Ended(Complete) then 1 else 0)
    && after.incomplete == before.incomplete + (if e.state == Ended(Incomplete) then 1 else 0)
    && after.failed == before.failed + (if e.state == Ended(Failed) then 1 else 0)
    && after.prompt == before.prompt + (if e.prompt.Some? then e.prompt.value else 0)
    && after.completion == before.completion + (if e.completion.Some? then e.completion.value else 0)
    && after.cost == before.cost + (if e.cost.Some? then e.cost.value else 0)
    && after.priced == before.priced + (if e.cost.Some? then 1 else 0)
  }

  // Every stored cell grew by its rows among those counted, cells without any
  // stayed, and the cells that are new are those with rows.
  ghost predicate DailyGrew<K(!new)>(before: map<DayKey, Totals>, after: map<DayKey, Totals>, rows: map<K, Event>,
                                     counted: set<K>)
  {
    && (forall k :: k in after <==> k in before || InCell(rows, counted, k) != {})
    && forall k <- after ::
         GrewBy(if k in before then before[k] else Totals(0, 0, 0, 0, 0, 0, 0, 0), after[k], rows,
                InCell(rows, counted, k))
  }

  // ---- Sums of contributions ----

  lemma AddRowGrows(before: Totals, e: Event)
    ensures GrewByRow(before, Add(Contribution(e), before), e)
  {
  }

  lemma ChosenOneMore<K>(s: set<K>, chosen: set<K>, chosen': set<K>, x: K, now: bool)
    requires x !in s && chosen <= s
    requires chosen' == if now then chosen + {x} else chosen
    ensures |chosen'| == |chosen| + (if now then 1 else 0)
  {
  }

  lemma OneRowMore<K(!new)>(rows: map<K, Event>, s: set<K>, x: K)
    requires x in rows && x !in s
    ensures |s + {x}| == |s| + 1
    ensures forall o :: |Which(rows, s + {x}, o)| == |Which(rows, s, o)| + (if rows[x].state == Ended(o) then 1 else 0)
    ensures |WithCost(rows, s + {x})| == |WithCost(rows, s)| + (if rows[x].cost.Some? then 1 else 0)
  {
    forall o ensures |Which(rows, s + {x}, o)| == |Which(rows, s, o)| + (if rows[x].state == Ended(o) then 1 else 0) {
      assert Which(rows, s + {x}, o) ==
             if rows[x].state == Ended(o) then Which(rows, s, o) + {x} else Which(rows, s, o);
      ChosenOneMore(s, Which(rows, s, o), Which(rows, s + {x}, o), x, rows[x].state == Ended(o));
    }
    assert WithCost(rows, s + {x}) == if rows[x].cost.Some? then WithCost(rows, s) + {x} else WithCost(rows, s);
    ChosenOneMore(s, WithCost(rows, s), WithCost(rows, s + {x}), x, rows[x].cost.Some?);
  }

  lemma GrowthOneMore<K(!new)>(rows: map<K, Event>, s: set<K>, x: K, a: Totals, b: Totals, c: Totals)
    requires x in rows && x !in s
    requires GrewBy(a, b, rows, s) && GrewByRow(b, c, rows[x])
    ensures GrewBy(a, c, rows, s + {x})
  {
    OneRowMore(rows, s, x);
    IntSumOneMore(s, PromptIn(rows), x);
    IntSumOneMore(s, CompletionIn(rows), x);
    IntSumOneMore(s, CostIn(rows), x);
  }

  lemma GrewByNone<K(!new)>(rows: map<K, Event>, t: Totals)
    ensures GrewBy(t, t, rows, {})
  {
    assert forall o :: Which(rows, {}, o) == {};
    assert WithCost(rows, {}) == {};
  }

  lemma GrewByNoRow<K(!new)>(before: Totals, after: Totals, rows: map<K, Event>)
    requires GrewBy(before, after, rows, {})
    ensures after == before
  {
    GrewByNone(rows, before);
  }

  lemma SameGrowth<K(!new)>(before: Totals, a: Totals, b: Totals, rows: map<K, Event>, s: set<K>)
    requires GrewBy(before, a, rows, s) && GrewBy(before, b, rows, s)
    ensures a == b
  {
  }

  lemma GrewByThatRow<K(!new)>(before: Totals, after: Totals, rows: map<K, Event>, x: K)
    requires x in rows && GrewBy(before, after, rows, {x})
    ensures GrewByRow(before, after, rows[x])
  {
    assert {} + {x} == {x};
    OneRowMore(rows, {}, x);
    GrewByNone(rows, before);
    IntSumOneMore({}, PromptIn(rows), x);
    IntSumOneMore({}, CompletionIn(rows), x);
    IntSumOneMore({}, CostIn(rows), x);
  }

  // Adding the contributions of some rows is growing by them, column by column.
  lemma {:induction false} SumCounts<K(!new)>(before: Totals, s: set<K>, f: K -> Totals, rows: map<K, Event>)
    requires forall x <- s :: x in rows && f(x) == Contribution(rows[x])
    ensures GrewBy(before, Add(before, Sum(s, f)), rows, s)
    decreases s
  {
    if s == {} {
      GrewByNone(rows, before);
    } else {
      var x :| x in s;
      SumPick(s, f, x);
      SumCounts(before, s - {x}, f, rows);
      assert s - {x} + {x} == s;
      ContributionCounts(before, Sum(s - {x}, f), rows, s - {x}, x);
    }
  }

  lemma ContributionCounts<K(!new)>(before: Totals, t: Totals, rows: map<K, Event>, s: set<K>, x: K)
    requires x in rows && x !in s && GrewBy(before, Add(before, t), rows, s)
    ensures GrewBy(before, Add(before, Add(Contribution(rows[x]), t)), rows, s + {x})
  {
    AddSwap(before, Contribution(rows[x]), t);
    AddRowGrows(Add(before, t), rows[x]);
    GrowthOneMore(rows, s, x, before, Add(before, t), Add(before, Add(Contribution(rows[x]), t)));
  }

  lemma CellRows<K(!new)>(rows: map<K, Event>, among: set<K>, key: K -> DayKey, k: DayKey)
    requires forall x <- among :: x in rows && key(x) == KeyOf(rows[x])
    ensures InGroups(among, key, {k}) == InCell(rows, among, k)
  {
    forall x | x in among
      ensures key(x) == k <==> x in InCell(rows, among, k)
    {
    }
  }

  // A grouped sum counts the rows of its cell.
  lemma GroupCounts<K(!new)>(before: Totals, rows: map<K, Event>, among: set<K>, key: K -> DayKey, f: K -> Totals,
                             k: DayKey)
    requires forall x <- among :: x in rows && key(x) == KeyOf(rows[x]) && f(x) == Contribution(rows[x])
    ensures GrewBy(before, Add(before, GroupSum(among, key, f, k)), rows, InCell(rows, among, k))
  {
    CellRows(rows, among, key, k);
    SumCounts(before, InCell(rows, among, k), f, rows);
  }

  lemma NothingToAdd(t: Totals)
    ensures Add(Totals(0, 0, 0, 0, 0, 0, 0, 0), t) == t
  {
  }

  lemma ClaimCounts(before: Totals, claimed: map<string, Event>, k: DayKey)
    ensures GrewBy(before, Add(before, ClaimedTotal(claimed, k)), claimed, InCell(claimed, claimed.Keys, k))
  {
    GroupCounts(before, claimed, claimed.Keys, RowKey(claimed), RowTotals(claimed), k);
  }

  // What an upsert of the claimed rows does to the stored rows.
  lemma UpsertGrows(daily: map<DayKey, Totals>, claimed: map<string, Event>)
    ensures DailyGrew(daily, Upsert(daily, claimed), claimed, claimed.Keys)
  {
    var after := Upsert(daily, claimed);
    forall k
      ensures k in after <==> k in daily || InCell(claimed, claimed.Keys, k) != {}
    {
      CellHasRows(claimed, k);
    }
    forall k | k in after
      ensures GrewBy(if k in daily then daily[k] else Totals(0, 0, 0, 0, 0, 0, 0, 0), after[k], claimed,
                     InCell(claimed, claimed.Keys, k))
    {
      ClaimCounts(Get(daily, k), claimed, k);
    }
  }

  lemma CellHasRows(claimed: map<string, Event>, k: DayKey)
    ensures k in ClaimedKeys(claimed) <==> InCell(claimed, claimed.Keys, k) != {}
  {
    if k in ClaimedKeys(claimed) {
      var id :| id in claimed && KeyOf(claimed[id]) == k;
      assert id in InCell(claimed, claimed.Keys, k);
    }
    if id :| id in InCell(claimed, claimed.Keys, k) {
      assert KeyOf(claimed[id]) == k;
    }
  }

  // Rows that read the same count the same.
  lemma SameRowsGrow<K(!new)>(before: Totals, after: Totals, a: map<K, Event>, b: map<K, Event>, s: set<K>)
    requires forall x <- s :: x in a && x in b && a[x] == b[x]
    requires GrewBy(before, after, a, s)
    ensures GrewBy(before, after, b, s)
  {
    assert forall o :: Which(a, s, o) == Which(b, s, o);
    assert WithCost(a, s) == WithCost(b, s);
    IntSumCongruent(s, PromptIn(a), PromptIn(b));
    IntSumCongruent(s, CompletionIn(a), CompletionIn(b));
    IntSumCongruent(s, CostIn(a), CostIn(b));
  }

  lemma SameRowsDaily<K(!new)>(before: map<DayKey, Totals>, after: map<DayKey, Totals>,
                               a: map<K, Event>, b: map<K, Event>, s: set<K>)
    requires forall x <- s :: x in a && x in b && a[x] == b[x]
    requires DailyGrew(before, after, a, s)
    ensures DailyGrew(before, after, b, s)
  {
    assert forall k :: InCell(a, s, k) == InCell(b, s, k);
    forall k | k in after
      ensures GrewBy(if k in before then before[k] else Totals(0, 0, 0, 0, 0, 0, 0, 0), after[k], b, InCell(b, s, k))
    {
      SameRowsGrow(if k in before then before[k] else Totals(0, 0, 0, 0, 0, 0, 0, 0), after[k], a, b, InCell(a, s, k));
    }
  }
}
