// Cost estimates: every request is priced at the rate in force when it began,
// and rounding never moves a stored total by more than half a unit a request.
module LedgerPricing {
  import opened Wrappers
  import opened Sums
  import opened Metering
  import opened Ledger
  import opened LedgerInvariant
  import opened Columns
  import opened LedgerColumns

  lemma InForceUnique(prices: map<nat, Price>, model: string, a: Option<nat>, b: Option<nat>)
    requires InForce(prices, model, a) && InForce(prices, model, b)
    ensures a == b
  {
  }

  lemma {:induction false} RunGrows(states: seq<System>, steps: seq<Step>, i: nat, j: nat)
    requires Run(states, steps) && i <= j < |states|
    ensures Grows(states[i].log, states[j].log)
    decreases j
  {
    if i < j {
      RunGrows(states, steps, i, j - 1);
      RunKeeps(states, steps, j - 1);
      StepKeeps(states[j - 1], steps[j - 1], states[j]);
    }
  }

  // ---- The cost of one request ----

  // A complete request with a price costs its tokens at the two rates, in
  // millionths, rounded to the nearest unit and halves upward. Nothing else
  // has a cost.
  predicate CostsAt(cost: Option<int>, price: Option<Price>, outcome: Outcome,
                    prompt: Option<int>, completion: Option<int>)
  {
    if outcome == Complete && price.Some? && prompt.Some? && completion.Some? then
      var exact := prompt.value * price.value.input + completion.value * price.value.output;
      cost.Some? && 1_000_000 * cost.value <= exact + 500_000 < 1_000_000 * cost.value + 1_000_000
    else cost.None?
  }

  lemma CostMeaning(price: Option<Price>, outcome: Outcome, prompt: Option<int>, completion: Option<int>)
    ensures CostsAt(CostOf(price, outcome, prompt, completion), price, outcome, prompt, completion)
  {
    if outcome == Complete && price.Some? && prompt.Some? && completion.Some? {
      Rounds(prompt.value * price.value.input + completion.value * price.value.output);
    }
  }

  lemma Rounds(x: int)
    ensures 1_000_000 * RoundMillionths(x) <= x + 500_000 < 1_000_000 * RoundMillionths(x) + 1_000_000
  {
  }

  // There is only one such cost.
  lemma CostUnique(a: Option<int>, b: Option<int>, price: Option<Price>, outcome: Outcome,
                   prompt: Option<int>, completion: Option<int>)
    requires CostsAt(a, price, outcome, prompt, completion) && CostsAt(b, price, outcome, prompt, completion)
    ensures a == b
  {
  }

  // What a finish does, written out: whose row ends, how, at what cost, and
  // which of its conditions refuses it.
  ghost predicate FinishOutcome(db: Db, id: string, backend: string, status: int, outcome: Outcome,
                                prompt: Option<int>, completion: Option<int>, r: Result<Db, DbError>)
  {
    if outcome == Complete && (prompt.None? || completion.None?) then r == Err(MissingCounts)
    else if id !in db.events || db.events[id].state != Pending then r == Err(NotPending)
    else if (prompt.Some? && prompt.value < 0) || (completion.Some? && completion.value < 0) then r == Err(CheckFailed)
    else
      var row := db.events[id];
      var price := if row.priceId.Some? && row.priceId.value in db.prices
                   then Some(db.prices[row.priceId.value]) else None;
      if r.Err? then
        && r.error == OutOfRange && outcome == Complete && price.Some?
        && 1_000_000 * 9_223_372_036_854_775_808 <=
             prompt.value * price.value.input + completion.value * price.value.output + 500_000
      else
        && id in r.value.events
        && var row' := r.value.events[id];
           && CostsAt(row'.cost, price, outcome, prompt, completion)
           && (row'.cost.Some? ==> row'.cost.value <= 9_223_372_036_854_775_807)
           && row' == Event(row.account, row.key, row.model, backend, row.priceId, row.startedAt, Some(db.now),
                            Ended(outcome), Some(status), prompt, completion, row'.cost, row.rolledUpAt)
           && r.value == Db(db.now, db.prices, db.events[id := row'], db.daily, db.locks)
  }

  lemma FinishMeaning(db: Db, id: string, backend: string, status: int, outcome: Outcome,
                      prompt: Option<int>, completion: Option<int>)
    ensures FinishOutcome(db, id, backend, status, outcome, prompt, completion,
                          FinishUsage(db, id, backend, status, outcome, prompt, completion))
  {
    if id in db.events {
      CostMeaning(Lookup(db.prices, db.events[id].priceId), outcome, prompt, completion);
    }
  }

  // A request begun at step i carries the price in force then, in every later
  // state and whatever prices are set meanwhile; if it ends, its cost is the
  // cost at that price.
  lemma PromiseKept(states: seq<System>, steps: seq<Step>, i: nat, j: nat)
    requires Run(states, steps) && i < |steps| && steps[i].Begin? && i < j < |states|
    ensures var prices, id := states[i].db.prices, steps[i].priceId;
            if id.Some? then SetLast(prices, steps[i].model, id.value)
            else forall p <- prices :: prices[p].model != steps[i].model
    ensures var t, price := states[i].log.begun,
                            if steps[i].priceId.Some? && steps[i].priceId.value in states[i].db.prices
                            then Some(states[i].db.prices[steps[i].priceId.value]) else None;
            && t in states[j].log.agreed && states[j].log.agreed[t] == price
            && (t in states[j].log.final ==>
                  var e := states[j].log.final[t];
                  e.state.Ended? && CostsAt(e.cost, price, e.state.outcome, e.prompt, e.completion))
  {
    RunKeeps(states, steps, i);
    RunKeeps(states, steps, j);
    BeginInserts(states[i], steps[i], states[i + 1]);
    RunGrows(states, steps, i + 1, j);
    InForceMeaning(states[i].db.prices, steps[i].model, steps[i].priceId);
    var t, price := states[i].log.begun, Lookup(states[i].db.prices, steps[i].priceId);
    if t in states[j].log.final {
      RequestCost(states[j], t);
    }
  }

  // Every request that has ended costs what its promised price makes it cost.
  lemma RequestCost(s: System, t: nat)
    requires Inv(s) && t in s.log.final
    ensures t in s.log.agreed && s.log.final[t].state.Ended?
    ensures var e := s.log.final[t]; CostsAt(e.cost, s.log.agreed[t], e.state.outcome, e.prompt, e.completion)
  {
    var e := s.log.final[t];
    assert FairlyPriced(e, s.log.agreed[t]);
    CostMeaning(s.log.agreed[t], e.state.outcome, e.prompt, e.completion);
  }

  // ---- Which price is in force ----

  // The price of a model that was set last, or has the largest identifier
  // among those set last.
  predicate SetLast(prices: map<nat, Price>, model: string, id: nat) {
    && id in prices && prices[id].model == model
    && forall q <- prices :: q != id && prices[q].model == model ==>
         prices[q].createdAt < prices[id].createdAt || (prices[q].createdAt == prices[id].createdAt && q < id)
  }

  lemma InForceMeaning(prices: map<nat, Price>, model: string, choice: Option<nat>)
    ensures InForce(prices, model, choice) <==>
            if choice.Some? then SetLast(prices, model, choice.value)
            else forall p <- prices :: prices[p].model != model
  {
  }

  lemma {:induction false} LastStays(states: seq<System>, steps: seq<Step>, i: nat, j: nat, model: string, id: nat)
    requires Run(states, steps) && i <= j < |states|
    requires forall m :: i <= m < j && steps[m].NewPrice? ==> steps[m].priced != model
    requires SetLast(states[i].db.prices, model, id)
    ensures SetLast(states[j].db.prices, model, id) && states[j].db.prices[id] == states[i].db.prices[id]
    decreases j
  {
    if i < j {
      LastStays(states, steps, i, j - 1, model, id);
      OtherPricesOnly(states[j - 1].db, steps[j - 1], states[j].db, model, id);
    }
  }

  lemma OtherPricesOnly(db: Db, step: Step, db': Db, model: string, id: nat)
    requires Next(db, step, db') && (step.NewPrice? ==> step.priced != model)
    requires SetLast(db.prices, model, id)
    ensures SetLast(db'.prices, model, id) && db'.prices[id] == db.prices[id]
  {
  }

  // A request gets the price that was set last for its model: the one of the
  // last statement that set one, if the clock had moved on since the one
  // before it.
  lemma LastSetIsGiven(states: seq<System>, steps: seq<Step>, i: nat, j: nat)
    requires Run(states, steps) && i < j < |steps| && steps[i].NewPrice? && steps[j].Begin?
    requires steps[j].model == steps[i].priced
    requires forall m :: i < m < j && steps[m].NewPrice? ==> steps[m].priced != steps[i].priced
    requires forall q <- states[i].db.prices :: states[i].db.prices[q].model == steps[i].priced ==>
               || states[i].db.prices[q].createdAt < states[i].db.now
               || (states[i].db.prices[q].createdAt == states[i].db.now && q < steps[i].newId)
    ensures steps[j].priceId == Some(steps[i].newId)
    ensures steps[i].newId in states[j].db.prices
    ensures states[j].db.prices[steps[i].newId] ==
            Price(steps[i].priced, steps[i].input, steps[i].output, states[i].db.now)
  {
    assert SystemNext(states[i], steps[i], states[i + 1]);
    LastStays(states, steps, i + 1, j, steps[i].priced, steps[i].newId);
    assert SystemNext(states[j], steps[j], states[j + 1]);
    InForceMeaning(states[j].db.prices, steps[j].model, steps[j].priceId);
  }

  // ---- The stored cost of a cell ----

  // The unrounded cost of a priced request, in millionths.
  ghost function ExactIn(log: Log): nat -> int {
    (t: nat) =>
      if t in log.final && t in log.agreed && log.agreed[t].Some?
         && log.final[t].cost.Some? && log.final[t].prompt.Some? && log.final[t].completion.Some?
      then log.final[t].prompt.value * log.agreed[t].value.input
           + log.final[t].completion.value * log.agreed[t].value.output
      else 0
  }

  lemma RequestError(s: System, t: nat)
    requires Inv(s) && t in s.log.final
    ensures t in s.log.agreed
    ensures s.log.final[t].cost.Some? <==> s.log.final[t].state == Ended(Complete) && s.log.agreed[t].Some?
    ensures s.log.final[t].cost.Some? ==>
              && s.log.final[t].prompt.Some? && s.log.final[t].completion.Some?
              && var exact := s.log.final[t].prompt.value * s.log.agreed[t].value.input
                              + s.log.final[t].completion.value * s.log.agreed[t].value.output;
                 -500_000 < 1_000_000 * s.log.final[t].cost.value - exact <= 500_000
  {
    RequestCost(s, t);
    assert FairlyPriced(s.log.final[t], s.log.agreed[t]);
  }

  lemma {:induction false} SumError(s: System, ts: set<nat>)
    requires Inv(s) && ts <= s.log.final.Keys
    ensures var error := 1_000_000 * IntSum(ts, CostIn(s.log.final)) - IntSum(ts, ExactIn(s.log));
            -500_000 * |WithCost(s.log.final, ts)| <= error <= 500_000 * |WithCost(s.log.final, ts)|
    decreases ts
  {
    if ts != {} {
      var t :| t in ts;
      IntSumPick(ts, CostIn(s.log.final), t);
      IntSumPick(ts, ExactIn(s.log), t);
      RequestError(s, t);
      SumError(s, ts - {t});
      assert ts - {t} + {t} == ts;
      OneRowMore(s.log.final, ts - {t}, t);
    }
  }

  // A million times the stored cost of a cell is within half a million per
  // priced request of the exact sum of tokens times promised rates.
  lemma StoredCostError(s: System, k: DayKey)
    requires Inv(s)
    ensures k in s.db.daily ==>
              var counted := InCell(s.log.final, s.log.rolled, k);
              var error := 1_000_000 * s.db.daily[k].cost - IntSum(counted, ExactIn(s.log));
              && s.db.daily[k].priced == |WithCost(s.log.final, counted)|
              && -500_000 * |WithCost(s.log.final, counted)| <= error <= 500_000 * |WithCost(s.log.final, counted)|
    ensures k !in s.db.daily ==> InCell(s.log.final, s.log.rolled, k) == {}
  {
    StoredRowCounts(s, k);
    SumError(s, InCell(s.log.final, s.log.rolled, k));
  }
}
