// How round robin with failover spreads requests over the replicas of a model
// while no health flag changes: an unhealthy replica's share goes to the next
// healthy replica in cyclic order.
module RoundRobin {
  import opened Wrappers
  import opened Routing

  function NextPosition(p: nat, n: nat): nat {
    if p + 1 == n then 0 else p + 1
  }

  function After(p: nat, m: nat, n: nat): (q: nat)
    requires p < n
    ensures q < n
  {
    if m == 0 then p else NextPosition(After(p, m - 1, n), n)
  }

  // Steps from position p forward to position i on a circle of n.
  function Distance(p: nat, i: nat, n: nat): (d: nat)
    requires p < n && i < n
    ensures d < n
  {
    if p <= i then i - p else i + n - p
  }

  // How many elements at the end of an order are unhealthy.
  function TrailingDown<T>(order: seq<T>, h: T -> bool): (g: nat)
    ensures g <= |order|
  {
    if order == [] || h(order[|order| - 1]) then 0
    else 1 + TrailingDown(order[..|order| - 1], h)
  }

  // The unhealthy replicas immediately before replica i in cyclic order: going
  // round once from i, those at the end of the tour.
  function Gap<T>(s: seq<T>, h: T -> bool, i: nat): (g: nat)
    requires i < |s|
    ensures g < |s|
  {
    TrailingDown(Rotation(s, i)[1..], h)
  }

  lemma {:induction false} TrailingDownMeaning<T>(order: seq<T>, h: T -> bool, d: nat)
    requires d <= |order|
    ensures TrailingDown(order, h) >= d <==> forall j :: |order| - d <= j < |order| ==> !h(order[j])
  {
    if d > 0 {
      var last := |order| - 1;
      if !h(order[last]) {
        TrailingDownMeaning(order[..last], h, d - 1);
        assert forall j :: 0 <= j < last ==> order[..last][j] == order[j];
      }
    }
  }

  lemma {:induction false} FirstHealthyMeaning<T>(order: seq<T>, h: T -> bool, d: nat)
    requires NoRepeats(order) && d < |order| && h(order[d])
    ensures FirstHealthy(order, h) == Some(order[d]) <==> forall j :: 0 <= j < d ==> !h(order[j])
  {
    if d > 0 && !h(order[0]) {
      assert order[1..][d - 1] == order[d];
      FirstHealthyMeaning(order[1..], h, d - 1);
      assert forall j :: 0 < j < d ==> order[1..][j - 1] == order[j];
    }
  }

  // A walk that starts at replica p ends at healthy replica i exactly when i
  // is no further than its gap.
  lemma WalkEndsAt<T>(s: seq<T>, h: T -> bool, p: nat, i: nat)
    requires NoRepeats(s) && p < |s| && i < |s| && h(s[i])
    ensures FirstHealthy(Rotation(s, p), h) == Some(s[i]) <==> Distance(p, i, |s|) <= Gap(s, h, i)
  {
    var n, d := |s|, Distance(p, i, |s|);
    var tour, walk := Rotation(s, i)[1..], Rotation(s, p);
    assert NoRepeats(walk) && walk[d] == s[i];
    assert forall j :: 0 <= j < d ==> walk[j] == tour[n - 1 - d + j];
    FirstHealthyMeaning(walk, h, d);
    TrailingDownMeaning(tour, h, d);
    if j :| n - 1 - d <= j < n - 1 && h(tour[j]) {
      assert walk[j - (n - 1 - d)] == tour[j];
    }
  }

  // How many of the next m turns, taken from position p on, end at a replica
  // at position i whose gap is g.
  function Hits(p: nat, m: nat, i: nat, g: nat, n: nat): nat
    requires p < n && i < n
  {
    if m == 0 then 0
    else Hits(p, m - 1, i, g, n) + if Distance(After(p, m - 1, n), i, n) <= g then 1 else 0
  }

  lemma {:induction false} AfterIsClosed(p: nat, m: nat, n: nat)
    requires p < n && m <= n
    ensures After(p, m, n) == if p + m < n then p + m else p + m - n
  {
    if m > 0 {
      AfterIsClosed(p, m - 1, n);
    }
  }

  function Overlap(a: int, b: int): nat {
    if a < b then b - a else 0
  }

  lemma {:induction false} HitsWithinRound(p: nat, m: nat, i: nat, g: nat, n: nat)
    requires p < n && i < n && g < n && m <= n
    ensures var d := Distance(p, i, n);
            Hits(p, m, i, g, n) ==
            if m <= d + 1 then Overlap(d - m, if d < g then d else g)
            else (if d < g then d else g) + 1 + Overlap(n + d - m, g)
  {
    if m > 0 {
      HitsWithinRound(p, m - 1, i, g, n);
      AfterIsClosed(p, m - 1, n);
    }
  }

  // One full round from anywhere: a replica's own turn and its gap's turns.
  lemma OneRound(p: nat, i: nat, g: nat, n: nat)
    requires p < n && i < n && g < n
    ensures Hits(p, n, i, g, n) == 1 + g
  {
    HitsWithinRound(p, n, i, g, n);
  }

  lemma {:induction false} AfterAdds(p: nat, a: nat, b: nat, n: nat)
    requires p < n
    ensures After(p, a + b, n) == After(After(p, a, n), b, n)
  {
    if b > 0 {
      AfterAdds(p, a, b - 1, n);
    }
  }

  lemma {:induction false} HitsAdd(p: nat, a: nat, b: nat, i: nat, g: nat, n: nat)
    requires p < n && i < n
    ensures Hits(p, a + b, i, g, n) == Hits(p, a, i, g, n) + Hits(After(p, a, n), b, i, g, n)
  {
    if b > 0 {
      HitsAdd(p, a, b - 1, i, g, n);
      AfterAdds(p, a, b - 1, n);
    }
  }

  // k * x by repeated addition.
  function Times(k: nat, x: nat): nat {
    if k == 0 then 0 else Times(k - 1, x) + x
  }

  lemma {:induction false} TimesIsProduct(k: nat, x: nat)
    ensures Times(k, x) == k * x
  {
    if k > 0 {
      TimesIsProduct(k - 1, x);
      assert k * x == (k - 1) * x + x;
    }
  }

  lemma {:induction false} Rounds(p: nat, k: nat, i: nat, g: nat, n: nat)
    requires p < n && i < n && g < n
    ensures Hits(p, Times(k, n), i, g, n) == Times(k, 1 + g)
  {
    if k > 0 {
      var before := Times(k - 1, n);
      Rounds(p, k - 1, i, g, n);
      HitsAdd(p, before, n, i, g, n);
      OneRound(After(p, before, n), i, g, n);
    }
  }

  // The counter and the positions it selects

  lemma ModIs(x: int, q: int, r: nat, n: nat)
    requires x == q * n + r && r < n
    ensures x % n == r
  {
    var d := x / n - q;
    assert d * n == r - x % n by {
      assert x == (x / n) * n + x % n;
    }
    MultipleIsFar(d, n);
  }

  lemma MultipleIsFar(d: int, n: int)
    requires n > 0
    ensures d > 0 ==> d * n >= n
    ensures d < 0 ==> d * n <= -n
  {
    if d > 0 {
      assert d * n >= n;
    } else if d < 0 {
      assert d * n <= -n;
    }
  }

  lemma ModAddsMultiple(y: nat, a: nat, n: nat)
    requires n > 0
    ensures (a * n + y) % n == y % n
  {
    assert a * n + y == (a + y / n) * n + y % n;
    ModIs(a * n + y, a + y / n, y % n, n);
  }

  lemma ModSucceeds(c: nat, n: nat)
    requires n > 0
    ensures (c + 1) % n == NextPosition(c % n, n)
  {
    var q, r := c / n, c % n;
    assert c == q * n + r;
    ModAddsMultiple(r + 1, q, n);
    WrapsOnce(r + 1, n);
  }

  lemma {:induction false} TicketPosition(c: nat, m: nat, n: nat)
    requires n > 0
    ensures (c + m) % n == After(c % n, m, n)
  {
    if m > 0 {
      TicketPosition(c, m - 1, n);
      ModSucceeds(c + m - 1, n);
    }
  }

  lemma Divide(x: nat, n: nat) returns (q: nat, r: nat)
    requires n > 0
    ensures x == q * n + r && r < n && r == x % n
  {
    q, r := x / n, x % n;
  }

  lemma Regroup(q: int, k: int, n: int)
    ensures q * (k * n) == (q * k) * n
  {
  }

  lemma WrapKeepsPosition(x: nat, size: nat, n: nat)
    requires n > 0 && size > 0 && size % n == 0
    ensures (x % size) % n == x % n
  {
    var q, y := Divide(x, size);
    var k, z := Divide(size, n);
    Regroup(q, k, n);
    ModAddsMultiple(y, q * k, n);
  }

  // The ticket that a counter of some size gives so many turns after another.
  function TicketAt(ticket: nat, t: nat, size: nat): (later: nat)
    requires size > 0
    ensures later < size
  {
    (ticket + t) % size
  }

  lemma TicketsAdd(ticket: nat, a: nat, b: nat, size: nat)
    requires size > 0
    ensures TicketAt(TicketAt(ticket, a, size), b, size) == TicketAt(ticket, a + b, size)
  {
    var x := ticket + a;
    assert x + b == (x / size) * size + (x % size + b);
    ModAddsMultiple(x % size + b, x / size, size);
  }

  // How many of the next m turns end at a replica at position i with gap g.
  function TurnHits(ticket: nat, m: nat, i: nat, g: nat, n: nat, size: nat): nat
    requires i < n && size > 0
  {
    if m == 0 then 0
    else
      TurnHits(ticket, m - 1, i, g, n, size)
      + if Distance(TicketAt(ticket, m - 1, size) % n, i, n) <= g then 1 else 0
  }

  // The counter does not wrap during so many turns, or wrapping does no harm.
  predicate Steady(ticket: nat, turns: nat, n: nat, size: nat)
    requires n > 0
  {
    ticket + turns <= size || size % n == 0
  }

  lemma SteadyPosition(ticket: nat, t: nat, turns: nat, n: nat, size: nat)
    requires n > 0 && size > 0 && Steady(ticket, turns, n, size) && t < turns
    ensures TicketAt(ticket, t, size) % n == After(ticket % n, t, n)
  {
    TicketPosition(ticket, t, n);
    if ticket + t < size {
      ModIs(ticket + t, 0, ticket + t, size);
    } else {
      WrapKeepsPosition(ticket + t, size, n);
    }
  }

  lemma {:induction false} SteadyHits(ticket: nat, m: nat, i: nat, g: nat, n: nat, size: nat)
    requires i < n && size > 0 && Steady(ticket, m, n, size)
    ensures TurnHits(ticket, m, i, g, n, size) == Hits(ticket % n, m, i, g, n)
  {
    if m > 0 {
      SteadyHits(ticket, m - 1, i, g, n, size);
      SteadyPosition(ticket, m - 1, m, n, size);
    }
  }

  lemma {:induction false} TurnHitsAdd(ticket: nat, a: nat, b: nat, i: nat, g: nat, n: nat, size: nat)
    requires i < n && size > 0
    ensures TurnHits(ticket, a + b, i, g, n, size) ==
            TurnHits(ticket, a, i, g, n, size) + TurnHits(TicketAt(ticket, a, size), b, i, g, n, size)
  {
    if b > 0 {
      TurnHitsAdd(ticket, a, b - 1, i, g, n, size);
      TicketsAdd(ticket, a, b - 1, size);
    }
  }

  // A run of turns that wraps once is a run up to the wrap and one from zero.
  lemma WrappedHits(ticket: nat, m: nat, i: nat, g: nat, n: nat, size: nat)
    requires i < n && ticket < size < ticket + m && m <= size
    ensures var left := size - ticket;
            TurnHits(ticket, m, i, g, n, size) == Hits(ticket % n, left, i, g, n) + Hits(0, m - left, i, g, n)
  {
    var left := size - ticket;
    TurnHitsAdd(ticket, left, m - left, i, g, n, size);
    ModIs(size, 1, 0, size);
    ModIs(0, 0, 0, n);
    SteadyHits(ticket, left, i, g, n, size);
    SteadyHits(0, m - left, i, g, n, size);
  }

  // The turns are even: the counter does not wrap, its size is a multiple of
  // the number of replicas, or it wraps between two rounds.
  predicate Even(ticket: nat, turns: nat, n: nat, size: nat)
    requires n > 0
  {
    Steady(ticket, turns, n, size) || (ticket <= size && turns <= size && (size - ticket) % n == 0)
  }

  lemma WholeRounds(p: nat, q: nat, i: nat, g: nat, n: nat)
    requires p < n && i < n && g < n
    ensures Hits(p, q * n, i, g, n) == q * (1 + g)
  {
    Rounds(p, q, i, g, n);
    TimesIsProduct(q, n);
    TimesIsProduct(q, 1 + g);
  }

  lemma Distribute(k: int, q: int, n: int)
    ensures (k - q) * n == k * n - q * n
  {
  }

  lemma FewerRounds(k: nat, q: nat, n: nat)
    requires n > 0 && q * n <= k * n
    ensures q <= k && k * n - q * n == (k - q) * n
  {
    Distribute(k, q, n);
    MultipleIsFar(k - q, n);
  }

  // Over k rounds of even turns each position with gap g is hit k (1 + g)
  // times.
  lemma EvenHits(ticket: nat, k: nat, m: nat, i: nat, g: nat, n: nat, size: nat)
    requires i < n && g < n && ticket < size && m == k * n && Even(ticket, m, n, size)
    ensures TurnHits(ticket, m, i, g, n, size) == k * (1 + g)
  {
    if Steady(ticket, m, n, size) {
      SteadyHits(ticket, m, i, g, n, size);
      WholeRounds(ticket % n, k, i, g, n);
    } else {
      EvenWrap(ticket, k, (size - ticket) / n, i, g, n, size);
    }
  }

  lemma EvenWrap(ticket: nat, k: nat, q: nat, i: nat, g: nat, n: nat, size: nat)
    requires i < n && g < n && ticket < size < ticket + k * n && k * n <= size && size - ticket == q * n
    ensures TurnHits(ticket, k * n, i, g, n, size) == k * (1 + g)
  {
    FewerRounds(k, q, n);
    WrappedHits(ticket, k * n, i, g, n, size);
    WholeRounds(ticket % n, q, i, g, n);
    WholeRounds(0, k - q, i, g, n);
    Distribute(k, q, 1 + g);
  }

  // Turns that are not even meet somewhere: the part of a round before the
  // wrap and the rest of a round after it both visit one position.
  lemma MeetingPlace(ticket: nat, n: nat, size: nat) returns (i: nat, q: nat, a: nat)
    requires 0 < n <= size && ticket < size && size % n != 0 && (size - ticket) % n != 0
    ensures i < n && 0 < a < n && size - ticket == q * n + a
    ensures Hits(ticket % n, a, i, 0, n) >= 1 && Hits(0, n - a, i, 0, n) >= 1
  {
    var rounds, r := Divide(size, n);
    q, a := Divide(size - ticket, n);
    i := Meeting(ticket, n, rounds, r, q, a);
  }

  lemma Meeting(ticket: nat, n: nat, rounds: nat, r: nat, q: nat, a: nat) returns (i: nat)
    requires 0 < r < n && 0 < a < n && ticket + (q * n + a) == rounds * n + r
    ensures i < n && Hits(ticket % n, a, i, 0, n) >= 1 && Hits(0, n - a, i, 0, n) >= 1
  {
    var before := rounds - q;
    Distribute(rounds, q, n);
    if a <= r {
      i := r - a;
      PositionBeforeWrap(ticket, before, r - a, n);
    } else {
      i := 0;
      Distribute(before, 1, n);
      PositionBeforeWrap(ticket, before - 1, r - a + n, n);
    }
    HitsWithinRound(ticket % n, a, i, 0, n);
    HitsWithinRound(0, n - a, i, 0, n);
  }

  lemma PositionBeforeWrap(ticket: nat, q: int, p: nat, n: nat)
    requires ticket == q * n + p && p < n
    ensures ticket % n == p
  {
    ModIs(ticket, q, p, n);
  }

  lemma RoundsAndRest(p: nat, q: nat, a: nat, i: nat, g: nat, n: nat)
    requires p < n && i < n && g < n
    ensures Hits(p, q * n + a, i, g, n) == q * (1 + g) + Hits(p, a, i, g, n)
  {
    HitsAdd(p, q * n, a, i, g, n);
    WholeRounds(p, q, i, g, n);
    BackAgain(p, q, n);
    TimesIsProduct(q, n);
  }

  lemma {:induction false} BackAgain(p: nat, q: nat, n: nat)
    requires p < n
    ensures After(p, Times(q, n), n) == p
  {
    if q > 0 {
      BackAgain(p, q - 1, n);
      AfterAdds(p, Times(q - 1, n), n, n);
      AfterIsClosed(p, n, n);
    }
  }

  lemma UnevenHits(ticket: nat, k: nat, n: nat, size: nat) returns (i: nat)
    requires 0 < n <= size && ticket < size && k * n <= size && !Even(ticket, k * n, n, size)
    ensures i < n && TurnHits(ticket, k * n, i, 0, n, size) > k
  {
    var q, a;
    i, q, a := MeetingPlace(ticket, n, size);
    WrapBetweenRounds(ticket, k, q, a, i, n, size);
  }

  lemma WrapBetweenRounds(ticket: nat, k: nat, q: nat, a: nat, i: nat, n: nat, size: nat)
    requires i < n && ticket < size < ticket + k * n && k * n <= size
    requires size - ticket == q * n + a && 0 < a < n
    ensures TurnHits(ticket, k * n, i, 0, n, size) ==
            k - 1 + Hits(ticket % n, a, i, 0, n) + Hits(0, n - a, i, 0, n)
  {
    RestOfRounds(k, q, a, n);
    WrappedHits(ticket, k * n, i, 0, n, size);
    RoundsAndRest(ticket % n, q, a, i, 0, n);
    RoundsAndRest(0, k - q - 1, n - a, i, 0, n);
  }

  lemma RestOfRounds(k: nat, q: nat, a: nat, n: nat)
    requires 0 < a < n && q * n + a < k * n
    ensures q < k && k * n - (q * n + a) == (k - q - 1) * n + (n - a)
  {
    Distribute(k, q, n);
    MultipleIsFar(k - q, n);
    Distribute(k - q, 1, n);
  }

  // The exact condition, for up to a whole turn of the counter: while every
  // replica is healthy, k rounds serve each of them k times if and only if the
  // turns are even.
  lemma SharesAreEqualIffEven(ticket: nat, k: nat, n: nat, size: nat)
    requires 0 < n <= size && ticket < size && k * n <= size
    ensures (forall i :: 0 <= i < n ==> TurnHits(ticket, k * n, i, 0, n, size) == k) <==> Even(ticket, k * n, n, size)
  {
    if Even(ticket, k * n, n, size) {
      forall i | 0 <= i < n
        ensures TurnHits(ticket, k * n, i, 0, n, size) == k
      {
        EvenHits(ticket, k, k * n, i, 0, n, size);
      }
    } else {
      var i := UnevenHits(ticket, k, n, size);
    }
  }

  // The counter's size is no multiple of three: when it wraps in a round over
  // three replicas, the first has two turns and the last none.
  lemma WrapOverThree()
    ensures !Even(COUNTER_SIZE - 1, 3, 3, COUNTER_SIZE)
    ensures TurnHits(COUNTER_SIZE - 1, 3, 0, 0, 3, COUNTER_SIZE) == 2
    ensures TurnHits(COUNTER_SIZE - 1, 3, 1, 0, 3, COUNTER_SIZE) == 1
    ensures TurnHits(COUNTER_SIZE - 1, 3, 2, 0, 3, COUNTER_SIZE) == 0
  {
    var c := COUNTER_SIZE - 1;
    assert TicketAt(c, 0, COUNTER_SIZE) % 3 == 0;
    assert TicketAt(c, 1, COUNTER_SIZE) % 3 == 0;
    assert TicketAt(c, 2, COUNTER_SIZE) % 3 == 1;
    forall i: nat | i < 3
      ensures TurnHits(c, 3, i, 0, 3, COUNTER_SIZE) ==
              (if i == 0 then 1 else 0) + (if i == 0 then 1 else 0) + (if i == 1 then 1 else 0)
    {
      assert TurnHits(c, 1, i, 0, 3, COUNTER_SIZE) == if i == 0 then 1 else 0;
      assert TurnHits(c, 2, i, 0, 3, COUNTER_SIZE) == if i == 0 then 2 else 0;
    }
  }

  // Requests and who serves them

  // The requests that take a turn: those without a conversation.
  function Turns(requests: seq<string>): nat {
    if requests == [] then 0
    else Turns(requests[..|requests| - 1]) + if requests[|requests| - 1] == "" then 1 else 0
  }

  function Served<T(==)>(requests: seq<string>, choices: seq<Option<T>>, b: T): nat
    requires |choices| == |requests|
  {
    if requests == [] then 0
    else
      var last := |requests| - 1;
      Served(requests[..last], choices[..last], b)
      + if requests[last] == "" && choices[last] == Some(b) then 1 else 0
  }

  // A replica served the turns that end at its position.
  predicate ServedItsHits<T(==)>(s: seq<T>, h: T -> bool, requests: seq<string>, choices: seq<Option<T>>,
                                 ticket: nat, i: nat)
    requires |choices| == |requests| && i < |s|
  {
    Served(requests, choices, s[i]) == TurnHits(ticket, Turns(requests), i, Gap(s, h, i), |s|, COUNTER_SIZE)
  }

  ghost predicate ServedAsHits<T(!new)>(s: seq<T>, h: T -> bool, requests: seq<string>, choices: seq<Option<T>>,
                                        ticket: nat)
    requires |choices| == |requests|
  {
    forall i :: 0 <= i < |s| && h(s[i]) ==> ServedItsHits(s, h, requests, choices, ticket, i)
  }

  lemma ServedSnoc<T>(requests: seq<string>, choices: seq<Option<T>>, request: string, choice: Option<T>, b: T)
    requires |choices| == |requests|
    ensures Turns(requests + [request]) == Turns(requests) + if request == "" then 1 else 0
    ensures Served(requests + [request], choices + [choice], b) ==
            Served(requests, choices, b) + if request == "" && choice == Some(b) then 1 else 0
  {
    assert (requests + [request])[..|requests|] == requests && (choices + [choice])[..|requests|] == choices;
  }

  lemma OneMore<T(!new)>(s: seq<T>, h: T -> bool, requests: seq<string>, choices: seq<Option<T>>, ticket: nat,
                         request: string, choice: Option<T>)
    requires NoRepeats(s) && s != [] && |choices| == |requests|
    requires ServedAsHits(s, h, requests, choices, ticket)
    requires request == "" ==>
               choice == FirstHealthy(Rotation(s, TicketAt(ticket, Turns(requests), COUNTER_SIZE) % |s|), h)
    ensures ServedAsHits(s, h, requests + [request], choices + [choice], ticket)
  {
    var r, c := requests + [request], choices + [choice];
    forall i | 0 <= i < |s| && h(s[i])
      ensures ServedItsHits(s, h, r, c, ticket, i)
    {
      OneMoreFor(s, h, requests, choices, ticket, request, choice, i);
    }
  }

  lemma OneMoreFor<T>(s: seq<T>, h: T -> bool, requests: seq<string>, choices: seq<Option<T>>, ticket: nat,
                      request: string, choice: Option<T>, i: nat)
    requires NoRepeats(s) && i < |s| && h(s[i]) && |choices| == |requests|
    requires ServedItsHits(s, h, requests, choices, ticket, i)
    requires request == "" ==>
               choice == FirstHealthy(Rotation(s, TicketAt(ticket, Turns(requests), COUNTER_SIZE) % |s|), h)
    ensures ServedItsHits(s, h, requests + [request], choices + [choice], ticket, i)
  {
    ServedSnoc(requests, choices, request, choice, s[i]);
    if request == "" {
      WalkEndsAt(s, h, TicketAt(ticket, Turns(requests), COUNTER_SIZE) % |s|, i);
    }
  }

  method ServeOne<T(!new, ==)>(route: ModelRoute<T>, request: string, h: T -> bool) returns (choice: Option<T>)
    requires route.Valid()
    modifies route`next
    ensures route.Valid()
    ensures route.next == if route.CountsFor(request) then (old(route.next) + 1) % COUNTER_SIZE else old(route.next)
    ensures request == "" ==> choice == FirstHealthy(Rotation(route.backends, old(route.next) % |route.backends|), h)
  {
    ghost var order := route.Order(request);
    var found, _, loads := route.SelectHealthyBackend(request, (_, b) => h(b));
    WalkWhenFixed(order, (_, b) => h(b), loads, found, h, 0);
    assert order[0..] == order;
    return found;
  }

  // Serve requests, sticky ones and others, while no flag changes.
  method ServeAll<T(!new, ==)>(route: ModelRoute<T>, requests: seq<string>, h: T -> bool)
    returns (choices: seq<Option<T>>)
    requires route.Valid()
    modifies route`next
    ensures route.Valid() && |choices| == |requests|
    ensures ServedAsHits(route.backends, h, requests, choices, old(route.next))
  {
    choices := [];
    ghost var n, c := |route.backends|, route.next;
    for t := 0 to |requests|
      invariant route.Valid() && |choices| == t
      invariant n >= 2 ==> route.next == TicketAt(c, Turns(requests[..t]), COUNTER_SIZE)
      invariant ServedAsHits(route.backends, h, requests[..t], choices, c)
    {
      TakesTurn(c, requests, t, route.next, n);
      var choice := ServeOne(route, requests[t], h);
      OneMore(route.backends, h, requests[..t], choices, c, requests[t], choice);
      choices := choices + [choice];
      assert requests[..t + 1] == requests[..t] + [requests[t]];
    }
    assert requests[..|requests|] == requests;
  }

  lemma TakesTurn(c: nat, requests: seq<string>, t: nat, ticket: nat, n: nat)
    requires n > 0 && t < |requests|
    requires n >= 2 ==> ticket == TicketAt(c, Turns(requests[..t]), COUNTER_SIZE)
    ensures ticket % n == TicketAt(c, Turns(requests[..t]), COUNTER_SIZE) % n
    ensures n >= 2 ==> TicketAt(c, Turns(requests[..t + 1]), COUNTER_SIZE) ==
                       if requests[t] == "" then (ticket + 1) % COUNTER_SIZE else ticket
  {
    assert requests[..t + 1][..t] == requests[..t];
    TicketsAdd(c, Turns(requests[..t]), 1, COUNTER_SIZE);
  }

  // The distribution law: over k rounds of turns every healthy replica serves
  // exactly k times its own turn and those of the unhealthy run before it,
  // whatever sticky requests come between.
  lemma FairShares<T>(s: seq<T>, h: T -> bool, requests: seq<string>, choices: seq<Option<T>>, ticket: nat,
                      k: nat, i: nat)
    requires |choices| == |requests| && i < |s| && ServedItsHits(s, h, requests, choices, ticket, i)
    requires Turns(requests) == k * |s|
    requires ticket < COUNTER_SIZE && Even(ticket, Turns(requests), |s|, COUNTER_SIZE)
    ensures Served(requests, choices, s[i]) == k * (1 + Gap(s, h, i))
  {
    EvenHits(ticket, k, Turns(requests), i, Gap(s, h, i), |s|, COUNTER_SIZE);
  }
}
