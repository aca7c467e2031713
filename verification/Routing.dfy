// Choosing a backend: round robin or affinity, then failover to the next
// backend that is seen healthy.
module Routing {
  import opened Wrappers

  const COUNTER_SIZE := 0x1_0000_0000_0000_0000

  // The consistent-hash ring of a library, known only by its two lookups.
  datatype Ring<!T> = Ring(locate: string -> T, closest: string -> seq<T>)

  ghost predicate RingOver<T(!new)>(ring: Ring<T>, backends: seq<T>) {
    forall key ::
      && ring.locate(key) in backends
      && multiset(ring.closest(key)) == multiset(backends)
  }

  predicate NoRepeats<T(==)>(s: seq<T>) {
    forall i, j :: 0 <= i < j < |s| ==> s[i] != s[j]
  }

  function Rotation<T>(s: seq<T>, start: nat): seq<T>
    requires start < |s|
  {
    s[start..] + s[..start]
  }

  lemma WrapsOnce(x: nat, n: nat)
    requires n > 0 && x < 2 * n
    ensures x % n == if x < n then x else x - n
  {
    if x >= n {
      assert (x - n) % n == x - n;
    }
  }

  // A walk along an order that stops at the first backend seen healthy. The
  // flag of the backend read at time t of the call is health(t, backend).
  ghost predicate Walk<T(!new)>(order: seq<T>, health: (nat, T) -> bool, loads: seq<T>, choice: Option<T>) {
    && loads <= order
    && match choice
       case None => loads == order && forall t :: 0 <= t < |loads| ==> !health(t, loads[t])
       case Some(b) =>
         && |loads| > 0 && loads[|loads| - 1] == b && health(|loads| - 1, b)
         && forall t :: 0 <= t < |loads| - 1 ==> !health(t, loads[t])
  }

  // What a walk reads, position by position.
  lemma WalkFollows<T(!new)>(order: seq<T>, health: (nat, T) -> bool, loads: seq<T>, choice: Option<T>)
    requires Walk(order, health, loads, choice) && order != []
    ensures 0 < |loads| <= |order| && (choice.None? ==> |loads| == |order|)
    ensures forall t :: 0 <= t < |loads| ==> loads[t] == order[t]
    ensures forall t :: 0 <= t < |loads| - 1 ==> !health(t, loads[t])
    ensures if choice.Some? then choice.value == loads[|loads| - 1] && health(|loads| - 1, choice.value)
            else !health(|loads| - 1, loads[|loads| - 1])
  {
  }

  // A conversation tries its own backend and then the ring's closest in turn.
  ghost predicate AlongRing<T(!new)>(own: T, closest: seq<T>, loads: seq<T>, choice: Option<T>) {
    && |loads| <= |closest| + 1 && (choice.None? ==> |loads| == |closest| + 1)
    && forall t :: 0 <= t < |loads| ==> loads[t] == if t == 0 then own else closest[t - 1]
  }

  // All other requests try the backends in turn from a place on the list.
  ghost predicate AlongList<T(!new)>(backends: seq<T>, place: nat, loads: seq<T>, choice: Option<T>)
    requires backends != []
  {
    && |loads| <= |backends| && (choice.None? ==> |loads| == |backends|)
    && forall t :: 0 <= t < |loads| ==> loads[t] == backends[(place + t) % |backends|]
  }

  lemma WalkAlongRing<T(!new)>(own: T, closest: seq<T>, health: (nat, T) -> bool, loads: seq<T>, choice: Option<T>)
    requires Walk([own] + closest, health, loads, choice)
    ensures AlongRing(own, closest, loads, choice)
  {
  }

  lemma WalkAlongList<T(!new)>(backends: seq<T>, place: nat, health: (nat, T) -> bool, loads: seq<T>,
                               choice: Option<T>)
    requires place < |backends| && Walk(Rotation(backends, place), health, loads, choice)
    ensures AlongList(backends, place, loads, choice)
  {
    forall t | 0 <= t < |loads|
      ensures loads[t] == backends[(place + t) % |backends|]
    {
      WrapsOnce(place + t, |backends|);
    }
  }

  function FirstHealthy<T>(order: seq<T>, h: T -> bool): Option<T> {
    if order == [] then None
    else if h(order[0]) then Some(order[0])
    else FirstHealthy(order[1..], h)
  }

  // While no flag changes, a walk ends at the first healthy backend.
  lemma {:induction false} WalkWhenFixed<T(!new)>(order: seq<T>, health: (nat, T) -> bool, loads: seq<T>,
                                                  choice: Option<T>, h: T -> bool, skipped: nat)
    requires Walk(order, health, loads, choice) && forall t, b :: health(t, b) == h(b)
    requires skipped <= |loads| && (choice.Some? ==> skipped < |loads|)
    ensures choice == FirstHealthy(order[skipped..], h)
    decreases |loads| - skipped
  {
    if skipped < |order| {
      assert order[skipped..][1..] == order[skipped + 1..];
      assert order[skipped..][0] == order[skipped];
      if skipped < |loads| {
        assert loads[skipped] == order[skipped];
        if !h(loads[skipped]) {
          WalkWhenFixed(order, health, loads, choice, h, skipped + 1);
        } else {
          assert choice.Some? && skipped == |loads| - 1;
        }
      }
    }
  }

  class ModelRoute<T(!new, ==)> {
    const backends: seq<T>
    const ring: Option<Ring<T>>
    var next: nat

    ghost predicate Valid()
      reads this
    {
      && |backends| >= 1 && NoRepeats(backends)
      && (ring.Some? <==> |backends| >= 2)
      && (ring.Some? ==> RingOver(ring.value, backends))
      && next < COUNTER_SIZE
    }

    // Routing tables never hold an empty route; a ring is built from two
    // backends on.
    constructor (backends: seq<T>, build: seq<T> -> Ring<T>)
      requires |backends| >= 1 && NoRepeats(backends) && RingOver(build(backends), backends)
      ensures Valid() && this.backends == backends && next == 0
    {
      this.backends := backends;
      this.ring := if |backends| < 2 then None else Some(build(backends));
      this.next := 0;
    }

    predicate CountsFor(conversation: string) {
      |backends| >= 2 && conversation == ""
    }

    // The backend a request belongs to before health is looked at.
    ghost function Primary(conversation: string): T
      requires Valid()
      reads this
    {
      if |backends| == 1 then backends[0]
      else if conversation != "" then ring.value.locate(conversation)
      else backends[next % |backends|]
    }

    // The order in which backends are tried.
    ghost function Order(conversation: string): seq<T>
      requires Valid()
      reads this
    {
      if conversation != "" && ring.Some? then [ring.value.locate(conversation)] + ring.value.closest(conversation)
      else Rotation(backends, if |backends| == 1 then 0 else next % |backends|)
    }

    // With flags that stand still, a conversation goes to its own backend when
    // that is healthy, and otherwise to the first healthy one of the ring's
    // closest, wherever the counter stands.
    lemma StickyChoice(conversation: string, health: (nat, T) -> bool, loads: seq<T>, choice: Option<T>, h: T -> bool)
      requires Valid() && conversation != "" && |backends| >= 2
      requires Walk(Order(conversation), health, loads, choice) && forall t, b :: health(t, b) == h(b)
      ensures h(ring.value.locate(conversation)) ==> choice == Some(ring.value.locate(conversation))
      ensures !h(ring.value.locate(conversation)) && choice.Some? ==>
                exists i :: 0 <= i < |ring.value.closest(conversation)|
                            && choice.value == ring.value.closest(conversation)[i]
                            && h(ring.value.closest(conversation)[i])
                            && forall j :: 0 <= j < i ==> !h(ring.value.closest(conversation)[j])
      ensures choice.None? ==> forall b <- ring.value.closest(conversation) :: !h(b)
    {
      var closest := ring.value.closest(conversation);
      WalkAlongRing(ring.value.locate(conversation), closest, health, loads, choice);
      if choice.Some? {
        if |loads| > 1 {
          assert !h(loads[0]);
          var i := |loads| - 2;
          assert forall j :: 0 <= j < i ==> closest[j] == loads[j + 1] && !health(j + 1, loads[j + 1]);
          assert choice.value == closest[i] && h(closest[i]);
        }
      } else {
        forall b | b in closest ensures !h(b) {
          var i :| 0 <= i < |closest| && closest[i] == b;
          assert loads[i + 1] == b && !health(i + 1, loads[i + 1]);
        }
        assert !health(0, loads[0]);
      }
    }

    // The order starts with the primary and reaches every backend, so a walk
    // that finds none has seen each of them unhealthy during the call.
    lemma OrderCovers(conversation: string)
      requires Valid()
      ensures Order(conversation) != [] && Order(conversation)[0] == Primary(conversation)
      ensures forall b <- backends :: b in Order(conversation)
      ensures forall b <- Order(conversation) :: b in backends
    {
      if conversation != "" && ring.Some? {
        var closest := ring.value.closest(conversation);
        assert forall b :: b in closest <==> b in multiset(closest);
        assert forall b :: b in backends <==> b in multiset(backends);
      }
    }

    method SelectBackend(conversation: string) returns (b: T)
      requires Valid()
      modifies this`next
      ensures Valid() && b == old(Primary(conversation))
      ensures b == if |backends| == 1 then backends[0]
                   else if conversation != "" then ring.value.locate(conversation)
                   else backends[old(next) % |backends|]
      ensures next == if |backends| >= 2 && conversation == ""
                      then (old(next) + 1) % 18_446_744_073_709_551_616 else old(next)
    {
      if |backends| == 1 {
        return backends[0];
      }
      if conversation != "" {
        return ring.value.locate(conversation);
      }
      // The atomic increment returns the new value; the index uses the old one.
      var ticket := next;
      next := (next + 1) % COUNTER_SIZE;
      return backends[ticket % |backends|];
    }

    method FindStart(primary: T) returns (start: nat)
      requires Valid() && primary in backends
      ensures start < |backends| && backends[start] == primary
    {
      start := 0;
      for i := 0 to |backends|
        invariant primary !in backends[..i]
      {
        if backends[i] == primary {
          return i;
        }
      }
      assert false;
    }

    method SelectHealthyBackend(conversation: string, health: (nat, T) -> bool)
      returns (choice: Option<T>, failover: bool, ghost loads: seq<T>)
      requires Valid()
      modifies this`next
      ensures Valid()
      ensures next == if |backends| >= 2 && conversation == ""
                      then (old(next) + 1) % 18_446_744_073_709_551_616 else old(next)
      ensures Walk(old(Order(conversation)), health, loads, choice)
      ensures |loads| > 0 && forall t :: 0 <= t < |loads| - 1 ==> !health(t, loads[t])
      ensures if choice.Some? then choice.value == loads[|loads| - 1] && health(|loads| - 1, choice.value)
              else !health(|loads| - 1, loads[|loads| - 1])
      ensures if conversation != "" && |backends| >= 2
              then AlongRing(ring.value.locate(conversation), ring.value.closest(conversation), loads, choice)
              else AlongList(backends, old(next) % |backends|, loads, choice)
      ensures failover <==> choice.Some? && |loads| > 1
    {
      ghost var order := Order(conversation);
      OrderCovers(conversation);
      ghost var place := next % |backends|;
      var primary := SelectBackend(conversation);
      if health(0, primary) {
        choice, failover, loads := Some(primary), false, [primary];
      } else {
        if conversation != "" && ring.Some? {
          choice, loads := TryClosest(conversation, primary, health);
        } else {
          choice, loads := TryOthers(primary, health, order);
        }
        failover := choice.Some?;
      }
      WalkFollows(order, health, loads, choice);
      if conversation != "" && ring.Some? {
        WalkAlongRing(ring.value.locate(conversation), ring.value.closest(conversation), health, loads, choice);
      } else {
        WalkAlongList(backends, place, health, loads, choice);
      }
    }

    // Failover for a conversation: along the ring.
    method TryClosest(conversation: string, primary: T, health: (nat, T) -> bool)
      returns (choice: Option<T>, ghost loads: seq<T>)
      requires Valid() && ring.Some? && !health(0, primary)
      ensures Walk([primary] + ring.value.closest(conversation), health, loads, choice)
      ensures choice.Some? ==> |loads| > 1
    {
      var closest := ring.value.closest(conversation);
      ghost var order := [primary] + closest;
      loads := [primary];
      for i := 0 to |closest|
        invariant loads == order[..i + 1]
        invariant forall t :: 0 <= t < |loads| ==> !health(t, loads[t])
      {
        loads := loads + [closest[i]];
        if health(i + 1, closest[i]) {
          return Some(closest[i]), loads;
        }
      }
      return None, loads;
    }

    // Failover for all others: along the list, from the primary on.
    method TryOthers(primary: T, health: (nat, T) -> bool, ghost order: seq<T>)
      returns (choice: Option<T>, ghost loads: seq<T>)
      requires Valid() && !health(0, primary)
      requires exists k :: 0 <= k < |backends| && order == Rotation(backends, k) && backends[k] == primary
      ensures Walk(order, health, loads, choice)
      ensures choice.Some? ==> |loads| > 1
    {
      var start := FindStart(primary);
      assert order == Rotation(backends, start);
      loads := [primary];
      for i := 1 to |backends|
        invariant loads == order[..i]
        invariant forall t :: 0 <= t < |loads| ==> !health(t, loads[t])
      {
        WrapsOnce(start + i, |backends|);
        var backend := backends[(start + i) % |backends|];
        loads := loads + [backend];
        if health(i, backend) {
          return Some(backend), loads;
        }
      }
      return None, loads;
    }

    // The guarantee of a call, whatever the flags do meanwhile: it returns
    // only a backend it saw healthy, and returns none only after it saw every
    // backend unhealthy.
    lemma WalkGuarantee(conversation: string, health: (nat, T) -> bool, loads: seq<T>, choice: Option<T>)
      requires Valid() && Walk(Order(conversation), health, loads, choice)
      ensures choice.Some? ==>
                && choice.value in backends
                && exists t :: 0 <= t < |loads| && loads[t] == choice.value && health(t, loads[t])
      ensures choice.None? ==>
                forall b <- backends :: exists t :: 0 <= t < |loads| && loads[t] == b && !health(t, loads[t])
    {
      OrderCovers(conversation);
      if choice.Some? {
        assert loads[|loads| - 1] in Order(conversation);
      }
    }
  }
}
