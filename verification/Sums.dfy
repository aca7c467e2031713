// The columns of a daily usage row, and sums of them over finite sets.
module Sums {
  datatype Totals = Totals(requests: int, complete: int, incomplete: int, failed: int,
                           prompt: int, completion: int, cost: int, priced: int)

  const ZERO := Totals(0, 0, 0, 0, 0, 0, 0, 0)

  function Add(a: Totals, b: Totals): Totals {
    Totals(a.requests + b.requests, a.complete + b.complete, a.incomplete + b.incomplete, a.failed + b.failed,
           a.prompt + b.prompt, a.completion + b.completion, a.cost + b.cost, a.priced + b.priced)
  }

  lemma AddSwap(a: Totals, b: Totals, c: Totals)
    ensures Add(a, Add(b, c)) == Add(b, Add(a, c))
  {
  }

  ghost function Sum<K(!new)>(s: set<K>, f: K -> Totals): Totals
    decreases s
  {
    if s == {} then ZERO
    else
      var x :| x in s;
      Add(f(x), Sum(s - {x}, f))
  }

  lemma {:induction false} SumPick<K(!new)>(s: set<K>, f: K -> Totals, x: K)
    requires x in s
    ensures Sum(s, f) == Add(f(x), Sum(s - {x}, f))
    decreases s
  {
    var y :| y in s && Sum(s, f) == Add(f(y), Sum(s - {y}, f));
    if y != x {
      SumPick(s - {y}, f, x);
      SumPick(s - {x}, f, y);
      assert s - {x} - {y} == s - {y} - {x};
      AddSwap(f(x), f(y), Sum(s - {y} - {x}, f));
    }
  }

  lemma {:induction false} SumCongruent<K(!new)>(s: set<K>, f: K -> Totals, g: K -> Totals)
    requires forall x <- s :: f(x) == g(x)
    ensures Sum(s, f) == Sum(s, g)
    decreases s
  {
    if s != {} {
      var x :| x in s;
      SumPick(s, f, x);
      SumPick(s, g, x);
      SumCongruent(s - {x}, f, g);
    }
  }

  lemma {:induction false} SumUnion<K(!new)>(a: set<K>, b: set<K>, f: K -> Totals)
    requires a !! b
    ensures Sum(a + b, f) == Add(Sum(a, f), Sum(b, f))
    decreases a
  {
    if a == {} {
      assert a + b == b;
    } else {
      var x :| x in a;
      SumPick(a, f, x);
      SumPick(a + b, f, x);
      assert a + b - {x} == a - {x} + b;
      SumUnion(a - {x}, b, f);
    }
  }

  // Column by column.
  predicate AtMost(a: Totals, b: Totals) {
    && a.requests <= b.requests && a.complete <= b.complete && a.incomplete <= b.incomplete && a.failed <= b.failed
    && a.prompt <= b.prompt && a.completion <= b.completion && a.cost <= b.cost && a.priced <= b.priced
  }

  lemma {:induction false} SumNonnegative<K(!new)>(s: set<K>, f: K -> Totals)
    requires forall x <- s :: AtMost(ZERO, f(x))
    ensures AtMost(ZERO, Sum(s, f))
    decreases s
  {
    if s != {} {
      var x :| x in s;
      SumPick(s, f, x);
      SumNonnegative(s - {x}, f);
    }
  }

  lemma SumSubset<K(!new)>(a: set<K>, b: set<K>, f: K -> Totals)
    requires a <= b && forall x <- b :: AtMost(ZERO, f(x))
    ensures AtMost(Sum(a, f), Sum(b, f))
  {
    assert b == a + (b - a);
    SumUnion(a, b - a, f);
    SumNonnegative(b - a, f);
  }

  ghost function Image<A(!new), B(!new)>(s: set<A>, h: A -> B): set<B> {
    set x | x in s :: h(x)
  }

  // Renaming the elements injectively does not change a sum.
  lemma {:induction false} SumReindex<A(!new), B(!new)>(s: set<A>, h: A -> B, f: A -> Totals, g: B -> Totals)
    requires forall x, y :: x in s && y in s && h(x) == h(y) ==> x == y
    requires forall x <- s :: f(x) == g(h(x))
    ensures Sum(s, f) == Sum(Image(s, h), g)
    decreases s
  {
    if s != {} {
      var x :| x in s;
      SumPick(s, f, x);
      SumPick(Image(s, h), g, h(x));
      SumReindex(s - {x}, h, f, g);
      assert Image(s, h) - {h(x)} == Image(s - {x}, h);
    }
  }

  // A sum of one column alone.
  ghost function IntSum<K(!new)>(s: set<K>, f: K -> int): int
    decreases s
  {
    if s == {} then 0
    else
      var x :| x in s;
      f(x) + IntSum(s - {x}, f)
  }

  lemma {:induction false} IntSumPick<K(!new)>(s: set<K>, f: K -> int, x: K)
    requires x in s
    ensures IntSum(s, f) == f(x) + IntSum(s - {x}, f)
    decreases s
  {
    var y :| y in s && IntSum(s, f) == f(y) + IntSum(s - {y}, f);
    if y != x {
      IntSumPick(s - {y}, f, x);
      IntSumPick(s - {x}, f, y);
      assert s - {x} - {y} == s - {y} - {x};
    }
  }

  lemma IntSumOneMore<K(!new)>(s: set<K>, f: K -> int, x: K)
    requires x !in s
    ensures IntSum(s + {x}, f) == IntSum(s, f) + f(x)
  {
    IntSumPick(s + {x}, f, x);
    assert s + {x} - {x} == s;
  }

  lemma {:induction false} IntSumCongruent<K(!new)>(s: set<K>, f: K -> int, g: K -> int)
    requires forall x <- s :: f(x) == g(x)
    ensures IntSum(s, f) == IntSum(s, g)
    decreases s
  {
    if s != {} {
      var x :| x in s;
      IntSumPick(s, f, x);
      IntSumPick(s, g, x);
      IntSumCongruent(s - {x}, f, g);
    }
  }

  ghost function InGroups<T(!new), K(!new)>(members: set<T>, key: T -> K, ks: set<K>): set<T> {
    set t | t in members && key(t) in ks
  }

  lemma InGroupsSplit<T(!new), K(!new)>(members: set<T>, key: T -> K, ks: set<K>, k: K)
    requires k in ks
    ensures InGroups(members, key, ks) == InGroups(members, key, {k}) + InGroups(members, key, ks - {k})
    ensures InGroups(members, key, {k}) !! InGroups(members, key, ks - {k})
  {
  }

  // One cell of a grouped sum.
  ghost function GroupSum<T(!new), K(!new)>(members: set<T>, key: T -> K, f: T -> Totals, k: K): Totals {
    Sum(InGroups(members, key, {k}), f)
  }

  // Summing the cells of some groups is summing their members.
  lemma {:induction false} SumOfGroups<T(!new), K(!new)>(ks: set<K>, g: K -> Totals,
                                                         members: set<T>, key: T -> K, f: T -> Totals)
    requires forall k <- ks :: g(k) == GroupSum(members, key, f, k)
    ensures Sum(ks, g) == Sum(InGroups(members, key, ks), f)
    decreases ks
  {
    if ks == {} {
      assert InGroups(members, key, ks) == {};
    } else {
      var k :| k in ks;
      SumPick(ks, g, k);
      SumOfGroups(ks - {k}, g, members, key, f);
      InGroupsSplit(members, key, ks, k);
      SumUnion(InGroups(members, key, {k}), InGroups(members, key, ks - {k}), f);
    }
  }
}
