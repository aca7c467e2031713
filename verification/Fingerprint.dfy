// The membership fingerprint: the text that is hashed, and what it identifies.
module Fingerprint {
  import opened Wrappers
  import opened Sequences
  import opened Registry

  const ROUTING_VERSION := "consistent-xxhash-4093-20-1.25-v1"
  const NUL: char := '\0'

  // ---- Sorting strings ----

  predicate Leq(a: string, b: string) {
    a == "" || (b != "" && (a[0] < b[0] || (a[0] == b[0] && Leq(a[1..], b[1..]))))
  }

  lemma {:induction false} LeqTotal(a: string, b: string)
    ensures Leq(a, b) || Leq(b, a)
    decreases |a|
  {
    if a != "" && b != "" && a[0] == b[0] {
      LeqTotal(a[1..], b[1..]);
    }
  }

  lemma {:induction false} LeqAntisymmetric(a: string, b: string)
    requires Leq(a, b) && Leq(b, a)
    ensures a == b
    decreases |a|
  {
    if a != "" && b != "" {
      LeqAntisymmetric(a[1..], b[1..]);
      assert a == [a[0]] + a[1..] && b == [b[0]] + b[1..];
    }
  }

  lemma {:induction false} LeqTransitive(a: string, b: string, c: string)
    requires Leq(a, b) && Leq(b, c)
    ensures Leq(a, c)
    decreases |a|
  {
    if a != "" && a[0] == b[0] && b[0] == c[0] {
      LeqTransitive(a[1..], b[1..], c[1..]);
    }
  }

  predicate Sorted(s: seq<string>) {
    forall i, j :: 0 <= i < j < |s| ==> Leq(s[i], s[j])
  }

  function Insert(x: string, s: seq<string>): (r: seq<string>)
    ensures multiset(r) == multiset{x} + multiset(s) && |r| == |s| + 1
  {
    if s == [] then [x]
    else if Leq(x, s[0]) then
      [x] + s
    else
      assert s == [s[0]] + s[1..];
      [s[0]] + Insert(x, s[1..])
  }

  lemma {:induction false} InsertSorted(x: string, s: seq<string>)
    requires Sorted(s)
    ensures Sorted(Insert(x, s))
    decreases |s|
  {
    if s != [] {
      if Leq(x, s[0]) {
        forall j | 0 <= j < |s| ensures Leq(x, s[j]) {
          if j > 0 { LeqTransitive(x, s[0], s[j]); }
        }
      } else {
        LeqTotal(x, s[0]);
        InsertSorted(x, s[1..]);
        var rest := Insert(x, s[1..]);
        forall j | 0 <= j < |rest| ensures Leq(s[0], rest[j]) {
          assert rest[j] in multiset(rest);
          assert rest[j] == x || rest[j] in s[1..];
        }
      }
    }
  }

  function Sort(s: seq<string>): (r: seq<string>)
    ensures multiset(r) == multiset(s) && |r| == |s|
    ensures Sorted(r)
    decreases |s|
  {
    if s == [] then []
    else
      var rest := Sort(s[1..]);
      assert s == [s[0]] + s[1..];
      InsertSorted(s[0], rest);
      Insert(s[0], rest)
  }

  lemma SortedHead(a: seq<string>, x: string)
    requires Sorted(a) && x in multiset(a)
    ensures a != [] && Leq(a[0], x)
  {
    var i :| 0 <= i < |a| && a[i] == x;
    if i == 0 { LeqTotal(x, x); }
  }

  lemma TailMultiset(a: seq<string>)
    requires a != []
    ensures multiset(a[1..]) == multiset(a) - multiset{a[0]}
    ensures a[0] in multiset(a)
  {
    assert a == [a[0]] + a[1..];
  }

  // Sorting forgets order and nothing else.
  lemma {:induction false} SortedUnique(a: seq<string>, b: seq<string>)
    requires Sorted(a) && Sorted(b) && multiset(a) == multiset(b)
    ensures a == b
    decreases |a|
  {
    if a == [] {
      assert |multiset(b)| == 0;
    } else {
      TailMultiset(a);
      SortedHead(b, a[0]);
      TailMultiset(b);
      SortedHead(a, b[0]);
      LeqAntisymmetric(a[0], b[0]);
      SortedUnique(a[1..], b[1..]);
      assert a == [a[0]] + a[1..] && b == [b[0]] + b[1..];
    }
  }

  // ---- Joining lines ----

  predicate Line(s: string) {
    s != "" && '\n' !in s
  }

  // The first line of a joined text ends at its first newline.
  lemma FirstLine(a: seq<string>)
    requires a != [] && Line(a[0])
    ensures |a[0]| <= |Join(a)| && Join(a)[..|a[0]|] == a[0]
    ensures forall i :: 0 <= i < |a[0]| ==> Join(a)[i] != '\n'
    ensures |a| == 1 ==> |Join(a)| == |a[0]|
    ensures |a| > 1 ==> |Join(a)| > |a[0]| && Join(a)[|a[0]|] == '\n' && Join(a)[|a[0]| + 1..] == Join(a[1..])
  {
    assert forall i :: 0 <= i < |a[0]| ==> Join(a)[i] == a[0][i];
  }

  lemma {:induction false} JoinInjective(a: seq<string>, b: seq<string>)
    requires (forall s <- a :: Line(s)) && (forall s <- b :: Line(s))
    requires Join(a) == Join(b)
    ensures a == b
    decreases |a|
  {
    if a != [] { FirstLine(a); }
    if b != [] { FirstLine(b); }
    if a != [] && b != [] {
      assert |a[0]| == |b[0]|;
      if |a| > 1 && |b| > 1 {
        JoinInjective(a[1..], b[1..]);
        assert a == [a[0]] + a[1..] && b == [b[0]] + b[1..];
      }
    }
  }

  // ---- Members ----

  function Member(name: string, origin: string): string {
    name + [NUL] + origin
  }

  function KeyOf(syn: Syntax, m: Model): string {
    Member(m.name, Origin(syn, m))
  }

  // A host name and a port never contain control characters, so no origin
  // contains the separator or a line end.
  predicate PlainOrigins(syn: Syntax, models: seq<Model>) {
    forall m <- models :: NUL !in Origin(syn, m) && '\n' !in Origin(syn, m)
  }

  lemma LastSeparator(name: string, origin: string)
    requires NUL !in origin
    ensures var s := Member(name, origin);
            s[|name|] == NUL && forall i :: |name| < i < |s| ==> s[i] != NUL
  {
    var s := Member(name, origin);
    assert forall i :: |name| < i < |s| ==> s[i] == origin[i - |name| - 1];
  }

  // A member determines its name and its origin, whatever the name contains.
  lemma MemberInjective(name: string, origin: string, name': string, origin': string)
    requires NUL !in origin && NUL !in origin'
    requires Member(name, origin) == Member(name', origin')
    ensures name == name' && origin == origin'
  {
    var s := Member(name, origin);
    LastSeparator(name, origin);
    LastSeparator(name', origin');
    assert name == s[..|name|] && origin == s[|name| + 1..];
    assert name' == s[..|name'|] && origin' == s[|name'| + 1..];
  }

  function Members(syn: Syntax, models: seq<Model>): (members: seq<string>)
    ensures |members| == |models|
  {
    seq(|models|, i requires 0 <= i < |models| => KeyOf(syn, models[i]))
  }

  // The hashed text. The hash itself is taken to tell different texts apart.
  function FingerprintText(syn: Syntax, models: seq<Model>): string {
    ROUTING_VERSION + "\n" + Join(Sort(Members(syn, models)))
  }

  method MembershipFingerprint(syn: Syntax, models: seq<Model>) returns (text: string)
    ensures text == FingerprintText(syn, models)
  {
    var members: seq<string> := [];
    for i := 0 to |models|
      invariant members == Members(syn, models)[..i]
    {
      members := members + [Member(models[i].name, Origin(syn, models[i]))];
    }
    assert members == Members(syn, models);
    text := ROUTING_VERSION + "\n" + Join(Sort(members));
  }

  function Elements(s: seq<string>): set<string> {
    set x | x in s
  }

  function Texts(destinations: set<(string, string)>): set<string> {
    set d | d in destinations :: Member(d.0, d.1)
  }

  function Destinations(syn: Syntax, models: seq<Model>): set<(string, string)> {
    set m | m in models :: Destination(syn, m)
  }

  predicate NoNewlines(models: seq<Model>) {
    forall m <- models :: '\n' !in m.name
  }

  predicate Distinct(s: seq<string>) {
    forall i, j :: 0 <= i < j < |s| ==> s[i] != s[j]
  }

  lemma {:induction false} DistinctMultiset(s: seq<string>)
    requires Distinct(s)
    ensures multiset(s) == multiset(Elements(s))
    decreases |s|
  {
    if s != [] {
      var front, last := s[..|s| - 1], s[|s| - 1];
      DistinctMultiset(front);
      assert s == front + [last];
      assert Elements(s) == Elements(front) + {last};
      assert last !in front;
    }
  }

  lemma MembersDistinct(syn: Syntax, models: seq<Model>)
    requires Accepted(syn, models) && PlainOrigins(syn, models)
    ensures Distinct(Members(syn, models))
  {
    forall i, j | 0 <= i < j < |models| ensures Members(syn, models)[i] != Members(syn, models)[j] {
      assert models[i] in models && models[j] in models;
      if KeyOf(syn, models[i]) == KeyOf(syn, models[j]) {
        MemberInjective(models[i].name, Origin(syn, models[i]), models[j].name, Origin(syn, models[j]));
      }
    }
  }

  lemma MembersOfDestinations(syn: Syntax, models: seq<Model>)
    ensures Elements(Members(syn, models)) == Texts(Destinations(syn, models))
  {
    forall x | x in Members(syn, models) ensures x in Texts(Destinations(syn, models)) {
      var i :| 0 <= i < |models| && Members(syn, models)[i] == x;
      assert Destination(syn, models[i]) in Destinations(syn, models);
    }
    forall d | d in Destinations(syn, models) ensures Member(d.0, d.1) in Members(syn, models) {
      var m :| m in models && Destination(syn, m) == d;
      var i :| 0 <= i < |models| && models[i] == m;
      assert Members(syn, models)[i] == Member(d.0, d.1);
    }
  }

  lemma SameMembers(syn: Syntax, a: seq<Model>, b: seq<Model>)
    requires PlainOrigins(syn, a) && PlainOrigins(syn, b)
    requires Elements(Members(syn, a)) == Elements(Members(syn, b))
    ensures Destinations(syn, a) <= Destinations(syn, b)
  {
    MembersOfDestinations(syn, a);
    MembersOfDestinations(syn, b);
    forall d | d in Destinations(syn, a) ensures d in Destinations(syn, b) {
      assert Member(d.0, d.1) in Texts(Destinations(syn, b));
      var d' :| d' in Destinations(syn, b) && Member(d'.0, d'.1) == Member(d.0, d.1);
      MemberInjective(d.0, d.1, d'.0, d'.1);
    }
  }

  // Members never are empty, and contain no line end if no name does.
  lemma MembersAreLines(syn: Syntax, models: seq<Model>)
    requires PlainOrigins(syn, models)
    ensures forall s <- Sort(Members(syn, models)) :: s != ""
    ensures NoNewlines(models) ==> forall s <- Sort(Members(syn, models)) :: Line(s)
  {
    var sorted := Sort(Members(syn, models));
    forall s | s in sorted ensures s != "" && (NoNewlines(models) ==> Line(s)) {
      assert s in multiset(sorted);
      var i :| 0 <= i < |models| && Members(syn, models)[i] == s;
      assert models[i] in models;
    }
  }

  lemma SameSets(x: seq<string>, y: seq<string>)
    requires multiset(x) == multiset(y)
    ensures Elements(x) == Elements(y)
  {
    forall s ensures s in x <==> s in y {
      assert s in x <==> s in multiset(x);
      assert s in y <==> s in multiset(y);
    }
  }

  // Listing the same destinations in another order leaves the text as it is.
  lemma OrderIsForgotten(syn: Syntax, a: seq<Model>, b: seq<Model>)
    requires Accepted(syn, a) && Accepted(syn, b) && PlainOrigins(syn, a) && PlainOrigins(syn, b)
    requires Destinations(syn, a) == Destinations(syn, b)
    ensures FingerprintText(syn, a) == FingerprintText(syn, b)
  {
    var x, y := Members(syn, a), Members(syn, b);
    MembersDistinct(syn, a);
    MembersDistinct(syn, b);
    DistinctMultiset(x);
    DistinctMultiset(y);
    MembersOfDestinations(syn, a);
    MembersOfDestinations(syn, b);
    SortedUnique(Sort(x), Sort(y));
  }

  // The shorter registry has no line end in a name, so that each line of its
  // text is one member.
  predicate ShorterIsPlain(a: seq<Model>, b: seq<Model>) {
    (NoNewlines(a) && |a| <= |b|) || (NoNewlines(b) && |b| <= |a|)
  }

  // No name begins with a member of another name and a line end. Then a text
  // can be read from its start, one member at a time, whatever line ends and
  // separators the names contain.
  ghost predicate Separable(names: set<string>) {
    forall n <- names, m <- names, origin: string ::
      NUL !in origin && '\n' !in origin ==> !(Member(n, origin) + "\n" <= m)
  }

  // Names without line ends are separable.
  lemma PlainNamesSeparate(names: set<string>)
    requires forall n <- names :: '\n' !in n
    ensures Separable(names)
  {
    forall n, m, origin: string | n in names && m in names
      ensures !(Member(n, origin) + "\n" <= m)
    {
      LineEndInside(Member(n, origin), m);
    }
  }

  lemma LineEndInside(a: string, b: string)
    ensures a + "\n" <= b ==> '\n' in b
  {
    if a + "\n" <= b {
      assert b[|a|] == '\n';
    }
  }

  // A member of some name, with an origin that has neither separator nor line
  // end.
  ghost predicate Readable(names: set<string>, member: string) {
    exists n <- names, origin: string ::
      NUL !in origin && '\n' !in origin && member == Member(n, origin)
  }

  lemma JoinBegins(lines: seq<string>)
    requires lines != []
    ensures lines[0] <= Join(lines)
    ensures |lines| > 1 ==> lines[0] + "\n" <= Join(lines) && Join(lines)[|lines[0]| + 1..] == Join(lines[1..])
    ensures |lines| == 1 ==> Join(lines) == lines[0]
  {
  }

  // Two members that begin the same text, with something after the shorter
  // one, are one.
  lemma FirstMemberUnique(names: set<string>, a: string, b: string)
    requires Separable(names) && Readable(names, a) && Readable(names, b)
    ensures !(a + "\n" <= b)
  {
    var n, o :| n in names && NUL !in o && '\n' !in o && a == Member(n, o);
    var m, q :| m in names && NUL !in q && '\n' !in q && b == Member(m, q);
    LineEndInName(a, m, q);
  }

  // A line end inside a member is inside its name.
  lemma LineEndInName(a: string, name: string, origin: string)
    requires '\n' !in origin
    ensures a + "\n" <= Member(name, origin) ==> a + "\n" <= name
  {
    var b := Member(name, origin);
    if a + "\n" <= b {
      assert b[|a|] == '\n';
      assert forall i :: |name| < i < |b| ==> b[i] == origin[i - |name| - 1];
      assert name == b[..|name|];
    }
  }

  lemma SameFirst(names: set<string>, a: seq<string>, b: seq<string>)
    requires Separable(names) && a != [] && b != [] && Join(a) == Join(b)
    requires Readable(names, a[0]) && Readable(names, b[0])
    ensures |a[0]| >= |b[0]|
  {
    JoinBegins(a);
    JoinBegins(b);
    if |a[0]| < |b[0]| {
      ShorterPrefix(a[0] + "\n", b[0], Join(a));
      FirstMemberUnique(names, a[0], b[0]);
      assert false;
    }
  }

  lemma ShorterPrefix(a: string, b: string, s: string)
    requires a <= s && b <= s && |a| <= |b|
    ensures a <= b
  {
  }

  lemma SameHeads(names: set<string>, a: seq<string>, b: seq<string>)
    requires Separable(names) && a != [] && b != [] && Join(a) == Join(b)
    requires Readable(names, a[0]) && Readable(names, b[0])
    ensures a[0] == b[0] && (|a| == 1 <==> |b| == 1)
    ensures |a| > 1 ==> Join(a[1..]) == Join(b[1..])
  {
    SameFirst(names, a, b);
    SameFirst(names, b, a);
    JoinBegins(a);
    JoinBegins(b);
    assert a[0] == Join(a)[..|a[0]|] == b[0];
    assert |a| > 1 ==> |Join(a)| > |a[0]|;
    assert |b| > 1 ==> |Join(b)| > |b[0]|;
  }

  lemma SomethingJoined(lines: seq<string>)
    requires lines != [] && lines[0] != ""
    ensures Join(lines) != ""
  {
    JoinBegins(lines);
  }

  ghost predicate AllReadable(names: set<string>, lines: seq<string>) {
    forall k :: 0 <= k < |lines| ==> lines[k] != "" && Readable(names, lines[k])
  }

  lemma {:induction false} JoinReadsBack(names: set<string>, a: seq<string>, b: seq<string>)
    requires Separable(names) && Join(a) == Join(b) && AllReadable(names, a) && AllReadable(names, b)
    ensures a == b
    decreases |a|
  {
    if a != [] { SomethingJoined(a); }
    if b != [] { SomethingJoined(b); }
    if a != [] && b != [] {
      SameHeads(names, a, b);
      assert a == [a[0]] + a[1..] && b == [b[0]] + b[1..];
      if |a| > 1 {
        JoinReadsBack(names, a[1..], b[1..]);
      }
    }
  }

  lemma MemberIsReadable(syn: Syntax, m: Model, names: set<string>)
    requires NUL !in Origin(syn, m) && '\n' !in Origin(syn, m) && m.name in names
    ensures KeyOf(syn, m) != "" && Readable(names, KeyOf(syn, m))
  {
  }

  lemma MembersAreReadable(syn: Syntax, models: seq<Model>, names: set<string>)
    requires PlainOrigins(syn, models) && forall m <- models :: m.name in names
    ensures AllReadable(names, Sort(Members(syn, models)))
  {
    var sorted := Sort(Members(syn, models));
    forall k | 0 <= k < |sorted|
      ensures sorted[k] != "" && Readable(names, sorted[k])
    {
      assert sorted[k] in multiset(sorted);
      var i :| 0 <= i < |models| && Members(syn, models)[i] == sorted[k];
      assert models[i] in models;
      MemberIsReadable(syn, models[i], names);
    }
  }

  // Registries of separable names have the same text exactly when they list
  // the same destinations, in whatever order.
  lemma SeparableIdentifies(syn: Syntax, a: seq<Model>, b: seq<Model>, names: set<string>)
    requires Accepted(syn, a) && Accepted(syn, b) && PlainOrigins(syn, a) && PlainOrigins(syn, b)
    requires Separable(names) && (forall m <- a :: m.name in names) && (forall m <- b :: m.name in names)
    ensures FingerprintText(syn, a) == FingerprintText(syn, b) <==> Destinations(syn, a) == Destinations(syn, b)
  {
    if Destinations(syn, a) == Destinations(syn, b) {
      OrderIsForgotten(syn, a, b);
    } else if FingerprintText(syn, a) == FingerprintText(syn, b) {
      SameTextSameMembers(syn, a, b, names);
      SameMembers(syn, a, b);
      SameMembers(syn, b, a);
      assert false;
    }
  }

  lemma SameTextSameMembers(syn: Syntax, a: seq<Model>, b: seq<Model>, names: set<string>)
    requires PlainOrigins(syn, a) && PlainOrigins(syn, b) && FingerprintText(syn, a) == FingerprintText(syn, b)
    requires Separable(names) && (forall m <- a :: m.name in names) && (forall m <- b :: m.name in names)
    ensures Elements(Members(syn, a)) == Elements(Members(syn, b))
  {
    var x, y := Sort(Members(syn, a)), Sort(Members(syn, b));
    var n := |ROUTING_VERSION + "\n"|;
    assert Join(x) == FingerprintText(syn, a)[n..] == FingerprintText(syn, b)[n..] == Join(y);
    MembersAreReadable(syn, a, names);
    MembersAreReadable(syn, b, names);
    JoinReadsBack(names, x, y);
    SameSets(Members(syn, a), Members(syn, b));
  }

  // Two accepted registries have the same fingerprint text exactly when they
  // list the same destinations, in whatever order, if one of them has no line
  // end in a name and no more entries than the other.
  lemma FingerprintIdentifies(syn: Syntax, a: seq<Model>, b: seq<Model>)
    requires Accepted(syn, a) && Accepted(syn, b) && PlainOrigins(syn, a) && PlainOrigins(syn, b)
    ensures Destinations(syn, a) == Destinations(syn, b) ==> FingerprintText(syn, a) == FingerprintText(syn, b)
    ensures ShorterIsPlain(a, b) ==>
              (FingerprintText(syn, a) == FingerprintText(syn, b) <==> Destinations(syn, a) == Destinations(syn, b))
  {
    if Destinations(syn, a) == Destinations(syn, b) {
      OrderIsForgotten(syn, a, b);
    } else if ShorterIsPlain(a, b) && FingerprintText(syn, a) == FingerprintText(syn, b) {
      if NoNewlines(a) && |a| <= |b| {
        ReadBack(syn, a, b);
      } else {
        ReadBack(syn, b, a);
      }
      assert false;
    }
  }

  lemma ReadBack(syn: Syntax, a: seq<Model>, b: seq<Model>)
    requires PlainOrigins(syn, a) && PlainOrigins(syn, b) && NoNewlines(a) && |a| <= |b|
    requires FingerprintText(syn, a) == FingerprintText(syn, b)
    ensures Destinations(syn, a) == Destinations(syn, b)
  {
    var x, y := Sort(Members(syn, a)), Sort(Members(syn, b));
    var n := |ROUTING_VERSION + "\n"|;
    assert Join(x) == FingerprintText(syn, a)[n..] == FingerprintText(syn, b)[n..] == Join(y);
    MembersAreLines(syn, a);
    MembersAreLines(syn, b);
    JoinNewlines(x);
    JoinNewlines(y);
    JoinInjective(x, y);
    SameSets(Members(syn, a), Members(syn, b));
    SameMembers(syn, a, b);
    SameMembers(syn, b, a);
  }

  // ---- Line ends in names ----

  function Newlines(s: string): nat {
    if s == "" then 0 else (if s[0] == '\n' then 1 else 0) + Newlines(s[1..])
  }

  lemma {:induction false} NewlinesAppend(a: string, b: string)
    ensures Newlines(a + b) == Newlines(a) + Newlines(b)
  {
    if a == "" {
      assert a + b == b;
    } else {
      assert (a + b)[1..] == a[1..] + b;
      NewlinesAppend(a[1..], b);
    }
  }

  lemma {:induction false} NewlinesCount(s: string)
    ensures Newlines(s) == 0 <==> '\n' !in s
  {
    if s != "" {
      NewlinesCount(s[1..]);
      assert s == [s[0]] + s[1..];
    }
  }

  // A joined text has a line end between any two lines, and more exactly when
  // some line has one of its own.
  lemma {:induction false} JoinNewlines(lines: seq<string>)
    ensures lines != [] ==> Newlines(Join(lines)) >= |lines| - 1
    ensures lines != [] ==> (Newlines(Join(lines)) == |lines| - 1 <==> forall line <- lines :: '\n' !in line)
  {
    if lines != [] {
      NewlinesCount(lines[0]);
      assert lines == [lines[0]] + lines[1..];
      if |lines| > 1 {
        JoinNewlines(lines[1..]);
        NewlinesAppend(lines[0] + "\n", Join(lines[1..]));
        NewlinesAppend(lines[0], "\n");
        assert lines[0] + "\n" + Join(lines[1..]) == Join(lines);
      }
    }
  }

  // The test for a blank name trims, so it looks for any other character.
  ghost predicate TrimsOnly(syn: Syntax) {
    forall s: string, t: string :: !syn.blank(t) ==> !syn.blank(s + t)
  }

  ghost function EntryFor(syn: Syntax, models: seq<Model>, key: string): (m: Model)
    requires key in Members(syn, models)
    ensures m in models && KeyOf(syn, m) == key
  {
    var i :| 0 <= i < |models| && Members(syn, models)[i] == key;
    models[i]
  }

  // The entries in the order of their members.
  ghost function Arranged(syn: Syntax, models: seq<Model>): (arranged: seq<Model>)
    ensures |arranged| == |models| && Members(syn, arranged) == Sort(Members(syn, models))
    ensures forall m <- arranged :: m in models
  {
    var s := Sort(Members(syn, models));
    assert forall k :: 0 <= k < |s| ==> s[k] in multiset(s);
    seq(|s|, k requires 0 <= k < |s| => EntryFor(syn, models, s[k]))
  }

  // One entry whose member reads like the members of two.
  function Fused(syn: Syntax, p: Model, q: Model): (m: Model)
    ensures KeyOf(syn, m) == KeyOf(syn, p) + "\n" + KeyOf(syn, q)
  {
    var m := q.(name := KeyOf(syn, p) + "\n" + q.name);
    assert KeyOf(syn, m) == KeyOf(syn, p) + "\n" + KeyOf(syn, q);
    m
  }

  // A registry with its last two members fused.
  ghost function Twin(syn: Syntax, models: seq<Model>): seq<Model>
    requires |models| >= 2
  {
    var o, n := Arranged(syn, models), |models|;
    o[..n - 2] + [Fused(syn, o[n - 2], o[n - 1])]
  }

  lemma {:induction false} JoinFuses(front: seq<string>, x: string, y: string)
    ensures Join(front + [x + "\n" + y]) == Join(front + [x, y])
  {
    if front == [] {
      assert [x, y][1..] == [y] && front + [x, y] == [x, y] && front + [x + "\n" + y] == [x + "\n" + y];
    } else {
      assert (front + [x, y])[1..] == front[1..] + [x, y];
      assert (front + [x + "\n" + y])[1..] == front[1..] + [x + "\n" + y];
      JoinFuses(front[1..], x, y);
    }
  }

  lemma {:induction false} LeqPrefix(x: string, t: string)
    ensures Leq(x, x + t)
  {
    if x != "" {
      assert (x + t)[1..] == x[1..] + t;
      LeqPrefix(x[1..], t);
    }
  }

  lemma SortedFused(s: seq<string>)
    requires Sorted(s) && |s| >= 2
    ensures Sorted(s[..|s| - 2] + [s[|s| - 2] + "\n" + s[|s| - 1]])
  {
    var n := |s|;
    var x, z := s[n - 2], s[n - 2] + "\n" + s[n - 1];
    LeqPrefix(x, "\n" + s[n - 1]);
    assert x + ("\n" + s[n - 1]) == z;
    forall k | 0 <= k < n - 2
      ensures Leq(s[k], z)
    {
      LeqTransitive(s[k], x, z);
    }
  }

  lemma TwinMembers(syn: Syntax, models: seq<Model>)
    requires |models| >= 2
    ensures var s, n := Sort(Members(syn, models)), |models|;
            Members(syn, Twin(syn, models)) == s[..n - 2] + [s[n - 2] + "\n" + s[n - 1]]
  {
    var o, n := Arranged(syn, models), |models|;
    assert forall k :: 0 <= k < n ==> KeyOf(syn, o[k]) == Members(syn, o)[k];
  }

  lemma TwinPrintsAlike(syn: Syntax, models: seq<Model>)
    requires |models| >= 2
    ensures FingerprintText(syn, Twin(syn, models)) == FingerprintText(syn, models)
  {
    var s, n := Sort(Members(syn, models)), |models|;
    var x, y := s[n - 2], s[n - 1];
    var fused := s[..n - 2] + [x + "\n" + y];
    TwinMembers(syn, models);
    SortedFused(s);
    SortedUnique(Sort(fused), fused);
    JoinFuses(s[..n - 2], x, y);
    assert s == s[..n - 2] + [x, y];
  }

  lemma AgreeInside(syn: Syntax, models: seq<Model>, x: Model, y: Model)
    requires Accepted(syn, models) && x in models && y in models
    ensures x.name == y.name ==> SameMetadata(x, y)
  {
    var i :| 0 <= i < |models| && models[i] == x;
    var j :| 0 <= j < |models| && models[j] == y;
  }

  lemma LongerIsLater(x: string, t: string)
    requires t != ""
    ensures !Leq(x + t, x)
  {
    LeqPrefix(x, t);
    assert |x + t| > |x|;
    if Leq(x + t, x) {
      LeqAntisymmetric(x, x + t);
      assert false;
    }
  }

  // The fused entry is new: no entry has its member, and none that stays has
  // its name.
  lemma FusedIsNew(syn: Syntax, models: seq<Model>, k: nat)
    requires |models| >= 2 && k < |models|
    ensures var o, n := Arranged(syn, models), |models|;
            var fused := Fused(syn, o[n - 2], o[n - 1]);
            KeyOf(syn, o[k]) != KeyOf(syn, fused) && (k < n - 2 ==> o[k].name != fused.name)
  {
    var o, n := Arranged(syn, models), |models|;
    var s, fused := Sort(Members(syn, models)), Fused(syn, o[n - 2], o[n - 1]);
    assert KeyOf(syn, o[k]) == Members(syn, o)[k] == s[k];
    var x, more := KeyOf(syn, o[n - 2]), "\n" + KeyOf(syn, o[n - 1]);
    assert x == Members(syn, o)[n - 2] == s[n - 2];
    assert KeyOf(syn, fused) == x + more;
    LeqTotal(x, x);
    LongerIsLater(x, more);
    var t := "\n" + o[n - 1].name + [NUL] + Origin(syn, o[k]);
    assert o[k].name == fused.name ==> KeyOf(syn, o[k]) == x + t;
    LongerIsLater(x, t);
  }

  lemma TwinIsAccepted(syn: Syntax, models: seq<Model>)
    requires Accepted(syn, models) && PlainOrigins(syn, models) && TrimsOnly(syn)
    requires |models| >= 2
    ensures Accepted(syn, Twin(syn, models)) && PlainOrigins(syn, Twin(syn, models))
    ensures Destinations(syn, Twin(syn, models)) != Destinations(syn, models)
  {
    var o, n := Arranged(syn, models), |models|;
    var twin, fused := Twin(syn, models), Fused(syn, o[n - 2], o[n - 1]);
    assert o[n - 1] in models && fused in twin;
    assert forall m <- twin :: m in models || m == fused;
    forall i, j | 0 <= i < j < |twin|
      ensures twin[i].name == twin[j].name ==> SameMetadata(twin[i], twin[j])
      ensures Destination(syn, twin[i]) != Destination(syn, twin[j])
    {
      TwinApart(syn, models, i, j);
    }
    FusedElsewhere(syn, models);
    assert Destination(syn, fused) in Destinations(syn, twin);
  }

  lemma TwinApart(syn: Syntax, models: seq<Model>, i: nat, j: nat)
    requires Accepted(syn, models) && PlainOrigins(syn, models) && i < j < |models| - 1
    ensures var twin := Twin(syn, models);
            && (twin[i].name == twin[j].name ==> SameMetadata(twin[i], twin[j]))
            && Destination(syn, twin[i]) != Destination(syn, twin[j])
  {
    var o, n, twin := Arranged(syn, models), |models|, Twin(syn, models);
    assert twin[i] == o[i];
    if j < n - 2 {
      assert twin[j] == o[j];
      ArrangedAccepted(syn, models, i, j);
    } else {
      FusedIsNew(syn, models, i);
    }
  }

  lemma ArrangedAccepted(syn: Syntax, models: seq<Model>, i: nat, j: nat)
    requires Accepted(syn, models) && PlainOrigins(syn, models) && i < j < |models|
    ensures var o := Arranged(syn, models);
            && (o[i].name == o[j].name ==> SameMetadata(o[i], o[j]))
            && Destination(syn, o[i]) != Destination(syn, o[j])
  {
    var o := Arranged(syn, models);
    MembersDistinct(syn, models);
    SortedDistinct(Members(syn, models));
    assert o[i] in models && o[j] in models;
    AgreeInside(syn, models, o[i], o[j]);
    assert Members(syn, o)[i] != Members(syn, o)[j];
  }

  lemma FusedElsewhere(syn: Syntax, models: seq<Model>)
    requires |models| >= 2
    ensures var o, n := Arranged(syn, models), |models|;
            Destination(syn, Fused(syn, o[n - 2], o[n - 1])) !in Destinations(syn, models)
  {
    var o, n := Arranged(syn, models), |models|;
    var fused, s := Fused(syn, o[n - 2], o[n - 1]), Sort(Members(syn, models));
    forall m | m in models
      ensures Destination(syn, m) != Destination(syn, fused)
    {
      var i :| 0 <= i < n && models[i] == m;
      assert Members(syn, models)[i] in multiset(s);
      var k :| 0 <= k < n && s[k] == KeyOf(syn, m);
      assert Members(syn, o)[k] == KeyOf(syn, o[k]);
      FusedIsNew(syn, models, k);
    }
  }

  lemma SortedDistinct(s: seq<string>)
    requires Distinct(s)
    ensures Distinct(Sort(s))
  {
    DistinctMultiset(s);
    var r := Sort(s);
    forall i, j | 0 <= i < j < |r|
      ensures r[i] != r[j]
    {
      if r[i] == r[j] {
        Repeated(r, i, j);
        assert false;
      }
    }
  }

  lemma Repeated(s: seq<string>, i: nat, j: nat)
    requires i < j < |s| && s[i] == s[j]
    ensures multiset(s)[s[i]] >= 2
  {
    assert s == s[..j] + s[j..];
    assert s[i] in s[..j] && s[j] in s[j..];
  }

  // ---- What the text identifies ----

  // The two entries that an entry whose name contains a line end reads like.
  ghost predicate Halves(syn: Syntax, m: Model, name: string, url: string, rest: string) {
    var p, q := m.(name := name, url := url), m.(name := rest);
    && Accepted(syn, [p, q]) && PlainOrigins(syn, [p, q])
    && Leq(KeyOf(syn, p), KeyOf(syn, q)) && m.name == KeyOf(syn, p) + "\n" + rest
  }

  ghost predicate Splits(syn: Syntax, m: Model) {
    exists name, url, rest :: Halves(syn, m, name, url, rest)
  }

  // The text of two entries, member by member in their order as strings.
  lemma PairText(syn: Syntax, p: Model, q: Model)
    requires Leq(KeyOf(syn, p), KeyOf(syn, q))
    ensures FingerprintText(syn, [p, q]) == ROUTING_VERSION + "\n" + (KeyOf(syn, p) + "\n" + KeyOf(syn, q))
    ensures FingerprintText(syn, [p, q]) ==
            "consistent-xxhash-4093-20-1.25-v1" + "\n"
            + ((p.name + "\0" + Origin(syn, p)) + "\n" + (q.name + "\0" + Origin(syn, q)))
  {
    var x, y := KeyOf(syn, p), KeyOf(syn, q);
    assert Members(syn, [p, q]) == [x, y];
    assert Sorted([x, y]);
    SortedUnique(Sort([x, y]), [x, y]);
    assert Join([x, y]) == x + "\n" + y by {
      assert [x, y][1..] == [y];
    }
  }

  lemma SingleText(syn: Syntax, m: Model)
    ensures FingerprintText(syn, [m]) == ROUTING_VERSION + "\n" + KeyOf(syn, m)
  {
    assert Members(syn, [m]) == [KeyOf(syn, m)];
    SortedUnique(Sort([KeyOf(syn, m)]), [KeyOf(syn, m)]);
  }

  // An entry that splits shares its text with its halves.
  lemma HalvesCollide(syn: Syntax, m: Model, name: string, url: string, rest: string)
    requires Halves(syn, m, name, url, rest)
    ensures var b := [m.(name := name, url := url), m.(name := rest)];
            FingerprintText(syn, b) == FingerprintText(syn, [m]) && Destinations(syn, b) != Destinations(syn, [m])
  {
    var p, q := m.(name := name, url := url), m.(name := rest);
    PairText(syn, p, q);
    SingleText(syn, m);
    assert KeyOf(syn, p) + "\n" + KeyOf(syn, q) == KeyOf(syn, m);
    assert q in [p, q] && Destination(syn, q) in Destinations(syn, [p, q]);
    assert |m.name| > |rest|;
    assert forall d <- Destinations(syn, [m]) :: d.0 == m.name;
  }

  // Any longer registry with the text of one entry can be fused down to two.
  lemma {:induction false} FuseToTwo(syn: Syntax, b: seq<Model>) returns (pair: seq<Model>)
    requires Accepted(syn, b) && PlainOrigins(syn, b) && TrimsOnly(syn) && |b| >= 2
    ensures |pair| == 2 && Accepted(syn, pair) && PlainOrigins(syn, pair)
    ensures FingerprintText(syn, pair) == FingerprintText(syn, b)
    decreases |b|
  {
    pair := b;
    if |b| > 2 {
      TwinPrintsAlike(syn, b);
      TwinIsAccepted(syn, b);
      pair := FuseToTwo(syn, Twin(syn, b));
    }
  }

  // Two entries that print like one are its halves.
  lemma PairSplits(syn: Syntax, m: Model, pair: seq<Model>)
    requires Accepted(syn, [m]) && PlainOrigins(syn, [m])
    requires Accepted(syn, pair) && PlainOrigins(syn, pair) && |pair| == 2
    requires FingerprintText(syn, pair) == FingerprintText(syn, [m])
    ensures Splits(syn, m)
  {
    LeqTotal(KeyOf(syn, pair[0]), KeyOf(syn, pair[1]));
    var p, q := pair[0], pair[1];
    assert p in pair && q in pair;
    if !Leq(KeyOf(syn, p), KeyOf(syn, q)) {
      p, q := q, p;
      OrderIsForgottenPair(syn, p, q);
    }
    assert pair == [pair[0], pair[1]];
    PairText(syn, p, q);
    SingleText(syn, m);
    SameAfterVersion(KeyOf(syn, p) + "\n" + KeyOf(syn, q), KeyOf(syn, m));
    assert Member(KeyOf(syn, p) + "\n" + q.name, Origin(syn, q)) == KeyOf(syn, m);
    assert m in [m];
    MemberInjective(KeyOf(syn, p) + "\n" + q.name, Origin(syn, q), m.name, Origin(syn, m));
    PairIsHalves(syn, m, p, q);
  }

  lemma SameAfterVersion(a: string, b: string)
    requires ROUTING_VERSION + "\n" + a == ROUTING_VERSION + "\n" + b
    ensures a == b
  {
    var n := |ROUTING_VERSION + "\n"|;
    assert a == (ROUTING_VERSION + "\n" + a)[n..] && b == (ROUTING_VERSION + "\n" + b)[n..];
  }

  lemma OrderIsForgottenPair(syn: Syntax, p: Model, q: Model)
    ensures FingerprintText(syn, [p, q]) == FingerprintText(syn, [q, p])
  {
    var x, y := KeyOf(syn, p), KeyOf(syn, q);
    assert Members(syn, [p, q]) == [x, y] && Members(syn, [q, p]) == [y, x];
    assert multiset([x, y]) == multiset([y, x]);
    SortedUnique(Sort([x, y]), Sort([y, x]));
  }

  lemma PairIsHalves(syn: Syntax, m: Model, p: Model, q: Model)
    requires Accepted(syn, [m]) && MetadataOk(syn, p) && UrlOk(syn, p) && MetadataOk(syn, q)
    requires NUL !in Origin(syn, p) && '\n' !in Origin(syn, p) && PlainOrigins(syn, [m])
    requires Destination(syn, p) != Destination(syn, q) && Leq(KeyOf(syn, p), KeyOf(syn, q))
    requires m.name == KeyOf(syn, p) + "\n" + q.name && Origin(syn, m) == Origin(syn, q)
    ensures Splits(syn, m)
  {
    assert m in [m];
    var p', q' := m.(name := p.name, url := p.url), m.(name := q.name);
    assert Origin(syn, p') == Origin(syn, p) && Origin(syn, q') == Origin(syn, q);
    assert forall x <- [p', q'] :: x == p' || x == q';
    assert Halves(syn, m, p.name, p.url, q.name);
  }

  // The loader accepts line ends in names. Among all registries it accepts,
  // the text identifies the empty one, those with one entry that does not read
  // like two, and no others.
  lemma TextIdentifiesOneEntry(syn: Syntax, a: seq<Model>)
    requires Accepted(syn, a) && PlainOrigins(syn, a) && TrimsOnly(syn)
    ensures a == [] || (|a| == 1 && !Splits(syn, a[0])) <==>
            forall b :: Accepted(syn, b) && PlainOrigins(syn, b) && FingerprintText(syn, b) == FingerprintText(syn, a)
                        ==> Destinations(syn, b) == Destinations(syn, a)
  {
    if |a| >= 2 {
      TwinPrintsAlike(syn, a);
      TwinIsAccepted(syn, a);
    } else if |a| == 1 && Splits(syn, a[0]) {
      assert a == [a[0]];
      var name, url, rest :| Halves(syn, a[0], name, url, rest);
      HalvesCollide(syn, a[0], name, url, rest);
    } else {
      forall b | Accepted(syn, b) && PlainOrigins(syn, b) && FingerprintText(syn, b) == FingerprintText(syn, a)
        ensures Destinations(syn, b) == Destinations(syn, a)
      {
        ShortIsIdentified(syn, a, b);
      }
    }
  }

  lemma ShortIsIdentified(syn: Syntax, a: seq<Model>, b: seq<Model>)
    requires Accepted(syn, a) && PlainOrigins(syn, a) && Accepted(syn, b) && PlainOrigins(syn, b) && TrimsOnly(syn)
    requires a == [] || (|a| == 1 && !Splits(syn, a[0]))
    requires FingerprintText(syn, b) == FingerprintText(syn, a)
    ensures Destinations(syn, b) == Destinations(syn, a)
  {
    if |b| >= 2 && |a| == 1 {
      assert a == [a[0]];
      var pair := FuseToTwo(syn, b);
      PairSplits(syn, a[0], pair);
      assert false;
    } else if |a| == 1 && |b| == 1 {
      assert a == [a[0]] && b == [b[0]];
      SingleText(syn, a[0]);
      SingleText(syn, b[0]);
      SameAfterVersion(KeyOf(syn, a[0]), KeyOf(syn, b[0]));
      MemberInjective(a[0].name, Origin(syn, a[0]), b[0].name, Origin(syn, b[0]));
      assert forall m <- a :: m == a[0];
      assert forall m <- b :: m == b[0];
      assert a[0] in a && b[0] in b;
      assert forall d :: d in Destinations(syn, a) <==> d == Destination(syn, a[0]);
      assert forall d :: d in Destinations(syn, b) <==> d == Destination(syn, b[0]);
    } else {
      FingerprintIdentifies(syn, a, b);
    }
  }
}
