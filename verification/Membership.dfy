// Membership reload: an incremental cache of backends, rolled back when a
// newcomer fails its probe, and a routing snapshot published at the end.
module Membership {
  import opened Wrappers
  import opened Registry
  import opened Fingerprint
  import Routing

  class Backend {
    const model: string
    const origin: string
    var healthy: bool

    constructor (model: string, origin: string)
      ensures this.model == model && this.origin == origin && healthy
    {
      this.model, this.origin, this.healthy := model, origin, true;
    }
  }

  // What came of one health request.
  datatype Probe = Cancelled | Unreachable | Status(code: int)

  datatype Snapshot = Snapshot(models: seq<Model>, proxies: map<string, seq<Backend>>, fingerprint: string)

  datatype Rejection = BadFile | BadRegistry(why: LoadError) | CatalogChanged | UnhealthyNewcomer(origin: string)

  datatype Reload = Published | Unchanged

  // ---- What a from-scratch build gives ----

  // The origins of one name, in the order of the registry.
  function Replicas(syn: Syntax, models: seq<Model>, name: string): seq<string> {
    if models == [] then []
    else
      var last := models[|models| - 1];
      Replicas(syn, models[..|models| - 1], name) + (if last.name == name then [Origin(syn, last)] else [])
  }

  function FromScratch(syn: Syntax, models: seq<Model>): map<string, seq<string>> {
    map name | name in Names(models) :: Replicas(syn, models, name)
  }

  function Origins(route: seq<Backend>): (origins: seq<string>)
    ensures |origins| == |route|
  {
    seq(|route|, i requires 0 <= i < |route| => route[i].origin)
  }

  function RoutedOrigins(proxies: map<string, seq<Backend>>): map<string, seq<string>> {
    map name | name in proxies :: Origins(proxies[name])
  }

  lemma {:induction false} ReplicasAreDestinations(syn: Syntax, models: seq<Model>, name: string, origin: string)
    ensures origin in Replicas(syn, models, name) <==> (name, origin) in Destinations(syn, models)
    decreases |models|
  {
    if models != [] {
      var front, last := models[..|models| - 1], models[|models| - 1];
      ReplicasAreDestinations(syn, front, name, origin);
      assert models == front + [last];
      assert Destinations(syn, models) == Destinations(syn, front) + {Destination(syn, last)};
    }
  }

  // ---- What a reload decides ----

  // The first of some probes that does not find its backend healthy.
  function FirstFailure(probes: nat -> Probe, n: nat): (failed: Option<nat>)
    ensures failed.None? <==> forall j :: 0 <= j < n ==> probes(j) == Status(200)
    ensures failed.Some? ==>
              && failed.value < n && probes(failed.value) != Status(200)
              && forall j :: 0 <= j < failed.value ==> probes(j) == Status(200)
  {
    if n == 0 then None
    else
      var before := FirstFailure(probes, n - 1);
      if before.Some? then before
      else if probes(n - 1) == Status(200) then None
      else Some(n - 1)
  }

  // The entries that need a new backend, in the order of the registry.
  function Missing(syn: Syntax, models: seq<Model>, cached: set<string>): seq<Model> {
    if models == [] then []
    else
      var front, last := models[..|models| - 1], models[|models| - 1];
      Missing(syn, front, cached)
      + if KeyOf(syn, last) in cached + MemberKeys(syn, front) then [] else [last]
  }

  lemma MissingNext(syn: Syntax, models: seq<Model>, i: nat, cached: set<string>)
    requires i < |models|
    ensures Missing(syn, models[..i + 1], cached) ==
            Missing(syn, models[..i], cached)
            + if KeyOf(syn, models[i]) in cached + MemberKeys(syn, models[..i]) then [] else [models[i]]
  {
    assert models[..i + 1][..i] == models[..i];
  }

  // They are the members that are not cached, each once.
  lemma {:induction false} MissingMembers(syn: Syntax, models: seq<Model>, cached: set<string>)
    ensures MemberKeys(syn, Missing(syn, models, cached)) == MemberKeys(syn, models) - cached
    ensures |Missing(syn, models, cached)| == |MemberKeys(syn, models) - cached|
    decreases |models|
  {
    if models != [] {
      var n := |models| - 1;
      MissingMembers(syn, models[..n], cached);
      MissingNext(syn, models, n, cached);
      assert models == models[..n + 1] == models[..n] + [models[n]];
      KeysSnoc(syn, models[..n], models[n]);
      MissingSnoc(syn, Missing(syn, models[..n], cached), models[n], MemberKeys(syn, models[..n]), cached);
    }
  }

  lemma MissingSnoc(syn: Syntax, missing: seq<Model>, last: Model, keys: set<string>, cached: set<string>)
    requires MemberKeys(syn, missing) == keys - cached && |missing| == |keys - cached|
    ensures var after := missing + if KeyOf(syn, last) in cached + keys then [] else [last];
            var left := keys + {KeyOf(syn, last)} - cached;
            MemberKeys(syn, after) == left && |after| == |left|
  {
    var key := KeyOf(syn, last);
    if key in cached + keys {
      assert keys + {key} - cached == keys - cached;
      assert missing + [] == missing;
    } else {
      assert keys + {key} - cached == (keys - cached) + {key};
      KeysSnoc(syn, missing, last);
    }
  }

  // The origin of the first newcomer whose probe fails. Probe j is the health
  // request to the j-th newcomer.
  function UnhealthyOrigin(syn: Syntax, models: seq<Model>, cached: set<string>, probes: nat -> Probe): Option<string> {
    var missing := Missing(syn, models, cached);
    match FirstFailure(probes, |missing|)
    case None => None
    case Some(j) => Some(Origin(syn, missing[j]))
  }

  // What becomes of a file, given the catalog, the published fingerprint and
  // the cached keys.
  ghost function Judgement(syn: Syntax, info: map<string, Info>, fingerprint: string, cached: set<string>,
                           file: Option<seq<Model>>, probes: nat -> Probe): Result<Reload, Rejection>
  {
    if file.None? then Err(BadFile)
    else
      match Load(syn, file.value)
      case Err(error) => Err(BadRegistry(error))
      case Ok(models) =>
        if !Describes(info, models) then Err(CatalogChanged)
        else if FingerprintText(syn, models) == fingerprint then Ok(Unchanged)
        else
          match UnhealthyOrigin(syn, models, cached, probes)
          case None => Ok(Published)
          case Some(origin) => Err(UnhealthyNewcomer(origin))
  }

  // A file that loads and leaves names and metadata as they are.
  ghost predicate Acceptable(syn: Syntax, info: map<string, Info>, file: Option<seq<Model>>) {
    file.Some? && Accepted(syn, file.value) && Describes(info, file.value)
  }

  // Every outcome has its condition. A file is published exactly when it is
  // acceptable, changes the fingerprint, and the probe of every newcomer was
  // answered with 200.
  lemma PublishedExactlyWhen(syn: Syntax, info: map<string, Info>, fingerprint: string, cached: set<string>,
                             file: Option<seq<Model>>, probes: nat -> Probe)
    ensures var r := Judgement(syn, info, fingerprint, cached, file, probes);
            && (r == Err(BadFile) <==> file == None)
            && (r.Err? && r.error.BadRegistry? <==> file.Some? && !Accepted(syn, file.value))
            && (r == Err(CatalogChanged) <==>
                  file.Some? && Accepted(syn, file.value) && !Describes(info, file.value))
            && (r == Ok(Unchanged) <==>
                  Acceptable(syn, info, file) && FingerprintText(syn, file.value) == fingerprint)
            && (r == Ok(Published) <==>
                  && Acceptable(syn, info, file) && FingerprintText(syn, file.value) != fingerprint
                  && forall j :: 0 <= j < |MemberKeys(syn, file.value) - cached| ==> probes(j) == Status(200))
            && (r.Err? && r.error.UnhealthyNewcomer? <==>
                  && Acceptable(syn, info, file) && FingerprintText(syn, file.value) != fingerprint
                  && exists j :: 0 <= j < |MemberKeys(syn, file.value) - cached| && probes(j) != Status(200))
  {
    if file.Some? {
      LoadMeaning(syn, file.value);
      MissingMembers(syn, file.value, cached);
    }
  }

  // If no name of the catalog begins with a member of another name, changing
  // the fingerprint is changing the membership.
  lemma PublishedOnChange(syn: Syntax, info: map<string, Info>, published: seq<Model>, cached: set<string>,
                          file: Option<seq<Model>>, probes: nat -> Probe)
    requires PlainSyntax(syn) && Separable(info.Keys) && Acceptable(syn, info, Some(published))
    ensures var r := Judgement(syn, info, FingerprintText(syn, published), cached, file, probes);
            && (r == Ok(Unchanged) <==>
                  Acceptable(syn, info, file) && Destinations(syn, file.value) == Destinations(syn, published))
            && (r == Ok(Published) <==>
                  && Acceptable(syn, info, file) && Destinations(syn, file.value) != Destinations(syn, published)
                  && forall j :: 0 <= j < |MemberKeys(syn, file.value) - cached| ==> probes(j) == Status(200))
            && (r.Err? && r.error.UnhealthyNewcomer? <==>
                  && Acceptable(syn, info, file) && Destinations(syn, file.value) != Destinations(syn, published)
                  && exists j :: 0 <= j < |MemberKeys(syn, file.value) - cached| && probes(j) != Status(200))
  {
    PublishedExactlyWhen(syn, info, FingerprintText(syn, published), cached, file, probes);
    if Acceptable(syn, info, file) {
      SameCatalogIdentifies(syn, info, published, file.value);
    }
  }

  lemma SameCatalogIdentifies(syn: Syntax, info: map<string, Info>, a: seq<Model>, b: seq<Model>)
    requires PlainSyntax(syn) && Separable(info.Keys)
    requires Acceptable(syn, info, Some(a)) && Acceptable(syn, info, Some(b))
    ensures FingerprintText(syn, a) == FingerprintText(syn, b) <==> Destinations(syn, a) == Destinations(syn, b)
  {
    PlainSyntaxOrigins(syn, a);
    PlainSyntaxOrigins(syn, b);
    assert forall m <- a :: m.name in Names(a);
    assert forall m <- b :: m.name in Names(b);
    SeparableIdentifies(syn, a, b, info.Keys);
  }

  // Listing the same members in another order never publishes anything,
  // whatever the names are.
  lemma ReorderedIsUnchanged(syn: Syntax, info: map<string, Info>, published: seq<Model>, cached: set<string>,
                             file: seq<Model>, probes: nat -> Probe)
    requires PlainSyntax(syn) && Acceptable(syn, info, Some(published)) && Acceptable(syn, info, Some(file))
    requires Destinations(syn, file) == Destinations(syn, published)
    ensures Judgement(syn, info, FingerprintText(syn, published), cached, Some(file), probes) == Ok(Unchanged)
  {
    PlainSyntaxOrigins(syn, published);
    PlainSyntaxOrigins(syn, file);
    OrderIsForgotten(syn, published, file);
    LoadMeaning(syn, file);
  }

  // Where a server stands: the file it published last, the keys it caches, and
  // the last file that was not rejected.
  datatype Standing = Standing(published: seq<Model>, cached: set<string>, accepted: seq<Model>)

  // Where a file leaves a server, given what became of the file.
  function Next(syn: Syntax, s: Standing, file: Option<seq<Model>>, outcome: Result<Reload, Rejection>): Standing {
    if file.None? || outcome.Err? then s
    else if outcome.value.Unchanged? then s.(accepted := file.value)
    else Standing(file.value, MemberKeys(syn, file.value) * RawKeys(file.value), file.value)
  }

  function After(syn: Syntax, start: Standing, files: seq<Option<seq<Model>>>,
                 outcomes: seq<Result<Reload, Rejection>>): Standing
    requires |files| == |outcomes|
  {
    var n := |files| - 1;
    if files == [] then start
    else Next(syn, After(syn, start, files[..n], outcomes[..n]), files[n], outcomes[n])
  }

  ghost function Decision(syn: Syntax, info: map<string, Info>, s: Standing, file: Option<seq<Model>>,
                          probes: nat -> Probe): Result<Reload, Rejection>
  {
    Judgement(syn, info, FingerprintText(syn, s.published), s.cached, file, probes)
  }

  ghost predicate JudgedAt(syn: Syntax, info: map<string, Info>, start: Standing, files: seq<Option<seq<Model>>>,
                           outcomes: seq<Result<Reload, Rejection>>, probes: (nat, nat) -> Probe, n: nat)
    requires n < |files| == |outcomes|
  {
    outcomes[n] == Decision(syn, info, After(syn, start, files[..n], outcomes[..n]), files[n], ProbesOf(probes, n))
  }

  // Each file of a sequence was judged by where the files before it had left
  // the server.
  ghost predicate JudgedInTurn(syn: Syntax, info: map<string, Info>, start: Standing,
                               files: seq<Option<seq<Model>>>, outcomes: seq<Result<Reload, Rejection>>,
                               probes: (nat, nat) -> Probe)
    requires |files| == |outcomes|
  {
    forall n :: 0 <= n < |files| ==> JudgedAt(syn, info, start, files, outcomes, probes, n)
  }

  // The probes of the newcomers in one file of a sequence.
  function ProbesOf(probes: (nat, nat) -> Probe, n: nat): nat -> Probe {
    (j: nat) => probes(n, j)
  }

  // ---- Keys ----

  function BackendKey(b: Backend): string { Member(b.model, b.origin) }

  function MemberKeys(syn: Syntax, models: seq<Model>): set<string> {
    set m | m in models :: KeyOf(syn, m)
  }

  // The keys that the clean-up after a reload keeps: it trims the raw text of
  // each URL instead of printing the parsed one.
  function RawKey(m: Model): string { Member(m.name, TrimSlash(m.url)) }

  function RawKeys(models: seq<Model>): set<string> {
    set m | m in models :: RawKey(m)
  }

  // What a URL prints as, without its trailing slash.
  function Printed(syn: Syntax, url: string): string {
    match syn.parse(url)
    case None => ""
    case Some(u) => TrimSlash(u.text)
  }

  // The laws of the URL parser that reloading leans on. It rejects control
  // characters outside a fragment and prints none; an origin prints the same
  // with and without its trailing slash; and a printed origin parses back to
  // itself.
  ghost predicate PlainSyntax(syn: Syntax) {
    && (forall u :: syn.parse(u).Some? ==>
          && ('#' !in u ==> NUL !in u)
          && NUL !in syn.parse(u).value.text && '\n' !in syn.parse(u).value.text)
    && (forall u :: syn.parse(u).Some? && OriginOnly(syn.parse(u).value) ==>
          Printed(syn, TrimSlash(u)) == Printed(syn, u) == Printed(syn, Printed(syn, u)))
  }

  // The text of the entry is the form its URL prints as, up to one slash.
  predicate Canonical(syn: Syntax, m: Model) {
    TrimSlash(m.url) == Origin(syn, m)
  }

  // A raw key that is also the key of some printed origin belongs to the
  // entry it was made from.
  lemma RawKeyIsKey(syn: Syntax, m: Model, other: Model)
    requires PlainSyntax(syn) && UrlOk(syn, m) && UrlOk(syn, other)
    requires RawKey(m) == KeyOf(syn, other)
    ensures KeyOf(syn, m) == RawKey(m) && Canonical(syn, m)
  {
    PlainOrigin(syn, other);
    assert forall c :: c in TrimSlash(m.url) ==> c in m.url;
    MemberInjective(m.name, TrimSlash(m.url), other.name, Origin(syn, other));
    assert Printed(syn, TrimSlash(m.url)) == Printed(syn, m.url);
    assert Printed(syn, Printed(syn, other.url)) == Printed(syn, other.url);
  }

  // The clean-up keeps every new member exactly when every entry is written
  // in the form its URL prints as.
  lemma CleanUpIsExact(syn: Syntax, models: seq<Model>)
    requires PlainSyntax(syn) && Accepted(syn, models)
    ensures MemberKeys(syn, models) <= RawKeys(models) <==> forall m <- models :: Canonical(syn, m)
  {
    if MemberKeys(syn, models) <= RawKeys(models) {
      forall m | m in models ensures Canonical(syn, m) {
        assert KeyOf(syn, m) in RawKeys(models);
        var other :| other in models && RawKey(other) == KeyOf(syn, m);
        RawKeyIsKey(syn, other, m);
        OneEntryPerKey(syn, models, m, other);
      }
    }
    if forall m <- models :: Canonical(syn, m) {
      forall m | m in models ensures KeyOf(syn, m) in RawKeys(models) {
        assert RawKey(m) == KeyOf(syn, m);
      }
    }
  }

  lemma OneEntryPerKey(syn: Syntax, models: seq<Model>, a: Model, b: Model)
    requires PlainSyntax(syn) && Accepted(syn, models) && a in models && b in models
    requires KeyOf(syn, a) == KeyOf(syn, b)
    ensures a == b
  {
    PlainOrigin(syn, a);
    PlainOrigin(syn, b);
    MemberInjective(a.name, Origin(syn, a), b.name, Origin(syn, b));
    var i :| 0 <= i < |models| && models[i] == a;
    var j :| 0 <= j < |models| && models[j] == b;
    assert Destination(syn, models[i]) == Destination(syn, models[j]);
  }

  lemma PlainOrigin(syn: Syntax, m: Model)
    requires PlainSyntax(syn)
    ensures NUL !in Origin(syn, m)
  {
    PlainSyntaxOrigins(syn, [m]);
    assert m in [m];
  }

  lemma PlainSyntaxOrigins(syn: Syntax, models: seq<Model>)
    requires PlainSyntax(syn)
    ensures PlainOrigins(syn, models)
  {
    forall m | m in models ensures NUL !in Origin(syn, m) && '\n' !in Origin(syn, m) {
      if syn.parse(m.url).Some? {
        var text := syn.parse(m.url).value.text;
        assert forall c :: c in TrimSlash(text) ==> c in text;
      }
    }
  }

  // ---- A built routing table ----

  // All backends that a routing table sends requests to.
  ghost function Routed(proxies: map<string, seq<Backend>>): set<Backend> {
    set name, b | name in proxies && b in proxies[name] :: b
  }

  lemma RoutedExtend(proxies: map<string, seq<Backend>>, name: string, b: Backend)
    ensures Routed(Extend(proxies, name, b)) == Routed(proxies) + {b}
  {
    var after := Extend(proxies, name, b);
    assert b in after[name];
    forall x | x in Routed(proxies) ensures x in Routed(after) {
      var n :| n in proxies && x in proxies[n];
      assert x in after[n];
    }
  }

  predicate Serves(route: seq<Backend>, name: string) {
    forall i :: 0 <= i < |route| ==> route[i].model == name
  }

  ghost predicate RoutesOf(syn: Syntax, models: seq<Model>, proxies: map<string, seq<Backend>>) {
    && proxies.Keys == Names(models)
    && (forall name <- proxies :: Origins(proxies[name]) == Replicas(syn, models, name))
    && (forall name <- proxies :: Serves(proxies[name], name))
  }

  // Every routed backend is the cached one.
  ghost predicate RoutesFrom(backends: map<string, Backend>, proxies: map<string, seq<Backend>>) {
    forall b <- Routed(proxies) :: BackendKey(b) in backends && backends[BackendKey(b)] == b
  }

  // A routed backend that is cached is the cached object.
  ghost predicate Consistent(backends: map<string, Backend>, proxies: map<string, seq<Backend>>) {
    forall b <- Routed(proxies) :: BackendKey(b) in backends ==> backends[BackendKey(b)] == b
  }

  ghost predicate KeyedRight(backends: map<string, Backend>) {
    forall key <- backends :: BackendKey(backends[key]) == key && NUL !in backends[key].origin
  }

  // The cache after some entries: what was there, and the newcomers.
  ghost predicate Extends(before: map<string, Backend>, after: map<string, Backend>, added: seq<Backend>,
                          keys: set<string>)
  {
    && after.Keys == before.Keys + keys
    && (forall key <- before :: after[key] == before[key])
    && (forall b <- added :: BackendKey(b) in keys && BackendKey(b) !in before)
    && (forall key <- keys :: key !in before ==> after[key] in added)
  }

  function Extend(proxies: map<string, seq<Backend>>, name: string, b: Backend): map<string, seq<Backend>> {
    proxies[name := (if name in proxies then proxies[name] else []) + [b]]
  }

  lemma PublishedRouting(syn: Syntax, models: seq<Model>, proxies: map<string, seq<Backend>>)
    requires RoutesOf(syn, models, proxies)
    ensures RoutedOrigins(proxies) == FromScratch(syn, models)
  {
  }

  lemma RoutesSnoc(syn: Syntax, before: seq<Model>, proxies: map<string, seq<Backend>>, m: Model, b: Backend)
    requires RoutesOf(syn, before, proxies) && b.model == m.name && b.origin == Origin(syn, m)
    ensures RoutesOf(syn, before + [m], Extend(proxies, m.name, b))
  {
    var after, all := Extend(proxies, m.name, b), before + [m];
    assert all[..|before|] == before && all[|before|] == m;
    NamesSnoc(before, m);
    if m.name !in proxies { NoReplicas(syn, before, m.name); }
    forall name | name in after ensures Origins(after[name]) == Replicas(syn, all, name) {
      RouteSnoc(syn, before, if name in proxies then proxies[name] else [], name, m, b);
    }
  }

  lemma RouteSnoc(syn: Syntax, before: seq<Model>, route: seq<Backend>, name: string, m: Model, b: Backend)
    requires Origins(route) == Replicas(syn, before, name) && b.origin == Origin(syn, m)
    ensures Origins(if name == m.name then route + [b] else route) == Replicas(syn, before + [m], name)
  {
    var all := before + [m];
    assert all[..|all| - 1] == before && all[|all| - 1] == m;
    assert Origins(route + [b]) == Origins(route) + [b.origin];
  }

  lemma {:induction false} NoReplicas(syn: Syntax, models: seq<Model>, name: string)
    requires name !in Names(models)
    ensures Replicas(syn, models, name) == []
    decreases |models|
  {
    if models != [] {
      assert models[|models| - 1] in models;
      assert forall m <- models[..|models| - 1] :: m in models;
      NoReplicas(syn, models[..|models| - 1], name);
    }
  }

  lemma KeysSnoc(syn: Syntax, before: seq<Model>, m: Model)
    ensures MemberKeys(syn, before + [m]) == MemberKeys(syn, before) + {KeyOf(syn, m)}
  {
    var all := before + [m];
    assert m in all && forall x <- before :: x in all;
  }

  // The cache, the published table and the last accepted file go together.
  ghost predicate WellBuilt(syn: Syntax, info: map<string, Info>, backends: map<string, Backend>, routing: Snapshot,
                            lastAccepted: seq<Model>)
  {
    && Accepted(syn, routing.models) && Accepted(syn, lastAccepted)
    && RoutesOf(syn, routing.models, routing.proxies)
    && KeyedRight(backends) && backends.Keys <= MemberKeys(syn, routing.models)
    && Consistent(backends, routing.proxies)
    && routing.fingerprint == FingerprintText(syn, routing.models) == FingerprintText(syn, lastAccepted)
    && Describes(info, routing.models) && Describes(info, lastAccepted)
  }

  lemma NewlyBuilt(syn: Syntax, info: map<string, Info>, backends: map<string, Backend>, snapshot: Snapshot)
    requires Accepted(syn, snapshot.models) && Describes(info, snapshot.models)
    requires RoutesOf(syn, snapshot.models, snapshot.proxies)
    requires snapshot.fingerprint == FingerprintText(syn, snapshot.models)
    requires KeyedRight(backends) && Consistent(backends, snapshot.proxies)
    requires backends.Keys <= MemberKeys(syn, snapshot.models)
    ensures WellBuilt(syn, info, backends, snapshot, snapshot.models)
  {
  }

  class Server {
    const syn: Syntax
    const catalog: map<string, Model>
    var backends: map<string, Backend>
    var routing: Snapshot
    ghost var lastAccepted: seq<Model>   // the last registry file that was not rejected

    ghost predicate Valid()
      reads this
    {
      PlainSyntax(syn) && WellBuilt(syn, CatalogInfo(catalog), backends, routing, lastAccepted)
    }

    ghost function Stands(): Standing
      reads this
    {
      Standing(routing.models, backends.Keys, lastAccepted)
    }

    // The cache holds exactly the published members.
    ghost predicate CacheExact()
      reads this
    {
      backends.Keys == MemberKeys(syn, routing.models) && RoutesFrom(backends, routing.proxies)
    }

    // After a reload the cache is exactly the published membership just when
    // every entry is written in the form its URL prints as. Otherwise a member
    // that is being routed to is dropped from the cache.
    lemma CacheExactWhenCanonical()
      requires Valid() && backends.Keys == MemberKeys(syn, routing.models) * RawKeys(routing.models)
      ensures CacheExact() <==> forall m <- routing.models :: Canonical(syn, m)
    {
      CleanUpIsExact(syn, routing.models);
      if backends.Keys == MemberKeys(syn, routing.models) {
        ExactKeysSuffice(syn, routing.models, routing.proxies, backends);
      }
    }

    // The published table sends the requests for a name to the same set of
    // origins as the last accepted file, even if that file only reordered them.
    lemma RoutedLikeLastAccepted(name: string, origin: string)
      requires Valid() && Separable(catalog.Keys) && name in routing.proxies
      ensures origin in Origins(routing.proxies[name]) <==> origin in Replicas(syn, lastAccepted, name)
    {
      assert CatalogInfo(catalog).Keys == catalog.Keys;
      SameCatalogIdentifies(syn, CatalogInfo(catalog), routing.models, lastAccepted);
      SameReplicas(syn, routing.models, lastAccepted, name, origin);
    }

    // What a route needs of its table: it is never empty, and it lists no
    // backend twice.
    lemma RoutesAreUsable(name: string)
      requires Valid() && name in routing.proxies
      ensures |routing.proxies[name]| >= 1 && Routing.NoRepeats(routing.proxies[name])
    {
      ReplicasNonempty(syn, routing.models, name);
      ReplicasDistinct(syn, routing.models, name);
      DistinctOrigins(routing.proxies[name]);
    }

    // The cached backend of one entry, or a new one.
    method ObtainBackend(name: string, origin: string) returns (backend: Backend, added: seq<Backend>)
      requires KeyedRight(backends) && NUL !in origin
      modifies this`backends
      ensures backend.model == name && backend.origin == origin
      ensures backends == old(backends)[Member(name, origin) := backend]
      ensures if Member(name, origin) in old(backends)
              then backend == old(backends)[Member(name, origin)] && added == []
              else fresh(backend) && added == [backend]
    {
      var key := Member(name, origin);
      if key in backends {
        backend, added := backends[key], [];
        SameMember(backend, name, origin);
        assert backends == backends[key := backend];
      } else {
        backend := new Backend(name, origin);
        backends, added := backends[key := backend], [backend];
      }
    }

    // One turn of the build loop.
    method AddEntry(models: seq<Model>, i: nat, ghost before: map<string, Backend>,
                    proxies: map<string, seq<Backend>>, ghost added: seq<Backend>)
      returns (proxies': map<string, seq<Backend>>, more: seq<Backend>)
      requires PlainSyntax(syn) && i < |models| && Built(syn, models[..i], before, backends, proxies, added)
      modifies this`backends
      ensures Built(syn, models[..i + 1], before, backends, proxies', added + more)
      ensures Newcomer(syn, models[i], KeyOf(syn, models[i]) in old(backends), more)
      ensures forall b <- more :: fresh(b)
    {
      ghost var cached := backends;
      var m := models[i];
      PlainOrigin(syn, m);
      var backend;
      backend, more := ObtainBackend(m.name, Origin(syn, m));
      assert models[..i + 1] == models[..i] + [m];
      BuiltSnoc(syn, models[..i], before, cached, proxies, added, m, backend, more);
      proxies' := Extend(proxies, m.name, backend);
    }

    // Reuse the cached backend of every entry, create the missing ones.
    method BuildRoutes(models: seq<Model>) returns (proxies: map<string, seq<Backend>>, added: seq<Backend>)
      requires PlainSyntax(syn) && KeyedRight(backends)
      modifies this`backends
      ensures Built(syn, models, old(backends), backends, proxies, added)
      ensures StandFor(syn, added, Missing(syn, models, old(backends).Keys))
      ensures forall b <- added :: fresh(b)
    {
      proxies, added := map[], [];
      assert models[..0] == [];
      BuiltNothing(syn, backends);
      for i := 0 to |models|
        invariant Built(syn, models[..i], old(backends), backends, proxies, added)
        invariant StandFor(syn, added, Missing(syn, models[..i], old(backends).Keys))
        invariant forall b <- added :: fresh(b)
      {
        var more;
        MissingNext(syn, models, i, old(backends).Keys);
        ghost var present := KeyOf(syn, models[i]) in backends;
        proxies, more := AddEntry(models, i, old(backends), proxies, added);
        StandForSnoc(syn, added, Missing(syn, models[..i], old(backends).Keys), models[i], present, more);
        added := added + more;
      }
      assert models[..|models|] == models;
    }

    method BuildRouting(models: seq<Model>) returns (snapshot: Snapshot, added: seq<Backend>)
      requires PlainSyntax(syn) && KeyedRight(backends)
      modifies this`backends
      ensures snapshot.models == models && snapshot.fingerprint == FingerprintText(syn, models)
      ensures Built(syn, models, old(backends), backends, snapshot.proxies, added)
      ensures StandFor(syn, added, Missing(syn, models, old(backends).Keys))
      ensures forall b <- added :: fresh(b)
    {
      var proxies;
      proxies, added := BuildRoutes(models);
      var text := MembershipFingerprint(syn, models);
      snapshot := Snapshot(models, proxies, text);
    }

    constructor (syn: Syntax, models: seq<Model>)
      requires PlainSyntax(syn) && Accepted(syn, models)
      ensures Valid() && CacheExact() && this.syn == syn && routing.models == models
    {
      this.syn := syn;
      var catalog := ModelCatalog(syn, models);
      this.catalog := catalog;
      this.backends := map[];
      this.lastAccepted := models;
      new;
      var snapshot, added := BuildRouting(models);
      routing := snapshot;
    }

    // A health request, and what it does to the flag of the backend.
    method ProbeBackend(backend: Backend, probe: Probe) returns (healthy: bool)
      modifies backend`healthy
      ensures healthy == (probe == Status(200))
      ensures backend.healthy == if probe.Cancelled? then old(backend.healthy) else healthy
    {
      if probe.Cancelled? {
        return false;
      }
      healthy := probe == Status(200);
      backend.healthy := healthy;
    }

    // Probe the newcomers one by one, up to the first that fails.
    method ProbeAdded(added: seq<Backend>, probes: nat -> Probe) returns (failed: Option<nat>)
      modifies (set b | b in added)`healthy
      ensures failed == FirstFailure(probes, |added|)
      ensures failed.None? ==> forall b <- added :: b.healthy
    {
      for i := 0 to |added|
        invariant forall j :: 0 <= j < i ==> added[j].healthy && probes(j) == Status(200)
      {
        var healthy := ProbeBackend(added[i], probes(i));
        if !healthy {
          return Some(i);
        }
      }
      return None;
    }

    // Take the newcomers out of the cache again.
    method RollBack(added: seq<Backend>, ghost before: map<string, Backend>, ghost keys: set<string>)
      requires Extends(before, backends, added, keys) && KeyedRight(backends)
      modifies this`backends
      ensures backends == before
    {
      ghost var cached := backends;
      for i := 0 to |added|
        invariant backends == cached - (set b | b in added[..i] :: BackendKey(b))
      {
        assert added[..i + 1] == added[..i] + [added[i]];
        backends := backends - {BackendKey(added[i])};
      }
      assert added[..|added|] == added;
      RolledBack(before, cached, added, keys);
    }

    // Build and probe; take everything back if a newcomer fails.
    method BuildAndProbe(models: seq<Model>, probes: nat -> Probe)
      returns (snapshot: Snapshot, failed: Option<string>)
      requires PlainSyntax(syn) && KeyedRight(backends)
      modifies this`backends
      ensures failed == UnhealthyOrigin(syn, models, old(backends).Keys, probes)
      ensures failed.Some? ==> backends == old(backends)
      ensures failed.None? ==>
                && snapshot.models == models && snapshot.fingerprint == FingerprintText(syn, models)
                && RoutesOf(syn, models, snapshot.proxies)
                && backends.Keys == old(backends).Keys + MemberKeys(syn, models)
                && KeyedRight(backends) && Consistent(backends, snapshot.proxies)
                && Survivors(old(backends), snapshot.proxies)
      ensures failed.None? ==>
                forall b <- Routed(snapshot.proxies) :: BackendKey(b) !in old(backends) ==> fresh(b) && b.healthy
    {
      var added;
      snapshot, added := BuildRouting(models);
      var bad := ProbeAdded(added, probes);
      if bad.Some? {
        RollBack(added, old(backends), MemberKeys(syn, models));
        return snapshot, Some(added[bad.value].origin);
      }
      Newcomers(syn, models, old(backends), backends, snapshot.proxies, added);
      return snapshot, None;
    }

    // Then publish the snapshot and clean up the cache.
    method Publish(models: seq<Model>, probes: nat -> Probe) returns (failed: Option<string>)
      requires Valid() && Accepted(syn, models) && Describes(CatalogInfo(catalog), models)
      modifies this`backends, this`routing, this`lastAccepted
      ensures Valid()
      ensures failed == UnhealthyOrigin(syn, models, old(backends).Keys, probes)
      ensures failed.Some? ==>
                backends == old(backends) && routing == old(routing) && lastAccepted == old(lastAccepted)
      ensures failed.None? ==>
                && routing.models == lastAccepted == models
                && backends.Keys == MemberKeys(syn, models) * RawKeys(models)
                && Survivors(old(backends), routing.proxies)
      ensures failed.None? ==> forall b <- Routed(routing.proxies) ::
                BackendKey(b) !in old(backends) ==> fresh(b) && b.healthy
    {
      var snapshot;
      snapshot, failed := BuildAndProbe(models, probes);
      if failed.None? {
        CleanUpKeys(syn, old(backends).Keys, routing.models, models);
        Install(snapshot);
        NewlyBuilt(syn, CatalogInfo(catalog), backends, snapshot);
      }
    }

    method Install(snapshot: Snapshot)
      requires KeyedRight(backends) && Consistent(backends, snapshot.proxies)
      modifies this`backends, this`routing, this`lastAccepted
      ensures routing == snapshot && lastAccepted == snapshot.models
      ensures backends.Keys == old(backends).Keys * RawKeys(snapshot.models)
      ensures KeyedRight(backends) && Consistent(backends, snapshot.proxies)
    {
      ghost var built := backends;
      CleanUp(snapshot.models);
      TrimKeeps(built, backends, snapshot.proxies);
      routing := snapshot;
      lastAccepted := snapshot.models;
    }

    // The file must load and must leave the catalog as it is.
    method CheckFile(file: Option<seq<Model>>) returns (r: Result<seq<Model>, Rejection>)
      ensures r.Ok? <==> Acceptable(syn, CatalogInfo(catalog), file)
      ensures r.Ok? ==> file == Some(r.value)
      ensures r.Err? ==> forall fingerprint, cached, probes ::
                Judgement(syn, CatalogInfo(catalog), fingerprint, cached, file, probes) == Err(r.error)
    {
      if file.None? {
        return Err(BadFile);
      }
      LoadMeaning(syn, file.value);
      var loaded := LoadModels(syn, file.value);
      if loaded.Err? {
        return Err(BadRegistry(loaded.error));
      }
      var next := ModelCatalog(syn, loaded.value);
      var same := SameCatalog(next, catalog);
      if !same {
        if Describes(CatalogInfo(catalog), loaded.value) {
          CatalogIgnoresOrder(loaded.value, loaded.value, CatalogInfo(next), CatalogInfo(catalog));
        }
        return Err(CatalogChanged);
      }
      return Ok(loaded.value);
    }

    // One poll of the registry file. A rejected file changes nothing; a file
    // with the same membership is accepted and changes nothing; any other is
    // published after every newcomer passed its probe.
    method ReloadRegistry(file: Option<seq<Model>>, probes: nat -> Probe) returns (r: Result<Reload, Rejection>)
      requires Valid()
      modifies this
      ensures Valid()
      ensures r == Judgement(syn, CatalogInfo(catalog), old(routing.fingerprint), old(backends).Keys, file, probes)
      ensures r != Ok(Published) ==> backends == old(backends) && routing == old(routing)
      ensures r.Err? ==> lastAccepted == old(lastAccepted)
      ensures r.Ok? ==> file.Some? && lastAccepted == file.value
      ensures r == Ok(Published) ==>
                && routing.models == lastAccepted && routing.fingerprint != old(routing.fingerprint)
                && Survivors(old(backends), routing.proxies)
                && backends.Keys == MemberKeys(syn, routing.models) * RawKeys(routing.models)
      ensures r == Ok(Published) ==> (CacheExact() <==> forall m <- routing.models :: Canonical(syn, m))
      ensures r == Ok(Published) ==> forall b <- Routed(routing.proxies) ::
                BackendKey(b) !in old(backends) ==> fresh(b) && b.healthy
    {
      var checked := CheckFile(file);
      if checked.Err? {
        return Err(checked.error);
      }
      var models := checked.value;
      LoadMeaning(syn, models);
      var text := MembershipFingerprint(syn, models);
      if text == routing.fingerprint {
        lastAccepted := models;
        return Ok(Unchanged);
      }
      var failed := Publish(models, probes);
      if failed.Some? {
        return Err(UnhealthyNewcomer(failed.value));
      }
      CacheExactWhenCanonical();
      return Ok(Published);
    }

    // The same poll, said by where it finds and leaves the server.
    method ReloadOnce(file: Option<seq<Model>>, probes: nat -> Probe) returns (r: Result<Reload, Rejection>)
      requires Valid()
      modifies this
      ensures Valid()
      ensures r == Decision(syn, CatalogInfo(catalog), old(Stands()), file, probes)
      ensures Stands() == Next(syn, old(Stands()), file, r)
    {
      ghost var s := Stands();
      assert routing.fingerprint == FingerprintText(syn, s.published);
      r := ReloadRegistry(file, probes);
    }

    // Any sequence of polls, accepted or rejected. What is routed afterwards is
    // what a from-scratch build gives for the last file that was published.
    method WatchRegistry(files: seq<Option<seq<Model>>>, probes: (nat, nat) -> Probe)
      returns (outcomes: seq<Result<Reload, Rejection>>)
      requires Valid()
      modifies this
      ensures Valid() && |outcomes| == |files|
      ensures JudgedInTurn(syn, CatalogInfo(catalog), old(Stands()), files, outcomes, probes)
      ensures Stands() == After(syn, old(Stands()), files, outcomes)
      ensures RoutedOrigins(routing.proxies) == FromScratch(syn, routing.models)
    {
      outcomes := [];
      ghost var start := Stands();
      for n := 0 to |files|
        invariant Valid() && |outcomes| == n
        invariant JudgedInTurn(syn, CatalogInfo(catalog), start, files[..n], outcomes, probes)
        invariant Stands() == After(syn, start, files[..n], outcomes)
      {
        var outcome := ReloadOnce(files[n], ProbesOf(probes, n));
        AfterSnoc(syn, start, files, n, outcomes, outcome);
        JudgedSnoc(syn, CatalogInfo(catalog), start, files, n, outcomes, outcome, probes);
        outcomes := outcomes + [outcome];
      }
      assert files[..|files|] == files;
      PublishedRouting(syn, routing.models, routing.proxies);
    }

    // Drop every cached backend whose key the raw registry text does not give.
    method CleanUp(models: seq<Model>)
      modifies this`backends
      ensures backends.Keys == old(backends).Keys * RawKeys(models)
      ensures forall key <- backends :: backends[key] == old(backends)[key]
    {
      var active := RawKeys(models);
      var rest := backends.Keys;
      while rest != {}
        invariant rest <= backends.Keys <= old(backends).Keys
        invariant forall key <- backends :: backends[key] == old(backends)[key]
        invariant forall key <- old(backends) :: key in backends <==> key in rest || key in active
        decreases rest
      {
        var key :| key in rest;
        if key !in active {
          backends := backends - {key};
        }
        rest := rest - {key};
      }
    }
  }

  // The state of a build after some entries of the registry.
  ghost predicate Built(syn: Syntax, models: seq<Model>, before: map<string, Backend>, cached: map<string, Backend>,
                        proxies: map<string, seq<Backend>>, added: seq<Backend>)
  {
    && RoutesOf(syn, models, proxies)
    && Extends(before, cached, added, MemberKeys(syn, models))
    && KeyedRight(cached) && RoutesFrom(cached, proxies)
  }

  // New backends, each for its entry.
  predicate StandFor(syn: Syntax, added: seq<Backend>, missing: seq<Model>) {
    && |added| == |missing|
    && forall j :: 0 <= j < |added| ==> added[j].model == missing[j].name && added[j].origin == Origin(syn, missing[j])
  }

  // The newcomer of one entry, unless its backend was there.
  predicate Newcomer(syn: Syntax, m: Model, present: bool, more: seq<Backend>) {
    if present then more == []
    else |more| == 1 && more[0].model == m.name && more[0].origin == Origin(syn, m)
  }

  lemma StandForSnoc(syn: Syntax, added: seq<Backend>, missing: seq<Model>, m: Model, present: bool,
                     more: seq<Backend>)
    requires StandFor(syn, added, missing) && Newcomer(syn, m, present, more)
    ensures StandFor(syn, added + more, missing + if present then [] else [m])
  {
  }

  lemma BuiltNothing(syn: Syntax, backends: map<string, Backend>)
    requires KeyedRight(backends)
    ensures Built(syn, [], backends, backends, map[], [])
  {
  }

  lemma BuiltSnoc(syn: Syntax, models: seq<Model>, before: map<string, Backend>, cached: map<string, Backend>,
                  proxies: map<string, seq<Backend>>, added: seq<Backend>, m: Model, b: Backend, more: seq<Backend>)
    requires Built(syn, models, before, cached, proxies, added)
    requires b.model == m.name && b.origin == Origin(syn, m) && NUL !in b.origin
    requires if BackendKey(b) in cached then cached[BackendKey(b)] == b && more == [] else more == [b]
    ensures Built(syn, models + [m], before, cached[BackendKey(b) := b], Extend(proxies, m.name, b), added + more)
  {
    KeysSnoc(syn, models, m);
    ExtendsSnoc(before, cached, added, MemberKeys(syn, models), b, more);
    RoutesFromSnoc(cached, proxies, b);
    RoutesSnoc(syn, models, proxies, m, b);
  }

  lemma ExtendsSnoc(before: map<string, Backend>, cached: map<string, Backend>, added: seq<Backend>, keys: set<string>,
                    b: Backend, more: seq<Backend>)
    requires Extends(before, cached, added, keys)
    requires if BackendKey(b) in cached then cached[BackendKey(b)] == b && more == [] else more == [b]
    ensures Extends(before, cached[BackendKey(b) := b], added + more, keys + {BackendKey(b)})
  {
  }

  lemma RoutesFromSnoc(cached: map<string, Backend>, proxies: map<string, seq<Backend>>, b: Backend)
    requires RoutesFrom(cached, proxies)
    requires BackendKey(b) in cached ==> cached[BackendKey(b)] == b
    ensures RoutesFrom(cached[BackendKey(b) := b], Extend(proxies, b.model, b))
  {
    RoutedExtend(proxies, b.model, b);
  }

  lemma SameMember(b: Backend, name: string, origin: string)
    requires BackendKey(b) == Member(name, origin) && NUL !in origin && NUL !in b.origin
    ensures b.model == name && b.origin == origin
  {
    MemberInjective(b.model, b.origin, name, origin);
  }

  lemma RolledBack(before: map<string, Backend>, cached: map<string, Backend>, added: seq<Backend>, keys: set<string>)
    requires Extends(before, cached, added, keys) && KeyedRight(cached)
    ensures cached - (set b | b in added :: BackendKey(b)) == before
  {
    var gone := set b | b in added :: BackendKey(b);
    forall key | key in cached ensures key in gone <==> key !in before {
      if key !in before {
        assert cached[key] in added && BackendKey(cached[key]) == key;
      }
    }
  }

  // A backend that was cached is routed to as the same object.
  ghost predicate Survivors(before: map<string, Backend>, proxies: map<string, seq<Backend>>) {
    forall b <- Routed(proxies) :: BackendKey(b) in before ==> before[BackendKey(b)] == b
  }

  lemma TrimKeeps(cached: map<string, Backend>, trimmed: map<string, Backend>, proxies: map<string, seq<Backend>>)
    requires KeyedRight(cached) && Consistent(cached, proxies)
    requires trimmed.Keys <= cached.Keys && forall key <- trimmed :: trimmed[key] == cached[key]
    ensures KeyedRight(trimmed) && Consistent(trimmed, proxies)
  {
  }

  // The routed backends that were not cached before are the added ones.
  lemma Newcomers(syn: Syntax, models: seq<Model>, before: map<string, Backend>, cached: map<string, Backend>,
                  proxies: map<string, seq<Backend>>, added: seq<Backend>)
    requires Built(syn, models, before, cached, proxies, added)
    ensures Survivors(before, proxies) && Consistent(cached, proxies)
    ensures forall b <- Routed(proxies) :: BackendKey(b) !in before ==> b in added
  {
    forall b | b in Routed(proxies) && BackendKey(b) !in before ensures b in added {
      assert cached[BackendKey(b)] == b;
    }
  }

  // No backend of the old membership survives the clean-up under a new
  // entry's raw text unless it is a member of the new membership.
  lemma CleanUpKeys(syn: Syntax, before: set<string>, previous: seq<Model>, models: seq<Model>)
    requires PlainSyntax(syn) && Accepted(syn, previous) && Accepted(syn, models)
    requires before <= MemberKeys(syn, previous)
    ensures (before + MemberKeys(syn, models)) * RawKeys(models) == MemberKeys(syn, models) * RawKeys(models)
  {
    forall key | key in before && key in RawKeys(models) ensures key in MemberKeys(syn, models) {
      var other :| other in previous && KeyOf(syn, other) == key;
      var m :| m in models && RawKey(m) == key;
      RawKeyIsKey(syn, m, other);
    }
  }

  // Every routed backend stands for a member.
  lemma RoutedAreMembers(syn: Syntax, models: seq<Model>, proxies: map<string, seq<Backend>>)
    requires RoutesOf(syn, models, proxies)
    ensures forall b <- Routed(proxies) :: BackendKey(b) in MemberKeys(syn, models)
  {
    forall b | b in Routed(proxies)
      ensures BackendKey(b) in MemberKeys(syn, models)
    {
      var name :| name in proxies && b in proxies[name];
      var i :| 0 <= i < |proxies[name]| && proxies[name][i] == b;
      assert Origins(proxies[name])[i] == b.origin;
      ReplicasAreDestinations(syn, models, name, b.origin);
      var m :| m in models && Destination(syn, m) == (name, b.origin);
      assert KeyOf(syn, m) == BackendKey(b);
    }
  }

  lemma DistinctOrigins(route: seq<Backend>)
    requires Distinct(Origins(route))
    ensures Routing.NoRepeats(route)
  {
    assert forall i :: 0 <= i < |route| ==> Origins(route)[i] == route[i].origin;
  }

  lemma ExactKeysSuffice(syn: Syntax, models: seq<Model>, proxies: map<string, seq<Backend>>,
                         backends: map<string, Backend>)
    requires RoutesOf(syn, models, proxies) && Consistent(backends, proxies)
    requires backends.Keys == MemberKeys(syn, models)
    ensures RoutesFrom(backends, proxies)
  {
    RoutedAreMembers(syn, models, proxies);
  }

  lemma AfterSnoc(syn: Syntax, start: Standing, files: seq<Option<seq<Model>>>, n: nat,
                  outcomes: seq<Result<Reload, Rejection>>, outcome: Result<Reload, Rejection>)
    requires n < |files| && |outcomes| == n
    ensures After(syn, start, files[..n + 1], outcomes + [outcome]) ==
            Next(syn, After(syn, start, files[..n], outcomes), files[n], outcome)
  {
    assert files[..n + 1][..n] == files[..n] && (outcomes + [outcome])[..n] == outcomes;
  }

  lemma JudgedSnoc(syn: Syntax, info: map<string, Info>, start: Standing, files: seq<Option<seq<Model>>>, n: nat,
                   outcomes: seq<Result<Reload, Rejection>>, outcome: Result<Reload, Rejection>,
                   probes: (nat, nat) -> Probe)
    requires n < |files| && |outcomes| == n && JudgedInTurn(syn, info, start, files[..n], outcomes, probes)
    requires outcome == Decision(syn, info, After(syn, start, files[..n], outcomes), files[n], ProbesOf(probes, n))
    ensures JudgedInTurn(syn, info, start, files[..n + 1], outcomes + [outcome], probes)
  {
    var seen, all := files[..n + 1], outcomes + [outcome];
    forall m | 0 <= m < |seen|
      ensures JudgedAt(syn, info, start, seen, all, probes, m)
    {
      if m < n {
        JudgedEarlier(syn, info, start, files, n, outcomes, outcome, probes, m);
      } else {
        assert seen[..n] == files[..n] && all[..n] == outcomes;
      }
    }
  }

  lemma JudgedEarlier(syn: Syntax, info: map<string, Info>, start: Standing, files: seq<Option<seq<Model>>>, n: nat,
                      outcomes: seq<Result<Reload, Rejection>>, outcome: Result<Reload, Rejection>,
                      probes: (nat, nat) -> Probe, m: nat)
    requires m < n < |files| && |outcomes| == n && JudgedAt(syn, info, start, files[..n], outcomes, probes, m)
    ensures JudgedAt(syn, info, start, files[..n + 1], outcomes + [outcome], probes, m)
  {
    var seen, all := files[..n + 1], outcomes + [outcome];
    assert seen[..m] == files[..n][..m] && all[..m] == outcomes[..m];
    assert seen[m] == files[..n][m] && all[m] == outcomes[m];
  }

  lemma SameReplicas(syn: Syntax, a: seq<Model>, b: seq<Model>, name: string, origin: string)
    requires Destinations(syn, a) == Destinations(syn, b)
    ensures origin in Replicas(syn, a, name) <==> origin in Replicas(syn, b, name)
  {
    ReplicasAreDestinations(syn, a, name, origin);
    ReplicasAreDestinations(syn, b, name, origin);
  }

  // No origin is listed twice for a name.
  lemma {:induction false} ReplicasDistinct(syn: Syntax, models: seq<Model>, name: string)
    requires Accepted(syn, models)
    ensures Distinct(Replicas(syn, models, name))
    decreases |models|
  {
    if models != [] {
      var n := |models| - 1;
      AcceptedPrefix(syn, models, n);
      ReplicasDistinct(syn, models[..n], name);
      assert forall m <- models[..n] :: Destination(syn, m) != Destination(syn, models[n]);
      ReplicasAreDestinations(syn, models[..n], models[n].name, Origin(syn, models[n]));
    }
  }

  // A name is routed exactly when it has a replica, so no route is empty.
  lemma {:induction false} ReplicasNonempty(syn: Syntax, models: seq<Model>, name: string)
    ensures name in Names(models) <==> Replicas(syn, models, name) != []
    decreases |models|
  {
    if models != [] {
      var front, last := models[..|models| - 1], models[|models| - 1];
      ReplicasNonempty(syn, front, name);
      assert models == front + [last];
      assert Names(models) == Names(front) + {last.name};
    }
  }
}
