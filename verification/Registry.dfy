// The model registry: which files are accepted, what the catalog says, and
// what the membership fingerprint identifies.
module Registry {
  import opened Wrappers

  datatype Pricing = Pricing(input: int, output: int, example: bool)

  datatype Model = Model(name: string, url: string, displayName: string, pricing: Option<Pricing>)

  datatype Url = Url(scheme: string, hostname: string, hasUser: bool, path: string, rawQuery: string,
                     forceQuery: bool, fragment: string, text: string)

  // The library calls: parsing a URL (with the text it prints as), and
  // telling a string that is empty after trimming white space.
  datatype Syntax = Syntax(parse: string -> Option<Url>, blank: string -> bool)

  datatype Verdict = Fine | BadShape | BadMetadata | Taken

  // The first entry that cannot be accepted, and why.
  datatype LoadError = LoadError(index: nat, reason: Verdict)

  function TrimSlash(s: string): string {
    if s != "" && s[|s| - 1] == '/' then s[..|s| - 1] else s
  }

  function Origin(syn: Syntax, m: Model): string {
    match syn.parse(m.url)
    case None => ""
    case Some(u) => TrimSlash(u.text)
  }

  function Destination(syn: Syntax, m: Model): (string, string) { (m.name, Origin(syn, m)) }

  predicate OriginOnly(u: Url) {
    && (u.scheme == "http" || u.scheme == "https") && u.hostname != ""
    && !u.hasUser && (u.path == "" || u.path == "/") && u.rawQuery == "" && !u.forceQuery && u.fragment == ""
  }

  predicate MetadataOk(syn: Syntax, m: Model) {
    && !syn.blank(m.name)
    && (m.displayName == "" || !syn.blank(m.displayName))
    && (m.pricing.Some? ==> m.pricing.value.input >= 0 && m.pricing.value.output >= 0)
  }

  predicate UrlOk(syn: Syntax, m: Model) {
    syn.parse(m.url).Some? && OriginOnly(syn.parse(m.url).value) && '#' !in m.url
  }

  predicate SameMetadata(a: Model, b: Model) {
    a.displayName == b.displayName && a.pricing == b.pricing
  }

  // What acceptance means: every entry is well formed, replicas of a name
  // agree on its metadata, and no destination is listed twice.
  predicate Accepted(syn: Syntax, models: seq<Model>) {
    && (forall m <- models :: MetadataOk(syn, m) && UrlOk(syn, m))
    && (forall i, j :: 0 <= i < j < |models| ==>
          && (models[i].name == models[j].name ==> SameMetadata(models[i], models[j]))
          && Destination(syn, models[i]) != Destination(syn, models[j]))
  }

  lemma AcceptedPrefix(syn: Syntax, models: seq<Model>, n: nat)
    requires Accepted(syn, models) && n <= |models|
    ensures Accepted(syn, models[..n])
  {
  }

  // ---- Acceptance, entry by entry and pair by pair ----

  // Two origins, as URLs print them, are one destination when they are equal
  // up to one slash at the end.
  predicate SameOrigin(a: string, b: string) {
    || a == b
    || (b == a + "/" && (a == "" || a[|a| - 1] != '/'))
    || (a == b + "/" && (b == "" || b[|b| - 1] != '/'))
  }

  lemma TrimmedAlike(a: string, b: string)
    ensures TrimSlash(a) == TrimSlash(b) <==> SameOrigin(a, b)
  {
    assert a != "" && a[|a| - 1] == '/' ==> a == a[..|a| - 1] + "/";
    assert b != "" && b[|b| - 1] == '/' ==> b == b[..|b| - 1] + "/";
    assert b == a + "/" ==> b[..|b| - 1] == a;
    assert a == b + "/" ==> a[..|a| - 1] == b;
  }

  // One entry is accepted for a name, metadata that is not blank or negative,
  // and a URL that is no more than an HTTP origin.
  lemma OneAccepted(syn: Syntax, m: Model)
    ensures Accepted(syn, [m]) <==>
              && !syn.blank(m.name)
              && (m.displayName != "" ==> !syn.blank(m.displayName))
              && (m.pricing.Some? ==> m.pricing.value.input >= 0 && m.pricing.value.output >= 0)
              && '#' !in m.url
              && syn.parse(m.url).Some?
              && var u := syn.parse(m.url).value;
                 && (u.scheme == "http" || u.scheme == "https") && |u.hostname| > 0 && !u.hasUser
                 && (u.path == "" || u.path == "/") && u.rawQuery == "" && !u.forceQuery && u.fragment == ""
  {
    assert m in [m];
  }

  // Two entries are accepted together unless they share a name and differ in
  // what is public of it, or are one destination; a slash at the end of an
  // origin makes no difference.
  lemma TwoAccepted(syn: Syntax, a: Model, b: Model)
    requires Accepted(syn, [a]) && Accepted(syn, [b])
    ensures Accepted(syn, [a, b]) <==>
              (a.name == b.name ==>
                 && a.displayName == b.displayName && a.pricing == b.pricing
                 && var ua, ub := syn.parse(a.url), syn.parse(b.url);
                    !(ua.Some? && ub.Some? && SameOrigin(ua.value.text, ub.value.text)))
  {
    assert a in [a] && b in [b];
    assert syn.parse(a.url).Some? && syn.parse(b.url).Some?;
    TrimmedAlike(syn.parse(a.url).value.text, syn.parse(b.url).value.text);
    var both := [a, b];
    assert both[0] == a && both[1] == b;
    assert forall m <- both :: MetadataOk(syn, m) && UrlOk(syn, m);
  }

  // And any registry when its entries are, one by one and two by two.
  lemma AllAccepted(syn: Syntax, models: seq<Model>)
    ensures Accepted(syn, models) <==>
              && (forall m <- models :: Accepted(syn, [m]))
              && (forall i, j :: 0 <= i < j < |models| ==> Accepted(syn, [models[i], models[j]]))
  {
    if Accepted(syn, models) {
      forall i, j | 0 <= i < j < |models|
        ensures Accepted(syn, [models[i], models[j]])
      {
        assert models[i] in models && models[j] in models;
      }
    }
    if (forall m <- models :: Accepted(syn, [m]))
       && (forall i, j :: 0 <= i < j < |models| ==> Accepted(syn, [models[i], models[j]])) {
      forall m | m in models
        ensures MetadataOk(syn, m) && UrlOk(syn, m)
      {
        assert [m][0] in [m];
      }
      forall i, j | 0 <= i < j < |models|
        ensures models[i].name == models[j].name ==> SameMetadata(models[i], models[j])
        ensures Destination(syn, models[i]) != Destination(syn, models[j])
      {
        var both := [models[i], models[j]];
        assert Accepted(syn, both) && both[0] == models[i] && both[1] == models[j];
      }
    }
  }

  predicate Fits(syn: Syntax, before: seq<Model>, m: Model) {
    && MetadataOk(syn, m) && UrlOk(syn, m)
    && forall x <- before :: (x.name == m.name ==> SameMetadata(x, m)) && Destination(syn, x) != Destination(syn, m)
  }

  lemma AcceptedSnoc(syn: Syntax, before: seq<Model>, m: Model)
    ensures Accepted(syn, before + [m]) <==> Accepted(syn, before) && Fits(syn, before, m)
  {
    var all := before + [m];
    if Accepted(syn, all) {
      AcceptedPrefix(syn, all, |before|);
      assert all[..|before|] == before;
      assert all[|before|] == m && m in all;
      forall x | x in before
        ensures (x.name == m.name ==> SameMetadata(x, m)) && Destination(syn, x) != Destination(syn, m)
      {
        var i :| 0 <= i < |before| && before[i] == x;
        assert all[i] == x;
      }
    }
  }

  // What the loop says of an entry after others that were accepted: the first
  // of its complaints, in the order in which it looks.
  function Complaint(syn: Syntax, before: seq<Model>, m: Model): (v: Verdict)
    ensures v.Fine? <==> Fits(syn, before, m)
  {
    if !MetadataOk(syn, m) then BadShape
    else if exists x <- before :: x.name == m.name && !SameMetadata(x, m) then BadMetadata
    else if !UrlOk(syn, m) then BadShape
    else if exists x <- before :: Destination(syn, x) == Destination(syn, m) then Taken
    else Fine
  }

  // What loading a registry gives.
  function Load(syn: Syntax, models: seq<Model>): Result<seq<Model>, LoadError> {
    if models == [] then Ok([])
    else
      var n := |models| - 1;
      match Load(syn, models[..n])
      case Err(error) => Err(error)
      case Ok(_) =>
        var v := Complaint(syn, models[..n], models[n]);
        if v.Fine? then Ok(models) else Err(LoadError(n, v))
  }

  // Loading accepts exactly the accepted registries, and otherwise names the
  // first entry that spoils one.
  lemma {:induction false} LoadMeaning(syn: Syntax, models: seq<Model>)
    ensures var r := Load(syn, models);
            && (r.Ok? <==> Accepted(syn, models)) && (r.Ok? ==> r.value == models)
            && (r.Err? ==>
                  && r.error.index < |models|
                  && Accepted(syn, models[..r.error.index]) && !Accepted(syn, models[..r.error.index + 1]))
    decreases |models|
  {
    if models != [] {
      var n := |models| - 1;
      LoadMeaning(syn, models[..n]);
      AcceptedSnoc(syn, models[..n], models[n]);
      assert models == models[..n] + [models[n]] == models[..n + 1];
      if Load(syn, models[..n]).Err? {
        FirstBadStays(models, n, Load(syn, models[..n]).error.index);
      }
    }
  }

  predicate DisagreesBefore(models: seq<Model>, i: nat)
    requires i < |models|
  {
    exists j :: 0 <= j < i && models[j].name == models[i].name
                && (models[j].displayName != models[i].displayName || models[j].pricing != models[i].pricing)
  }

  predicate RepeatsBefore(syn: Syntax, models: seq<Model>, i: nat)
    requires i < |models|
  {
    exists j :: 0 <= j < i && models[j].name == models[i].name
                && var u, v := syn.parse(models[j].url), syn.parse(models[i].url);
                   u.Some? && v.Some? && SameOrigin(u.value.text, v.value.text)
  }

  // What loading says of the entry it names: its metadata disagrees with an
  // entry before, or it repeats a destination, or else it is no good itself.
  lemma LoadReason(syn: Syntax, models: seq<Model>)
    requires Load(syn, models).Err?
    ensures var error := Load(syn, models).error;
            error.index < |models| &&
            var m := models[error.index];
            && (error.reason == BadMetadata <==>
                  && !syn.blank(m.name) && (m.displayName != "" ==> !syn.blank(m.displayName))
                  && (m.pricing.Some? ==> m.pricing.value.input >= 0 && m.pricing.value.output >= 0)
                  && DisagreesBefore(models, error.index))
            && (error.reason == Taken <==>
                  && Accepted(syn, [m]) && !DisagreesBefore(models, error.index)
                  && RepeatsBefore(syn, models, error.index))
            && (error.reason == BadShape || error.reason == BadMetadata || error.reason == Taken)
  {
    LoadMeaning(syn, models);
    var i := Load(syn, models).error.index;
    assert models[..i + 1] == models[..i] + [models[i]];
    ReasonIsComplaint(syn, models);
    OneAccepted(syn, models[i]);
    ComplaintMeaning(syn, models, i);
  }

  lemma {:induction false} ReasonIsComplaint(syn: Syntax, models: seq<Model>)
    requires Load(syn, models).Err?
    ensures var error := Load(syn, models).error;
            && error.index < |models| && Accepted(syn, models[..error.index])
            && error.reason == Complaint(syn, models[..error.index], models[error.index]) != Fine
    decreases |models|
  {
    var n := |models| - 1;
    if models != [] {
      if Load(syn, models[..n]).Err? {
        ReasonIsComplaint(syn, models[..n]);
        FirstBadStays(models, n, Load(syn, models[..n]).error.index);
      } else {
        LoadMeaning(syn, models[..n]);
      }
    }
  }

  lemma ComplaintMeaning(syn: Syntax, models: seq<Model>, i: nat)
    requires i < |models| && Accepted(syn, models[..i])
    ensures var v, m := Complaint(syn, models[..i], models[i]), models[i];
            && (v == BadMetadata <==> MetadataOk(syn, m) && DisagreesBefore(models, i))
            && (v == Taken <==>
                  MetadataOk(syn, m) && UrlOk(syn, m) && !DisagreesBefore(models, i) && RepeatsBefore(syn, models, i))
  {
    var before, m := models[..i], models[i];
    forall x | x in before
      ensures exists j :: 0 <= j < i && models[j] == x
    {
      var j :| 0 <= j < |before| && before[j] == x;
      assert models[j] == x;
    }
    forall j | 0 <= j < i
      ensures models[j] in before && UrlOk(syn, models[j])
      ensures UrlOk(syn, m) ==>
                (Destination(syn, models[j]) == Destination(syn, m) <==>
                   models[j].name == m.name
                   && SameOrigin(syn.parse(models[j].url).value.text, syn.parse(m.url).value.text))
    {
      assert models[j] == before[j];
      if UrlOk(syn, m) {
        TrimmedAlike(syn.parse(models[j].url).value.text, syn.parse(m.url).value.text);
      }
    }
  }

  lemma FirstBadStays(models: seq<Model>, n: nat, i: nat)
    requires i < n <= |models|
    ensures models[..n][..i] == models[..i] && models[..n][..i + 1] == models[..i + 1]
  {
  }

  lemma LoadNext(syn: Syntax, models: seq<Model>, n: nat)
    requires n < |models|
    ensures Load(syn, models[..n + 1]) ==
            match Load(syn, models[..n])
            case Err(error) => Err(error)
            case Ok(_) =>
              var v := Complaint(syn, models[..n], models[n]);
              if v.Fine? then Ok(models[..n + 1]) else Err(LoadError(n, v))
  {
    assert models[..n + 1][..n] == models[..n];
  }

  // What follows a bad entry does not matter.
  lemma {:induction false} LoadStays(syn: Syntax, models: seq<Model>, i: nat, n: nat)
    requires i <= n <= |models| && Load(syn, models[..i]).Err?
    ensures Load(syn, models[..n]) == Load(syn, models[..i])
    decreases n
  {
    if i < n {
      LoadStays(syn, models, i, n - 1);
      LoadNext(syn, models, n - 1);
    }
  }

  lemma LoadStep(syn: Syntax, models: seq<Model>, i: nat, v: Verdict)
    requires i < |models| && Load(syn, models[..i]).Ok? && v == Complaint(syn, models[..i], models[i])
    ensures v.Fine? ==> Load(syn, models[..i + 1]) == Ok(models[..i + 1])
    ensures !v.Fine? ==> Load(syn, models) == Err(LoadError(i, v))
  {
    LoadNext(syn, models, i);
    if !v.Fine? {
      LoadStays(syn, models, i + 1, |models|);
      assert models[..|models|] == models;
    }
  }

  // What the two maps of the acceptance loop know of the entries before.
  ghost predicate Tracks(syn: Syntax, before: seq<Model>, metadata: map<string, Model>,
                         destinations: set<(string, string)>)
  {
    && (forall m <- before ::
          m.name in metadata && SameMetadata(metadata[m.name], m) && Destination(syn, m) in destinations)
    && (forall name <- metadata :: exists m <- before :: m.name == name)
    && (forall d <- destinations :: exists m <- before :: Destination(syn, m) == d)
  }

  lemma TracksSnoc(syn: Syntax, before: seq<Model>, metadata: map<string, Model>,
                   destinations: set<(string, string)>, m: Model)
    requires Tracks(syn, before, metadata, destinations) && Fits(syn, before, m)
    ensures Tracks(syn, before + [m], metadata[m.name := m], destinations + {Destination(syn, m)})
  {
    var all := before + [m];
    assert m in all && forall x <- before :: x in all;
  }

  lemma TracksNext(syn: Syntax, models: seq<Model>, i: nat, metadata: map<string, Model>,
                   destinations: set<(string, string)>)
    requires i < |models| && Tracks(syn, models[..i], metadata, destinations)
    requires Complaint(syn, models[..i], models[i]).Fine?
    ensures Tracks(syn, models[..i + 1], metadata[models[i].name := models[i]],
                   destinations + {Destination(syn, models[i])})
  {
    assert models[..i + 1] == models[..i] + [models[i]];
    TracksSnoc(syn, models[..i], metadata, destinations, models[i]);
  }

  method CheckEntry(syn: Syntax, ghost before: seq<Model>, m: Model, metadata: map<string, Model>,
                    destinations: set<(string, string)>) returns (v: Verdict)
    requires Tracks(syn, before, metadata, destinations)
    ensures v == Complaint(syn, before, m)
  {
    if !MetadataOk(syn, m) {
      return BadShape;
    }
    if m.name in metadata && !SameMetadata(metadata[m.name], m) {
      ghost var x :| x in before && x.name == m.name;
      return BadMetadata;
    }
    if !UrlOk(syn, m) {
      return BadShape;
    }
    if Destination(syn, m) in destinations {
      return Taken;
    }
    return Fine;
  }

  // The acceptance loop, with its two maps.
  method LoadModels(syn: Syntax, models: seq<Model>) returns (r: Result<seq<Model>, LoadError>)
    ensures r == Load(syn, models)
  {
    var destinations: set<(string, string)> := {};
    var metadata: map<string, Model> := map[];
    for i := 0 to |models|
      invariant Load(syn, models[..i]) == Ok(models[..i]) && Tracks(syn, models[..i], metadata, destinations)
    {
      var verdict := CheckEntry(syn, models[..i], models[i], metadata, destinations);
      LoadStep(syn, models, i, verdict);
      if verdict != Fine {
        return Err(LoadError(i, verdict));
      }
      TracksNext(syn, models, i, metadata, destinations);
      metadata := metadata[models[i].name := models[i]];
      destinations := destinations + {Destination(syn, models[i])};
    }
    assert models[..|models|] == models;
    return Ok(models);
  }

  // ---- Catalog ----

  datatype Info = Info(displayName: string, pricing: Option<Pricing>)

  function Names(models: seq<Model>): set<string> {
    set m | m in models :: m.name
  }

  lemma NamesSnoc(before: seq<Model>, m: Model)
    ensures Names(before + [m]) == Names(before) + {m.name}
  {
    assert m in before + [m] && forall x <- before :: x in before + [m];
  }

  function InfoOf(m: Model): Info { Info(m.displayName, m.pricing) }

  function CatalogInfo(catalog: map<string, Model>): map<string, Info> {
    map name | name in catalog :: InfoOf(catalog[name])
  }

  // The public metadata of each name, as any of its replicas states it.
  ghost predicate Describes(info: map<string, Info>, models: seq<Model>) {
    && info.Keys == Names(models)
    && forall m <- models :: info[m.name] == InfoOf(m)
  }

  // The catalog loop: the last replica of a name wins.
  method ModelCatalog(syn: Syntax, models: seq<Model>) returns (catalog: map<string, Model>)
    requires Accepted(syn, models)
    ensures Describes(CatalogInfo(catalog), models)
  {
    catalog := map[];
    for i := 0 to |models|
      invariant catalog.Keys == set j | 0 <= j < i :: models[j].name
      invariant forall j :: 0 <= j < i ==> InfoOf(catalog[models[j].name]) == InfoOf(models[j])
    {
      catalog := catalog[models[i].name := models[i]];
    }
  }

  // Metadata does not depend on the order of the registry, nor on anything
  // but its set of entries.
  lemma CatalogIgnoresOrder(a: seq<Model>, b: seq<Model>, infoA: map<string, Info>, infoB: map<string, Info>)
    requires forall m :: m in a <==> m in b
    requires Describes(infoA, a) && Describes(infoB, b)
    ensures infoA == infoB
  {
    assert Names(a) == Names(b);
  }

  method SameCatalog(next: map<string, Model>, catalog: map<string, Model>) returns (same: bool)
    ensures same <==> CatalogInfo(next) == CatalogInfo(catalog)
  {
    ghost var a, b := CatalogInfo(next), CatalogInfo(catalog);
    if |next| != |catalog| {
      assert a.Keys == next.Keys && b.Keys == catalog.Keys;
      return false;
    }
    var rest := catalog.Keys;
    while rest != {}
      invariant rest <= catalog.Keys
      invariant forall name <- catalog.Keys - rest :: name in next && InfoOf(next[name]) == InfoOf(catalog[name])
      decreases rest
    {
      var name :| name in rest;
      if name !in next || !SameMetadata(catalog[name], next[name]) {
        assert name in b && (name in a ==> a[name] != b[name]);
        return false;
      }
      rest := rest - {name};
    }
    SubsetOfSameSize(catalog.Keys, next.Keys);
    return true;
  }

  lemma SubsetOfSameSize(a: set<string>, b: set<string>)
    requires a <= b && |a| == |b|
    ensures a == b
  {
    assert b == a + (b - a);
    assert |b| == |a| + |b - a|;
  }

  // One configured rate per priced name, whatever the number of replicas.
  method PricedModels(syn: Syntax, models: seq<Model>) returns (priced: seq<Model>)
    requires Accepted(syn, models)
    ensures forall p <- priced :: p in models && p.pricing.Some?
    ensures forall i, j :: 0 <= i < j < |priced| ==> priced[i].name != priced[j].name
    ensures forall m <- models :: m.pricing.Some? ==> exists p <- priced :: p.name == m.name && p.pricing == m.pricing
  {
    var seen: set<string> := {};
    priced := [];
    for i := 0 to |models|
      invariant forall p <- priced :: p in models && p.pricing.Some?
      invariant forall a, b :: 0 <= a < b < |priced| ==> priced[a].name != priced[b].name
      invariant seen == Names(priced)
      invariant forall j :: 0 <= j < i && models[j].pricing.Some? ==> models[j].name in seen
    {
      if models[i].pricing.Some? && models[i].name !in seen {
        NamesSnoc(priced, models[i]);
        priced := priced + [models[i]];
        seen := seen + {models[i].name};
      }
    }
    PricedCovers(syn, models, priced);
  }

  lemma PricedCovers(syn: Syntax, models: seq<Model>, priced: seq<Model>)
    requires Accepted(syn, models) && forall p <- priced :: p in models
    requires forall j :: 0 <= j < |models| && models[j].pricing.Some? ==> exists p <- priced :: p.name == models[j].name
    ensures forall m <- models :: m.pricing.Some? ==> exists p <- priced :: p.name == m.name && p.pricing == m.pricing
  {
    forall m | m in models && m.pricing.Some?
      ensures exists p <- priced :: p.name == m.name && p.pricing == m.pricing
    {
      var i :| 0 <= i < |models| && models[i] == m;
      var p :| p in priced && p.name == m.name;
      var j :| 0 <= j < |models| && models[j] == p;
      assert SameMetadata(p, m);
    }
  }
}
