// Registries and a parser that show where a reload does not do what it is meant
// to do.
module ReloadExamples {
  import opened Wrappers
  import opened Registry
  import opened Fingerprint
  import opened Membership

  const G := "http://g"
  const H := "http://h"
  const CAPITALS := "HTTP://h"

  // A parser that knows two hosts, one of them in two spellings.
  function Spelled(origin: string): Option<string> {
    if origin == G then Some(G)
    else if origin == H || origin == CAPITALS then Some(H)
    else None
  }

  function TwoHosts(url: string): Option<Url> {
    match Spelled(TrimSlash(url))
    case None => None
    case Some(text) =>
      Some(Url("http", text[7..], false, if url == TrimSlash(url) then "" else "/", "", false, "", text))
  }

  const TWO_HOSTS := Syntax(TwoHosts, (s: string) => s == "")

  lemma Spellings()
    ensures TrimSlash(G) == G && TrimSlash(H) == H && TrimSlash(CAPITALS) == CAPITALS
    ensures G[7] != H[7] && CAPITALS[0] != H[0] && CAPITALS[0] != G[0] && |G| == |H| == |CAPITALS| == 8
    ensures G != H && H != CAPITALS && G != CAPITALS
  {
  }

  lemma SpelledText(origin: string)
    requires Spelled(origin).Some?
    ensures NUL !in origin && TrimSlash(origin) == origin
    ensures var text := Spelled(origin).value;
            NUL !in text && '\n' !in text && TrimSlash(text) == text && Spelled(text) == Some(text)
  {
    Spellings();
  }

  lemma KnownUrl(u: string)
    requires TwoHosts(u).Some?
    ensures NUL !in u
    ensures Printed(TWO_HOSTS, TrimSlash(u)) == Printed(TWO_HOSTS, u) == Printed(TWO_HOSTS, Printed(TWO_HOSTS, u))
    ensures NUL !in TwoHosts(u).value.text && '\n' !in TwoHosts(u).value.text
  {
    SpelledText(TrimSlash(u));
    assert forall c :: c in u ==> c in TrimSlash(u) || c == '/';
  }

  lemma TwoHostsArePlain()
    ensures PlainSyntax(TWO_HOSTS)
  {
    forall u | TWO_HOSTS.parse(u).Some?
      ensures NUL !in u && NUL !in TWO_HOSTS.parse(u).value.text && '\n' !in TWO_HOSTS.parse(u).value.text
      ensures Printed(TWO_HOSTS, TrimSlash(u)) == Printed(TWO_HOSTS, u) == Printed(TWO_HOSTS, Printed(TWO_HOSTS, u))
    {
      KnownUrl(u);
    }
  }

  function Entry(name: string, url: string): Model {
    Model(name, url, "", None)
  }

  const PLAIN_INFO := Info("", None)

  lemma EntryOrigins()
    ensures forall name :: Origin(TWO_HOSTS, Entry(name, G)) == G
    ensures forall name :: Origin(TWO_HOSTS, Entry(name, H)) == H
    ensures forall name :: Origin(TWO_HOSTS, Entry(name, CAPITALS)) == H
  {
    Spellings();
  }

  // ---- A reload after which the cache lacks a routed backend ----

  lemma OneEntry(url: string)
    requires url == G || url == CAPITALS
    ensures Acceptable(TWO_HOSTS, map["m" := PLAIN_INFO], Some([Entry("m", url)]))
  {
    Spellings();
    assert forall m <- [Entry("m", url)] :: m == Entry("m", url);
    assert Entry("m", url) in [Entry("m", url)];
  }

  lemma OneKey(url: string)
    ensures MemberKeys(TWO_HOSTS, [Entry("m", url)]) == {KeyOf(TWO_HOSTS, Entry("m", url))}
    ensures RawKeys([Entry("m", url)]) == {RawKey(Entry("m", url))}
  {
    var m := Entry("m", url);
    assert m in [m] && forall x <- [m] :: x == m;
  }

  const ALL_FINE: nat -> Probe := (j: nat) => Status(200)

  // The member moves to a host that the file spells in capitals. The file is
  // accepted, probed and published, and the clean-up drops the one member that
  // is now routed to.
  lemma CapitalsAreDropped()
    ensures PlainSyntax(TWO_HOSTS)
    ensures var published, file := [Entry("m", G)], [Entry("m", CAPITALS)];
            var before := Standing(published, MemberKeys(TWO_HOSTS, published), published);
            var outcome := Decision(TWO_HOSTS, map["m" := PLAIN_INFO], before, Some(file), ALL_FINE);
            && Acceptable(TWO_HOSTS, map["m" := PLAIN_INFO], Some(published))
            && outcome == Ok(Published)
            && Next(TWO_HOSTS, before, Some(file), outcome).cached == {}
            && MemberKeys(TWO_HOSTS, file) == {Member("m", H)}
  {
    TwoHostsArePlain();
    OneEntry(G);
    CapitalsKeys();
    CapitalsArePublished();
  }

  lemma CapitalsArePublished()
    ensures var published, file := [Entry("m", G)], [Entry("m", CAPITALS)];
            var before := Standing(published, MemberKeys(TWO_HOSTS, published), published);
            Decision(TWO_HOSTS, map["m" := PLAIN_INFO], before, Some(file), ALL_FINE) == Ok(Published)
  {
    DroppedIsPublished([Entry("m", G)], [Entry("m", CAPITALS)], MemberKeys(TWO_HOSTS, [Entry("m", G)]),
                       ALL_FINE);
  }

  lemma CapitalsKeys()
    ensures MemberKeys(TWO_HOSTS, [Entry("m", CAPITALS)]) == {Member("m", H)}
    ensures MemberKeys(TWO_HOSTS, [Entry("m", CAPITALS)]) * RawKeys([Entry("m", CAPITALS)]) == {}
  {
    EntryOrigins();
    Spellings();
    OneKey(CAPITALS);
    assert Member("m", H)[2..] == H && Member("m", CAPITALS)[2..] == CAPITALS;
  }

  lemma DroppedIsPublished(published: seq<Model>, file: seq<Model>, cached: set<string>, probes: nat -> Probe)
    requires published == [Entry("m", G)] && file == [Entry("m", CAPITALS)]
    requires forall j :: probes(j) == Status(200)
    ensures Judgement(TWO_HOSTS, map["m" := PLAIN_INFO], FingerprintText(TWO_HOSTS, published), cached, Some(file),
                      probes) == Ok(Published)
  {
    OneEntry(G);
    OneEntry(CAPITALS);
    EntryOrigins();
    Spellings();
    SingleText(TWO_HOSTS, published[0]);
    SingleText(TWO_HOSTS, file[0]);
    assert Member("m", H)[2..] == H && Member("m", G)[2..] == G;
    if KeyOf(TWO_HOSTS, published[0]) != KeyOf(TWO_HOSTS, file[0])
       && FingerprintText(TWO_HOSTS, published) == FingerprintText(TWO_HOSTS, file) {
      SameAfterVersion(KeyOf(TWO_HOSTS, published[0]), KeyOf(TWO_HOSTS, file[0]));
    }
    PublishedExactlyWhen(TWO_HOSTS, map["m" := PLAIN_INFO], FingerprintText(TWO_HOSTS, published), cached, Some(file),
                         probes);
  }

  // ---- A change of membership that a reload does not see ----

  // A name that begins with a member of another name.
  const NESTED := "a\0http://g\na"

  const KEPT := [Entry("a", G), Entry(NESTED, H)]
  const SWAPPED := [Entry(NESTED, G), Entry("a", H)]

  lemma SameInfo(info: map<string, Info>)
    requires Describes(info, KEPT)
    ensures Describes(info, SWAPPED)
  {
    assert Entry("a", G) in KEPT && Entry(NESTED, H) in KEPT;
    assert forall m <- SWAPPED :: m == Entry(NESTED, G) || m == Entry("a", H);
    assert Entry(NESTED, G) in SWAPPED && Entry("a", H) in SWAPPED;
    assert forall m <- KEPT :: m == Entry("a", G) || m == Entry(NESTED, H);
  }

  lemma SwappedAccepted()
    ensures Accepted(TWO_HOSTS, KEPT) && Accepted(TWO_HOSTS, SWAPPED)
  {
    Spellings();
    assert |NESTED| > |"a"|;
  }

  const SHARED := Member("a", G) + "\n" + Member(NESTED, H)

  lemma KeptText()
    ensures FingerprintText(TWO_HOSTS, KEPT) == ROUTING_VERSION + "\n" + SHARED
  {
    EntryOrigins();
    NestedName();
    LeqPrefix(Member("a", G), "\na" + [NUL] + H);
    assert Member(NESTED, H) == Member("a", G) + ("\na" + [NUL] + H);
    PairText(TWO_HOSTS, Entry("a", G), Entry(NESTED, H));
  }

  lemma SwappedText()
    ensures FingerprintText(TWO_HOSTS, SWAPPED) == ROUTING_VERSION + "\n" + SHARED
  {
    EntryOrigins();
    NestedFirst();
    NestedName();
    Regrouped(Member("a", G), G, H);
    PairText(TWO_HOSTS, Entry(NESTED, G), Entry("a", H));
  }

  lemma NestedName()
    ensures NESTED == Member("a", G) + "\na"
  {
  }

  lemma Regrouped(x: string, g: string, h: string)
    requires x == "a" + [NUL] + g && NESTED == x + "\na"
    ensures x + "\n" + Member(NESTED, h) == Member(NESTED, g) + "\n" + Member("a", h)
  {
    assert Member(NESTED, g) == x + "\n" + x;
  }

  lemma NestedFirst()
    ensures Leq(Member(NESTED, G), Member("a", H))
  {
    var x, y := Member(NESTED, G), Member("a", H);
    assert x == Member("a", "http://") + ("g\na" + [NUL] + G);
    assert y == Member("a", "http://") + "h";
    LeqAfter(Member("a", "http://"), "g\na" + [NUL] + G, "h");
  }

  lemma {:induction false} LeqAfter(x: string, s: string, t: string)
    requires Leq(s, t)
    ensures Leq(x + s, x + t)
  {
    if x == "" {
      assert x + s == s && x + t == t;
    } else {
      assert (x + s)[1..] == x[1..] + s && (x + t)[1..] == x[1..] + t;
      LeqAfter(x[1..], s, t);
    }
  }

  // The two names swap hosts. Whatever is cached and whatever the probes say,
  // the reload takes the file for unchanged and goes on routing to the old
  // hosts.
  lemma SwapIsUnseen(info: map<string, Info>, cached: set<string>, probes: nat -> Probe)
    requires Describes(info, KEPT)
    ensures PlainSyntax(TWO_HOSTS) && Accepted(TWO_HOSTS, KEPT) && Accepted(TWO_HOSTS, SWAPPED)
    ensures Judgement(TWO_HOSTS, info, FingerprintText(TWO_HOSTS, KEPT), cached, Some(SWAPPED), probes) == Ok(Unchanged)
    ensures ("a", G) in Destinations(TWO_HOSTS, KEPT) && ("a", G) !in Destinations(TWO_HOSTS, SWAPPED)
    ensures !Separable(info.Keys)
  {
    TwoHostsArePlain();
    SwappedAccepted();
    SameInfo(info);
    KeptText();
    SwappedText();
    LoadMeaning(TWO_HOSTS, SWAPPED);
    SwapChangesMembers();
    NestedIsInseparable(info);
  }

  lemma SwapChangesMembers()
    ensures ("a", G) in Destinations(TWO_HOSTS, KEPT) && ("a", G) !in Destinations(TWO_HOSTS, SWAPPED)
  {
    EntryOrigins();
    Spellings();
    assert Entry("a", G) in KEPT && Destination(TWO_HOSTS, Entry("a", G)) == ("a", G);
    assert |NESTED| > |"a"|;
    assert forall m <- SWAPPED :: m == Entry(NESTED, G) || m == Entry("a", H);
  }

  lemma NestedIsInseparable(info: map<string, Info>)
    requires Describes(info, KEPT)
    ensures !Separable(info.Keys)
  {
    assert Entry("a", G) in KEPT && Entry(NESTED, H) in KEPT;
    assert "a" in info.Keys && NESTED in info.Keys;
    assert NUL !in G && '\n' !in G;
    assert Member("a", G) + "\n" <= NESTED;
  }

  // ---- Two entries that one reads like ----

  lemma TwoNamesAccepted(models: seq<Model>)
    requires models == [Entry("a", H), Entry("b", H)]
    ensures Accepted(TWO_HOSTS, models)
  {
    Spellings();
  }

  lemma TwoNamesHaveATwin()
    ensures var models := [Entry("a", H), Entry("b", H)];
            && Accepted(TWO_HOSTS, models)
            && exists b :: && Accepted(TWO_HOSTS, b) && |b| == 1
                           && FingerprintText(TWO_HOSTS, b) == FingerprintText(TWO_HOSTS, models)
                           && Destinations(TWO_HOSTS, b) != Destinations(TWO_HOSTS, models)
  {
    var models := [Entry("a", H), Entry("b", H)];
    TwoHostsArePlain();
    PlainSyntaxOrigins(TWO_HOSTS, models);
    TwoNamesAccepted(models);
    TwinPrintsAlike(TWO_HOSTS, models);
    TwinIsAccepted(TWO_HOSTS, models);
    assert |Twin(TWO_HOSTS, models)| == 1;
  }
}
