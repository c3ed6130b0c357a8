/** A change set of every kind that meets the hypotheses of the prediction: an
    update, a withdrawal, an adoption and a record skipped. */
module Scenario {
  import opened Types
  import opened Spelling
  import opened Uci
  import opened Graph
  import opened IndexTable
  import opened Reconcile
  import opened Plain
  import opened Order
  import opened Plan
  import opened Grouping
  import opened Tracking
  import opened Prediction
  import opened Forecast
  import opened Limits

  function One(): string { "1.2.3.4" }

  function Two(): string { "4.3.2.1" }

  // A section for the first address, marked or not.
  function Host(name: string, owner: string): Options {
    var o := map[TYPE := Str("domain"), "name" := Str(name), "ip" := Str(One())];
    if owner == "" then o else o[OWNER := Str(owner)]
  }

  function Alias(): Options {
    map[TYPE := Str("cname"), "cname" := Str("d"), "target" := Str("e")]
  }

  // Two addresses of this instance's, an unmarked one and an unmarked CNAME.
  function Before(id: string): Config {
    map["s1" := Host("a", id), "s2" := Host("b", id), "s3" := Host("c", ""), "s4" := Alias()]
  }

  function Address(name: string, ip: string, owner: string): Record {
    Record(A, name, ip, owner)
  }

  function Other(): Record { Record(CNAME, "d", "e", "") }

  function Found(id: string): Index {
    map["s1" := Address("a", One(), id), "s2" := Address("b", One(), id), "s3" := Address("c", One(), ""),
        "s4" := Other()]
  }

  function Asks(name: string, ip: string): Endpoint {
    Endpoint(name, "A", [ip], "", 0, map[], [])
  }

  // a gets another address and b goes; c is there unmarked; d has a CNAME.
  function Mixed(): Changes {
    Changes([Asks("c", One()), Asks("d", One())], [Asks("a", One())], [Asks("a", Two())], [Asks("b", One())])
  }

  function Told(): Targets {
    map[RecordKey("a", "A") := [One()], RecordKey("b", "A") := [One()]]
  }

  // ---------- the names and addresses ----------

  lemma AddressesFit()
    ensures IsIPv4(One()) && !TooLong(One()) && IsIPv4(Two()) && !TooLong(Two())
  {
    DottedFits();
    hide Split;
    SplitFirst("4", "3.2.1", '.');
    SplitFirst("3", "2.1", '.');
    SplitFirst("2", "1", '.');
    SplitNone("1", '.');
    assert "4.3.2.1" == "4" + ['.'] + "3.2.1";
    assert "3.2.1" == "3" + ['.'] + "2.1";
    assert "2.1" == "2" + ['.'] + "1";
  }

  lemma AddressesClean()
    ensures (forall c <- One() :: !BreaksDnsmasq(c)) && forall c <- Two() :: !BreaksDnsmasq(c)
  {
  }

  predicate Letter(s: string) {
    |s| == 1 && 'a' <= s[0] <= 'e'
  }

  lemma Letters()
    ensures Letter("a") && Letter("b") && Letter("c") && Letter("d") && Letter("e")
  {
  }

  lemma LetterPlain(s: string)
    requires Letter(s)
    ensures CanonicalName(s) == s && !TooLong(s) && (forall c <- s :: !BreaksDnsmasq(c)) && '|' !in s
  {
    SplitNone(s, '.');
    hide Split;
    assert TrimDot(s) == s && TrimRight(s) == s && TrimLeft(s) == s;
    assert ToLower(s)[0] == s[0];
  }

  lemma PlainAddress(r: Record)
    requires r.rtype.A? && CanonicalName(r.name) == r.name != "" && r.value != ""
    requires !TooLong(r.name) && !TooLong(r.value) && IsIPv4(r.value)
    requires (forall c <- r.name :: !BreaksDnsmasq(c)) && forall c <- r.value :: !BreaksDnsmasq(c)
    ensures Valid(r) && Canonical(r) == r
  {
    hide CanonicalName, IsIPv4, TooLong, BreaksDnsmasq;
  }

  lemma AddressPlain(name: string, ip: string, owner: string)
    requires Letter(name) && (ip == One() || ip == Two())
    ensures Valid(Address(name, ip, owner)) && Canonical(Address(name, ip, owner)) == Address(name, ip, owner)
    ensures Stable(Address(name, ip, owner)) && PipeFree(Address(name, ip, owner))
    ensures '|' !in Address(name, ip, owner).name
  {
    LetterPlain(name);
    AddressesFit();
    AddressesClean();
    assert name != "" && One() != "" && Two() != "";
    hide CanonicalName, IsIPv4, TooLong, BreaksDnsmasq, One, Two, Letter, Valid;
    PlainAddress(Address(name, ip, owner));
  }

  lemma CnamePlain()
    ensures Canonical(Other()) == Other() && '|' !in Other().name
  {
    LetterPlain("d");
    LetterPlain("e");
    hide CanonicalName;
  }

  // ---------- the router ----------

  lemma HostOptions(name: string, owner: string)
    ensures var o := Host(name, owner);
      && StringOption(o, TYPE) == "domain" && StringOption(o, "name") == name && StringOption(o, "ip") == One()
      && StringOption(o, OWNER) == owner
  {
    hide One;
  }

  lemma HostReads(site: Site, name: string, owner: string)
    requires Letter(name)
    ensures Parse(site, Host(name, owner)) == Some(Address(name, One(), owner))
  {
    HostOptions(name, owner);
    AddressPlain(name, One(), owner);
    AddressesFit();
    assert One() != "" && name != "";
    hide Canonical, IsIPv4, Validate, One, Letter, PipeFree, Stable, Host, StringOption;
  }

  lemma AliasReads(site: Site)
    ensures Parse(site, Alias()) == Some(Other())
  {
    CnamePlain();
    hide Canonical;
    var o := Alias();
    assert StringOption(o, TYPE) == "cname" && StringOption(o, "cname") == "d" && StringOption(o, "target") == "e";
    assert StringOption(o, OWNER) == "";
  }

  lemma BeforeNames(id: string)
    ensures var c := Before(id);
      && c.Keys == {"s1", "s2", "s3", "s4"} && c["s1"] == Host("a", id) && c["s2"] == Host("b", id)
      && c["s3"] == Host("c", "") && c["s4"] == Alias()
  {
    hide Host, Alias;
  }

  lemma FoundNames(id: string)
    ensures var m := Found(id);
      && m.Keys == {"s1", "s2", "s3", "s4"} && m["s1"] == Address("a", One(), id) && m["s2"] == Address("b", One(), id)
      && m["s3"] == Address("c", One(), "") && m["s4"] == Other()
  {
    hide Address, One, Other;
  }

  lemma BeforeReads(site: Site)
    ensures Sections(site, Before(site.id)) == Found(site.id)
  {
    HostReads(site, "a", site.id);
    HostReads(site, "b", site.id);
    HostReads(site, "c", "");
    AliasReads(site);
    BeforeNames(site.id);
    FoundNames(site.id);
    hide Parse, Host, Alias, Letter, Address, One, Other, Before, Found, Sections;
    ReadsAs(site, Before(site.id), Found(site.id));
  }

  lemma ReadsAs(site: Site, c: Config, m: Index)
    requires c.Keys == m.Keys && forall s | s in c :: Parse(site, c[s]) == Some(m[s])
    ensures Sections(site, c) == m
  {
    hide Parse;
  }

  lemma FoundPlain(id: string)
    ensures PlainIndex(Found(id)) && IndexOf(Found(id)) == Found(id)
  {
    Letters();
    hide Canonical, Valid, One, Letter, PipeFree, Stable, Address, Other, Found;
    AddressPlain("a", One(), id);
    AddressPlain("b", One(), id);
    AddressPlain("c", One(), "");
    CnamePlain();
    FoundNames(id);
  }

  lemma OnlyEdge(id: string, a: string, b: string)
    requires Edge(Found(id), a, b)
    ensures CanonicalName(a) == "d" && b == "e"
  {
    hide CanonicalName, One;
    var m := Found(id);
    var s :| s in m && m[s].rtype.CNAME? && m[s].name == CanonicalName(a) && m[s].value == b;
  }

  lemma FoundAcyclic(id: string)
    ensures Acyclic(Found(id))
  {
    LetterPlain("e");
    hide CanonicalName, Letter, Found, Edge;
    var m := Found(id);
    forall p | Path(m, p) && |p| > 1 ensures p[0] != p[|p| - 1] {
      assert Edge(m, p[0], p[0 + 1]);
      OnlyEdge(id, p[0], p[1]);
      if |p| > 2 {
        assert Edge(m, p[1], p[1 + 1]);
        OnlyEdge(id, p[1], p[2]);
        assert false;
      }
    }
  }

  lemma FoundSafe(id: string)
    ensures Safe(Found(id))
  {
    FoundAcyclic(id);
    hide Acyclic, One;
  }

  lemma BeforeManaged(site: Site)
    requires site.id != ""
    ensures Managed(site, Before(site.id)) ==
      map["s1" := Address("a", One(), site.id), "s2" := Address("b", One(), site.id)]
  {
    BeforeReads(site);
    hide Sections, Before, One;
  }

  lemma ManagedCount(id: string, name: string, v: string)
    requires name == "a" || name == "b"
    ensures var m := map["s1" := Address("a", One(), id), "s2" := Address("b", One(), id)];
      CountOf(m, RecordKey(name, "A"), v) == multiset([One()])[v]
  {
    LetterPlain("a");
    LetterPlain("b");
    hide CanonicalName, Letter, One;
    var m := map["s1" := Address("a", One(), id), "s2" := Address("b", One(), id)];
    var s := if name == "a" then "s1" else "s2";
    assert SectionsWith(m, RecordKey(name, "A"), v) == if v == One() then {s} else {};
  }

  lemma ToldHeld(id: string)
    ensures var m := map["s1" := Address("a", One(), id), "s2" := Address("b", One(), id)];
      forall s | s in m :: RowKey(m[s]) in Told()
  {
    LetterPlain("a");
    LetterPlain("b");
    hide CanonicalName, Letter, One;
  }

  lemma ToldReadBack(site: Site)
    requires site.id != ""
    ensures ReadBack(Managed(site, Before(site.id)), Told())
  {
    BeforeManaged(site);
    ToldHeld(site.id);
    var m := Managed(site, Before(site.id));
    forall k, v | k in Told() ensures CountOf(m, k, v) == multiset(Told()[k])[v] {
      hide Managed, CountOf, One, Address;
      ManagedCount(site.id, k.name, v);
    }
    forall k | k in Told() ensures Told()[k] == [One()] {}
    hide Managed, CountOf, StrLe, One, Told, RowKey, Address;
  }

  lemma BeforeClean(site: Site)
    ensures CleanRouter(site, Before(site.id))
  {
    BeforeReads(site);
    FoundPlain(site.id);
    FoundSafe(site.id);
    hide Sections, Before, Found, Safe, PlainIndex;
  }

  // ---------- the plan ----------

  lemma AsksWell(name: string, ip: string)
    requires Letter(name) && (ip == One() || ip == Two())
    ensures PlainEndpoint(Asks(name, ip)) && EndpointKey(Asks(name, ip)) == RecordKey(name, "A")
    ensures Tellable(Told(), Asks(name, ip)) && SortedTargets([ip]) == [ip]
    ensures RecordsOf(Asks(name, ip)) == [Address(name, ip, "")]
  {
    LetterPlain(name);
    hide CanonicalName, Letter, One, Two, StrLe;
    assert multiset([ip]) == multiset{ip};
    SortedTargetsUnique([ip], [ip]);
    assert RecordsOf(Asks(name, ip)) == [Address(name, ip, "")];
  }

  lemma MixedLists()
    ensures Mixed().Wanted() == [Asks("c", One()), Asks("d", One()), Asks("a", Two())]
    ensures Mixed().Withdrawn() == [Asks("b", One()), Asks("a", One())]
  {
  }

  lemma ToldRows()
    ensures RecordKey("a", "A") in Told() && RecordKey("b", "A") in Told()
    ensures Told()[RecordKey("a", "A")] == [One()] && Told()[RecordKey("b", "A")] == [One()]
    ensures RecordKey("c", "A") !in Told() && RecordKey("d", "A") !in Told()
  {
    hide One;
  }

  // A plan of two creations, an update and a deletion, as honest plans are.
  lemma HonestOf(actual: Targets, c: Endpoint, d: Endpoint, old_: Endpoint, new_: Endpoint, b: Endpoint)
    requires forall ep <- [c, d, new_] :: PlainEndpoint(ep) && |ep.targets| <= 1
    requires EndpointKey(c) !in actual && EndpointKey(d) !in actual && EndpointKey(c) != EndpointKey(d)
    requires forall ep <- [b, old_] :: EndpointKey(ep) in actual && SortedTargets(ep.targets) == actual[EndpointKey(ep)]
    requires EndpointKey(old_) == EndpointKey(new_) != EndpointKey(b)
    ensures HonestPlan(actual, Changes([c, d], [old_], [new_], [b]))
  {
    hide PlainEndpoint, EndpointKey;
    var ch := Changes([c, d], [old_], [new_], [b]);
    assert ch.Wanted() == [c, d, new_] && ch.Withdrawn() == [b, old_];
    assert forall ep <- [c, d, new_] :: PlainEndpoint(ep);
    assert c in [c, d, new_] && d in [c, d, new_] && new_ in [c, d, new_] && b in [b, old_] && old_ in [b, old_];
    assert old_ in ch.updateOld;
  }

  lemma MixedHonest()
    ensures HonestPlan(Told(), Mixed())
  {
    Letters();
    hide PlainEndpoint, EndpointKey, Tellable, Letter, One, Two, RecordsOf, SortedTargets, Told, HonestPlan;
    AsksWell("a", One());
    AsksWell("b", One());
    AsksWell("c", One());
    AsksWell("d", One());
    AsksWell("a", Two());
    ToldRows();
    HonestOf(Told(), Asks("c", One()), Asks("d", One()), Asks("a", One()), Asks("a", Two()), Asks("b", One()));
  }

  // The key of one of these records tells which it is.
  lemma AddressKey(name: string, ip: string, q: Record)
    requires Letter(name) && (ip == One() || ip == Two()) && Canonical(q) == q && '|' !in q.name
    ensures Key(Address(name, ip, "")) == Key(q) <==> q.rtype.A? && q.name == name && q.value == ip
  {
    AddressPlain(name, ip, "");
    KeyInjective(Address(name, ip, ""), q);
  }

  lemma KeySets(m: Index, id: string, name: string, ip: string)
    requires PlainIndex(m) && Letter(name) && (ip == One() || ip == Two())
    ensures OwnedSet(m, Key(Address(name, ip, "")), id) ==
      set s | s in m && m[s].rtype.A? && m[s].name == name && m[s].value == ip && Manages(id, m[s])
    ensures UnownedSet(m, Key(Address(name, ip, ""))) ==
      set s | s in m && m[s].rtype.A? && m[s].name == name && m[s].value == ip && m[s].owner == ""
  {
    hide Key, Canonical, One, Two, Letter, Address;
    forall s | s in m
      ensures Key(Address(name, ip, "")) == Key(m[s]) <==> m[s].rtype.A? && m[s].name == name && m[s].value == ip
    {
      AddressKey(name, ip, m[s]);
    }
  }

  // ---------- what the change set is ----------

  lemma {:induction false} KeepsAll(records: seq<Record>, remove: seq<Record>, add: seq<Record>)
    requires forall r <- records :: CountKey(remove, Key(r)) != CountKey(add, Key(r))
    ensures Unbalanced(records, remove, add) == records
  {
    hide Key, CountKey;
    if records != [] {
      var n := |records| - 1;
      assert records[n] in records;
      KeepsAll(records[..n], remove, add);
    }
  }

  lemma ApartKept(remove: seq<Record>, add: seq<Record>)
    requires forall r, q | r in remove && q in add :: Key(r) != Key(q)
    ensures Unbalanced(remove, remove, add) == remove && Unbalanced(add, remove, add) == add
  {
    hide Key, CountKey;
    forall r | r in remove || r in add ensures CountKey(remove, Key(r)) != CountKey(add, Key(r)) {
      CountPositive(remove, Key(r));
      CountPositive(add, Key(r));
    }
    KeepsAll(remove, remove, add);
    KeepsAll(add, remove, add);
  }

  function Removed(): seq<Record> { [Address("b", One(), ""), Address("a", One(), "")] }

  function Added(): seq<Record> { [Address("c", One(), ""), Address("d", One(), ""), Address("a", Two(), "")] }

  lemma MixedFlat()
    ensures Flatten(Mixed().Withdrawn()) == Removed() && Flatten(Mixed().Wanted()) == Added()
  {
    Letters();
    hide RecordsOf, PlainEndpoint, EndpointKey, Tellable, One, Two, Address, Asks, Letter;
    MixedLists();
    AsksWell("a", One());
    AsksWell("b", One());
    AsksWell("c", One());
    AsksWell("d", One());
    AsksWell("a", Two());
    FlattenTwo(Asks("b", One()), Asks("a", One()));
    FlattenTwo(Asks("c", One()), Asks("d", One()));
    var wanted := Mixed().Wanted();
    assert wanted[..2] == [Asks("c", One()), Asks("d", One())];
  }

  lemma FlattenTwo(a: Endpoint, b: Endpoint)
    ensures Flatten([a, b]) == RecordsOf(a) + RecordsOf(b)
  {
    assert Flatten([a]) == Flatten([]) + RecordsOf(a);
    assert [a, b][..1] == [a];
  }

  lemma MixedChange()
    ensures Cancelled(Mixed()) == Change(Removed(), Added())
  {
    MixedFlat();
    forall r, q | r in Removed() && q in Added() ensures Key(r) != Key(q) {
      assert One() != Two();
      AddressPlain(q.name, q.value, "");
      hide Key, Canonical, One, Two;
      AddressKey(r.name, One(), q);
    }
    ApartKept(Removed(), Added());
  }

  // ---------- the change set, step by step ----------

  // The index once b is withdrawn, and once a is.
  function Halfway(id: string): Index {
    map["s1" := Address("a", One(), id), "s3" := Address("c", One(), ""), "s4" := Other()]
  }

  function Left(owner: string): Index {
    map["s3" := Address("c", One(), owner), "s4" := Other()]
  }

  function Kept(id: string): State {
    State(Before(id) - {"s2"} - {"s1"}, Left(""))
  }

  // Then c's section is adopted.
  function AfterAdoption(id: string): State {
    State((Before(id) - {"s2"} - {"s1"})["s3" := Host("c", "")[OWNER := Str(id)]], Left(id))
  }

  lemma HalfwayNames(id: string)
    ensures var m := Halfway(id);
      && m.Keys == {"s1", "s3", "s4"} && m["s1"] == Address("a", One(), id) && m["s3"] == Address("c", One(), "")
      && m["s4"] == Other()
  {
    hide Address, One, Other;
  }

  lemma LeftNames(owner: string)
    ensures var m := Left(owner);
      m.Keys == {"s3", "s4"} && m["s3"] == Address("c", One(), owner) && m["s4"] == Other()
  {
    hide One, Other, Address;
  }

  lemma IndexesPlain(id: string)
    ensures PlainIndex(Halfway(id)) && PlainIndex(Left(id))
  {
    Letters();
    hide Canonical, Valid, One, Letter, PipeFree, Stable, Address, Other, Halfway, Left;
    AddressPlain("a", One(), id);
    AddressPlain("c", One(), id);
    AddressPlain("c", One(), "");
    CnamePlain();
    HalfwayNames(id);
    LeftNames(id);
  }

  lemma Names(owner: string)
    ensures forall n | n == "a" || n == "b" || n == "c" :: Address(n, One(), owner) == Record(A, n, One(), owner)
    ensures Other().name == "d" && Other().rtype.CNAME?
  {
    hide One;
  }

  lemma FoundOwned(id: string)
    ensures OwnedSet(Found(id), Key(Address("b", One(), "")), id) == {"s2"}
  {
    Letters();
    hide Key, One, Letter, Canonical, PlainIndex, OwnedSet, UnownedSet, Found, Address, Other;
    FoundPlain(id);
    FoundNames(id);
    Names(id);
    Names("");
    var m := Found(id);
    KeySets(m, id, "b", One());
    assert (set s | s in m && m[s].rtype.A? && m[s].name == "b" && m[s].value == One() && Manages(id, m[s])) == {"s2"};
  }

  lemma HalfwayOwned(id: string)
    ensures OwnedSet(Halfway(id), Key(Address("a", One(), "")), id) == {"s1"}
  {
    Letters();
    hide Key, One, Letter, Canonical, PlainIndex, OwnedSet, UnownedSet, Halfway, Address, Other;
    IndexesPlain(id);
    HalfwayNames(id);
    Names(id);
    Names("");
    var m := Halfway(id);
    KeySets(m, id, "a", One());
    assert (set s | s in m && m[s].rtype.A? && m[s].name == "a" && m[s].value == One() && Manages(id, m[s])) == {"s1"};
  }

  lemma Withdrawals(id: string)
    ensures Found(id) - {"s2"} == Halfway(id) && Halfway(id) - {"s1"} == Left("")
  {
    hide One, Other, Address;
  }

  lemma MixedCleared(site: Site)
    ensures Cleared(site, Before(site.id), Change(Removed(), Added())) == Kept(site.id)
  {
    BeforeReads(site);
    FoundPlain(site.id);
    FoundOwned(site.id);
    HalfwayOwned(site.id);
    Withdrawals(site.id);
    hide Sections, Before, Found, Halfway, Left, Key, One, Address, OwnedSet, Canonical, PlainIndex;
    var st := Start(site, Before(site.id));
    assert st.index == Found(site.id);
    assert AfterRemove(site, st, Removed(), 0) == st;
    assert AfterRemove(site, st, Removed(), 1) == State(Before(site.id) - {"s2"}, Halfway(site.id));
    assert AfterRemove(site, st, Removed(), 2) == Kept(site.id);
  }

  lemma LeftOwned(site: Site)
    requires site.id != ""
    ensures OwnedSet(Left(""), Key(Address("c", One(), "")), site.id) == {}
    ensures "s3" in UnownedSet(Left(""), Key(Address("c", One(), "")))
  {
    IndexesPlain("");
    LeftNames("");
    Names("");
    var m := Left("");
    KeySets(m, site.id, "c", One());
    hide Key, One, Letter, Canonical, PlainIndex, OwnedSet, UnownedSet, Left, Address, Other;
    assert (set s | s in m && m[s].rtype.A? && m[s].name == "c" && m[s].value == One() && Manages(site.id, m[s])) == {};
  }

  lemma LeftVerdict(site: Site)
    requires site.id != ""
    ensures Judge(site, Left(""), Address("c", One(), "")) == Adopt
    ensures "s3" in UnownedSet(Left(""), Key(Address("c", One(), "")))
  {
    LeftOwned(site);
    hide Key, One, CanonicalName, OwnedSet, UnownedSet, Left, Reaches, Holds;
  }

  // Nothing on the router has such a key then.
  lemma NoneLeft(id: string, name: string, ip: string)
    requires (name == "d" && ip == One()) || (name == "a" && ip == Two())
    ensures OwnedSet(Left(id), Key(Address(name, ip, "")), id) == {}
    ensures UnownedSet(Left(id), Key(Address(name, ip, ""))) == {}
  {
    IndexesPlain(id);
    LeftNames(id);
    Names(id);
    assert Letter(name);
    KeySets(Left(id), id, name, ip);
    hide Key, One, Two, Letter, Canonical, PlainIndex, OwnedSet, UnownedSet, Left, Address, Other;
    assert name != "c";
    assert forall s | s in Left(id) && Left(id)[s].rtype.A? :: Left(id)[s].name == "c";
  }

  lemma LeftVerdicts(site: Site)
    ensures Judge(site, Left(site.id), Address("d", One(), "")) == Refuse(NameHasCname)
    ensures Judge(site, Left(site.id), Address("a", Two(), "")) == Create
  {
    LetterPlain("a");
    LetterPlain("d");
    NoneLeft(site.id, "d", One());
    NoneLeft(site.id, "a", Two());
    hide Key, One, Two, Letter, CanonicalName, OwnedSet, UnownedSet, Reaches;
    var m := Left(site.id);
    assert m["s4"].name == "d" && m["s4"].rtype.CNAME?;
    assert Holds(m, CNAME, "d");
    assert !Holds(m, CNAME, "a");
  }

  const PICKS := ["s3", "", "s5"]

  // The three additions in turn.
  lemma MixedSteps(site: Site)
    requires site.id != ""
    ensures AfterAdd(site, Kept(site.id), Added(), PICKS, 0) == Kept(site.id)
    ensures AfterAdd(site, Kept(site.id), Added(), PICKS, 1) == AfterAdoption(site.id)
    ensures AfterAdd(site, Kept(site.id), Added(), PICKS, 2) == AfterAdoption(site.id)
  {
    LeftVerdict(site);
    LeftVerdicts(site);
    AdoptionStep(site);
    hide Judge, Left, Before, Host, Address, One, Two, Written, Adopted;
  }

  lemma MixedAdmits(site: Site)
    requires site.id != ""
    ensures AdmitsAll(site, Kept(site.id), Added(), PICKS, 3)
  {
    MixedSteps(site);
    LeftVerdict(site);
    LeftVerdicts(site);
    BeforeNames(site.id);
    hide Judge, Left, Before, Host, Address, One, Two, AfterAdd, UnownedSet, Key;
  }

  lemma MixedSkips(site: Site)
    requires site.id != ""
    ensures Skips(site, Kept(site.id), Added(), PICKS, 3) == [Skip(Address("d", One(), ""), NameHasCname)]
  {
    MixedSteps(site);
    LeftVerdict(site);
    LeftVerdicts(site);
    hide Judge, Left, Before, Host, Address, One, Two, AfterAdd;
    var st := Kept(site.id);
    assert Skips(site, st, Added(), PICKS, 0) == [];
    assert Skips(site, st, Added(), PICKS, 1) == [];
    assert Skips(site, st, Added(), PICKS, 2) == [Skip(Address("d", One(), ""), NameHasCname)];
  }

  lemma AddedValid()
    ensures |Added()| == |PICKS| == 3 && forall r <- Added() :: Valid(r)
  {
    AddressPlain("c", One(), "");
    AddressPlain("d", One(), "");
    AddressPlain("a", Two(), "");
    hide Address, One, Two, Letter, Valid, Stable, PipeFree;
  }

  // c's section is adopted, d skipped, and a written anew.
  lemma MixedRuns(site: Site)
    requires site.id != ""
    ensures Possible(site, Before(site.id), Cancelled(Mixed()), PICKS)
    ensures SkippedBy(site, Before(site.id), Cancelled(Mixed()), PICKS) ==
            [Skip(Address("d", One(), ""), NameHasCname)]
  {
    MixedChange();
    MixedCleared(site);
    MixedAdmits(site);
    MixedSkips(site);
    AddedValid();
    hide Cancelled, Mixed, Before, Kept, Address, One, Two, Letter, Valid, Cleared, AdmitsAll, Skips, Added, Removed;
  }

  lemma AdoptionStep(site: Site)
    ensures Adopted(site, Kept(site.id), "s3") == AfterAdoption(site.id)
  {
    BeforeNames(site.id);
    hide Before, Host, One, Other;
    assert Left("")["s3" := Address("c", One(), site.id)] == Left(site.id);
  }

  /** The hypotheses of the prediction hold of this change set as well, and it
      foretells what the router then holds. */
  lemma MixedForetold(site: Site, b: Board)
    requires site.id != "" && b.actual == Some(Told())
    ensures Setting(site, Before(site.id), Told(), Mixed(), PICKS)
    ensures ReadBack(Managed(site, Result(site, Before(site.id), Cancelled(Mixed()), PICKS).config),
                     Predicted(b, Mixed(), [Skip(Address("d", One(), ""), NameHasCname)]))
  {
    BeforeClean(site);
    ToldReadBack(site);
    MixedHonest();
    MixedRuns(site);
    MixedTellable();
    hide CleanRouter, ReadBack, HonestPlan, Possible, Cancelled, Mixed, Before, Told, Managed, Address, One,
         Tellable, SkippedBy, SkipsRow, Predicted;
    PredictionExactly(site, Before(site.id), b, Mixed(), PICKS);
  }

  lemma MixedTellable()
    ensures forall ep <- Mixed().Wanted() :: Tellable(Told(), ep)
  {
    MixedLists();
    AsksWell("c", One());
    AsksWell("d", One());
    AsksWell("a", Two());
    hide PlainEndpoint, EndpointKey, Tellable, Letter, One, Two, RecordsOf, SortedTargets, Told, Asks, Mixed;
  }
}
