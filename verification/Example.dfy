/** A change set that meets the hypotheses of the main theorems together: one
    address asked for on a router that holds no record. */
module Example {
  import opened Types
  import opened Uci
  import opened Graph
  import opened Reconcile
  import opened Safety
  import opened Convergence
  import opened Plan
  import opened Tracking
  import opened Prediction
  import opened Forecast
  import opened Cancelling
  import opened Limits

  const ADDRESS := Record(A, "a", "1.2.3.4", "")

  function Asked(): Endpoint {
    Endpoint("a", "A", ["1.2.3.4"], "", 0, map[], [])
  }

  function Creates(): Changes {
    Changes([Asked()], [], [], [])
  }

  lemma AddressValid()
    ensures Valid(ADDRESS) && Canonical(ADDRESS) == ADDRESS
  {
    PipedNames();
    DottedFits();
    PipedFits();
    hide CanonicalName, IsIPv4, TooLong;
  }

  lemma PlanIs()
    ensures Cancelled(Creates()) == Change([], [ADDRESS])
    ensures Creates().Wanted() == [Asked()] && Creates().Withdrawn() == []
  {
    assert RecordsOf(Asked()) == [ADDRESS];
    assert Flatten([Asked()]) == Flatten([]) + [ADDRESS];
    hide Key;
    assert CountKey([ADDRESS], Key(ADDRESS)) == CountKey([], Key(ADDRESS)) + 1;
    assert Unbalanced([ADDRESS], [], [ADDRESS]) == Unbalanced([], [], [ADDRESS]) + [ADDRESS];
  }

  lemma EmptyClean(site: Site)
    ensures CleanRouter(site, map[]) && Sections(site, map[]) == map[] && Managed(site, map[]) == map[]
  {
    assert Sections(site, map[]) == map[];
    var none: Index := map[];
    assert forall p | Path(none, p) && |p| > 1 :: Edge(none, p[0], p[0 + 1]);
  }

  lemma AskedWell()
    ensures PlainEndpoint(Asked()) && Tellable(map[], Asked()) && |Asked().targets| <= 1
  {
    PipedNames();
    hide CanonicalName;
    assert multiset(Asked().targets) == multiset{"1.2.3.4"};
  }

  lemma PlanHonest()
    ensures HonestPlan(map[], Creates())
  {
    PlanIs();
    AskedWell();
    hide PlainEndpoint, EndpointKey, Asked, Cancelled;
  }

  lemma Creatable(site: Site, pick: string)
    ensures Possible(site, map[], Change([], [ADDRESS]), [pick])
    ensures Result(site, map[], Change([], [ADDRESS]), [pick]).config == map[pick := Written(site, ADDRESS)]
    ensures SkippedBy(site, map[], Change([], [ADDRESS]), [pick]) == []
  {
    AddressValid();
    NoSections(site);
    hide Key, CanonicalName, Validate, Written;
    SingleCreate(site, map[], ADDRESS, pick);
    var st := State(map[], map[]);
    assert AfterAdd(site, st, [ADDRESS], [pick], 0) == st;
    assert VerdictAt(site, st, [ADDRESS], [pick], 0) == Create;
    assert Skips(site, st, [ADDRESS], [pick], 0) == [];
  }

  lemma SettingMet(site: Site, pick: string)
    ensures Setting(site, map[], map[], Creates(), [pick])
  {
    EmptyClean(site);
    PlanHonest();
    PlanIs();
    Creatable(site, pick);
    hide RowKey, Sections, Managed, CleanRouter, HonestPlan, Possible, Cancelled;
    var none: Index, nothing: Targets := map[], map[];
    assert ReadBack(none, nothing);
  }

  lemma AddressHonest(site: Site)
    ensures HonestAddresses(site, map[], Change([], [ADDRESS]))
    ensures CnameFree(Reading(site, map[]), [ADDRESS])
    ensures PlainChange(Change([], [ADDRESS])) && StableAll([ADDRESS])
  {
    AddressValid();
    NoSections(site);
    hide Key, CanonicalName, Validate, Sections;
    assert PipeFree(ADDRESS) && Stable(ADDRESS);
    forall k ensures CountKey([ADDRESS], k) <= 1 {
      assert [ADDRESS][..0] == [];
    }
  }

  /** The hypotheses hold together, so none of the theorems is about nothing. */
  lemma AllHypothesesMeet(site: Site, pick: string)
    ensures var c: Config, ch := map[], Cancelled(Creates());
      && Setting(site, c, map[], Creates(), [pick])
      && PlainChange(ch) && StableAll(ch.add) && Possible(site, c, ch, [pick]) && NothingReplaced(site, c, ch, [pick])
      && HonestAddresses(site, c, ch) && CnameFree(Reading(site, c), ch.add)
  {
    SettingMet(site, pick);
    AddressHonest(site);
    PlanIs();
    Creatable(site, pick);
    hide Setting, HonestAddresses, CnameFree, PlainChange, StableAll, Cancelled, SkippedBy, Possible, Key, Start;
  }
}
