/** What a change set leaves does not depend on the order the router lists its
    sections in, unless it adopts among sections that hold different records. */
module MapOrder {
  import opened Types
  import opened Uci
  import opened Graph
  import opened IndexTable
  import opened Reconcile
  import opened Safety
  import opened Ownership
  import opened Counts
  import opened Convergence

  // ---------- the same records, wherever held ----------

  ghost function Holding(m: Index, r: Record): set<string> {
    set s | s in m && m[s] == r
  }

  /** The same records under the same owners, as often, whatever the sections. */
  ghost predicate SameRecords(m: Index, n: Index) {
    forall r :: |Holding(m, r)| == |Holding(n, r)|
  }

  lemma HoldingUpdate(m: Index, pick: string, x: Record, r: Record)
    ensures |Holding(m[pick := x], r)| ==
            |Holding(m, r)| - (if pick in m && m[pick] == r then 1 else 0) + (if x == r then 1 else 0)
  {
    var rest := Holding(m, r) - {pick};
    assert Holding(m[pick := x], r) == if x == r then rest + {pick} else rest;
  }

  lemma Twin(m: Index, n: Index, s: string) returns (t: string)
    requires SameRecords(m, n) && s in m
    ensures t in n && n[t] == m[s]
  {
    assert s in Holding(m, m[s]);
    assert |Holding(n, m[s])| > 0;
    t :| t in Holding(n, m[s]);
  }

  lemma TwinFacts(site: Site, m: Index, n: Index, key: string, t: RecordType, name: string)
    requires SameRecords(m, n)
    ensures OwnedSet(m, key, site.id) != {} ==> OwnedSet(n, key, site.id) != {}
    ensures UnownedSet(m, key) != {} ==> UnownedSet(n, key) != {}
    ensures Holds(m, t, name) ==> Holds(n, t, name)
    ensures FewerEdges(m, n)
  {
    hide Key, SameRecords;
    forall s | s in m ensures exists u | u in n :: n[u] == m[s] {
      var u := Twin(m, n, s);
    }
    if s :| s in OwnedSet(m, key, site.id) {
      var u := Twin(m, n, s);
      assert u in OwnedSet(n, key, site.id);
    }
    if s :| s in UnownedSet(m, key) {
      var u := Twin(m, n, s);
      assert u in UnownedSet(n, key);
    }
  }

  lemma SameVerdict(site: Site, m: Index, n: Index, r: Record)
    requires SameRecords(m, n)
    ensures Judge(site, m, r) == Judge(site, n, r)
  {
    hide Key, CanonicalName, Reaches, Holds, OwnedSet, UnownedSet, SameRecords, FewerEdges;
    assert SameRecords(n, m) by { SameBack(m, n); }
    var key, name, from := Key(r), CanonicalName(r.name), CanonicalName(r.value);
    TwinFacts(site, m, n, key, A, name);
    TwinFacts(site, n, m, key, A, name);
    TwinFacts(site, m, n, key, CNAME, name);
    TwinFacts(site, n, m, key, CNAME, name);
    if Reaches(m, from, name) { ReachKept(m, n, from, name); }
    if Reaches(n, from, name) { ReachKept(n, m, from, name); }
  }

  lemma SameBack(m: Index, n: Index)
    requires SameRecords(m, n)
    ensures SameRecords(n, m)
  {
  }

  lemma SameUpdate(m: Index, n: Index, p: string, q: string, x: Record)
    requires SameRecords(m, n)
    requires (p in m) == (q in n) && (p in m ==> m[p] == n[q])
    ensures SameRecords(m[p := x], n[q := x])
  {
    hide Holding;
    var m', n' := m[p := x], n[q := x];
    forall r ensures |Holding(m', r)| == |Holding(n', r)| {
      HoldingUpdate(m, p, x, r);
      HoldingUpdate(n, q, x, r);
    }
  }

  lemma SameSelf(m: Index)
    ensures SameRecords(m, m)
  {
  }

  // ---------- what is offered for adoption ----------

  // The unmarked sections with a key all hold one record.
  ghost predicate OfferedAlike(m: Index, key: string) {
    forall s, t | s in UnownedSet(m, key) && t in UnownedSet(m, key) :: m[s] == m[t]
  }

  // Of what is still to be added, no key will be adopted among unlike sections.
  ghost predicate OffersAlike(site: Site, m: Index, add: seq<Record>) {
    site.id != "" ==> forall r <- add :: OwnedSet(m, Key(r), site.id) == {} ==> OfferedAlike(m, Key(r))
  }

  /** Every key the change set is going to adopt for, being one it adds, holds
      in no section of its own or removes, has unmarked sections alike on the
      router as it is. */
  ghost predicate AdoptsAlike(site: Site, before: Config, ch: Change) {
    site.id != "" ==> forall key <- Keys(ch.add, |ch.add|) ::
      key in Keys(ch.remove, |ch.remove|) || OwnedSet(Reading(site, before), key, site.id) == {} ==>
        OfferedAlike(Reading(site, before), key)
  }

  // An addition touches no section with another key.
  lemma OtherKeysStay(site: Site, st: State, r: Record, pick: string, key: string)
    requires Stable(r) && Linked(st) && Admits(site, st, r, pick)
    requires key != Key(r) || !Writes(Judge(site, st.index, r))
    ensures SameAtKey(st.index, AddOne(site, st, r, pick).index, key)
  {
    StableKey(r);
    OwnerIsNoKey(Canonical(r), site.id);
    if Judge(site, st.index, r).Adopt? { OwnerIsNoKey(st.index[pick], site.id); }
    hide Key, CanonicalName, Reaches, Holds, Written, Stamped;
  }

  // The same sections with the key, holding the same.
  ghost predicate SameAtKey(m: Index, n: Index, key: string) {
    forall s :: (s in m && Key(m[s]) == key <==> s in n && Key(n[s]) == key) &&
                (s in m && s in n && Key(m[s]) == key ==> m[s] == n[s])
  }

  lemma AtKeyOffers(m: Index, n: Index, key: string, id: string)
    requires SameAtKey(m, n, key)
    ensures OwnedSet(n, key, id) == OwnedSet(m, key, id) && UnownedSet(n, key) == UnownedSet(m, key)
    ensures OfferedAlike(n, key) <==> OfferedAlike(m, key)
  {
    hide Key;
  }

  lemma OffersStay(site: Site, st: State, add: seq<Record>, r: Record, pick: string)
    requires OffersAlike(site, st.index, add) && Stable(r) && Linked(st) && Admits(site, st, r, pick)
    ensures OffersAlike(site, AddOne(site, st, r, pick).index, add)
  {
    hide Key, Stable, Linked, Judge, AddOne, Admits, OwnedSet, UnownedSet, OfferedAlike, SameAtKey;
    var m, n := st.index, AddOne(site, st, r, pick).index;
    forall q | q in add && site.id != "" && OwnedSet(n, Key(q), site.id) == {} ensures OfferedAlike(n, Key(q)) {
      AddEffect(site, st, r, pick, Key(q));
      if Key(q) != Key(r) || !Writes(Judge(site, st.index, r)) {
        OtherKeysStay(site, st, r, pick, Key(q));
        AtKeyOffers(m, n, Key(q), site.id);
      }
    }
  }

  lemma SameStep(site: Site, a: State, b: State, add: seq<Record>, r: Record, p: string, q: string)
    requires Linked(a) && Linked(b) && SameRecords(a.index, b.index)
    requires OffersAlike(site, a.index, add) && r in add
    requires Admits(site, a, r, p) && Admits(site, b, r, q)
    ensures SameRecords(AddOne(site, a, r, p).index, AddOne(site, b, r, q).index)
  {
    hide Key, CanonicalName, Reaches, Holds, SameRecords;
    SameVerdict(site, a.index, b.index, r);
    match Judge(site, a.index, r)
    case Adopt =>
      SameBack(a.index, b.index);
      var t := Twin(b.index, a.index, q);
      assert t in UnownedSet(a.index, Key(r)) && p in UnownedSet(a.index, Key(r));
      SameUpdate(a.index, b.index, p, q, a.index[p].(owner := site.id));
    case Create =>
      SameUpdate(a.index, b.index, p, q, Own(site, r));
    case _ =>
  }

  lemma {:induction false} SameAdds(site: Site, st: State, add: seq<Record>, ps: seq<string>, qs: seq<string>, n: nat)
    requires n <= |add| && n <= |ps| && n <= |qs| && Linked(st) && OffersAlike(site, st.index, add) && StableAll(add)
    requires AdmitsAll(site, st, add, ps, n) && AdmitsAll(site, st, add, qs, n)
    ensures var a, b := AfterAdd(site, st, add, ps, n), AfterAdd(site, st, add, qs, n);
      SameRecords(a.index, b.index) && OffersAlike(site, a.index, add)
    ensures Skips(site, st, add, ps, n) == Skips(site, st, add, qs, n)
  {
    hide AddOne, Linked, Admits, Stable, Judge, OffersAlike, SameRecords;
    if n == 0 {
      assert SameRecords(st.index, st.index) by { SameSelf(st.index); }
    } else {
      SameAdds(site, st, add, ps, qs, n - 1);
      var a, b := AfterAdd(site, st, add, ps, n - 1), AfterAdd(site, st, add, qs, n - 1);
      AddsLinked(site, st, add, ps, n - 1);
      AddsLinked(site, st, add, qs, n - 1);
      SameVerdict(site, a.index, b.index, add[n - 1]);
      assert add[n - 1] in add;
      SameStep(site, a, b, add, add[n - 1], ps[n - 1], qs[n - 1]);
      OffersStay(site, a, add, add[n - 1], ps[n - 1]);
    }
  }

  /** For one addition: whichever section is offered, the records come out the
      same exactly when all it can be offered are the same. */
  lemma AdoptionChoiceExactly(site: Site, st: State, r: Record)
    requires Linked(st) && Judge(site, st.index, r).Adopt?
    ensures (forall p, q | Admits(site, st, r, p) && Admits(site, st, r, q) ::
              SameRecords(AddOne(site, st, r, p).index, AddOne(site, st, r, q).index)) <==>
            OfferedAlike(st.index, Key(r))
  {
    hide Key, CanonicalName, Reaches, Holds, Holding;
    var m, unowned := st.index, UnownedSet(st.index, Key(r));
    if OfferedAlike(m, Key(r)) {
      forall p, q | Admits(site, st, r, p) && Admits(site, st, r, q)
        ensures SameRecords(AddOne(site, st, r, p).index, AddOne(site, st, r, q).index)
      {
        SameSelf(m);
        SameUpdate(m, m, p, q, m[p].(owner := site.id));
      }
    } else {
      var p, q :| p in unowned && q in unowned && m[p] != m[q];
      assert Admits(site, st, r, p) && Admits(site, st, r, q);
      ChoiceCounts(m, p, q, site.id);
    }
  }

  // ---------- a change set ----------

  lemma RemoveOffers(site: Site, st: State, r: Record, key: string)
    requires site.id != ""
    ensures UnownedSet(RemoveOne(site, st, r).index, key) == UnownedSet(st.index, key)
    ensures OfferedAlike(RemoveOne(site, st, r).index, key) <==> OfferedAlike(st.index, key)
  {
    hide Key;
  }

  lemma {:induction false} RemovesOffer(site: Site, st: State, remove: seq<Record>, n: nat, key: string)
    requires site.id != "" && n <= |remove|
    ensures UnownedSet(AfterRemove(site, st, remove, n).index, key) == UnownedSet(st.index, key)
    ensures OfferedAlike(AfterRemove(site, st, remove, n).index, key) <==> OfferedAlike(st.index, key)
  {
    hide RemoveOne, OfferedAlike, UnownedSet;
    if n > 0 {
      RemovesOffer(site, st, remove, n - 1, key);
      RemoveOffers(site, AfterRemove(site, st, remove, n - 1), remove[n - 1], key);
    }
  }

  // What is offered for a key once the removals are through.
  lemma ClearedOffers(site: Site, before: Config, ch: Change, key: string)
    requires site.id != ""
    ensures var m := Cleared(site, before, ch).index;
      && (OwnedSet(m, key, site.id) == {} <==>
          key in Keys(ch.remove, |ch.remove|) || OwnedSet(Reading(site, before), key, site.id) == {})
      && UnownedSet(m, key) == UnownedSet(Reading(site, before), key)
      && (OfferedAlike(m, key) <==> OfferedAlike(Reading(site, before), key))
  {
    hide AfterRemove, OwnedSet, UnownedSet, OfferedAlike, Reading, Keys;
    RemovedKeys(site, Start(site, before), ch.remove, |ch.remove|, key);
    RemovesOffer(site, Start(site, before), ch.remove, |ch.remove|, key);
  }

  lemma ClearedAlike(site: Site, before: Config, ch: Change)
    requires AdoptsAlike(site, before, ch)
    ensures OffersAlike(site, Cleared(site, before, ch).index, ch.add)
  {
    hide Key, OwnedSet, OfferedAlike, Reading, Cleared;
    forall r | r in ch.add && site.id != "" && OwnedSet(Cleared(site, before, ch).index, Key(r), site.id) == {}
      ensures OfferedAlike(Cleared(site, before, ch).index, Key(r))
    {
      var i :| 0 <= i < |ch.add| && ch.add[i] == r;
      assert Key(r) in Keys(ch.add, |ch.add|);
      ClearedOffers(site, before, ch, Key(r));
    }
  }

  /** Whichever sections the router's map order offers for adoption and whatever
      names new ones get, what is committed holds the same records under the
      same owners, and the same are skipped. */
  lemma OrderIndependent(site: Site, before: Config, ch: Change, ps: seq<string>, qs: seq<string>)
    requires Possible(site, before, ch, ps) && Possible(site, before, ch, qs) && StableAll(ch.add)
    requires AdoptsAlike(site, before, ch)
    ensures SameRecords(Reading(site, Result(site, before, ch, ps).config),
                        Reading(site, Result(site, before, ch, qs).config))
    ensures SkippedBy(site, before, ch, ps) == SkippedBy(site, before, ch, qs)
  {
    hide Admits, AfterAdd, AfterRemove, Valid, StableAll, Reading, Linked, AdoptsAlike, OffersAlike, SameRecords,
         Skips;
    ResultIsStart(site, before, ch, ps);
    ResultIsStart(site, before, ch, qs);
    StartReads(site, Result(site, before, ch, ps).config);
    StartReads(site, Result(site, before, ch, qs).config);
    ClearedLinked(site, before, ch, |ch.remove|);
    ClearedAlike(site, before, ch);
    SameAdds(site, Cleared(site, before, ch), ch.add, ps, qs, |ch.add|);
  }

  // ---------- and only then ----------

  // There is always a name no section has.
  lemma FreshName(names: set<string>) returns (name: string)
    ensures name !in names
  {
    var len := Longest(names);
    name := seq(len + 1, _ => 'a');
  }

  // The router always has something to offer.
  lemma SomePick(site: Site, st: State, r: Record) returns (pick: string)
    ensures Admits(site, st, r, pick)
  {
    hide Key, Reaches, Holds, CanonicalName;
    pick := FreshName(st.config.Keys);
    if Judge(site, st.index, r).Adopt? {
      pick :| pick in UnownedSet(st.index, Key(r));
    }
  }

  // So a change set under way can always be finished.
  lemma {:induction false} Finish(site: Site, st: State, add: seq<Record>, picks: seq<string>, n: nat)
    returns (all: seq<string>)
    requires n <= |add| == |picks| && AdmitsAll(site, st, add, picks, n)
    ensures |all| == |add| && AdmitsAll(site, st, add, all, |add|) && forall j | 0 <= j < n :: all[j] == picks[j]
    decreases |add| - n
  {
    hide Admits, AddOne;
    if n == |add| {
      all := picks;
    } else {
      var pick := SomePick(site, AfterAdd(site, st, add, picks, n), add[n]);
      var more := picks[n := pick];
      PicksAdmit(site, st, add, picks, more, n);
      PicksAgree(site, st, add, picks, more, n);
      all := Finish(site, st, add, more, n + 1);
    }
  }

  // Once a key has a section of this instance's, no addition touches its sections.
  lemma {:induction false} SettledKey(site: Site, st: State, add: seq<Record>, picks: seq<string>, i: nat, n: nat,
                                      key: string)
    requires i <= n <= |add| && n <= |picks| && AdmitsAll(site, st, add, picks, n) && Linked(st) && StableAll(add)
    requires OwnedSet(AfterAdd(site, st, add, picks, i).index, key, site.id) != {} ||
             forall j | i <= j < n :: Key(add[j]) != key
    ensures SameAtKey(AfterAdd(site, st, add, picks, i).index, AfterAdd(site, st, add, picks, n).index, key)
  {
    hide Admits, AddOne, Key, Stable, Linked, Judge, OwnedSet, UnownedSet;
    if i < n {
      SettledKey(site, st, add, picks, i, n - 1, key);
      var mid := AfterAdd(site, st, add, picks, n - 1);
      AddsLinked(site, st, add, picks, n - 1);
      AtKeyOffers(AfterAdd(site, st, add, picks, i).index, mid.index, key, site.id);
      AddEffect(site, mid, add[n - 1], picks[n - 1], key);
      OtherKeysStay(site, mid, add[n - 1], picks[n - 1], key);
    }
  }

  lemma AtKeyHolding(m: Index, n: Index, r: Record)
    requires SameAtKey(m, n, Key(r))
    ensures Holding(m, r) == Holding(n, r)
  {
    hide Key;
  }

  lemma AdoptedOwned(site: Site, st: State, r: Record, pick: string)
    requires Judge(site, st.index, r).Adopt? && Linked(st) && Admits(site, st, r, pick) && Stable(r)
    ensures OwnedSet(AddOne(site, st, r, pick).index, Key(r), site.id) != {}
  {
    hide Key, Stable, Linked, AddOne, OwnedSet, UnownedSet;
    AddEffect(site, st, r, pick, Key(r));
  }

  lemma AdoptionNext(site: Site, st: State, add: seq<Record>, picks: seq<string>, i: nat)
    requires i < |add| == |picks| && Linked(st) && StableAll(add) && AdmitsAll(site, st, add, picks, |add|)
    requires Judge(site, AfterAdd(site, st, add, picks, i).index, add[i]).Adopt?
    ensures var m, next := AfterAdd(site, st, add, picks, i).index, AfterAdd(site, st, add, picks, i + 1).index;
      && picks[i] in m && next == m[picks[i] := m[picks[i]].(owner := site.id)]
      && m[picks[i]].owner == "" && site.id != "" && Key(m[picks[i]]) == Key(add[i])
      && OwnedSet(next, Key(add[i]), site.id) != {}
  {
    hide Key, Stable, Judge, AddOne, Linked, OwnedSet, UnownedSet;
    AddsLinked(site, st, add, picks, i);
    var now := AfterAdd(site, st, add, picks, i);
    assert Admits(site, now, add[i], picks[i]);
    AdoptedIs(site, now, add[i], picks[i]);
    AdoptedOwned(site, now, add[i], picks[i]);
  }

  // What an adoption leaves under its key lasts to the end.
  lemma AdoptionLasts(site: Site, st: State, add: seq<Record>, picks: seq<string>, i: nat, r: Record)
    requires i < |add| == |picks| && Linked(st) && StableAll(add) && AdmitsAll(site, st, add, picks, |add|)
    requires Judge(site, AfterAdd(site, st, add, picks, i).index, add[i]).Adopt? && Key(r) == Key(add[i])
    ensures Holding(AfterAdd(site, st, add, picks, |add|).index, r) ==
            Holding(AfterAdd(site, st, add, picks, i + 1).index, r)
  {
    hide Key, StableAll, Judge, AfterAdd, AdmitsAll, Linked, SameAtKey, Holding, OwnedSet;
    AdoptionNext(site, st, add, picks, i);
    SettledKey(site, st, add, picks, i + 1, |add|, Key(r));
    AtKeyHolding(AfterAdd(site, st, add, picks, i + 1).index, AfterAdd(site, st, add, picks, |add|).index, r);
  }

  // What was offered among unlike sections shows at the end.
  lemma ChoiceLasts(site: Site, st: State, add: seq<Record>, ps: seq<string>, qs: seq<string>, i: nat)
    requires i < |add| == |ps| == |qs| && Linked(st) && StableAll(add) && forall j | 0 <= j < i :: ps[j] == qs[j]
    requires AdmitsAll(site, st, add, ps, |add|) && AdmitsAll(site, st, add, qs, |add|)
    requires var m := AfterAdd(site, st, add, ps, i).index;
      Judge(site, m, add[i]).Adopt? && ps[i] in m && qs[i] in m && m[ps[i]] != m[qs[i]]
      && Key(m[ps[i]]) == Key(add[i])
    ensures !SameRecords(AfterAdd(site, st, add, ps, |add|).index, AfterAdd(site, st, add, qs, |add|).index)
  {
    hide Key, StableAll, Judge, AfterAdd, AdmitsAll, Linked, Holding;
    PicksAgree(site, st, add, ps, qs, i);
    var m := AfterAdd(site, st, add, ps, i).index;
    AdoptionNext(site, st, add, ps, i);
    AdoptionNext(site, st, add, qs, i);
    AdoptionLasts(site, st, add, ps, i, m[ps[i]]);
    AdoptionLasts(site, st, add, qs, i, m[ps[i]]);
    ChoiceCounts(m, ps[i], qs[i], site.id);
  }

  lemma AdoptedIs(site: Site, st: State, r: Record, pick: string)
    requires Judge(site, st.index, r).Adopt? && Linked(st) && Admits(site, st, r, pick)
    ensures pick in st.index && AddOne(site, st, r, pick).index == st.index[pick := st.index[pick].(owner := site.id)]
    ensures st.index[pick].owner == "" && site.id != "" && Key(st.index[pick]) == Key(r)
  {
    hide Key, Reaches, Holds, CanonicalName;
  }

  lemma ChoiceCounts(m: Index, p: string, q: string, id: string)
    requires p in m && q in m && m[p] != m[q] && m[p].owner == m[q].owner == "" && id != ""
    ensures |Holding(m[p := m[p].(owner := id)], m[p])| != |Holding(m[q := m[q].(owner := id)], m[p])|
  {
    HoldingUpdate(m, p, m[p].(owner := id), m[p]);
    HoldingUpdate(m, q, m[q].(owner := id), m[p]);
    hide Holding;
  }

  // A key with unlike offers to choose from makes two outcomes.
  lemma TwoOutcomes(site: Site, before: Config, ch: Change) returns (ps: seq<string>, qs: seq<string>)
    requires !AdoptsAlike(site, before, ch) && StableAll(ch.add) && forall r <- ch.add :: Valid(r)
    ensures Possible(site, before, ch, ps) && Possible(site, before, ch, qs)
    ensures !SameRecords(Reading(site, Result(site, before, ch, ps).config),
                         Reading(site, Result(site, before, ch, qs).config))
  {
    hide Key, Stable, Valid, Reaches, Holds, Linked, SameRecords, SameAtKey, Reading, OwnedSet, UnownedSet, Start,
         AfterRemove, Admits, AddOne, Judge;
    var key :| key in Keys(ch.add, |ch.add|) && !OfferedAlike(Reading(site, before), key) &&
               (key in Keys(ch.remove, |ch.remove|) || OwnedSet(Reading(site, before), key, site.id) == {});
    var st, n := Cleared(site, before, ch), |ch.add|;
    ClearedLinked(site, before, ch, |ch.remove|);
    ClearedOffers(site, before, ch, key);
    var i := FirstWith(ch.add, key);
    var any := seq(n, _ => "");
    any := Finish(site, st, ch.add, any, 0);
    var now := AfterAdd(site, st, ch.add, any, i);
    assert AdmitsAll(site, st, ch.add, any, i);
    SettledKey(site, st, ch.add, any, 0, i, key);
    AtKeyOffers(st.index, now.index, key, site.id);
    var s, t := UnlikeOffers(now.index, key);
    AdoptsHere(site, now, ch.add[i], s);
    AdoptsHere(site, now, ch.add[i], t);
    ps := FinishWith(site, st, ch.add, any, i, s);
    qs := FinishWith(site, st, ch.add, any, i, t);
    PicksAgree(site, st, ch.add, any, ps, i);
    ChoiceLasts(site, st, ch.add, ps, qs, i);
    ResultIsStart(site, before, ch, ps);
    ResultIsStart(site, before, ch, qs);
    StartReads(site, Result(site, before, ch, ps).config);
    StartReads(site, Result(site, before, ch, qs).config);
  }

  lemma UnlikeOffers(m: Index, key: string) returns (s: string, t: string)
    requires !OfferedAlike(m, key)
    ensures s in UnownedSet(m, key) && t in UnownedSet(m, key) && s in m && t in m && m[s] != m[t] && Key(m[s]) == key
  {
    s, t :| s in UnownedSet(m, key) && t in UnownedSet(m, key) && m[s] != m[t];
  }

  lemma AdoptsHere(site: Site, st: State, r: Record, pick: string)
    requires site.id != "" && OwnedSet(st.index, Key(r), site.id) == {} && pick in UnownedSet(st.index, Key(r))
    ensures Judge(site, st.index, r) == Adopt && Admits(site, st, r, pick)
  {
    hide Key, Reaches, Holds, CanonicalName;
  }

  lemma FinishWith(site: Site, st: State, add: seq<Record>, picks: seq<string>, i: nat, pick: string)
    returns (all: seq<string>)
    requires i < |add| == |picks| && AdmitsAll(site, st, add, picks, i)
    requires Admits(site, AfterAdd(site, st, add, picks, i), add[i], pick)
    ensures |all| == |add| && AdmitsAll(site, st, add, all, |add|) && all[i] == pick
    ensures forall j | 0 <= j < i :: all[j] == picks[j]
  {
    hide Admits, AddOne;
    var more := picks[i := pick];
    PicksAdmit(site, st, add, picks, more, i);
    PicksAgree(site, st, add, picks, more, i);
    all := Finish(site, st, add, more, i + 1);
  }

  lemma FirstWith(add: seq<Record>, key: string) returns (i: nat)
    requires key in Keys(add, |add|)
    ensures i < |add| && Key(add[i]) == key && forall j | 0 <= j < i :: Key(add[j]) != key
  {
    hide Key;
    i := 0;
    while Key(add[i]) != key
      invariant i < |add| && forall j | 0 <= j < i :: Key(add[j]) != key
      decreases |add| - i
    {
      assert exists j | 0 <= j < |add| :: Key(add[j]) == key;
      i := i + 1;
    }
  }

  /** The outcome is the same for every order exactly when every key the change
      set adopts for has unmarked sections alike, which can be looked up before. */
  lemma OrderIndependentExactly(site: Site, before: Config, ch: Change)
    requires StableAll(ch.add) && forall r <- ch.add :: Valid(r)
    ensures AdoptsAlike(site, before, ch) <==>
      forall ps, qs | Possible(site, before, ch, ps) && Possible(site, before, ch, qs) ::
        SameRecords(Reading(site, Result(site, before, ch, ps).config),
                    Reading(site, Result(site, before, ch, qs).config))
  {
    hide AdmitsAll, AfterAdd, Cleared, Valid, StableAll, Reading, AdoptsAlike, SameRecords;
    if AdoptsAlike(site, before, ch) {
      forall ps, qs | Possible(site, before, ch, ps) && Possible(site, before, ch, qs)
        ensures SameRecords(Reading(site, Result(site, before, ch, ps).config),
                            Reading(site, Result(site, before, ch, qs).config))
      {
        OrderIndependent(site, before, ch, ps, qs);
      }
    } else {
      var ps, qs := TwoOutcomes(site, before, ch);
    }
  }
}
