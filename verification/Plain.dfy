/** Routers whose records their keys tell, and which stay so. */
module Plain {
  import opened Types
  import opened Uci
  import opened Graph
  import opened IndexTable
  import opened Reconcile
  import opened Safety

  // Canonical names without a pipe: a record its key tells.
  ghost predicate PlainIndex(m: Index) {
    forall s | s in m :: Canonical(m[s]) == m[s] && '|' !in m[s].name
  }

  lemma {:induction false} RemovesPlain(site: Site, st: State, remove: seq<Record>, n: nat)
    requires n <= |remove| && PlainIndex(st.index)
    ensures PlainIndex(AfterRemove(site, st, remove, n).index)
  {
    hide Canonical, OwnedSet, Key;
    if n > 0 { RemovesPlain(site, st, remove, n - 1); }
  }

  lemma AddPlain(site: Site, st: State, r: Record, pick: string)
    requires PlainIndex(st.index) && Stable(r) && PipeFree(r) && Admits(site, st, r, pick)
    ensures PlainIndex(AddOne(site, st, r, pick).index)
  {
    hide Key, CanonicalName, Reaches, Holds;
  }

  lemma {:induction false} AddsPlain(site: Site, st: State, add: seq<Record>, picks: seq<string>, n: nat)
    requires PlainIndex(st.index) && n <= |add| && n <= |picks| && AdmitsAll(site, st, add, picks, n)
    requires forall r <- add :: Stable(r) && PipeFree(r)
    ensures PlainIndex(AfterAdd(site, st, add, picks, n).index)
  {
    hide PlainIndex, AddOne, Admits, Stable, PipeFree;
    if n > 0 {
      AddsPlain(site, st, add, picks, n - 1);
      AddPlain(site, AfterAdd(site, st, add, picks, n - 1), add[n - 1], picks[n - 1]);
    }
  }

  // The index is the sections themselves, their names being canonical.
  ghost predicate Exact(site: Site, st: State) {
    st.index == Sections(site, st.config)
  }

  lemma RemoveExact(site: Site, st: State, r: Record)
    requires Exact(site, st)
    ensures Exact(site, RemoveOne(site, st, r))
  {
  }

  lemma AddExact(site: Site, st: State, r: Record, pick: string)
    requires Exact(site, st) && Valid(r) && Stable(r) && Admits(site, st, r, pick)
    ensures Exact(site, AddOne(site, st, r, pick))
  {
    hide Key, CanonicalName, Parse, Validate, Written, Stamped;
    match Judge(site, st.index, r)
    case Adopt =>
      StampReadsBack(site, st.config[pick]);
      SectionsSet(site, st.config, pick, Stamped(site, st.config[pick]));
    case Create =>
      WriteReadRoundTrip(site, r);
      SectionsSet(site, st.config, pick, Written(site, r));
    case _ =>
  }

  lemma {:induction false} RemovesExact(site: Site, st: State, remove: seq<Record>, n: nat)
    requires Exact(site, st) && n <= |remove|
    ensures Exact(site, AfterRemove(site, st, remove, n))
  {
    hide Exact, RemoveOne;
    if n > 0 {
      RemovesExact(site, st, remove, n - 1);
      RemoveExact(site, AfterRemove(site, st, remove, n - 1), remove[n - 1]);
    }
  }

  lemma {:induction false} AddsExact(site: Site, st: State, add: seq<Record>, picks: seq<string>, n: nat)
    requires Exact(site, st) && n <= |add| && n <= |picks| && AdmitsAll(site, st, add, picks, n)
    requires forall r <- add :: Valid(r) && Stable(r)
    ensures Exact(site, AfterAdd(site, st, add, picks, n))
  {
    hide Exact, AddOne, Admits, Valid, Stable;
    if n > 0 {
      AddsExact(site, st, add, picks, n - 1);
      AddExact(site, AfterAdd(site, st, add, picks, n - 1), add[n - 1], picks[n - 1]);
    }
  }

  lemma ResultExact(site: Site, c: Config, ch: Change, picks: seq<string>)
    requires PlainIndex(Sections(site, c)) && StableAll(ch.add) && Possible(site, c, ch, picks)
    ensures Result(site, c, ch, picks).index == Sections(site, Result(site, c, ch, picks).config)
  {
    hide AfterAdd, AfterRemove, Admits, Sections, Stable, Valid, Canonical;
    assert Reading(site, c) == Sections(site, c);
    RemovesExact(site, Start(site, c), ch.remove, |ch.remove|);
    AddsExact(site, Cleared(site, c, ch), ch.add, picks, |ch.add|);
  }
}
