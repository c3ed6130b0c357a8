/** What a change set may do to sections it does not own, and how many
    sections of its own each key ends with. */
module Ownership {
  import opened Types
  import opened Uci
  import opened Graph
  import opened IndexTable
  import opened Reconcile
  import opened Safety

  // ---------- sections of others ----------

  ghost predicate Foreign(site: Site, o: Options) {
    site.id != "" && Marker(o) != "" && Marker(o) != site.id
  }

  ghost predicate Unmarked(o: Options) {
    Marker(o) == ""
  }

  // o is what a section holding was may hold after the first n additions.
  ghost predicate AtMostStamped(site: Site, was: Options, o: Options) {
    o == was || (Unmarked(was) && o == was[OWNER := Str(site.id)])
  }

  // Sections of another owner, or of none, as a change set in progress leaves them.
  ghost predicate Respects(site: Site, c: Config, st: State) {
    forall s | s in c && StringOption(c[s], OWNER) != site.id ::
      s in st.config && AtMostStamped(site, c[s], st.config[s])
  }

  lemma RemoveRespects(site: Site, c: Config, st: State, r: Record)
    requires site.id != "" && Linked(st)
    requires forall s | s in c && StringOption(c[s], OWNER) != site.id :: s in st.config && st.config[s] == c[s]
    ensures var st' := RemoveOne(site, st, r);
      forall s | s in c && StringOption(c[s], OWNER) != site.id :: s in st'.config && st'.config[s] == c[s]
  {
  }

  lemma AddRespects(site: Site, c: Config, st: State, r: Record, pick: string)
    requires site.id != "" && Linked(st) && Respects(site, c, st) && Admits(site, st, r, pick)
    ensures Respects(site, c, AddOne(site, st, r, pick))
  {
  }

  // The sections stamped so far are each there for a record with their very key.
  ghost predicate StampsAsked(site: Site, c: Config, st: State, asked: set<string>) {
    forall s | s in c && Unmarked(c[s]) && s in st.config && st.config[s] != c[s] ::
      s in st.index && Key(st.index[s]) in asked
  }

  lemma AddStampsAsked(site: Site, c: Config, st: State, r: Record, pick: string, asked: set<string>)
    requires site.id != "" && Linked(st) && Respects(site, c, st) && StampsAsked(site, c, st, asked)
    requires Admits(site, st, r, pick)
    ensures StampsAsked(site, c, AddOne(site, st, r, pick), asked + {Key(r)})
  {
  }

  ghost function Keys(records: seq<Record>, n: nat): set<string>
    requires n <= |records|
  {
    set i | 0 <= i < n :: Key(records[i])
  }

  lemma {:induction false} RemovesRespect(site: Site, c: Config, remove: seq<Record>, n: nat)
    requires site.id != "" && n <= |remove|
    ensures var st := AfterRemove(site, Start(site, c), remove, n);
      Linked(st) && forall s | s in c && StringOption(c[s], OWNER) != site.id :: s in st.config && st.config[s] == c[s]
  {
    hide RemoveOne, Linked, Parse;
    if n == 0 {
      StartLinked(site, c);
    } else {
      RemovesRespect(site, c, remove, n - 1);
      RemoveRespects(site, c, AfterRemove(site, Start(site, c), remove, n - 1), remove[n - 1]);
      RemoveLinked(site, AfterRemove(site, Start(site, c), remove, n - 1), remove[n - 1]);
    }
  }

  lemma {:induction false} AddsRespect(site: Site, c: Config, st: State, add: seq<Record>, picks: seq<string>, n: nat)
    requires site.id != "" && Linked(st) && n <= |add| && n <= |picks| && AdmitsAll(site, st, add, picks, n)
    requires forall s | s in c && StringOption(c[s], OWNER) != site.id :: s in st.config && st.config[s] == c[s]
    ensures var st' := AfterAdd(site, st, add, picks, n);
      Linked(st') && Respects(site, c, st') && StampsAsked(site, c, st', Keys(add, n))
  {
    hide AddOne, Linked, Admits, Key, AtMostStamped;
    if n == 0 {
      forall s | s in c && StringOption(c[s], OWNER) != site.id ensures AtMostStamped(site, c[s], st.config[s]) {
        UntouchedIsFine(site, c[s]);
      }
    } else {
      AddsRespect(site, c, st, add, picks, n - 1);
      var mid := AfterAdd(site, st, add, picks, n - 1);
      AddLinked(site, mid, add[n - 1], picks[n - 1]);
      AddRespects(site, c, mid, add[n - 1], picks[n - 1]);
      AddStampsAsked(site, c, mid, add[n - 1], picks[n - 1], Keys(add, n - 1));
      assert Keys(add, n) == Keys(add, n - 1) + {Key(add[n - 1])};
    }
  }

  lemma UntouchedIsFine(site: Site, o: Options)
    ensures AtMostStamped(site, o, o)
  {
  }

  /** Whatever a change set asks for, a section marked with another ID comes
      out as it was; one without a marker keeps every option and at most gains
      the marker, and then only because a record with its very key was added. */
  lemma ChangeRespectsOthers(site: Site, before: Config, ch: Change, picks: seq<string>)
    requires site.id != "" && Possible(site, before, ch, picks)
    ensures var after := Result(site, before, ch, picks).config;
      && (forall s | s in before && Foreign(site, before[s]) :: s in after && after[s] == before[s])
      && (forall s | s in before && Unmarked(before[s]) :: s in after && AtMostStamped(site, before[s], after[s]))
      && (forall s | s in before && Unmarked(before[s]) && after[s] != before[s] ::
            s in Start(site, before).index && Key(Start(site, before).index[s]) in Keys(ch.add, |ch.add|))
  {
    hide Admits, AfterAdd, AfterRemove, Valid, Key, Parse;
    RemovesRespect(site, before, ch.remove, |ch.remove|);
    AddsRespect(site, before, Cleared(site, before, ch), ch.add, picks, |ch.add|);
    var st := Result(site, before, ch, picks);
    forall s | s in before && Unmarked(before[s]) && st.config[s] != before[s]
      ensures s in Start(site, before).index && Key(Start(site, before).index[s]) in Keys(ch.add, |ch.add|)
    {
      assert s in st.index;
      OriginsKept(site, before, ch, picks, s);
    }
  }

  // A section that is in the configuration from the start and is indexed at
  // the end was indexed from the start, under the same key.
  lemma OriginsKept(site: Site, before: Config, ch: Change, picks: seq<string>, s: string)
    requires site.id != "" && Possible(site, before, ch, picks)
    requires s in before && Unmarked(before[s])
    requires s in Result(site, before, ch, picks).index
    ensures s in Start(site, before).index
    ensures Key(Result(site, before, ch, picks).index[s]) == Key(Start(site, before).index[s])
  {
    hide Admits, Valid, Key, Parse;
    OriginsRemoved(site, Start(site, before), ch.remove, |ch.remove|);
    RemovesRespect(site, before, ch.remove, |ch.remove|);
    OriginsAdded(site, before, Cleared(site, before, ch), ch.add, picks, |ch.add|, s);
  }

  lemma {:induction false} OriginsRemoved(site: Site, st: State, remove: seq<Record>, n: nat)
    requires n <= |remove|
    ensures forall s | s in AfterRemove(site, st, remove, n).index ::
      s in st.index && AfterRemove(site, st, remove, n).index[s] == st.index[s]
  {
    hide OwnedSet;
    if n > 0 { OriginsRemoved(site, st, remove, n - 1); }
  }

  lemma {:induction false} OriginsAdded(site: Site, c: Config, st: State, add: seq<Record>, picks: seq<string>,
      n: nat, s: string)
    requires site.id != "" && Linked(st) && n <= |add| && n <= |picks| && AdmitsAll(site, st, add, picks, n)
    requires forall t | t in c && StringOption(c[t], OWNER) != site.id :: t in st.config && st.config[t] == c[t]
    requires s in c && Unmarked(c[s]) && s in AfterAdd(site, st, add, picks, n).index
    ensures s in st.index && Key(AfterAdd(site, st, add, picks, n).index[s]) == Key(st.index[s])
  {
    hide Key, Linked, Judge;
    if n > 0 {
      var mid := AfterAdd(site, st, add, picks, n - 1);
      AddsRespect(site, c, st, add, picks, n - 1);
      assert s in mid.config;
      assert Admits(site, mid, add[n - 1], picks[n - 1]);
      OwnerChange(site, mid, add[n - 1], picks[n - 1], s);
      OriginsAdded(site, c, st, add, picks, n - 1, s);
    }
  }

  lemma OwnerChange(site: Site, st: State, r: Record, pick: string, s: string)
    requires Admits(site, st, r, pick) && s in st.config && s in AddOne(site, st, r, pick).index
    ensures s in st.index && Key(AddOne(site, st, r, pick).index[s]) == Key(st.index[s])
  {
  }

  // The sections of c that hold no record are there and not indexed.
  ghost predicate Unread(site: Site, c: Config, st: State) {
    forall s | s in c && Parse(site, c[s]).None? :: s in st.config && st.config[s] == c[s] && s !in st.index
  }

  lemma {:induction false} RemovesSpareUnread(site: Site, c: Config, remove: seq<Record>, n: nat)
    requires n <= |remove|
    ensures Unread(site, c, AfterRemove(site, Start(site, c), remove, n))
  {
    hide Key, Parse;
    if n > 0 { RemovesSpareUnread(site, c, remove, n - 1); }
  }

  lemma {:induction false} AddsSpareUnread(site: Site, c: Config, st: State, add: seq<Record>, picks: seq<string>,
      n: nat)
    requires Unread(site, c, st) && n <= |add| && n <= |picks| && AdmitsAll(site, st, add, picks, n)
    ensures Unread(site, c, AfterAdd(site, st, add, picks, n))
  {
    hide Key, Parse, Reaches, Holds, Written, Canonical;
    if n > 0 {
      AddsSpareUnread(site, c, st, add, picks, n - 1);
      assert Admits(site, AfterAdd(site, st, add, picks, n - 1), add[n - 1], picks[n - 1]);
    }
  }

  /** A section that holds no record, a dnsmasq or host section or a list of
      names, is never touched, with ownership on or off. */
  lemma ChangeSparesUnread(site: Site, before: Config, ch: Change, picks: seq<string>)
    requires Possible(site, before, ch, picks)
    ensures var after := Result(site, before, ch, picks).config;
      forall s | s in before && Parse(site, before[s]).None? :: s in after && after[s] == before[s]
  {
    hide Admits, AfterAdd, AfterRemove, Valid, Parse;
    RemovesSpareUnread(site, before, ch.remove, |ch.remove|);
    AddsSpareUnread(site, before, Cleared(site, before, ch), ch.add, picks, |ch.add|);
  }

  /** Nor is it ever reported. */
  lemma NothingSpared(site: Site, before: Config, ch: Change, picks: seq<string>, s: string)
    requires Possible(site, before, ch, picks) && s in before && HoldsNothing(site, before[s])
    ensures s !in Managed(site, before)
    ensures var after := Result(site, before, ch, picks).config; s in after && after[s] == before[s]
  {
    hide AdmitsAll, Valid, AfterAdd, Cleared, Parse, HoldsNothing;
    ReadExactly(site, before, s);
    ChangeSparesUnread(site, before, ch, picks);
  }

  /** A record that is on the router unmarked is never written a second time:
      one of its sections is marked, where this instance has none. */
  lemma UnmarkedAdopted(site: Site, st: State, r: Record, pick: string)
    requires Linked(st) && Admits(site, st, r, pick) && site.id != ""
    requires exists s | s in st.index :: Key(st.index[s]) == Key(r) && st.index[s].owner == ""
    ensures var next := AddOne(site, st, r, pick);
      && next.config.Keys == st.config.Keys
      && ((forall s | s in st.index && Key(st.index[s]) == Key(r) :: st.index[s].owner != site.id) ==>
            pick in st.config && next.config == st.config[pick := st.config[pick][OWNER := Str(site.id)]])
  {
    hide Key, CanonicalName, Reaches, Holds;
    var s :| s in st.index && Key(st.index[s]) == Key(r) && st.index[s].owner == "";
    assert s in UnownedSet(st.index, Key(r));
  }

  // ---------- what goes ----------

  // A section this instance manages that holds a record with one of the keys.
  ghost predicate Withdrawn(site: Site, c: Config, keys: set<string>, s: string) {
    s in Reading(site, c) && Key(Reading(site, c)[s]) in keys && (site.id == "" || Marker(c[s]) == site.id)
  }

  lemma {:induction false} RemovedSections(site: Site, c: Config, remove: seq<Record>, n: nat, s: string)
    requires n <= |remove|
    ensures var st := AfterRemove(site, Start(site, c), remove, n); var gone := Withdrawn(site, c, Keys(remove, n), s);
      && (s in st.config <==> s in c && !gone) && (s in st.config ==> st.config[s] == c[s])
      && (s in st.index <==> s in Reading(site, c) && !gone) && (s in st.index ==> st.index[s] == Reading(site, c)[s])
  {
    hide Key, Parse, CanonicalName, Marker;
    if n > 0 {
      RemovedSections(site, c, remove, n - 1, s);
      assert Keys(remove, n) == Keys(remove, n - 1) + {Key(remove[n - 1])};
      if s in Sections(site, c) { ReadOwner(site, c, s); }
    }
  }

  lemma {:induction false} AddsKeep(site: Site, st: State, add: seq<Record>, picks: seq<string>, n: nat, s: string)
    requires n <= |add| && n <= |picks|
    ensures s in st.config ==> s in AfterAdd(site, st, add, picks, n).config
    ensures s !in st.config && s !in picks[..n] ==> s !in AfterAdd(site, st, add, picks, n).config
  {
    hide Judge, Written, Stamped, Own;
    if n > 0 {
      AddsKeep(site, st, add, picks, n - 1, s);
      assert picks[..n] == picks[..n - 1] + [picks[n - 1]];
    }
  }

  /** What a change set deletes are the sections it manages that hold a record
      with the key of one to be removed, and nothing else. */
  lemma RemovesExactly(site: Site, before: Config, ch: Change, picks: seq<string>, s: string)
    requires Possible(site, before, ch, picks) && s in before
    requires Withdrawn(site, before, Keys(ch.remove, |ch.remove|), s) ==> s !in picks
    ensures s in Result(site, before, ch, picks).config <==> !Withdrawn(site, before, Keys(ch.remove, |ch.remove|), s)
  {
    hide AfterAdd, AfterRemove, Withdrawn, Admits, Valid;
    RemovedSections(site, before, ch.remove, |ch.remove|, s);
    AddsKeep(site, Cleared(site, before, ch), ch.add, picks, |ch.add|, s);
    assert picks[..|ch.add|] == picks;
  }

  /** A section marked with another ID is never changed or deleted, over any
      run of change sets. */
  lemma {:induction false} RunSparesForeign(site: Site, committed: seq<Config>, changes: seq<Change>, s: string, n: nat)
    requires Run(site, committed, changes) && n <= |changes|
    requires s in committed[0] && Foreign(site, committed[0][s])
    ensures s in committed[n] && committed[n][s] == committed[0][s]
  {
    hide Admits, AfterAdd, AfterRemove, Valid, Key, Parse, AtMostStamped;
    if n > 0 {
      RunSparesForeign(site, committed, changes, s, n - 1);
      if committed[n] != committed[n - 1] {
        var picks :| Possible(site, committed[n - 1], changes[n - 1], picks) &&
                     Result(site, committed[n - 1], changes[n - 1], picks).config == committed[n];
        ChangeRespectsOthers(site, committed[n - 1], changes[n - 1], picks);
      }
    }
  }
}
