/** What a change set does, as a specification: one decision per record, taken
    on the index, and its effect on the index and on what the session stages
    (removeRecord and addRecord in pkg/openwrt/openwrt.go). The sections picked
    for adoption and the names given to new ones are inputs, for the router's
    map order and the random names decide them. */
module Reconcile {
  import opened Types
  import opened Uci
  import opened Graph
  import opened IndexTable

  datatype Reason = AliasTaken | ClosesLoop | NameHasCname | AliasHasAddress

  function Text(why: Reason): (text: string)
    ensures text != ""
  {
    match why
    case AliasTaken => "alias already has a CNAME"
    case ClosesLoop => "would close a CNAME loop"
    case NameHasCname => "name already has a CNAME, which dnsmasq answers instead"
    case AliasHasAddress => "alias already has an A record, which a CNAME would hide"
  }

  datatype Skip = Skip(record: Record, why: Reason)

  datatype Verdict = Present | Adopt | Refuse(why: Reason) | Create

  // The configuration as the session sees it, and the index kept beside it.
  datatype State = State(config: Config, index: Index)

  ghost function Judge(site: Site, m: Index, r: Record): Verdict {
    var key, name := Key(r), CanonicalName(r.name);
    if OwnedSet(m, key, site.id) != {} then Present
    else if site.id != "" && UnownedSet(m, key) != {} then Adopt
    else if r.rtype.CNAME? && Holds(m, CNAME, name) then Refuse(AliasTaken)
    else if r.rtype.CNAME? && Reaches(m, CanonicalName(r.value), name) then Refuse(ClosesLoop)
    else if r.rtype.A? && Holds(m, CNAME, name) then Refuse(NameHasCname)
    else if r.rtype.CNAME? && Holds(m, A, name) then Refuse(AliasHasAddress)
    else Create
  }

  // The record as a new section of this instance's holds it.
  function Own(site: Site, r: Record): Record {
    Canonical(r).(owner := site.id)
  }

  // The index a change set begins with, read from what is committed.
  function Reading(site: Site, c: Config): Index {
    IndexOf(Sections(site, c))
  }

  ghost function Start(site: Site, c: Config): State {
    State(c, Reading(site, c))
  }

  ghost function RemoveOne(site: Site, st: State, r: Record): State {
    var gone := OwnedSet(st.index, Key(r), site.id);
    State(st.config - gone, st.index - gone)
  }

  // A section the router can have offered for this decision.
  ghost predicate Admits(site: Site, st: State, r: Record, pick: string) {
    match Judge(site, st.index, r)
    case Adopt => pick in UnownedSet(st.index, Key(r))
    case Create => pick !in st.config
    case _ => true
  }

  ghost function Adopted(site: Site, st: State, pick: string): State {
    if pick in st.config && pick in st.index
    then State(st.config[pick := Stamped(site, st.config[pick])],
               st.index[pick := st.index[pick].(owner := site.id)])
    else st
  }

  ghost function Created(site: Site, st: State, r: Record, pick: string): State {
    State(st.config[pick := Written(site, r)], st.index[pick := Own(site, r)])
  }

  ghost function AddOne(site: Site, st: State, r: Record, pick: string): State {
    match Judge(site, st.index, r)
    case Adopt => Adopted(site, st, pick)
    case Create => Created(site, st, r, pick)
    case _ => st
  }

  // ---------- whole lists ----------

  ghost function AfterRemove(site: Site, st: State, remove: seq<Record>, n: nat): State
    requires n <= |remove|
  {
    if n == 0 then st else RemoveOne(site, AfterRemove(site, st, remove, n - 1), remove[n - 1])
  }

  ghost function AfterAdd(site: Site, st: State, add: seq<Record>, picks: seq<string>, n: nat): State
    requires n <= |add| && n <= |picks|
  {
    if n == 0 then st
    else AddOne(site, AfterAdd(site, st, add, picks, n - 1), add[n - 1], picks[n - 1])
  }

  ghost predicate AdmitsAll(site: Site, st: State, add: seq<Record>, picks: seq<string>, n: nat)
    requires n <= |add| && n <= |picks|
  {
    forall i | 0 <= i < n :: Admits(site, AfterAdd(site, st, add, picks, i), add[i], picks[i])
  }

  // The verdict on the i-th record added.
  ghost function VerdictAt(site: Site, st: State, add: seq<Record>, picks: seq<string>, i: nat): Verdict
    requires i < |add| && i < |picks|
  {
    Judge(site, AfterAdd(site, st, add, picks, i).index, add[i])
  }

  ghost function Skips(site: Site, st: State, add: seq<Record>, picks: seq<string>, n: nat): seq<Skip>
    requires n <= |add| && n <= |picks|
  {
    if n == 0 then []
    else
      var before := Skips(site, st, add, picks, n - 1);
      match VerdictAt(site, st, add, picks, n - 1)
      case Refuse(why) => before + [Skip(add[n - 1], why)]
      case _ => before
  }

  // ---------- how many uci writes ----------

  ghost predicate Writes(v: Verdict) {
    v.Adopt? || v.Create?
  }

  ghost function RemoveEdits(site: Site, st: State, remove: seq<Record>, n: nat): nat
    requires n <= |remove|
  {
    if n == 0 then 0
    else RemoveEdits(site, st, remove, n - 1) +
         |OwnedSet(AfterRemove(site, st, remove, n - 1).index, Key(remove[n - 1]), site.id)|
  }

  ghost function AddEdits(site: Site, st: State, add: seq<Record>, picks: seq<string>, n: nat): nat
    requires n <= |add| && n <= |picks|
  {
    if n == 0 then 0
    else AddEdits(site, st, add, picks, n - 1) + if Writes(VerdictAt(site, st, add, picks, n - 1)) then 1 else 0
  }

  // ---------- one change set ----------

  datatype Change = Change(remove: seq<Record>, add: seq<Record>)

  ghost function Cleared(site: Site, c: Config, ch: Change): State {
    AfterRemove(site, Start(site, c), ch.remove, |ch.remove|)
  }

  ghost predicate Possible(site: Site, c: Config, ch: Change, picks: seq<string>) {
    && |picks| == |ch.add|
    && (forall r <- ch.add :: Valid(r))
    && AdmitsAll(site, Cleared(site, c, ch), ch.add, picks, |ch.add|)
  }

  ghost function Result(site: Site, c: Config, ch: Change, picks: seq<string>): State
    requires |picks| == |ch.add|
  {
    AfterAdd(site, Cleared(site, c, ch), ch.add, picks, |ch.add|)
  }

  ghost function SkippedBy(site: Site, c: Config, ch: Change, picks: seq<string>): seq<Skip>
    requires |picks| == |ch.add|
  {
    Skips(site, Cleared(site, c, ch), ch.add, picks, |ch.add|)
  }

  ghost function Edits(site: Site, c: Config, ch: Change, picks: seq<string>): nat
    requires |picks| == |ch.add|
  {
    RemoveEdits(site, Start(site, c), ch.remove, |ch.remove|) +
    AddEdits(site, Cleared(site, c, ch), ch.add, picks, |ch.add|)
  }

  /** after is a complete result of the change set on before. */
  ghost predicate Completes(site: Site, before: Config, ch: Change, after: Config) {
    exists picks :: Possible(site, before, ch, picks) && Result(site, before, ch, picks).config == after
  }

  // ---------- the index and the configuration ----------

  /** Every indexed section is there, with the owner the index says. */
  ghost predicate Linked(st: State) {
    forall s | s in st.index ::
      s in st.config && StringOption(st.config[s], OWNER) == st.index[s].owner
  }

  lemma StartLinked(site: Site, c: Config)
    ensures Linked(Start(site, c))
  {
  }

  lemma RemoveLinked(site: Site, st: State, r: Record)
    requires Linked(st)
    ensures Linked(RemoveOne(site, st, r))
  {
  }

  lemma AddLinked(site: Site, st: State, r: Record, pick: string)
    requires Linked(st)
    ensures Linked(AddOne(site, st, r, pick))
  {
  }

  // An earlier state depends on the earlier picks alone.
  lemma {:induction false} PicksAgree(site: Site, st: State, add: seq<Record>, ps: seq<string>, qs: seq<string>, n: nat)
    requires n <= |add| && n <= |ps| && n <= |qs|
    requires forall i | 0 <= i < n :: ps[i] == qs[i]
    ensures AfterAdd(site, st, add, ps, n) == AfterAdd(site, st, add, qs, n)
    ensures Skips(site, st, add, ps, n) == Skips(site, st, add, qs, n)
    ensures AddEdits(site, st, add, ps, n) == AddEdits(site, st, add, qs, n)
  {
    hide AddOne, Judge;
    if n > 0 { PicksAgree(site, st, add, ps, qs, n - 1); }
  }

  lemma PicksAdmit(site: Site, st: State, add: seq<Record>, ps: seq<string>, qs: seq<string>, n: nat)
    requires n <= |add| && n <= |ps| && n <= |qs|
    requires forall i | 0 <= i < n :: ps[i] == qs[i]
    requires AdmitsAll(site, st, add, ps, n)
    ensures AdmitsAll(site, st, add, qs, n)
  {
    hide AddOne, Judge, Admits;
    forall i | 0 <= i < n ensures Admits(site, AfterAdd(site, st, add, qs, i), add[i], qs[i]) {
      PicksAgree(site, st, add, ps, qs, i);
    }
  }
}
