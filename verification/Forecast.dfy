/** The prediction after a successful change set: the tracker's view of the
    router is what the next Records() reads, conflicts included. */
module Forecast {
  import opened Types
  import opened Uci
  import opened Graph
  import opened IndexTable
  import opened Reconcile
  import opened Safety
  import opened Ownership
  import opened Counts
  import opened Plain
  import opened Order
  import opened Plan
  import opened Grouping
  import opened Tracking
  import opened Prediction

  /** A plan made from what the router holds: it withdraws rows as they are,
      creates what is not there, updates what it withdraws, and names no row
      twice. Its names are ones keys tell, and its CNAMEs have one target at
      most. */
  ghost predicate HonestPlan(actual: Targets, ch: Changes) {
    && DistinctBy(ch.Withdrawn(), EndpointKey) && DistinctBy(ch.Wanted(), EndpointKey)
    && (forall ep <- ch.Withdrawn() ::
          EndpointKey(ep) in actual && SortedTargets(ep.targets) == actual[EndpointKey(ep)])
    && (forall ep <- ch.create :: EndpointKey(ep) !in actual)
    && (forall ep <- ch.updateNew :: EndpointKey(ep) in KeySet(ch.updateOld))
    && (forall ep <- ch.Wanted() :: PlainEndpoint(ep) && (ReadType(ep.recordType) == Some(CNAME) ==> |ep.targets| <= 1))
  }

  // A row the tracker can tell beforehand: of a type the router holds, with
  // targets, canonical ones, and none twice that the router does not already
  // hold as often.
  ghost predicate Tellable(actual: Targets, ep: Endpoint) {
    && ReadType(ep.recordType).Some? && ep.targets != [] && Values(ep) == ep.targets
    && forall v :: multiset(ep.targets)[v] <= 1 || multiset(ep.targets)[v] == CountIn(actual, EndpointKey(ep), v)
  }

  // Every row asked for and not skipped is such a row.
  ghost predicate AllTellable(actual: Targets, ch: Changes, skipped: seq<Skip>) {
    forall ep <- ch.Wanted() :: !SkipsRow(skipped, EndpointKey(ep)) ==> Tellable(actual, ep)
  }

  /** A router with names this program can tell apart, in a state dnsmasq
      starts with. */
  ghost predicate CleanRouter(site: Site, c: Config) {
    PlainIndex(Sections(site, c)) && SafeConfig(site, c)
  }

  // What ApplyChanges hands to the engine.
  ghost function Cancelled(ch: Changes): Change {
    var remove, add := Flatten(ch.Withdrawn()), Flatten(ch.Wanted());
    Change(Unbalanced(remove, remove, add), Unbalanced(add, remove, add))
  }

  // A change set of records whose keys tell them.
  ghost predicate PlainChange(ch: Change) {
    StableAll(ch.add) && forall r <- ch.add :: PipeFree(r)
  }

  // ---------- the plan's rows are plain ----------

  lemma ManagedPlain(site: Site, c: Config)
    requires PlainIndex(Sections(site, c))
    ensures PlainIndex(Managed(site, c))
  {
  }

  lemma WithdrawnPlain(m: Index, actual: Targets, ep: Endpoint)
    requires PlainIndex(m) && ReadBack(m, actual)
    requires EndpointKey(ep) in actual && SortedTargets(ep.targets) == actual[EndpointKey(ep)]
    ensures PlainEndpoint(ep) && Values(ep) == ep.targets
  {
    hide Sorted, StrLe, CanonicalName;
    var k := EndpointKey(ep);
    assert |actual[k]| == |ep.targets|;
    forall v | v in ep.targets ensures exists s | s in m :: RowKey(m[s]) == k && m[s].value == v {
      assert v in multiset(ep.targets) && multiset(actual[k])[v] > 0;
      assert |SectionsWith(m, k, v)| > 0;
      var s :| s in SectionsWith(m, k, v);
    }
    assert ep.targets[0] in ep.targets;
    assert ReadType(ep.recordType).Some?;
    forall i | 0 <= i < |ep.targets| ensures Values(ep)[i] == ep.targets[i] {
      assert ep.targets[i] in ep.targets;
    }
  }

  lemma PlanPlain(site: Site, c: Config, actual: Targets, ch: Changes)
    requires CleanRouter(site, c) && ReadBack(Managed(site, c), actual) && HonestPlan(actual, ch)
    ensures forall ep <- ch.Withdrawn() :: PlainEndpoint(ep) && Values(ep) == ep.targets
    ensures forall ep <- ch.Wanted() :: PlainEndpoint(ep)
  {
    hide ReadBack, PlainEndpoint, Values, Managed, Sections, EndpointKey, PlainIndex;
    ManagedPlain(site, c);
    forall ep | ep in ch.Withdrawn() ensures PlainEndpoint(ep) && Values(ep) == ep.targets {
      WithdrawnPlain(Managed(site, c), actual, ep);
    }
  }

  lemma {:induction false} FlattenMember(eps: seq<Endpoint>, r: Record) returns (ep: Endpoint)
    requires r in Flatten(eps)
    ensures ep in eps && r in RecordsOf(ep)
  {
    hide RecordsOf;
    var n := |eps| - 1;
    if r in RecordsOf(eps[n]) {
      ep := eps[n];
    } else {
      ep := FlattenMember(eps[..n], r);
    }
  }

  lemma {:induction false} UnbalancedMember(records: seq<Record>, remove: seq<Record>, add: seq<Record>)
    ensures forall r <- Unbalanced(records, remove, add) :: r in records
  {
    hide Key;
    if records != [] { UnbalancedMember(records[..|records| - 1], remove, add); }
  }

  // What is added comes from an endpoint asked for, and is plain.
  lemma AddedFrom(site: Site, c: Config, actual: Targets, ch: Changes, r: Record) returns (ep: Endpoint)
    requires CleanRouter(site, c) && ReadBack(Managed(site, c), actual) && HonestPlan(actual, ch)
    requires r in Cancelled(ch).add
    ensures ep in ch.Wanted() && r in RecordsOf(ep) && RowKey(r) == EndpointKey(ep) && Stable(r) && PipeFree(r)
  {
    hide ReadBack, HonestPlan, CleanRouter, PlainEndpoint, EndpointKey, RowKey, RecordsOf, Stable, PipeFree;
    PlanPlain(site, c, actual, ch);
    UnbalancedMember(Flatten(ch.Wanted()), Flatten(ch.Withdrawn()), Flatten(ch.Wanted()));
    ep := FlattenMember(ch.Wanted(), r);
    PlainRecordsOf(ep);
  }

  lemma CancelledPlain(site: Site, c: Config, actual: Targets, ch: Changes)
    requires CleanRouter(site, c) && ReadBack(Managed(site, c), actual) && HonestPlan(actual, ch)
    ensures PlainChange(Cancelled(ch))
  {
    hide ReadBack, HonestPlan, CleanRouter, Cancelled, Stable, PipeFree;
    forall r | r in Cancelled(ch).add ensures Stable(r) && PipeFree(r) {
      var ep := AddedFrom(site, c, actual, ch, r);
    }
  }

  // ---------- the router afterwards ----------

  lemma AfterwardsClean(site: Site, c: Config, ch: Change, picks: seq<string>)
    requires CleanRouter(site, c) && Possible(site, c, ch, picks)
    requires PlainChange(ch)
    ensures var after := Result(site, c, ch, picks);
      && CleanRouter(site, after.config)
      && after.index == Sections(site, after.config) && after == Start(site, after.config)
  {
    hide AfterAdd, AfterRemove, Admits, Sections, PipeFree, Stable, Valid, Canonical, Safe;
    assert Completes(site, c, ch, Result(site, c, ch, picks).config);
    ChangeKeepsSafe(site, c, ch, Result(site, c, ch, picks).config);
    ResultExact(site, c, ch, picks);
    ResultIsStart(site, c, ch, picks);
    RemovesPlain(site, Start(site, c), ch.remove, |ch.remove|);
    AddsPlain(site, Cleared(site, c, ch), ch.add, picks, |ch.add|);
  }

  // How many managed sections hold a plain record, before and after.
  lemma CountAfter(site: Site, c: Config, ch: Change, picks: seq<string>, q: Record)
    requires CleanRouter(site, c) && Possible(site, c, ch, picks) && PlainRecord(q)
    requires PlainChange(ch)
    ensures var was := CountOf(Managed(site, c), RowKey(q), q.value);
      var now := CountOf(Managed(site, Result(site, c, ch, picks).config), RowKey(q), q.value);
      var removed, added := CountKey(ch.remove, Key(q)) > 0, CountKey(ch.add, Key(q)) > 0;
      var skipped := Key(q) in SkippedKeys(SkippedBy(site, c, ch, picks));
      var left := if removed then 0 else was;
      && (left > 0 ==> now == left && !skipped)
      && (left == 0 && added && !skipped ==> now == 1)
      && (left == 0 && (!added || skipped) ==> now == 0)
  {
    hide CleanRouter, AfterAdd, AfterRemove, Admits, Valid, PlainChange, PipeFree, Managed, Sections, Key, RowKey,
         SectionsWith, OwnedSet, Reading, Start, PlainRecord, PlainIndex, Skips, LetThrough, SkippedKeys, Keys;
    assert StableAll(ch.add) by { PlainStable(ch); }
    assert PlainIndex(Sections(site, c)) by { CleanPlain(site, c); }
    AfterwardsClean(site, c, ch, picks);
    CleanPlain(site, Result(site, c, ch, picks).config);
    OwnedIsRow(site, c, q);
    OwnedIsRow(site, Result(site, c, ch, picks).config, q);
    KeyCount(site, c, ch, picks, Key(q));
    PlainSkipsApart(site, c, ch, picks);
    ThroughOrSkipped(site, c, ch, picks);
    KeysCounted(ch.remove, Key(q));
    KeysCounted(ch.add, Key(q));
    assert forall s: set<string> :: |s| == 0 <==> s == {};
  }

  lemma PlainStable(ch: Change)
    requires PlainChange(ch)
    ensures StableAll(ch.add)
  {
  }

  lemma PlainSkipsApart(site: Site, c: Config, ch: Change, picks: seq<string>)
    requires PlainChange(ch) && Possible(site, c, ch, picks)
    ensures SkipsApart(site, c, ch, picks)
  {
    hide PipeFree, Stable, AdmitsAll, Valid, KeysFaithful, SkipsApart, Cleared;
    PipeFreeFaithful(ch.add);
    FaithfulSkipsApart(site, c, ch, picks);
  }

  lemma CleanPlain(site: Site, c: Config)
    requires CleanRouter(site, c)
    ensures PlainIndex(Sections(site, c)) && SafeConfig(site, c)
  {
  }

  lemma KeysCounted(records: seq<Record>, key: string)
    ensures key in Keys(records, |records|) <==> CountKey(records, key) > 0
  {
    hide Key;
    CountPositive(records, key);
  }

  // ---------- the plan's counts ----------

  ghost predicate Setting(site: Site, c: Config, actual: Targets, ch: Changes, picks: seq<string>) {
    && CleanRouter(site, c) && ReadBack(Managed(site, c), actual) && HonestPlan(actual, ch)
    && Possible(site, c, Cancelled(ch), picks)
  }

  lemma WithdrawnCount(site: Site, c: Config, actual: Targets, ch: Changes, q: Record)
    requires CleanRouter(site, c) && ReadBack(Managed(site, c), actual) && HonestPlan(actual, ch) && PlainRecord(q)
    ensures CountKey(Flatten(ch.Withdrawn()), Key(q)) ==
            if RowKey(q) in KeySet(ch.Withdrawn()) then CountIn(actual, RowKey(q), q.value) else 0
  {
    hide CleanRouter, ReadBack, Key, RowKey, EndpointKey, PlainRecord, PlainEndpoint, Values, DistinctBy, Flatten,
         Managed;
    PlanPlain(site, c, actual, ch);
    FlattenKeyCount(ch.Withdrawn(), q);
    if RowKey(q) in KeySet(ch.Withdrawn()) {
      var ep :| ep in ch.Withdrawn() && EndpointKey(ep) == RowKey(q);
      RowCountOnly(ch.Withdrawn(), ep, q.value);
      assert multiset(SortedTargets(ep.targets)) == multiset(ep.targets);
    } else {
      RowCountAbsent(ch.Withdrawn(), RowKey(q), q.value);
    }
  }

  lemma WantedCount(site: Site, c: Config, actual: Targets, ch: Changes, q: Record, ep: Endpoint)
    requires CleanRouter(site, c) && ReadBack(Managed(site, c), actual) && HonestPlan(actual, ch) && PlainRecord(q)
    ensures RowKey(q) !in KeySet(ch.Wanted()) ==> CountKey(Flatten(ch.Wanted()), Key(q)) == 0
    ensures ep in ch.Wanted() && EndpointKey(ep) == RowKey(q) ==>
      CountKey(Flatten(ch.Wanted()), Key(q)) == multiset(Values(ep))[q.value]
  {
    hide CleanRouter, ReadBack, Key, RowKey, EndpointKey, PlainRecord, PlainEndpoint, Values, DistinctBy, Flatten,
         Managed;
    PlanPlain(site, c, actual, ch);
    FlattenKeyCount(ch.Wanted(), q);
    if RowKey(q) !in KeySet(ch.Wanted()) { RowCountAbsent(ch.Wanted(), RowKey(q), q.value); }
    if ep in ch.Wanted() { RowCountOnly(ch.Wanted(), ep, q.value); }
  }

  // What is left of the two lists for one record, and how many sections held it.
  lemma LeftCounts(site: Site, c: Config, actual: Targets, ch: Changes, q: Record)
    requires CleanRouter(site, c) && ReadBack(Managed(site, c), actual) && HonestPlan(actual, ch) && PlainRecord(q)
    ensures var r, a := CountKey(Flatten(ch.Withdrawn()), Key(q)), CountKey(Flatten(ch.Wanted()), Key(q));
      && CountKey(Cancelled(ch).remove, Key(q)) == (if r == a then 0 else r)
      && CountKey(Cancelled(ch).add, Key(q)) == (if r == a then 0 else a)
    ensures CountOf(Managed(site, c), RowKey(q), q.value) == CountIn(actual, RowKey(q), q.value)
  {
    hide CleanRouter, ReadBack, Key, RowKey, HonestPlan, PlainRecord, Flatten, Managed;
    UnbalancedCount(Flatten(ch.Withdrawn()), Flatten(ch.Withdrawn()), Flatten(ch.Wanted()), Key(q));
    UnbalancedCount(Flatten(ch.Wanted()), Flatten(ch.Withdrawn()), Flatten(ch.Wanted()), Key(q));
    ReadBackCounts(Managed(site, c), actual, RowKey(q), q.value);
  }

  // ---------- conflicts ----------

  ghost predicate SkipsRow(skipped: seq<Skip>, k: RecordKey) {
    exists s <- skipped :: SkipKey(s) == k
  }

  lemma {:induction false} MarkedTexts(conflict: map<RecordKey, string>, skipped: seq<Skip>, k: RecordKey)
    requires k !in conflict
    ensures Get(MarkConflicts(conflict, skipped), k) != "" <==> SkipsRow(skipped, k)
  {
    hide SkipKey, Reconcile.Text;
    if skipped != [] {
      var n := |skipped| - 1;
      MarkedTexts(conflict, skipped[..n], k);
      assert forall s :: s in skipped <==> s in skipped[..n] || s == skipped[n];
    }
  }

  lemma {:induction false} SkipOrigin(site: Site, st: State, add: seq<Record>, picks: seq<string>, n: nat, s: Skip)
      returns (i: nat)
    requires n <= |add| && n <= |picks| && s in Skips(site, st, add, picks, n)
    ensures i < n && add[i] == s.record && RefusedAt(site, st, add, picks, i)
  {
    hide Judge, AfterAdd;
    if s in Skips(site, st, add, picks, n - 1) {
      i := SkipOrigin(site, st, add, picks, n - 1, s);
    } else {
      i := n - 1;
    }
  }

  lemma RecordsKeyed(ep: Endpoint)
    ensures forall r <- RecordsOf(ep) :: RowKey(r) == EndpointKey(ep)
  {
  }

  /** Whatever the plan, a change set skips only rows it was asked to write:
      what the tracker's consistency rests on. */
  lemma SkipsAsked(site: Site, c: Config, ch: Changes, picks: seq<string>)
    requires |picks| == |Cancelled(ch).add|
    ensures Honest(Apply(ch, SkippedBy(site, c, Cancelled(ch), picks), None))
  {
    hide AfterAdd, AfterRemove, RecordsOf, EndpointKey, RowKey, Judge;
    var add := Cancelled(ch).add;
    UnbalancedMember(Flatten(ch.Wanted()), Flatten(ch.Withdrawn()), Flatten(ch.Wanted()));
    forall s | s in SkippedBy(site, c, Cancelled(ch), picks) ensures SkipKey(s) in KeySet(ch.Wanted()) {
      var i := SkipOrigin(site, Cleared(site, c, Cancelled(ch)), add, picks, |add|, s);
      var ep := FlattenMember(ch.Wanted(), s.record);
      RecordsKeyed(ep);
    }
  }

  // A skipped record is one still refused at the end.
  lemma SkippedRefused(site: Site, c: Config, ch: Change, picks: seq<string>, s: Skip)
    requires Possible(site, c, ch, picks) && PlainChange(ch) && s in SkippedBy(site, c, ch, picks)
    ensures s.record in ch.add && Judge(site, Result(site, c, ch, picks).index, s.record).Refuse?
  {
    hide Judge, AfterAdd, AfterRemove, Admits, Valid, Stable, PipeFree, KeysFaithful, Linked;
    PipeFreeFaithful(ch.add);
    var st := Cleared(site, c, ch);
    var i := SkipOrigin(site, st, ch.add, picks, |ch.add|, s);
    ClearedLinked(site, c, ch, |ch.remove|);
    RefusedStays(site, st, ch.add, picks, i, |ch.add|);
  }

  // Beside a CNAME the final state holds no address.
  lemma NoAddressLeft(site: Site, after: State, r: Record, v: string)
    requires after.index == Sections(site, after.config) && CleanRouter(site, after.config)
    requires r.rtype.A? && Stable(r) && Judge(site, after.index, r).Refuse?
    ensures CountOf(Managed(site, after.config), RowKey(r), v) == 0
  {
    hide Sections, Acyclic, OneCnamePerAlias, Reaches, Key;
    var m := Managed(site, after.config);
    var name := CanonicalName(r.name);
    assert Holds(after.index, CNAME, name);
    forall s | s in m ensures RowKey(m[s]) != RowKey(r) {
      hide CanonicalName;
      assert s in after.index && m[s] == after.index[s];
      assert Canonical(m[s]) == m[s];
    }
    CountNone(m, RowKey(r), v);
  }

  // ---------- one row afterwards ----------

  lemma WantedOld(actual: Targets, ch: Changes, ep: Endpoint)
    requires HonestPlan(actual, ch) && ep in ch.Wanted()
    ensures EndpointKey(ep) !in actual || EndpointKey(ep) in KeySet(ch.Withdrawn())
  {
  }

  // The skipped record's own row.
  lemma SkippedRow(site: Site, c: Config, actual: Targets, ch: Changes, picks: seq<string>, s: Skip)
      returns (ep: Endpoint)
    requires Setting(site, c, actual, ch, picks) && s in SkippedBy(site, c, Cancelled(ch), picks)
    ensures ep in ch.Wanted() && s.record in RecordsOf(ep) && EndpointKey(ep) == SkipKey(s)
    ensures Stable(s.record) && PipeFree(s.record)
    ensures Judge(site, Result(site, c, Cancelled(ch), picks).index, s.record).Refuse?
  {
    hide CleanRouter, ReadBack, HonestPlan, Cancelled, PlainChange, Judge, EndpointKey, RowKey, RecordsOf, Stable,
         PipeFree, AfterAdd, AfterRemove, Admits, Valid, Skips;
    CancelledPlain(site, c, actual, ch);
    SkippedRefused(site, c, Cancelled(ch), picks, s);
    ep := AddedFrom(site, c, actual, ch, s.record);
  }

  // A row with a skipped record is not there afterwards, whatever was.
  lemma SkippedRowGone(site: Site, c: Config, actual: Targets, ch: Changes, picks: seq<string>, q: Record, s: Skip)
    requires Setting(site, c, actual, ch, picks) && PlainRecord(q)
    requires s in SkippedBy(site, c, Cancelled(ch), picks) && SkipKey(s) == RowKey(q)
    ensures CountOf(Managed(site, Result(site, c, Cancelled(ch), picks).config), RowKey(q), q.value) == 0
  {
    hide CleanRouter, ReadBack, Cancelled, PlainChange, StableAll, Judge, PipeFree, AfterAdd, AfterRemove, Admits,
         Valid, Skips, Managed, Sections, KeySet, Key, CountOf, HonestPlan, Start, Values;
    CancelledPlain(site, c, actual, ch);
    var ep := SkippedRow(site, c, actual, ch, picks, s);
    if s.record.rtype.A? {
      AfterwardsClean(site, c, Cancelled(ch), picks);
      NoAddressLeft(site, Result(site, c, Cancelled(ch), picks), s.record, q.value);
    } else {
      CountAfter(site, c, Cancelled(ch), picks, q);
      LeftCounts(site, c, actual, ch, q);
      WantedCount(site, c, actual, ch, q, ep);
      WithdrawnCount(site, c, actual, ch, q);
      WantedOld(actual, ch, ep);
      OnlyTarget(actual, ch, ep, s.record, q);
      assert Canonical(s.record).value == q.value ==> Key(q) in SkippedKeys(SkippedBy(site, c, Cancelled(ch), picks));
    }
  }

  // A CNAME asked for has the one target.
  lemma OnlyTarget(actual: Targets, ch: Changes, ep: Endpoint, r: Record, q: Record)
    requires HonestPlan(actual, ch) && ep in ch.Wanted() && r in RecordsOf(ep) && r.rtype.CNAME?
    requires PlainRecord(q) && RowKey(r) == RowKey(q) && PipeFree(r)
    ensures Canonical(r).value == q.value ==> Key(r) == Key(q)
    ensures Canonical(r).value != q.value ==> multiset(Values(ep))[q.value] == 0
  {
    assert PlainEndpoint(ep) && |RecordsOf(ep)| == 1 && RecordsOf(ep)[0] == r;
    assert Values(ep) == [Canonical(r).value];
    TargetKey(ep, q, r);
    RecordsKeyed(ep);
  }

  // How many sections a target asked for so often settles in, where had held
  // it: as many as asked for if that is nothing new, else one.
  function Settles(had: nat, asked: nat): nat {
    if asked == had || asked == 0 then asked else 1
  }

  lemma RowWanted(site: Site, c: Config, actual: Targets, ch: Changes, picks: seq<string>, q: Record, ep: Endpoint)
    requires Setting(site, c, actual, ch, picks) && PlainRecord(q) && ep in ch.Wanted() && EndpointKey(ep) == RowKey(q)
    ensures CountOf(Managed(site, Result(site, c, Cancelled(ch), picks).config), RowKey(q), q.value) ==
            if SkipsRow(SkippedBy(site, c, Cancelled(ch), picks), RowKey(q)) then 0
            else Settles(CountIn(actual, RowKey(q), q.value), multiset(Values(ep))[q.value])
  {
    hide CleanRouter, ReadBack, Cancelled, PlainChange, StableAll, Judge, AfterAdd, AfterRemove, Admits, Valid,
         Skips, Managed, Sections, KeySet, Key, CountOf, PlainRecord, PlainEndpoint, EndpointKey, RowKey,
         DistinctBy, SkippedKeys, PipeFree, Start, Values;
    var skipped := SkippedBy(site, c, Cancelled(ch), picks);
    if s :| s in skipped && SkipKey(s) == RowKey(q) {
      SkippedRowGone(site, c, actual, ch, picks, q, s);
    } else {
      CancelledPlain(site, c, actual, ch);
      CountAfter(site, c, Cancelled(ch), picks, q);
      LeftCounts(site, c, actual, ch, q);
      WantedCount(site, c, actual, ch, q, ep);
      WithdrawnCount(site, c, actual, ch, q);
      WantedOld(actual, ch, ep);
      UnskippedKey(site, c, actual, ch, picks, q);
    }
  }

  lemma UnskippedKey(site: Site, c: Config, actual: Targets, ch: Changes, picks: seq<string>, q: Record)
    requires Setting(site, c, actual, ch, picks) && PlainRecord(q)
    requires !SkipsRow(SkippedBy(site, c, Cancelled(ch), picks), RowKey(q))
    ensures Key(q) !in SkippedKeys(SkippedBy(site, c, Cancelled(ch), picks))
  {
    hide CleanRouter, ReadBack, HonestPlan, Cancelled, Judge, AfterAdd, AfterRemove, Admits, Valid, Skips, Managed,
         Key, CanonicalName, Stable, PipeFree, RecordsOf;
    forall s | s in SkippedBy(site, c, Cancelled(ch), picks) ensures Key(s.record) != Key(q) {
      var ep := SkippedRow(site, c, actual, ch, picks, s);
      PlainKey(s.record, q);
    }
  }

  lemma RowOther(site: Site, c: Config, actual: Targets, ch: Changes, picks: seq<string>, q: Record)
    requires Setting(site, c, actual, ch, picks) && PlainRecord(q) && RowKey(q) !in KeySet(ch.Wanted())
    ensures CountOf(Managed(site, Result(site, c, Cancelled(ch), picks).config), RowKey(q), q.value) ==
            if RowKey(q) in KeySet(ch.Withdrawn()) then 0 else CountIn(actual, RowKey(q), q.value)
  {
    hide CleanRouter, ReadBack, Cancelled, PlainChange, StableAll, Judge, AfterAdd, AfterRemove, Admits, Valid,
         Skips, Managed, Sections, KeySet, Key, CountOf, PlainRecord, EndpointKey, RowKey, HonestPlan, SkippedKeys,
         PipeFree, Start;
    CancelledPlain(site, c, actual, ch);
    CountAfter(site, c, Cancelled(ch), picks, q);
    LeftCounts(site, c, actual, ch, q);
    WantedCount(site, c, actual, ch, q, Reported(RowKey(q), []));
    WithdrawnCount(site, c, actual, ch, q);
  }

  // ---------- the prediction ----------

  lemma {:induction false} PredictLookup(base: Targets, wanted: seq<Endpoint>, conflict: map<RecordKey, string>,
      k: RecordKey)
    ensures k !in KeySet(wanted) || Get(conflict, k) != "" ==>
      (k in Predict(base, wanted, conflict) <==> k in base) && (k in base ==>
          Predict(base, wanted, conflict)[k] == base[k])
    ensures k in KeySet(wanted) && Get(conflict, k) == "" ==> k in Predict(base, wanted, conflict)
  {
    hide EndpointKey, Get;
    if wanted != [] {
      PredictLookup(base, wanted[..|wanted| - 1], conflict, k);
      assert wanted == wanted[..|wanted| - 1] + [wanted[|wanted| - 1]];
    }
  }

  lemma {:induction false} PredictWanted(base: Targets, wanted: seq<Endpoint>, conflict: map<RecordKey, string>,
      ep: Endpoint)
    requires DistinctBy(wanted, EndpointKey) && ep in wanted && Get(conflict, EndpointKey(ep)) == ""
    ensures EndpointKey(ep) in Predict(base, wanted, conflict)
    ensures Predict(base, wanted, conflict)[EndpointKey(ep)] == SortedTargets(ep.targets)
  {
    hide EndpointKey, Get;
    var n := |wanted| - 1;
    if wanted[n] != ep {
      var i :| 0 <= i < n && wanted[i] == ep;
      assert EndpointKey(wanted[i]) != EndpointKey(wanted[n]);
      PredictWanted(base, wanted[..n], conflict, ep);
    }
  }

  ghost function Predicted(b: Board, ch: Changes, skipped: seq<Skip>): Targets
    requires b.actual.Some?
  {
    SeenApply(b, ch, skipped, None).actual.value
  }

  lemma PredictedAs(b: Board, ch: Changes, skipped: seq<Skip>)
    requires b.actual.Some?
    ensures Predicted(b, ch, skipped) == Predict(b.actual.value - KeySet(ch.Withdrawn()), ch.Wanted(),
                                                 MarkConflicts(b.conflict - KeySet(ch.Wanted()), skipped))
  {
  }

  // What the tracker expects under one key.
  lemma PredictedRow(b: Board, ch: Changes, skipped: seq<Skip>, k: RecordKey, ep: Endpoint)
    requires b.actual.Some? && HonestPlan(b.actual.value, ch)
    ensures var p := Predicted(b, ch, skipped);
      && (k !in KeySet(ch.Wanted()) ==>
            (k in p <==> k in b.actual.value && k !in KeySet(ch.Withdrawn())) && (k in p ==> p[k] == b.actual.value[k]))
      && (ep in ch.Wanted() && EndpointKey(ep) == k ==>
            (k in p <==> !SkipsRow(skipped, k)) && (k in p ==> p[k] == SortedTargets(ep.targets)))
  {
    hide EndpointKey, KeySet, Get, Predict, MarkConflicts, Predicted, SkipsRow, DistinctBy;
    PredictedAs(b, ch, skipped);
    var base := b.actual.value - KeySet(ch.Withdrawn());
    var conflict := MarkConflicts(b.conflict - KeySet(ch.Wanted()), skipped);
    PredictLookup(base, ch.Wanted(), conflict, k);
    if ep in ch.Wanted() && EndpointKey(ep) == k {
      InKeySet(ch.Wanted(), ep);
      MarkedTexts(b.conflict - KeySet(ch.Wanted()), skipped, k);
      WantedOld(b.actual.value, ch, ep);
      if Get(conflict, k) == "" { PredictWanted(base, ch.Wanted(), conflict, ep); }
    }
  }

  lemma InKeySet(eps: seq<Endpoint>, ep: Endpoint)
    requires ep in eps
    ensures EndpointKey(ep) in KeySet(eps)
  {
  }

  lemma KeySetMember(eps: seq<Endpoint>, k: RecordKey) returns (ep: Endpoint)
    requires k in KeySet(eps)
    ensures ep in eps && EndpointKey(ep) == k
  {
    hide EndpointKey;
    ep :| ep in eps && EndpointKey(ep) == k;
  }

  // The prediction for a plain record is the number of sections holding it.
  lemma PredictedCount(site: Site, c: Config, b: Board, ch: Changes, picks: seq<string>, q: Record)
    requires b.actual.Some? && Setting(site, c, b.actual.value, ch, picks) && PlainRecord(q)
    requires AllTellable(b.actual.value, ch, SkippedBy(site, c, Cancelled(ch), picks))
    ensures CountIn(Predicted(b, ch, SkippedBy(site, c, Cancelled(ch), picks)), RowKey(q), q.value) ==
            CountOf(Managed(site, Result(site, c, Cancelled(ch), picks).config), RowKey(q), q.value)
  {
    hide CleanRouter, ReadBack, Cancelled, AfterAdd, AfterRemove, Admits, Valid, Skips, Managed, KeySet, CountOf,
         PlainRecord, EndpointKey, RowKey, SkipsRow, Predicted, HonestPlan, Values, ReadType;
    var k, skipped := RowKey(q), SkippedBy(site, c, Cancelled(ch), picks);
    if k in KeySet(ch.Wanted()) {
      var ep := KeySetMember(ch.Wanted(), k);
      PredictedRow(b, ch, skipped, k, ep);
      RowWanted(site, c, b.actual.value, ch, picks, q, ep);
      assert multiset(SortedTargets(ep.targets)) == multiset(ep.targets);
    } else {
      PredictedRow(b, ch, skipped, k, Reported(k, []));
      RowOther(site, c, b.actual.value, ch, picks, q);
    }
  }

  // A row and target some plain record stands for.
  ghost predicate PlainRow(k: RecordKey, v: string) {
    exists t :: PlainRecord(Record(t, k.name, v, "")) && TypeName(t) == k.rtype
  }

  lemma HeldIsPlain(m: Index, k: RecordKey, v: string)
    requires PlainIndex(m) && CountOf(m, k, v) > 0
    ensures PlainRow(k, v)
  {
  }

  lemma AskedIsPlain(actual: Targets, ep: Endpoint, v: string)
    requires PlainEndpoint(ep) && Tellable(actual, ep) && v in ep.targets
    ensures PlainRow(EndpointKey(ep), v)
  {
    hide CanonicalName;
    var i :| 0 <= i < |ep.targets| && ep.targets[i] == v;
    assert Values(ep)[i] == v;
    assert PlainRecord(Record(ReadType(ep.recordType).value, CanonicalName(ep.dnsName), v, ""));
  }

  lemma PredictedIsPlain(site: Site, c: Config, b: Board, ch: Changes, skipped: seq<Skip>, k: RecordKey, v: string)
    requires b.actual.Some? && CleanRouter(site, c) && ReadBack(Managed(site, c), b.actual.value)
    requires HonestPlan(b.actual.value, ch) && AllTellable(b.actual.value, ch, skipped)
    requires CountIn(Predicted(b, ch, skipped), k, v) > 0
    ensures PlainRow(k, v)
  {
    hide ReadBack, KeySet, CountOf, EndpointKey, RowKey, SkipsRow, Predicted, PlainEndpoint, PlainRow, PlainIndex,
         Sections, Managed, Safe, DistinctBy, Tellable;
    if k in KeySet(ch.Wanted()) {
      var ep := KeySetMember(ch.Wanted(), k);
      PredictedRow(b, ch, skipped, k, ep);
      assert v in multiset(SortedTargets(ep.targets)) && v in multiset(ep.targets);
      AskedIsPlain(b.actual.value, ep, v);
    } else {
      PredictedRow(b, ch, skipped, k, Reported(k, []));
      ManagedPlain(site, c);
      ReadBackCounts(Managed(site, c), b.actual.value, k, v);
      HeldIsPlain(Managed(site, c), k, v);
    }
  }

  // The rows predicted are sorted and not empty.
  lemma PredictedShape(site: Site, c: Config, b: Board, ch: Changes, skipped: seq<Skip>, k: RecordKey)
    requires b.actual.Some? && ReadBack(Managed(site, c), b.actual.value)
    requires HonestPlan(b.actual.value, ch) && AllTellable(b.actual.value, ch, skipped) &&
        k in Predicted(b, ch, skipped)
    ensures Sorted(Predicted(b, ch, skipped)[k], StrLe) && Predicted(b, ch, skipped)[k] != []
  {
    hide KeySet, CountOf, EndpointKey, RowKey, SkipsRow, Predicted, PlainEndpoint, Managed, DistinctBy, StrLe,
         Sorted, Values;
    if k in KeySet(ch.Wanted()) {
      var ep := KeySetMember(ch.Wanted(), k);
      PredictedRow(b, ch, skipped, k, ep);
      assert |SortedTargets(ep.targets)| == |ep.targets|;
    } else {
      PredictedRow(b, ch, skipped, k, Reported(k, []));
    }
  }

  // Rows that can be told are told.
  lemma PredictionHolds(site: Site, c: Config, b: Board, ch: Changes, picks: seq<string>)
    requires b.actual.Some? && Setting(site, c, b.actual.value, ch, picks)
    requires AllTellable(b.actual.value, ch, SkippedBy(site, c, Cancelled(ch), picks))
    ensures var after := Result(site, c, Cancelled(ch), picks).config;
      ReadBack(Managed(site, after), Predicted(b, ch, SkippedBy(site, c, Cancelled(ch), picks)))
  {
    hide ReadBack, Cancelled, AfterAdd, AfterRemove, Admits, Valid, Skips, Managed, KeySet, CountOf, PlainRecord,
         EndpointKey, RowKey, SkipsRow, Predicted, HonestPlan, Sections, Safe, PlainIndex, PipeFree, Stable,
         KeysFaithful, CountIn, Sorted, StrLe, Start, AllTellable;
    var after := Result(site, c, Cancelled(ch), picks).config;
    var m, p := Managed(site, after), Predicted(b, ch, SkippedBy(site, c, Cancelled(ch), picks));
    CancelledPlain(site, c, b.actual.value, ch);
    AfterwardsClean(site, c, Cancelled(ch), picks);
    ManagedPlain(site, after);
    forall k | k in p ensures Sorted(p[k], StrLe) && p[k] != [] {
      PredictedShape(site, c, b, ch, SkippedBy(site, c, Cancelled(ch), picks), k);
    }
    forall k, v ensures CountIn(p, k, v) == CountOf(m, k, v) {
      if CountIn(p, k, v) > 0 {
        PredictedIsPlain(site, c, b, ch, SkippedBy(site, c, Cancelled(ch), picks), k, v);
      } else if CountOf(m, k, v) > 0 {
        HeldIsPlain(m, k, v);
      }
      if t :| PlainRecord(Record(t, k.name, v, "")) && TypeName(t) == k.rtype {
        PlainRowKey(t, k, v);
        PredictedCount(site, c, b, ch, picks, Record(t, k.name, v, ""));
      }
    }
    CountsReadBack(m, p);
  }

  // A row the router holds has a type and canonical values.
  lemma CollectedPlain(m: Index, ep: Endpoint, targets: seq<string>)
    requires PlainIndex(m) && Collects(m, EndpointKey(ep), targets) && multiset(targets) == multiset(ep.targets)
    requires ReadType(ep.recordType) == Some(CNAME) ==> |ep.targets| <= 1
    ensures ReadType(ep.recordType).Some? && ep.targets != [] && Values(ep) == ep.targets
    ensures forall v <- ep.targets :: PlainRow(EndpointKey(ep), v)
  {
    hide CountOf, PlainRow, CanonicalName, RowKey;
    assert |multiset(targets)| == |multiset(ep.targets)|;
    forall v | v in ep.targets ensures PlainRow(EndpointKey(ep), v) {
      assert v in multiset(targets);
      HeldIsPlain(m, EndpointKey(ep), v);
    }
    assert PlainRow(EndpointKey(ep), ep.targets[0]) by { assert ep.targets[0] in ep.targets; }
    PlainRowType(ep, ep.targets[0]);
  }

  lemma PlainRowType(ep: Endpoint, v: string)
    requires PlainRow(EndpointKey(ep), v)
    ensures ReadType(ep.recordType).Some? && (ReadType(ep.recordType) == Some(CNAME) ==> CanonicalName(v) == v)
  {
  }

  // What was told right could be told.
  lemma ToldIsTellable(site: Site, c: Config, b: Board, ch: Changes, picks: seq<string>, ep: Endpoint)
    requires b.actual.Some? && Setting(site, c, b.actual.value, ch, picks) && ep in ch.Wanted()
    requires !SkipsRow(SkippedBy(site, c, Cancelled(ch), picks), EndpointKey(ep))
    requires ReadBack(Managed(site, Result(site, c, Cancelled(ch), picks).config),
                      Predicted(b, ch, SkippedBy(site, c, Cancelled(ch), picks)))
    ensures Tellable(b.actual.value, ep)
  {
    hide Cancelled, AfterAdd, AfterRemove, Admits, Valid, Skips, Managed, KeySet, CountOf, PlainRecord, EndpointKey,
         RowKey, SkipsRow, Predicted, Sections, Safe, PlainIndex, PipeFree, Stable, KeysFaithful, CountIn, Sorted,
         StrLe, Start, Values, ReadType, DistinctBy, PlainEndpoint, Collects;
    var after := Result(site, c, Cancelled(ch), picks).config;
    var m, k := Managed(site, after), EndpointKey(ep);
    var p := Predicted(b, ch, SkippedBy(site, c, Cancelled(ch), picks));
    CancelledPlain(site, c, b.actual.value, ch);
    AfterwardsClean(site, c, Cancelled(ch), picks);
    ManagedPlain(site, after);
    PredictedRow(b, ch, SkippedBy(site, c, Cancelled(ch), picks), k, ep);
    assert multiset(SortedTargets(ep.targets)) == multiset(ep.targets);
    CollectedPlain(m, ep, p[k]);
    forall v ensures multiset(ep.targets)[v] <= 1 || multiset(ep.targets)[v] == CountIn(b.actual.value, k, v) {
      if v in ep.targets {
        CollectedCount(m, k, p[k], v);
        var t :| PlainRecord(Record(t, k.name, v, "")) && TypeName(t) == k.rtype;
        PlainRowKey(t, k, v);
        RowWanted(site, c, b.actual.value, ch, picks, Record(t, k.name, v, ""), ep);
      }
    }
  }

  lemma CollectedCount(m: Index, k: RecordKey, targets: seq<string>, v: string)
    requires Collects(m, k, targets)
    ensures multiset(targets)[v] == CountOf(m, k, v)
  {
  }

  /** From a clean router and a plan honest about it, what the tracker holds
      for the router once a change set went through is what reading the router
      again gives, row by row, target by target, skipped rows included, exactly
      when every row asked for and not skipped has a type the router holds and
      targets, canonical ones, none twice unless it was held twice already. */
  lemma PredictionExactly(site: Site, c: Config, b: Board, ch: Changes, picks: seq<string>)
    requires b.actual.Some? && Setting(site, c, b.actual.value, ch, picks)
    ensures var after := Result(site, c, Cancelled(ch), picks).config;
      var skipped := SkippedBy(site, c, Cancelled(ch), picks);
      ReadBack(Managed(site, after), Predicted(b, ch, skipped)) <==> AllTellable(b.actual.value, ch, skipped)
  {
    hide CleanRouter, HonestPlan, ReadBack, Tellable, Cancelled, Managed, SkippedBy, SkipsRow, Predicted, AdmitsAll,
         Valid, AfterAdd, Cleared;
    var skipped := SkippedBy(site, c, Cancelled(ch), picks);
    if AllTellable(b.actual.value, ch, skipped) {
      PredictionHolds(site, c, b, ch, picks);
    }
    if ReadBack(Managed(site, Result(site, c, Cancelled(ch), picks).config), Predicted(b, ch, skipped)) {
      forall ep | ep in ch.Wanted() && !SkipsRow(skipped, EndpointKey(ep)) ensures Tellable(b.actual.value, ep) {
        ToldIsTellable(site, c, b, ch, picks, ep);
      }
    }
  }

  lemma PlainRowKey(t: RecordType, k: RecordKey, v: string)
    requires PlainRecord(Record(t, k.name, v, "")) && TypeName(t) == k.rtype
    ensures RowKey(Record(t, k.name, v, "")) == k
  {
  }

  /** Once a change set went through, a record it wrote with the targets asked
      for shows as ready, unless it was skipped or is refused. */
  lemma WrittenShows(b: Board, ch: Changes, skipped: seq<Skip>, rows: seq<Row>, ep: Endpoint)
    requires Both(b) && DistinctBy(ch.Wanted(), EndpointKey) && ep in ch.Wanted()
    requires !SkipsRow(skipped, EndpointKey(ep)) && Asked(b, EndpointKey(ep))
    requires b.desired.value[EndpointKey(ep)] == SortedTargets(ep.targets)
    requires IsSnapshot(SeenApply(b, ch, skipped, None), rows)
    ensures var k := EndpointKey(ep); Only(rows, Row(k.name, k.rtype, b.desired.value[k], Ready, ""))
  {
    hide IsSnapshot, KeySet, Join, EndpointKey, Predict, MarkConflicts, DistinctBy, Predicted, Get;
    var k, now := EndpointKey(ep), SeenApply(b, ch, skipped, None);
    PredictedAs(b, ch, skipped);
    InKeySet(ch.Wanted(), ep);
    MarkedTexts(b.conflict - KeySet(ch.Wanted()), skipped, k);
    PredictWanted(b.actual.value - KeySet(ch.Withdrawn()), ch.Wanted(), now.conflict, ep);
    RowsSay(now, rows, k);
  }
}
