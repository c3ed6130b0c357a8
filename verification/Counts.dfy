/** What a change set leaves under each key, against the simple specification
    "managed before, less the removed, plus the added that were not skipped". */
module Counts {
  import opened Types
  import opened Uci
  import opened Graph
  import opened IndexTable
  import opened Reconcile
  import opened Safety
  import opened Ownership

  // ---------- removals ----------

  lemma {:induction false} RemovedKeys(site: Site, st: State, remove: seq<Record>, n: nat, key: string)
    requires n <= |remove|
    ensures OwnedSet(AfterRemove(site, st, remove, n).index, key, site.id) ==
            if key in Keys(remove, n) then {} else OwnedSet(st.index, key, site.id)
  {
    hide Key;
    if n > 0 {
      RemovedKeys(site, st, remove, n - 1, key);
      assert Keys(remove, n) == Keys(remove, n - 1) + {Key(remove[n - 1])};
    }
  }

  // ---------- one addition ----------

  lemma AdoptEffect(site: Site, m: Index, pick: string, own: string, key: string)
    requires site.id != "" && pick in UnownedSet(m, own) && OwnedSet(m, own, site.id) == {}
    ensures var m' := m[pick := m[pick].(owner := site.id)];
      && OwnedSet(m', key, site.id) == (if key == own then {pick} else OwnedSet(m, key, site.id))
      && (key != own ==> UnownedSet(m', key) == UnownedSet(m, key))
  {
    hide Key;
    OwnerIsNoKey(m[pick], site.id);
    var m' := m[pick := m[pick].(owner := site.id)];
    assert forall s | s in m && s != pick :: m'[s] == m[s];
  }

  lemma CreateEffect(site: Site, m: Index, pick: string, c: Record, own: string, key: string)
    requires pick !in m && Key(c) == own && c.owner == site.id && OwnedSet(m, own, site.id) == {}
    ensures var m' := m[pick := c];
      && OwnedSet(m', key, site.id) == (if key == own then {pick} else OwnedSet(m, key, site.id))
      && (site.id != "" && key != own ==> UnownedSet(m', key) == UnownedSet(m, key))
  {
  }

  // Only the key added can gain a section, and only where it had none.
  lemma AddEffect(site: Site, st: State, r: Record, pick: string, key: string)
    requires Stable(r) && Linked(st) && Admits(site, st, r, pick)
    ensures OwnedSet(AddOne(site, st, r, pick).index, key, site.id) ==
            if key == Key(r) && Writes(Judge(site, st.index, r)) then {pick} else OwnedSet(st.index, key, site.id)
    ensures site.id != "" && key != Key(r) ==>
            UnownedSet(AddOne(site, st, r, pick).index, key) == UnownedSet(st.index, key)
    ensures !Writes(Judge(site, st.index, r)) ==> AddOne(site, st, r, pick) == st
    ensures Judge(site, st.index, r).Present? <==> OwnedSet(st.index, Key(r), site.id) != {}
  {
    StableKey(r);
    OwnerIsNoKey(Canonical(r), site.id);
    hide Key, CanonicalName, Reaches, Holds, Written, OwnedSet, Stamped;
    match Judge(site, st.index, r)
    case Adopt => AdoptEffect(site, st.index, pick, Key(r), key);
    case Create => CreateEffect(site, st.index, pick, Own(site, r), Key(r), key);
    case _ =>
  }

  // ---------- all additions ----------

  ghost predicate RefusedAt(site: Site, st: State, add: seq<Record>, picks: seq<string>, i: nat)
    requires i < |add| && i < |picks|
  {
    VerdictAt(site, st, add, picks, i).Refuse?
  }

  // A key with sections of this instance's keeps them; one without gets a
  // single one, unless no record with the key was let through.
  ghost predicate KeyOutcome(site: Site, st: State, add: seq<Record>, picks: seq<string>, n: nat, key: string)
    requires n <= |add| && n <= |picks|
  {
    var was, now := OwnedSet(st.index, key, site.id), OwnedSet(AfterAdd(site, st, add, picks, n).index, key, site.id);
    if was != {} then now == was
    else if forall i | 0 <= i < n && Key(add[i]) == key :: RefusedAt(site, st, add, picks, i) then now == {}
    else |now| == 1
  }

  lemma {:induction false} AddsLinked(site: Site, st: State, add: seq<Record>, picks: seq<string>, n: nat)
    requires n <= |add| && n <= |picks| && Linked(st)
    ensures Linked(AfterAdd(site, st, add, picks, n))
  {
    hide AddOne, Linked;
    if n > 0 {
      AddsLinked(site, st, add, picks, n - 1);
      AddLinked(site, AfterAdd(site, st, add, picks, n - 1), add[n - 1], picks[n - 1]);
    }
  }

  lemma {:induction false} AddedKeys(site: Site, st: State, add: seq<Record>, picks: seq<string>, n: nat, key: string)
    requires n <= |add| && n <= |picks| && AdmitsAll(site, st, add, picks, n)
    requires Linked(st) && StableAll(add)
    ensures KeyOutcome(site, st, add, picks, n, key)
  {
    hide AddOne, Linked, Admits, Key, Stable, Judge, UnownedSet, OwnedSet;
    if n > 0 {
      AddedKeys(site, st, add, picks, n - 1, key);
      AddsLinked(site, st, add, picks, n - 1);
      AddEffect(site, AfterAdd(site, st, add, picks, n - 1), add[n - 1], picks[n - 1], key);
    }
  }

  // ---------- skipped always or never ----------

  // Among the records added, the key says which record it is.
  ghost predicate KeysFaithful(add: seq<Record>) {
    forall r, q | r in add && q in add && Key(r) == Key(q) :: SameIdentity(r, q)
  }

  lemma PipeFreeFaithful(add: seq<Record>)
    requires forall r <- add :: PipeFree(r)
    ensures KeysFaithful(add)
  {
    forall r, q | r in add && q in add && Key(r) == Key(q) ensures SameIdentity(r, q) {
      KeyInjective(r, q);
    }
  }

  // Nothing an addition writes takes away what stood in the way of a record.
  ghost predicate Grows(m: Index, n: Index) {
    forall s | s in m :: s in n && n[s].rtype == m[s].rtype && n[s].name == m[s].name && n[s].value == m[s].value
  }

  lemma AddGrows(site: Site, st: State, r: Record, pick: string)
    requires Linked(st) && Admits(site, st, r, pick)
    ensures Grows(st.index, AddOne(site, st, r, pick).index)
  {
  }

  lemma StillBlocked(site: Site, m: Index, n: Index, r: Record)
    requires Judge(site, m, r).Refuse? && Grows(m, n)
    requires OwnedSet(n, Key(r), site.id) == {}
    requires site.id != "" ==> UnownedSet(n, Key(r)) == {}
    ensures Judge(site, n, r).Refuse?
  {
    hide Key, CanonicalName;
    if Reaches(m, CanonicalName(r.value), CanonicalName(r.name)) {
      ReachKept(m, n, CanonicalName(r.value), CanonicalName(r.name));
    }
  }

  lemma SameJudgement(site: Site, m: Index, r: Record, q: Record)
    requires Key(r) == Key(q) && SameIdentity(r, q)
    ensures Judge(site, m, r) == Judge(site, m, q)
  {
  }

  lemma RefusalPersists(site: Site, st: State, r: Record, next: Record, pick: string)
    requires Judge(site, st.index, r).Refuse? && Linked(st) && Stable(next) && Admits(site, st, next, pick)
    requires Key(next) == Key(r) ==> SameIdentity(next, r)
    ensures Judge(site, AddOne(site, st, next, pick).index, r).Refuse?
  {
    hide Key, CanonicalName, Stable, Reaches, Holds, SameIdentity;
    AddGrows(site, st, next, pick);
    if Key(next) == Key(r) {
      SameJudgement(site, st.index, next, r);
    } else {
      AddEffect(site, st, next, pick, Key(r));
      StillBlocked(site, st.index, AddOne(site, st, next, pick).index, r);
    }
  }

  // A record refused stays refused, or is there because another with its key
  // was let through.
  lemma RefusalSettles(site: Site, st: State, r: Record, next: Record, pick: string)
    requires !Writes(Judge(site, st.index, r)) && Linked(st) && Stable(next) && Admits(site, st, next, pick)
    ensures !Writes(Judge(site, AddOne(site, st, next, pick).index, r))
  {
    hide Key, CanonicalName, Stable, Reaches, Holds;
    AddEffect(site, st, next, pick, Key(r));
    if Judge(site, st.index, r).Refuse? && Key(next) != Key(r) {
      AddGrows(site, st, next, pick);
      StillBlocked(site, st.index, AddOne(site, st, next, pick).index, r);
    }
  }

  lemma {:induction false} RefusedSettles(site: Site, st: State, add: seq<Record>, picks: seq<string>, i: nat, n: nat)
    requires i < n <= |add| && n <= |picks| && AdmitsAll(site, st, add, picks, n)
    requires Linked(st) && StableAll(add) && RefusedAt(site, st, add, picks, i)
    ensures !Writes(Judge(site, AfterAdd(site, st, add, picks, n).index, add[i]))
  {
    hide AddOne, Linked, Key, Stable, Judge;
    if i < n - 1 {
      RefusedSettles(site, st, add, picks, i, n - 1);
    }
    AddsLinked(site, st, add, picks, n - 1);
    assert add[n - 1] in add;
    RefusalSettles(site, AfterAdd(site, st, add, picks, n - 1), add[i], add[n - 1], picks[n - 1]);
  }

  // Once refused, refused to the end.
  lemma {:induction false} RefusedStays(site: Site, st: State, add: seq<Record>, picks: seq<string>, i: nat, n: nat)
    requires i < n <= |add| && n <= |picks| && AdmitsAll(site, st, add, picks, n)
    requires Linked(st) && StableAll(add) && KeysFaithful(add)
    requires RefusedAt(site, st, add, picks, i)
    ensures Judge(site, AfterAdd(site, st, add, picks, n).index, add[i]).Refuse?
  {
    hide AddOne, Linked, Key, SameIdentity, Stable, Judge;
    if i < n - 1 {
      RefusedStays(site, st, add, picks, i, n - 1);
    }
    AddsLinked(site, st, add, picks, n - 1);
    assert add[n - 1] in add && add[i] in add;
    RefusalPersists(site, AfterAdd(site, st, add, picks, n - 1), add[i], add[n - 1], picks[n - 1]);
  }

  lemma {:induction false} LetThroughStays(site: Site, st: State, add: seq<Record>, picks: seq<string>, i: nat, n: nat)
    requires i < n <= |add| && n <= |picks| && AdmitsAll(site, st, add, picks, n)
    requires Linked(st) && StableAll(add)
    requires !RefusedAt(site, st, add, picks, i)
    ensures Judge(site, AfterAdd(site, st, add, picks, n).index, add[i]).Present?
  {
    hide AddOne, Linked, Admits, Key, Stable, Reaches, Holds;
    AddsLinked(site, st, add, picks, n - 1);
    AddEffect(site, AfterAdd(site, st, add, picks, n - 1), add[n - 1], picks[n - 1], Key(add[i]));
    if i < n - 1 {
      LetThroughStays(site, st, add, picks, i, n - 1);
    }
  }

  /** Within one change set a key is skipped for every record that has it, or
      for none. */
  lemma SkippedAlwaysOrNever(site: Site, st: State, add: seq<Record>, picks: seq<string>, i: nat, j: nat)
    requires i < |add| == |picks| && j < |add| && Key(add[i]) == Key(add[j])
    requires AdmitsAll(site, st, add, picks, |add|) && Linked(st) && StableAll(add) && KeysFaithful(add)
    ensures RefusedAt(site, st, add, picks, i) == RefusedAt(site, st, add, picks, j)
  {
    hide AddOne, Linked, Admits, Key, SameIdentity, Stable, Judge, AfterAdd;
    var end := AfterAdd(site, st, add, picks, |add|).index;
    assert add[i] in add && add[j] in add;
    SameJudgement(site, end, add[i], add[j]);
    if RefusedAt(site, st, add, picks, i) {
      RefusedStays(site, st, add, picks, i, |add|);
    } else {
      LetThroughStays(site, st, add, picks, i, |add|);
    }
    if RefusedAt(site, st, add, picks, j) {
      RefusedStays(site, st, add, picks, j, |add|);
    } else {
      LetThroughStays(site, st, add, picks, j, |add|);
    }
  }

  // ---------- the skipped list ----------

  ghost function SkippedKeys(skips: seq<Skip>): set<string> {
    set k <- skips :: Key(k.record)
  }

  // What is skipped is what was refused, in the order of the additions.
  lemma {:induction false} SkipsAreRefusals(site: Site, st: State, add: seq<Record>, picks: seq<string>, n: nat,
      key: string)
    requires n <= |add| && n <= |picks|
    ensures key in SkippedKeys(Skips(site, st, add, picks, n)) <==>
            exists i | 0 <= i < n :: Key(add[i]) == key && RefusedAt(site, st, add, picks, i)
  {
    hide Key, Judge, AfterAdd;
    if n > 0 {
      SkipsAreRefusals(site, st, add, picks, n - 1, key);
      var before, now := Skips(site, st, add, picks, n - 1), Skips(site, st, add, picks, n);
      if RefusedAt(site, st, add, picks, n - 1) {
        assert now[|now| - 1].record == add[n - 1];
        assert forall k :: k in now <==> k in before || k == now[|now| - 1];
      }
    }
  }

  // ---------- the whole change set ----------

  ghost function ManagedKeys(site: Site, m: Index): set<string> {
    set s | s in m && Manages(site.id, m[s]) :: Key(m[s])
  }

  // The keys of the additions let through.
  ghost function LetThrough(site: Site, before: Config, ch: Change, picks: seq<string>): set<string>
    requires |picks| == |ch.add|
  {
    set i | 0 <= i < |ch.add| && !RefusedAt(site, Cleared(site, before, ch), ch.add, picks, i) :: Key(ch.add[i])
  }

  // What this instance's sections with a key come to when left were there
  // after the removals.
  ghost predicate Becomes(left: set<string>, now: set<string>, through: bool) {
    if left != {} then now == left else if through then |now| == 1 else now == {}
  }

  /** How many sections of its own a key has, on what is then committed, once
      a change set is through: as many as the removals left, or, where they
      left none, exactly one if an addition with the key was let through and
      none if not. Only a key they left none of can be skipped. */
  lemma KeyCount(site: Site, before: Config, ch: Change, picks: seq<string>, key: string)
    requires Possible(site, before, ch, picks) && StableAll(ch.add)
    ensures var was := OwnedSet(Reading(site, before), key, site.id);
      var now := OwnedSet(Reading(site, Result(site, before, ch, picks).config), key, site.id);
      var left := if key in Keys(ch.remove, |ch.remove|) then {} else was;
      && Becomes(left, now, key in LetThrough(site, before, ch, picks))
      && (key in SkippedKeys(SkippedBy(site, before, ch, picks)) ==> left == {})
  {
    hide Linked, Admits, Key, Stable, Judge, AfterAdd, AfterRemove, Valid, OwnedSet, Reading;
    ResultIsStart(site, before, ch, picks);
    var st := Cleared(site, before, ch);
    var n := |ch.add|;
    RemovedKeys(site, Start(site, before), ch.remove, |ch.remove|, key);
    ClearedLinked(site, before, ch, |ch.remove|);
    AddedKeys(site, st, ch.add, picks, n, key);
    SkipsAreRefusals(site, st, ch.add, picks, n, key);
    if i :| 0 <= i < n && Key(ch.add[i]) == key && RefusedAt(site, st, ch.add, picks, i) {
      AddedKeys(site, st, ch.add, picks, i, key);
      RefusedHasNone(site, AfterAdd(site, st, ch.add, picks, i).index, ch.add[i]);
    }
  }

  // Every key added is let through or skipped, or, for one record each, both.
  lemma ThroughOrSkipped(site: Site, before: Config, ch: Change, picks: seq<string>)
    requires |picks| == |ch.add|
    ensures Keys(ch.add, |ch.add|) ==
            LetThrough(site, before, ch, picks) + SkippedKeys(SkippedBy(site, before, ch, picks))
  {
    hide Key, Judge, AfterAdd, AfterRemove, SkippedKeys, Skips;
    var st := Cleared(site, before, ch);
    var skipped := SkippedKeys(SkippedBy(site, before, ch, picks));
    forall key ensures key in Keys(ch.add, |ch.add|) <==> key in LetThrough(site, before, ch, picks) || key in skipped {
      SkipsAreRefusals(site, st, ch.add, picks, |ch.add|, key);
      if i :| 0 <= i < |ch.add| && Key(ch.add[i]) == key && !RefusedAt(site, st, ch.add, picks, i) {}
    }
  }

  // No key is skipped for one record and let through for another.
  ghost predicate SkipsApart(site: Site, before: Config, ch: Change, picks: seq<string>)
    requires |picks| == |ch.add|
  {
    SkippedKeys(SkippedBy(site, before, ch, picks)) !! LetThrough(site, before, ch, picks)
  }

  /** As it is where keys tell records, as they do without pipes. */
  lemma FaithfulSkipsApart(site: Site, before: Config, ch: Change, picks: seq<string>)
    requires Possible(site, before, ch, picks) && StableAll(ch.add) && KeysFaithful(ch.add)
    ensures SkipsApart(site, before, ch, picks)
  {
    hide Key, Judge, AfterAdd, AfterRemove, Admits, SkippedKeys, Skips, Stable, Valid, KeysFaithful, Linked;
    var st := Cleared(site, before, ch);
    ClearedLinked(site, before, ch, |ch.remove|);
    forall key | key in SkippedKeys(SkippedBy(site, before, ch, picks)) && key in LetThrough(site, before, ch, picks)
      ensures false
    {
      SkipsAreRefusals(site, st, ch.add, picks, |ch.add|, key);
      var i :| 0 <= i < |ch.add| && Key(ch.add[i]) == key && RefusedAt(site, st, ch.add, picks, i);
      var j :| 0 <= j < |ch.add| && Key(ch.add[j]) == key && !RefusedAt(site, st, ch.add, picks, j);
      SkippedAlwaysOrNever(site, st, ch.add, picks, i, j);
    }
  }

  lemma RefusedHasNone(site: Site, m: Index, r: Record)
    requires Judge(site, m, r).Refuse?
    ensures OwnedSet(m, Key(r), site.id) == {}
  {
  }

  lemma {:induction false} ClearedLinked(site: Site, before: Config, ch: Change, n: nat)
    requires n <= |ch.remove|
    ensures Linked(AfterRemove(site, Start(site, before), ch.remove, n))
  {
    hide RemoveOne, Linked;
    if n == 0 {
      StartLinked(site, before);
    } else {
      ClearedLinked(site, before, ch, n - 1);
      RemoveLinked(site, AfterRemove(site, Start(site, before), ch.remove, n - 1), ch.remove[n - 1]);
    }
  }

  lemma ManagedKeyOwned(site: Site, m: Index, key: string)
    ensures key in ManagedKeys(site, m) <==> OwnedSet(m, key, site.id) != {}
  {
    hide Key;
    if key in ManagedKeys(site, m) {
      var s :| s in m && Manages(site.id, m[s]) && Key(m[s]) == key;
      assert s in OwnedSet(m, key, site.id);
    }
  }

  /** The simple specification: managed before, less the removed, plus the
      added that were let through; and nothing skipped is managed exactly when
      no key was both. */
  lemma ManagedAfter(site: Site, before: Config, ch: Change, picks: seq<string>)
    requires Possible(site, before, ch, picks) && StableAll(ch.add)
    ensures var through := LetThrough(site, before, ch, picks);
      var after := ManagedKeys(site, Reading(site, Result(site, before, ch, picks).config));
      && after == (ManagedKeys(site, Reading(site, before)) - Keys(ch.remove, |ch.remove|)) + through
      && (SkippedKeys(SkippedBy(site, before, ch, picks)) !! after <==> SkipsApart(site, before, ch, picks))
  {
    hide AdmitsAll, Valid, AfterAdd, Cleared, StableAll, Key, Keys, SkippedKeys, Skips, ManagedKeys, OwnedSet,
         Reading, LetThrough;
    var through := LetThrough(site, before, ch, picks);
    var was, now := Reading(site, before), Reading(site, Result(site, before, ch, picks).config);
    forall key
      ensures key in ManagedKeys(site, now) <==>
        key in (ManagedKeys(site, was) - Keys(ch.remove, |ch.remove|)) + through
      ensures key in SkippedKeys(SkippedBy(site, before, ch, picks)) ==>
        (key in ManagedKeys(site, now) <==> key in through)
    {
      KeyCount(site, before, ch, picks, key);
      ManagedKeyOwned(site, now, key);
      ManagedKeyOwned(site, was, key);
    }
  }

  /** Where keys tell records: managed before, less the removed, plus the added
      that were not skipped, and nothing skipped is managed. */
  lemma ManagedUnskipped(site: Site, before: Config, ch: Change, picks: seq<string>)
    requires Possible(site, before, ch, picks) && StableAll(ch.add) && KeysFaithful(ch.add)
    ensures var skipped := SkippedKeys(SkippedBy(site, before, ch, picks));
      var after := ManagedKeys(site, Reading(site, Result(site, before, ch, picks).config));
      && after == (ManagedKeys(site, Reading(site, before)) - Keys(ch.remove, |ch.remove|)) +
                  (Keys(ch.add, |ch.add|) - skipped)
      && skipped !! after
  {
    hide AdmitsAll, Valid, AfterAdd, Cleared, StableAll, KeysFaithful, Key, Keys, SkippedKeys, Skips, ManagedKeys,
         Reading, LetThrough;
    ManagedAfter(site, before, ch, picks);
    FaithfulSkipsApart(site, before, ch, picks);
    ThroughOrSkipped(site, before, ch, picks);
    var through := LetThrough(site, before, ch, picks);
    assert Keys(ch.add, |ch.add|) - SkippedKeys(SkippedBy(site, before, ch, picks)) == through;
  }

  /** A key ends with two sections of this instance's only if it had them and
      the change set did not remove it. */
  lemma NoSecondOwned(site: Site, before: Config, ch: Change, picks: seq<string>, key: string)
    requires Possible(site, before, ch, picks) && StableAll(ch.add)
    requires |OwnedSet(Reading(site, before), key, site.id)| <= 1
    ensures |OwnedSet(Reading(site, Result(site, before, ch, picks).config), key, site.id)| <= 1
  {
    hide Admits, AfterAdd, AfterRemove, Valid, Key, Keys, OwnedSet, Reading, Linked, Stable;
    ResultIsStart(site, before, ch, picks);
    ClearedLinked(site, before, ch, |ch.remove|);
    RemovedKeys(site, Start(site, before), ch.remove, |ch.remove|, key);
    AddedKeys(site, Cleared(site, before, ch), ch.add, picks, |ch.add|, key);
  }

  /** Nor does any key gain a second one over a run of change sets. */
  lemma {:induction false} RunNoSecondOwned(
    site: Site, committed: seq<Config>, changes: seq<Change>, key: string, n: nat)
    requires Run(site, committed, changes) && n <= |changes|
    requires forall ch <- changes :: StableAll(ch.add)
    requires |OwnedSet(Reading(site, committed[0]), key, site.id)| <= 1
    ensures |OwnedSet(Reading(site, committed[n]), key, site.id)| <= 1
  {
    hide AdmitsAll, Valid, AfterAdd, Cleared, Key, OwnedSet, Reading, StableAll;
    if n > 0 {
      RunNoSecondOwned(site, committed, changes, key, n - 1);
      var before, ch := committed[n - 1], changes[n - 1];
      if committed[n] != before {
        assert Completes(site, before, ch, committed[n]);
        var picks :| Possible(site, before, ch, picks) && Result(site, before, ch, picks).config == committed[n];
        NoSecondOwned(site, before, ch, picks, key);
      }
    }
  }
}
