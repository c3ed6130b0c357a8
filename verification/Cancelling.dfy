/** Cancelling what two lists share changes nothing on the router
    (cancelOut in internal/provider/provider.go). */
module Cancelling {
  import opened Types
  import opened Uci
  import opened Graph
  import opened IndexTable
  import opened Reconcile
  import opened Ownership
  import opened Safety
  import opened Counts
  import opened Plan
  import opened Forecast

  // The change set as planned, and as it is run.
  ghost function Shortened(ch: Change): Change {
    Change(Unbalanced(ch.remove, ch.remove, ch.add), Unbalanced(ch.add, ch.remove, ch.add))
  }

  /** A plan for addresses only, honest and free of repetitions: every record
      to remove is managed, once, and no list names a key twice. */
  ghost predicate HonestAddresses(site: Site, c: Config, ch: Change) {
    && (forall r <- ch.add :: r.rtype.A? && Valid(r) && Stable(r))
    && (forall r <- ch.remove :: |OwnedSet(Reading(site, c), Key(r), site.id)| == 1)
    && (forall k :: CountKey(ch.remove, k) <= 1 && CountKey(ch.add, k) <= 1)
  }

  // No name to be added has a CNAME.
  ghost predicate CnameFree(m: Index, add: seq<Record>) {
    forall r <- add :: !Holds(m, CNAME, CanonicalName(r.name))
  }

  ghost predicate SameCnames(m: Index, n: Index) {
    forall name :: Holds(n, CNAME, name) ==> Holds(m, CNAME, name)
  }

  lemma RemoveCnames(site: Site, st: State, r: Record)
    ensures SameCnames(st.index, RemoveOne(site, st, r).index)
  {
  }

  lemma AddAddressCnames(site: Site, st: State, r: Record, pick: string)
    requires r.rtype.A?
    ensures SameCnames(st.index, AddOne(site, st, r, pick).index)
  {
  }

  lemma {:induction false} RemovesCnames(site: Site, st: State, remove: seq<Record>, n: nat)
    requires n <= |remove|
    ensures SameCnames(st.index, AfterRemove(site, st, remove, n).index)
  {
    hide RemoveOne, Holds;
    if n > 0 {
      RemovesCnames(site, st, remove, n - 1);
      RemoveCnames(site, AfterRemove(site, st, remove, n - 1), remove[n - 1]);
    }
  }

  lemma {:induction false} AddsCnames(site: Site, st: State, add: seq<Record>, picks: seq<string>, n: nat)
    requires n <= |add| && n <= |picks| && forall r <- add :: r.rtype.A?
    ensures SameCnames(st.index, AfterAdd(site, st, add, picks, n).index)
  {
    hide AddOne, Holds;
    if n > 0 {
      AddsCnames(site, st, add, picks, n - 1);
      AddAddressCnames(site, AfterAdd(site, st, add, picks, n - 1), add[n - 1], picks[n - 1]);
    }
  }

  // Addresses for names without a CNAME are never skipped.
  lemma NothingSkipped(site: Site, c: Config, ch: Change, picks: seq<string>)
    requires |picks| == |ch.add| && (forall r <- ch.add :: r.rtype.A?) && CnameFree(Reading(site, c), ch.add)
    ensures LetThrough(site, c, ch, picks) == Keys(ch.add, |ch.add|)
    ensures SkippedBy(site, c, ch, picks) == []
  {
    hide Key, Judge, Holds, AfterAdd, AfterRemove, Reading, CanonicalName;
    var st := Cleared(site, c, ch);
    forall i | 0 <= i < |ch.add| ensures !RefusedAt(site, st, ch.add, picks, i) {
      RemovesCnames(site, Start(site, c), ch.remove, |ch.remove|);
      AddsCnames(site, st, ch.add, picks, i);
      AddressRefused(site, AfterAdd(site, st, ch.add, picks, i).index, ch.add[i]);
      assert ch.add[i] in ch.add;
    }
    NoSkips(site, st, ch.add, picks, |ch.add|);
  }

  lemma {:induction false} NoSkips(site: Site, st: State, add: seq<Record>, picks: seq<string>, n: nat)
    requires n <= |add| == |picks| && forall i | 0 <= i < n :: !RefusedAt(site, st, add, picks, i)
    ensures Skips(site, st, add, picks, n) == []
  {
    hide Judge, AfterAdd;
    if n > 0 {
      NoSkips(site, st, add, picks, n - 1);
      assert !RefusedAt(site, st, add, picks, n - 1);
    }
  }

  lemma AddressRefused(site: Site, m: Index, r: Record)
    requires r.rtype.A?
    ensures Judge(site, m, r).Refuse? ==> Holds(m, CNAME, CanonicalName(r.name))
  {
  }

  lemma ShortenedHonest(site: Site, c: Config, ch: Change)
    requires HonestAddresses(site, c, ch) && CnameFree(Reading(site, c), ch.add)
    ensures StableAll(ch.add) && StableAll(Shortened(ch).add)
    ensures forall r <- Shortened(ch).add :: r.rtype.A?
    ensures CnameFree(Reading(site, c), Shortened(ch).add)
  {
    hide Key, Valid, Stable, Holds, CanonicalName, Reading, OwnedSet;
    UnbalancedMember(ch.add, ch.remove, ch.add);
  }

  /** For such a plan and names without a CNAME what is committed holds the same
      number of managed sections under every key, whether what the lists share
      is cancelled or removed and added again. */
  lemma CancellingChangesNothing(site: Site, c: Config, ch: Change, ps: seq<string>, qs: seq<string>, key: string)
    requires HonestAddresses(site, c, ch) && CnameFree(Reading(site, c), ch.add)
    requires Possible(site, c, ch, ps) && Possible(site, c, Shortened(ch), qs)
    ensures |OwnedSet(Reading(site, Result(site, c, ch, ps).config), key, site.id)| ==
            |OwnedSet(Reading(site, Result(site, c, Shortened(ch), qs).config), key, site.id)|
  {
    hide Key, Stable, Holds, CanonicalName, Reading, OwnedSet, AfterAdd, Cleared, AdmitsAll, Valid, StableAll,
         Skips, CnameFree, Keys, LetThrough;
    ShortenedHonest(site, c, ch);
    NothingSkipped(site, c, ch, ps);
    NothingSkipped(site, c, Shortened(ch), qs);
    KeyCount(site, c, ch, ps, key);
    KeyCount(site, c, Shortened(ch), qs, key);
    KeysCounted(ch.remove, key);
    KeysCounted(ch.add, key);
    KeysCounted(Shortened(ch).remove, key);
    KeysCounted(Shortened(ch).add, key);
    UnbalancedCount(ch.remove, ch.remove, ch.add, key);
    UnbalancedCount(ch.add, ch.remove, ch.add, key);
    CountPositive(ch.remove, key);
    assert CountKey(ch.remove, key) <= 1 && CountKey(ch.add, key) <= 1;
  }
}
