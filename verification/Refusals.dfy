/** Why records are skipped: each would have broken one of the three rules, the
    one its reason names (addRecord in pkg/openwrt/openwrt.go). */
module Refusals {
  import opened Types
  import opened Uci
  import opened Graph
  import opened IndexTable
  import opened Reconcile
  import opened Safety
  import opened Counts
  import opened Convergence
  import opened Plan

  /** The rule a reason names, broken. */
  ghost predicate Breaks(why: Reason, m: Index) {
    match why
    case AliasTaken => !OneCnamePerAlias(m)
    case ClosesLoop => !Acyclic(m)
    case NameHasCname => !NoAddressBesideCname(m)
    case AliasHasAddress => !NoAddressBesideCname(m)
  }

  /** A record is refused only if written it would break the rule named. */
  lemma RefusalBreaks(site: Site, m: Index, r: Record, pick: string)
    requires Stable(r) && pick !in m && Judge(site, m, r).Refuse?
    ensures Breaks(Judge(site, m, r).why, m[pick := Own(site, r)])
  {
    hide Key, CanonicalName;
    var c := Own(site, r);
    var n := m[pick := c];
    match Judge(site, m, r).why
    case AliasTaken =>
      var s :| s in m && m[s].rtype.CNAME? && m[s].name == c.name;
      assert n[s] == m[s] && n[pick] == c;
    case ClosesLoop =>
      var p :| PathBetween(m, p, c.value, c.name);
      assert FewerEdges(m, n) by { assert forall s | s in m :: n[s] == m[s]; }
      PathKept(m, n, p);
      assert n[pick] == c && Edge(n, c.name, c.value);
      var q := p + [c.value];
      assert Path(n, q) && q[0] == q[|q| - 1];
    case NameHasCname =>
      var s :| s in m && m[s].rtype.CNAME? && m[s].name == c.name;
      assert n[s] == m[s] && n[pick] == c;
    case AliasHasAddress =>
      var s :| s in m && m[s].rtype.A? && m[s].name == c.name;
      assert n[s] == m[s] && n[pick] == c;
  }

  lemma BreaksUnsafe(why: Reason, m: Index)
    requires Breaks(why, m)
    ensures !Safe(m)
  {
  }

  /** On a safe router whose names are canonical, a record with nothing to adopt
      is refused exactly when written it would make the router unsafe. */
  lemma RefusedExactly(site: Site, m: Index, r: Record, pick: string)
    requires Safe(m) && IndexOf(m) == m && Stable(r) && pick !in m
    requires Judge(site, m, r).Refuse? || Judge(site, m, r).Create?
    ensures Judge(site, m, r).Refuse? <==> !Safe(m[pick := Own(site, r)])
  {
    hide Safe, Judge, Unobstructed, Breaks;
    if Judge(site, m, r).Refuse? {
      RefusalBreaks(site, m, r, pick);
      BreaksUnsafe(Judge(site, m, r).why, m[pick := Own(site, r)]);
    } else {
      CreateUnobstructed(site, m, r);
      UnobstructedSafe(m, pick, Own(site, r));
    }
  }

  // ---------- the skipped list ----------

  /** The list holds the additions refused, each as often as it was, in their
      order, with the reason of that moment. */
  lemma {:induction false} SkipsInOrder(site: Site, st: State, add: seq<Record>, picks: seq<string>, n: nat)
    returns (ks: seq<nat>)
    requires n <= |add| && n <= |picks|
    ensures var skips := Skips(site, st, add, picks, n);
      && PicksOut(add[..n], ks, Records(skips))
      && (forall i | 0 <= i < n :: i in ks <==> RefusedAt(site, st, add, picks, i))
      && (forall j | 0 <= j < |ks| :: VerdictAt(site, st, add, picks, ks[j]) == Refuse(skips[j].why))
  {
    hide Judge, AfterAdd;
    if n == 0 {
      ks := [];
    } else {
      var before := SkipsInOrder(site, st, add, picks, n - 1);
      var was, skips := Skips(site, st, add, picks, n - 1), Skips(site, st, add, picks, n);
      assert forall i | 0 <= i < n - 1 :: add[..n][i] == add[..n - 1][i];
      if RefusedAt(site, st, add, picks, n - 1) {
        ks := before + [n - 1];
        assert Records(skips) == Records(was) + [add[n - 1]];
        assert forall i :: i in ks <==> i in before || i == n - 1;
      } else {
        ks := before;
        assert forall k <- ks :: k < n - 1;
      }
    }
  }

  lemma RefusedBreaksThere(site: Site, before: Config, ch: Change, picks: seq<string>, i: nat, pick: string)
    requires Possible(site, before, ch, picks) && StableAll(ch.add) && i < |ch.add|
    requires RefusedAt(site, Cleared(site, before, ch), ch.add, picks, i)
    requires pick !in AfterAdd(site, Cleared(site, before, ch), ch.add, picks, i).config
    ensures var st := Cleared(site, before, ch);
      Breaks(VerdictAt(site, st, ch.add, picks, i).why,
             Reading(site, AfterAdd(site, st, ch.add, picks, i).config[pick := Written(site, ch.add[i])]))
  {
    hide AfterRemove, AfterAdd, Judge, Valid, Stable, Admits, Reading, Breaks;
    var st := Cleared(site, before, ch);
    RemovesSynced(site, before, ch.remove, |ch.remove|);
    AddsSynced(site, st, ch.add, picks, i);
    WouldRead(site, AfterAdd(site, st, ch.add, picks, i).config, ch.add[i], pick);
    RefusalBreaks(site, AfterAdd(site, st, ch.add, picks, i).index, ch.add[i], pick);
  }

  lemma WouldRead(site: Site, c: Config, r: Record, pick: string)
    requires Valid(r) && Stable(r) && pick !in c
    ensures pick !in Reading(site, c)
    ensures Reading(site, c[pick := Written(site, r)]) == Reading(site, c)[pick := Own(site, r)]
  {
    ReadsOneMore(site, c, r, pick);
    hide CanonicalName, Valid, Reading, Written;
    assert Indexed(site, r) == Own(site, r);
  }

  /** Whatever is skipped would, in any section it could have been given then,
      have broken the rule its reason names. */
  lemma SkippedBreaks(site: Site, before: Config, ch: Change, picks: seq<string>, s: Skip) returns (i: nat)
    requires Possible(site, before, ch, picks) && StableAll(ch.add) && s in SkippedBy(site, before, ch, picks)
    ensures i < |ch.add| && ch.add[i] == s.record
    ensures var c := AfterAdd(site, Cleared(site, before, ch), ch.add, picks, i).config;
      forall pick | pick !in c :: Breaks(s.why, Reading(site, c[pick := Written(site, s.record)]))
  {
    hide AfterRemove, AfterAdd, Judge, Valid, Stable, AdmitsAll, Reading, Breaks, Skips, Written;
    var st := Cleared(site, before, ch);
    var ks := SkipsInOrder(site, st, ch.add, picks, |ch.add|);
    var skips := SkippedBy(site, before, ch, picks);
    var j :| 0 <= j < |skips| && skips[j] == s;
    i := ks[j];
    assert Records(skips)[j] == s.record && ch.add[..|ch.add|][i] == ch.add[i];
    assert i in ks;
    forall pick | pick !in AfterAdd(site, st, ch.add, picks, i).config
      ensures Breaks(s.why, Reading(site, AfterAdd(site, st, ch.add, picks, i).config[pick := Written(site, s.record)]))
    {
      RefusedBreaksThere(site, before, ch, picks, i, pick);
    }
  }

  /** Nor could it be written to what the change set leaves, unless its key was
      let through for another record. */
  lemma SkippedBreaksStill(site: Site, before: Config, ch: Change, picks: seq<string>, s: Skip, pick: string)
    requires Possible(site, before, ch, picks) && StableAll(ch.add) && s in SkippedBy(site, before, ch, picks)
    requires Key(s.record) !in LetThrough(site, before, ch, picks)
    requires pick !in Result(site, before, ch, picks).config
    ensures !Safe(Reading(site, Result(site, before, ch, picks).config[pick := Written(site, s.record)]))
  {
    hide AfterRemove, AfterAdd, Judge, Valid, Stable, AdmitsAll, Reading, Breaks, Skips, Written, LetThrough, Safe,
         Key;
    var st, end := Cleared(site, before, ch), Result(site, before, ch, picks);
    var ks := SkipsInOrder(site, st, ch.add, picks, |ch.add|);
    var skips := SkippedBy(site, before, ch, picks);
    var j :| 0 <= j < |skips| && skips[j] == s;
    var i := ks[j];
    assert Records(skips)[j] == s.record && ch.add[..|ch.add|][i] == ch.add[i];
    assert i in ks;
    RefusedAfter(site, before, ch, picks, i);
    ResultIsStart(site, before, ch, picks);
    StartReads(site, end.config);
    WouldRead(site, end.config, s.record, pick);
    RefusalBreaks(site, end.index, s.record, pick);
    BreaksUnsafe(Judge(site, end.index, s.record).why, end.index[pick := Own(site, s.record)]);
  }
}
