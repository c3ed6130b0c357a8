/** A change set that went through has nothing left to do, and what it leaves
    does not depend on the order the router lists its sections in. */
module Convergence {
  import opened Types
  import opened Uci
  import opened Graph
  import opened IndexTable
  import opened Reconcile
  import opened Safety
  import opened Ownership
  import opened Counts

  // ---------- repeating a change set ----------

  ghost function Records(skips: seq<Skip>): seq<Record> {
    seq(|skips|, i requires 0 <= i < |skips| => skips[i].record)
  }

  // Nothing in the list calls for a write.
  ghost predicate Settled(site: Site, m: Index, add: seq<Record>) {
    forall r <- add :: !Writes(Judge(site, m, r))
  }

  lemma {:induction false} SettledAdds(site: Site, st: State, add: seq<Record>, picks: seq<string>, n: nat)
    requires n <= |add| && n <= |picks| && Settled(site, st.index, add)
    ensures AfterAdd(site, st, add, picks, n) == st && AddEdits(site, st, add, picks, n) == 0
  {
    hide Judge;
    if n > 0 { SettledAdds(site, st, add, picks, n - 1); }
  }

  lemma {:induction false} ClearedAlready(site: Site, st: State, remove: seq<Record>, n: nat)
    requires n <= |remove| && forall r <- remove :: OwnedSet(st.index, Key(r), site.id) == {}
    ensures AfterRemove(site, st, remove, n) == st && RemoveEdits(site, st, remove, n) == 0
  {
    hide OwnedSet, Key;
    if n > 0 { ClearedAlready(site, st, remove, n - 1); }
  }

  // The same refusals give the same skipped records.
  lemma {:induction false} SameSkips(site: Site, st: State, add: seq<Record>, picks: seq<string>,
                                     end: State, again: seq<string>, n: nat)
    requires n <= |add| == |picks| == |again| && Settled(site, end.index, add)
    requires forall i | 0 <= i < |add| :: RefusedAt(site, st, add, picks, i) == Judge(site, end.index, add[i]).Refuse?
    ensures Records(Skips(site, end, add, again, n)) == Records(Skips(site, st, add, picks, n))
  {
    hide Judge, AfterAdd;
    if n > 0 {
      SameSkips(site, st, add, picks, end, again, n - 1);
      SettledAdds(site, end, add, again, n - 1);
      var was, now := Skips(site, st, add, picks, n - 1), Skips(site, end, add, again, n - 1);
      if RefusedAt(site, st, add, picks, n - 1) {
        assert VerdictAt(site, end, add, again, n - 1).Refuse?;
        var a, b := Skips(site, st, add, picks, n), Skips(site, end, add, again, n);
        assert Records(a) == Records(was) + [add[n - 1]];
        assert Records(b) == Records(now) + [add[n - 1]];
      } else {
        assert !VerdictAt(site, end, add, again, n - 1).Refuse?;
      }
    }
  }

  // Every addition whose key is removed as well was refused.
  ghost predicate NothingReplaced(site: Site, before: Config, ch: Change, picks: seq<string>)
    requires |picks| == |ch.add|
  {
    Keys(ch.remove, |ch.remove|) !! LetThrough(site, before, ch, picks)
  }

  // Nothing the change set did leaves its additions anything to write.
  lemma SettledAfter(site: Site, before: Config, ch: Change, picks: seq<string>, i: nat)
    requires Possible(site, before, ch, picks) && StableAll(ch.add) && i < |ch.add|
    ensures var verdict := Judge(site, Result(site, before, ch, picks).index, ch.add[i]);
      && !Writes(verdict)
      && (!RefusedAt(site, Cleared(site, before, ch), ch.add, picks, i) ==> verdict.Present?)
  {
    hide AfterAdd, AfterRemove, Valid, Stable, Key, Linked, Judge, Admits;
    var st := Cleared(site, before, ch);
    ClearedLinked(site, before, ch, |ch.remove|);
    if RefusedAt(site, st, ch.add, picks, i) {
      RefusedSettles(site, st, ch.add, picks, i, |ch.add|);
    } else {
      LetThroughStays(site, st, ch.add, picks, i, |ch.add|);
    }
  }

  // An addition refused is refused at the end, unless its key was let through.
  lemma RefusedAfter(site: Site, before: Config, ch: Change, picks: seq<string>, i: nat)
    requires Possible(site, before, ch, picks) && StableAll(ch.add) && i < |ch.add|
    requires RefusedAt(site, Cleared(site, before, ch), ch.add, picks, i)
    ensures Judge(site, Result(site, before, ch, picks).index, ch.add[i]).Refuse? <==>
            Key(ch.add[i]) !in LetThrough(site, before, ch, picks)
  {
    hide AfterAdd, AfterRemove, Valid, StableAll, Key, Admits, Reading, SkippedKeys, Skips, Reaches, Holds,
         LetThrough;
    var st, key := Cleared(site, before, ch), Key(ch.add[i]);
    var end := Result(site, before, ch, picks);
    SettledAfter(site, before, ch, picks, i);
    SkipsAreRefusals(site, st, ch.add, picks, |ch.add|, key);
    KeyCount(site, before, ch, picks, key);
    ResultIsStart(site, before, ch, picks);
    StartReads(site, end.config);
  }

  /** The same change set once more writes nothing and leaves the configuration
      as it is when it replaces nothing: of two queued copies the second does
      nothing. It skips the same records exactly when no key was both skipped
      and let through. */
  lemma Converges(site: Site, before: Config, ch: Change, picks: seq<string>, again: seq<string>)
    requires Possible(site, before, ch, picks) && StableAll(ch.add) && |again| == |ch.add|
    requires NothingReplaced(site, before, ch, picks)
    ensures var after := Result(site, before, ch, picks).config;
      && Possible(site, after, ch, again)
      && Result(site, after, ch, again).config == after
      && Edits(site, after, ch, again) == 0
      && (Records(SkippedBy(site, after, ch, again)) == Records(SkippedBy(site, before, ch, picks)) <==>
          SkipsApart(site, before, ch, picks))
  {
    hide AfterAdd, AfterRemove, Valid, Stable, Key, OwnedSet, Linked, Judge, Skips, RemoveEdits, AddEdits, Start,
         Reading, SkipsApart, LetThrough;
    var end, n := Result(site, before, ch, picks), |ch.add|;
    ResultIsStart(site, before, ch, picks);
    forall i | 0 <= i < n ensures !Writes(Judge(site, end.index, ch.add[i])) {
      SettledAfter(site, before, ch, picks, i);
    }
    forall r | r in ch.remove ensures OwnedSet(end.index, Key(r), site.id) == {} {
      var i :| 0 <= i < |ch.remove| && ch.remove[i] == r;
      assert Key(r) in Keys(ch.remove, |ch.remove|);
      KeyCount(site, before, ch, picks, Key(r));
      StartReads(site, end.config);
    }
    ClearedAlready(site, end, ch.remove, |ch.remove|);
    assert Settled(site, end.index, ch.add);
    SettledAdds(site, end, ch.add, again, n);
    forall i | 0 <= i < n ensures Admits(site, AfterAdd(site, end, ch.add, again, i), ch.add[i], again[i]) {
      SettledAdds(site, end, ch.add, again, i);
    }
    SkipsAgain(site, before, ch, picks, again);
  }

  // What a repetition from the result skips.
  lemma SkipsAgain(site: Site, before: Config, ch: Change, picks: seq<string>, again: seq<string>)
    requires Possible(site, before, ch, picks) && StableAll(ch.add) && |again| == |ch.add|
    requires Settled(site, Result(site, before, ch, picks).index, ch.add)
    ensures (Records(Skips(site, Result(site, before, ch, picks), ch.add, again, |ch.add|)) ==
             Records(SkippedBy(site, before, ch, picks))) <==>
            SkipsApart(site, before, ch, picks)
  {
    hide AfterAdd, AfterRemove, Valid, StableAll, Key, Linked, Judge, Skips, AdmitsAll, SkippedKeys, Settled;
    var st, end, n := Cleared(site, before, ch), Result(site, before, ch, picks), |ch.add|;
    forall i | 0 <= i < n
      ensures Judge(site, end.index, ch.add[i]).Refuse? <==>
        RefusedAt(site, st, ch.add, picks, i) && Key(ch.add[i]) !in LetThrough(site, before, ch, picks)
    {
      if RefusedAt(site, st, ch.add, picks, i) {
        RefusedAfter(site, before, ch, picks, i);
      } else {
        SettledAfter(site, before, ch, picks, i);
      }
    }
    if SkipsApart(site, before, ch, picks) {
      forall i | 0 <= i < n && RefusedAt(site, st, ch.add, picks, i)
        ensures Key(ch.add[i]) !in LetThrough(site, before, ch, picks)
      {
        SkipsAreRefusals(site, st, ch.add, picks, n, Key(ch.add[i]));
      }
      SameSkips(site, st, ch.add, picks, end, again, n);
    } else {
      var key :| key in SkippedKeys(SkippedBy(site, before, ch, picks)) && key in LetThrough(site, before, ch, picks);
      SkipsAreRefusals(site, st, ch.add, picks, n, key);
      var i :| 0 <= i < n && Key(ch.add[i]) == key && RefusedAt(site, st, ch.add, picks, i);
      FewerSkips(site, st, ch.add, picks, end, again, n, i);
    }
  }

  // A refusal that is gone shortens the list.
  lemma {:induction false} FewerSkips(site: Site, st: State, add: seq<Record>, picks: seq<string>,
                                      end: State, again: seq<string>, n: nat, i: nat)
    requires n <= |add| == |picks| == |again| && i < |add| && Settled(site, end.index, add)
    requires forall j | 0 <= j < |add| && Judge(site, end.index, add[j]).Refuse? :: RefusedAt(site, st, add, picks, j)
    requires RefusedAt(site, st, add, picks, i) && !Judge(site, end.index, add[i]).Refuse?
    ensures |Skips(site, end, add, again, n)| + (if i < n then 1 else 0) <= |Skips(site, st, add, picks, n)|
  {
    hide Judge, AfterAdd;
    if n > 0 {
      FewerSkips(site, st, add, picks, end, again, n - 1, i);
      SettledAdds(site, end, add, again, n - 1);
      assert VerdictAt(site, end, add, again, n - 1) == Judge(site, end.index, add[n - 1]);
    }
  }

  lemma {:induction false} NoRemoveEdits(site: Site, st: State, remove: seq<Record>, n: nat, i: nat)
    requires i < n <= |remove| && RemoveEdits(site, st, remove, n) == 0
    ensures AfterRemove(site, st, remove, n) == st
    ensures OwnedSet(st.index, Key(remove[i]), site.id) == {}
  {
    hide OwnedSet, Key;
    if n > 1 { NoRemoveEdits(site, st, remove, n - 1, if i < n - 1 then i else 0); }
  }

  lemma StartReads(site: Site, c: Config)
    ensures Start(site, c).index == Reading(site, c) && Start(site, c).config == c
  {
  }

  /** Nor is there another case: the repetition writes nothing exactly when
      every addition whose key is removed as well was refused. */
  lemma RepeatsIdleExactly(site: Site, before: Config, ch: Change, picks: seq<string>, again: seq<string>)
    requires Possible(site, before, ch, picks) && StableAll(ch.add) && |again| == |ch.add|
    ensures Edits(site, Result(site, before, ch, picks).config, ch, again) == 0 <==>
            NothingReplaced(site, before, ch, picks)
  {
    hide Valid, AdmitsAll, StableAll, Key, OwnedSet, SkippedBy, SkippedKeys, Result, Reading, Start, AddEdits,
         RemoveEdits, AfterRemove, LetThrough;
    var end := Result(site, before, ch, picks);
    if NothingReplaced(site, before, ch, picks) {
      Converges(site, before, ch, picks, again);
    } else {
      var key :| key in Keys(ch.remove, |ch.remove|) && key in LetThrough(site, before, ch, picks);
      var i :| 0 <= i < |ch.remove| && Key(ch.remove[i]) == key;
      KeyCount(site, before, ch, picks, key);
      ResultIsStart(site, before, ch, picks);
      assert end.index == Reading(site, end.config) by { StartReads(site, end.config); }
      if RemoveEdits(site, end, ch.remove, |ch.remove|) == 0 {
        NoRemoveEdits(site, end, ch.remove, |ch.remove|, i);
        assert false;
      }
    }
  }
}
