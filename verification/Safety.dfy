/** The index follows the router, and no change set, nor any run of them,
    writes what keeps dnsmasq from starting or hides a record from it. */
module Safety {
  import opened Types
  import opened Uci
  import opened Graph
  import opened IndexTable
  import opened Reconcile

  // ---------- the index agrees with the router ----------

  /** The index is what reading the staged sections afresh would build. */
  ghost predicate Synced(site: Site, st: State) {
    st.index == Reading(site, st.config)
  }

  lemma RemoveSynced(site: Site, st: State, r: Record)
    requires Synced(site, st)
    ensures Synced(site, RemoveOne(site, st, r))
  {
  }

  lemma AdoptSynced(site: Site, st: State, pick: string)
    requires Synced(site, st) && pick in st.index
    ensures Synced(site, Adopted(site, st, pick))
  {
    hide Parse, CanonicalName, Stamped;
    StampReadsBack(site, st.config[pick]);
    SectionsSet(site, st.config, pick, Stamped(site, st.config[pick]));
  }

  /** A new section is indexed as it reads back exactly when its record is stable. */
  lemma CreateSynced(site: Site, st: State, r: Record, pick: string)
    requires Synced(site, st) && Valid(r) && pick !in st.config
    ensures Synced(site, Created(site, st, r, pick)) <==> Stable(r)
  {
    WriteReadRoundTrip(site, r);
    ThriceCanonical(r);
    CreateSyncedAs(site, st, r, pick, Canonical(Canonical(r)).(owner := site.id));
  }

  lemma CreateSyncedAs(site: Site, st: State, r: Record, pick: string, back: Record)
    requires Synced(site, st) && Parse(site, Written(site, r)) == Some(back)
    ensures Synced(site, Created(site, st, r, pick)) <==> Canonical(back) == Own(site, r)
  {
    hide Parse, CanonicalName, Written;
    SectionsSet(site, st.config, pick, Written(site, r));
    var st' := Created(site, st, r, pick);
    assert Reading(site, st'.config) == st.index[pick := Canonical(back)];
    assert st'.index[pick] == Own(site, r);
  }

  lemma AddSynced(site: Site, st: State, r: Record, pick: string)
    requires Synced(site, st) && Valid(r) && Stable(r) && Admits(site, st, r, pick)
    ensures Synced(site, AddOne(site, st, r, pick))
  {
    hide Key, CanonicalName, Parse, Written, Validate;
    match Judge(site, st.index, r)
    case Adopt => AdoptSynced(site, st, pick);
    case Create => CreateSynced(site, st, r, pick);
    case _ =>
  }

  lemma StartSynced(site: Site, c: Config)
    ensures Synced(site, Start(site, c)) && Start(site, c).config == c
  {
  }

  lemma {:induction false} RemovesSynced(site: Site, c: Config, remove: seq<Record>, n: nat)
    requires n <= |remove|
    ensures Synced(site, AfterRemove(site, Start(site, c), remove, n))
  {
    hide RemoveOne, Synced, Start;
    StartSynced(site, c);
    if n > 0 {
      RemovesSynced(site, c, remove, n - 1);
      RemoveSynced(site, AfterRemove(site, Start(site, c), remove, n - 1), remove[n - 1]);
    }
  }

  lemma {:induction false} AddsSynced(site: Site, st: State, add: seq<Record>, picks: seq<string>, n: nat)
    requires Synced(site, st) && n <= |add| && n <= |picks| && AdmitsAll(site, st, add, picks, n)
    requires forall r <- add :: Valid(r) && Stable(r)
    ensures Synced(site, AfterAdd(site, st, add, picks, n))
  {
    hide Synced, AddOne, Admits, Valid, Stable;
    if n > 0 {
      AddsSynced(site, st, add, picks, n - 1);
      AddSynced(site, AfterAdd(site, st, add, picks, n - 1), add[n - 1], picks[n - 1]);
    }
  }

  // Canonical names, as Validate lets through all but those ending in two dots.
  ghost predicate StableAll(add: seq<Record>) {
    forall r <- add :: Stable(r)
  }

  /** At the end of a change set its index is the one the next would build. */
  lemma ResultIsStart(site: Site, before: Config, ch: Change, picks: seq<string>)
    requires Possible(site, before, ch, picks) && StableAll(ch.add)
    ensures Result(site, before, ch, picks) == Start(site, Result(site, before, ch, picks).config)
  {
    hide Admits, AfterAdd, AfterRemove, Valid, Stable, Sections;
    RemovesSynced(site, before, ch.remove, |ch.remove|);
    AddsSynced(site, Cleared(site, before, ch), ch.add, picks, |ch.add|);
  }

  // ---------- one more section ----------

  ghost predicate SafeConfig(site: Site, c: Config) {
    Safe(Sections(site, c))
  }

  // Nothing on the router stands in the way of a record with this spelling.
  ghost predicate Unobstructed(m: Index, c: Record) {
    && !Holds(m, CNAME, c.name)
    && (c.rtype.CNAME? ==> !Holds(m, A, c.name) && forall a | CanonicalName(a) == c.name :: !Reaches(m, c.value, a))
  }

  lemma UnobstructedSafe(m: Index, pick: string, c: Record)
    requires Safe(m) && pick !in m && Unobstructed(m, c)
    ensures Safe(m[pick := c])
  {
    hide CanonicalName;
    var n := m[pick := c];
    if c.rtype.A? {
      AcyclicKept(n, m);
    } else {
      forall a, b | Edge(n, a, b) ensures Edge(m, a, b) || (CanonicalName(a) == c.name && b == c.value) {
        var s :| s in n && n[s].rtype.CNAME? && n[s].name == CanonicalName(a) && n[s].value == b;
        if s != pick { assert s in m; }
      }
      AcyclicExtended(m, n, c.name, c.value);
    }
  }

  // Fewer sections are as safe.
  lemma SafeWithout(m: Index, n: Index)
    requires Safe(n) && forall s | s in m :: s in n && n[s] == m[s]
    ensures Safe(m)
  {
    AcyclicKept(m, n);
  }

  lemma ObstructedUnsafe(m: Index, pick: string, c: Record)
    requires pick !in m && !Unobstructed(m, c)
    ensures !Safe(m[pick := c])
  {
    hide CanonicalName;
    var n := m[pick := c];
    if Holds(m, CNAME, c.name) {
      var s :| s in m && m[s].rtype.CNAME? && m[s].name == c.name;
      assert n[s] == m[s] && n[pick] == c;
    } else if Holds(m, A, c.name) {
      var s :| s in m && m[s].rtype.A? && m[s].name == c.name;
      assert n[s] == m[s] && n[pick] == c;
    } else {
      var a :| CanonicalName(a) == c.name && Reaches(m, c.value, a);
      var p :| PathBetween(m, p, c.value, a);
      assert FewerEdges(m, n) by { assert forall s | s in m :: n[s] == m[s]; }
      PathKept(m, n, p);
      assert n[pick] == c && Edge(n, a, c.value);
      var q := p + [c.value];
      assert Path(n, q) && q[0] == q[|q| - 1];
    }
  }

  // A record as the next reading finds it, once written.
  function Back(site: Site, r: Record): Record {
    Canonical(Canonical(r)).(owner := site.id)
  }

  /** A router with a new section is safe exactly when it was safe without and
      nothing stands in the way of the record as it will be read back. addRecord
      looks at the record as it is written, which is the same for a stable one. */
  lemma CreateSafeExactly(site: Site, c: Config, r: Record, pick: string)
    requires Valid(r) && pick !in c
    ensures SafeConfig(site, c[pick := Written(site, r)]) <==>
            SafeConfig(site, c) && Unobstructed(Sections(site, c), Back(site, r))
  {
    hide Safe, Unobstructed, Parse, Canonical, Validate, Written;
    WriteReadRoundTrip(site, r);
    SectionsSet(site, c, pick, Written(site, r));
    var m, back := Sections(site, c), Back(site, r);
    if Safe(m[pick := back]) { SafeWithout(m, m[pick := back]); }
    if Safe(m) && Unobstructed(m, back) { UnobstructedSafe(m, pick, back); }
    if !Unobstructed(m, back) { ObstructedUnsafe(m, pick, back); }
  }

  // What the next change set indexes a new record as.
  function Indexed(site: Site, r: Record): Record {
    Canonical(Back(site, r))
  }

  lemma ReadsOneMore(site: Site, c: Config, r: Record, pick: string)
    requires Valid(r) && pick !in c
    ensures Reading(site, c[pick := Written(site, r)]) == Reading(site, c)[pick := Indexed(site, r)]
    ensures pick !in Reading(site, c)
  {
    WriteReadRoundTrip(site, r);
    hide Parse, Canonical, Validate, Written, Sections;
    SectionsSet(site, c, pick, Written(site, r));
    IndexOneMore(Sections(site, c), pick, Back(site, r));
    assert pick !in Sections(site, c) by { NotRead(site, c, pick); }
  }

  lemma IndexOneMore(m: Index, pick: string, back: Record)
    ensures IndexOf(m[pick := back]) == IndexOf(m)[pick := Canonical(back)]
  {
    hide Canonical;
  }

  lemma NotRead(site: Site, c: Config, s: string)
    requires s !in c
    ensures s !in Sections(site, c)
  {
  }

  // ---------- the index tells what the router holds ----------

  lemma IndexHolds(m: Index, t: RecordType, name: string)
    requires CanonicalName(name) == name && Holds(m, t, name)
    ensures Holds(IndexOf(m), t, name)
  {
    hide CanonicalName;
    var s :| s in m && m[s].rtype == t && m[s].name == name;
    assert IndexOf(m)[s].name == name;
  }

  // A way through the sections is one through the index, in canonical names,
  // however the sections spell theirs.
  lemma {:induction false} IndexPath(m: Index, p: seq<string>)
    requires Path(m, p) && CanonicalName(p[0]) == p[0]
    ensures Reaches(IndexOf(m), p[0], CanonicalName(p[|p| - 1]))
  {
    hide CanonicalName;
    var n := |p| - 1;
    if n == 0 {
      ReachSelf(IndexOf(m), p[0]);
    } else {
      assert Path(m, p[..n]) by {
        forall i | 0 <= i < n - 1 ensures Edge(m, p[..n][i], p[..n][i + 1]) { assert Edge(m, p[i], p[i + 1]); }
      }
      IndexPath(m, p[..n]);
      assert Edge(m, p[n - 1], p[n]);
      var s :| s in m && m[s].rtype.CNAME? && m[s].name == CanonicalName(p[n - 1]) && m[s].value == p[n];
      assert IndexOf(m)[s] == Canonical(m[s]);
      assert Edge(IndexOf(m), CanonicalName(p[n - 1]), CanonicalName(p[n]));
      ReachStep(IndexOf(m), p[0], CanonicalName(p[n - 1]), CanonicalName(p[n]));
    }
  }

  // What addRecord finds in the index is so on the router.
  lemma CreateUnobstructed(site: Site, m: Index, r: Record)
    requires Stable(r) && Judge(site, IndexOf(m), r).Create?
    ensures Unobstructed(m, Back(site, r))
  {
    hide CanonicalName, Key;
    var c := Own(site, r);
    if Holds(m, CNAME, c.name) { IndexHolds(m, CNAME, c.name); }
    if c.rtype.CNAME? {
      if Holds(m, A, c.name) { IndexHolds(m, A, c.name); }
      forall a | CanonicalName(a) == c.name ensures !Reaches(m, c.value, a) {
        if p :| PathBetween(m, p, c.value, a) { IndexPath(m, p); }
      }
    }
  }

  // ---------- one operation ----------

  lemma RemoveSafe(site: Site, st: State, r: Record)
    requires SafeConfig(site, st.config)
    ensures SafeConfig(site, RemoveOne(site, st, r).config)
  {
    hide Key, CanonicalName, Parse, Safe;
    SectionsDelete(site, st.config, OwnedSet(st.index, Key(r), site.id));
    SafeWithout(Sections(site, RemoveOne(site, st, r).config), Sections(site, st.config));
  }

  lemma OwnerIsNoMatter(m: Index, pick: string, id: string)
    requires pick in m
    ensures Safe(m[pick := m[pick].(owner := id)]) <==> Safe(m)
  {
    var n := m[pick := m[pick].(owner := id)];
    assert forall s | s in m :: n[s].rtype == m[s].rtype && n[s].name == m[s].name && n[s].value == m[s].value;
    assert FewerEdges(m, n) && FewerEdges(n, m);
    if Acyclic(m) { AcyclicKept(n, m); }
    if Acyclic(n) { AcyclicKept(m, n); }
  }

  lemma StampSafe(site: Site, c: Config, pick: string)
    requires pick in c
    ensures SafeConfig(site, c[pick := Stamped(site, c[pick])]) <==> SafeConfig(site, c)
  {
    if Parse(site, c[pick]).Some? {
      StampReadsBack(site, c[pick]);
      hide Parse, Safe, Stamped;
      SectionsSet(site, c, pick, Stamped(site, c[pick]));
      OwnerIsNoMatter(Sections(site, c), pick, site.id);
    } else {
      assert Parse(site, Stamped(site, c[pick])).None?;
      hide Parse, Safe, Stamped;
      assert Sections(site, c[pick := Stamped(site, c[pick])]) == Sections(site, c);
    }
  }

  // Only what is created can do harm, and only where something is in its way.
  ghost predicate Harmless(site: Site, st: State, r: Record) {
    Judge(site, st.index, r).Create? ==> Unobstructed(Sections(site, st.config), Back(site, r))
  }

  lemma AddSafeExactly(site: Site, st: State, r: Record, pick: string)
    requires Valid(r) && Admits(site, st, r, pick)
    ensures SafeConfig(site, AddOne(site, st, r, pick).config) <==> SafeConfig(site, st.config) && Harmless(site, st, r)
  {
    hide Key, CanonicalName, Validate, Written, Stamped, SafeConfig, Unobstructed, OwnedSet, UnownedSet, Reaches,
         Holds;
    hide Sections, Back;
    match Judge(site, st.index, r)
    case Adopt => if pick in st.config { StampSafe(site, st.config, pick); }
    case Create => CreateSafeExactly(site, st.config, r, pick);
    case _ =>
  }

  // ---------- a change set, and any run of them ----------

  lemma {:induction false} RemovesSafe(site: Site, st: State, remove: seq<Record>, n: nat)
    requires SafeConfig(site, st.config) && n <= |remove|
    ensures SafeConfig(site, AfterRemove(site, st, remove, n).config)
  {
    hide SafeConfig, RemoveOne;
    if n > 0 {
      RemovesSafe(site, st, remove, n - 1);
      RemoveSafe(site, AfterRemove(site, st, remove, n - 1), remove[n - 1]);
    }
  }

  // Nothing stands in the way of any record the first n additions create.
  ghost predicate HarmlessAll(site: Site, st: State, add: seq<Record>, picks: seq<string>, n: nat)
    requires n <= |add| && n <= |picks|
  {
    forall i | 0 <= i < n :: Harmless(site, AfterAdd(site, st, add, picks, i), add[i])
  }

  lemma {:induction false} AddsSafeExactly(site: Site, st: State, add: seq<Record>, picks: seq<string>, n: nat)
    requires n <= |add| && n <= |picks| && AdmitsAll(site, st, add, picks, n) && forall r <- add :: Valid(r)
    ensures SafeConfig(site, AfterAdd(site, st, add, picks, n).config) <==>
            SafeConfig(site, st.config) && HarmlessAll(site, st, add, picks, n)
  {
    hide SafeConfig, AddOne, Admits, Valid, Harmless;
    if n > 0 {
      AddsSafeExactly(site, st, add, picks, n - 1);
      AddSafeExactly(site, AfterAdd(site, st, add, picks, n - 1), add[n - 1], picks[n - 1]);
    }
  }

  ghost predicate HarmlessChange(site: Site, c: Config, ch: Change, picks: seq<string>)
    requires |picks| == |ch.add|
  {
    HarmlessAll(site, Cleared(site, c, ch), ch.add, picks, |ch.add|)
  }

  /** A change set keeps the three rules exactly when nothing on the router, as
      it then is, stands in the way of any record it creates, as that will be
      read back: whoever owns the sections and whatever is removed. */
  lemma ChangeSafeExactly(site: Site, c: Config, ch: Change, picks: seq<string>)
    requires SafeConfig(site, c) && Possible(site, c, ch, picks)
    ensures SafeConfig(site, Result(site, c, ch, picks).config) <==> HarmlessChange(site, c, ch, picks)
  {
    hide AfterRemove, AfterAdd, SafeConfig, Valid, Start, Admits, HarmlessAll;
    StartSynced(site, c);
    RemovesSafe(site, Start(site, c), ch.remove, |ch.remove|);
    AddsSafeExactly(site, Cleared(site, c, ch), ch.add, picks, |ch.add|);
  }

  // What the index shows of a stable record is so on the router.
  lemma StableHarmless(site: Site, st: State, r: Record)
    requires Synced(site, st) && Stable(r)
    ensures Harmless(site, st, r)
  {
    hide Sections, Judge, Unobstructed;
    if Judge(site, st.index, r).Create? { CreateUnobstructed(site, Sections(site, st.config), r); }
  }

  lemma StableChangeHarmless(site: Site, c: Config, ch: Change, picks: seq<string>)
    requires StableAll(ch.add) && Possible(site, c, ch, picks)
    ensures HarmlessChange(site, c, ch, picks)
  {
    hide AfterRemove, AfterAdd, Valid, Stable, Start, Synced, Harmless, Admits;
    RemovesSynced(site, c, ch.remove, |ch.remove|);
    var st := Cleared(site, c, ch);
    forall i | 0 <= i < |ch.add| ensures Harmless(site, AfterAdd(site, st, ch.add, picks, i), ch.add[i]) {
      AddsSynced(site, st, ch.add, picks, i);
      StableHarmless(site, AfterAdd(site, st, ch.add, picks, i), ch.add[i]);
    }
  }

  /** So every change set of stable records keeps the rules. */
  lemma ChangeKeepsSafe(site: Site, before: Config, ch: Change, after: Config)
    requires SafeConfig(site, before) && StableAll(ch.add)
    requires Completes(site, before, ch, after)
    ensures SafeConfig(site, after)
  {
    hide AdmitsAll, Valid, AfterAdd, Cleared, SafeConfig, StableAll, HarmlessChange;
    var picks :| Possible(site, before, ch, picks) && Result(site, before, ch, picks).config == after;
    StableChangeHarmless(site, before, ch, picks);
    ChangeSafeExactly(site, before, ch, picks);
  }

  /** What the router committed over a run of change sets, each of which went
      through completely or not at all. */
  ghost predicate Run(site: Site, committed: seq<Config>, changes: seq<Change>) {
    && |committed| == |changes| + 1
    && forall i | 0 <= i < |changes| ::
         committed[i + 1] == committed[i] || Completes(site, committed[i], changes[i], committed[i + 1])
  }

  // The step came to nothing, or created only what nothing stood in the way of.
  ghost predicate HarmlessStep(site: Site, before: Config, ch: Change, after: Config) {
    after == before ||
    exists picks :: Possible(site, before, ch, picks) && Result(site, before, ch, picks).config == after &&
                    HarmlessChange(site, before, ch, picks)
  }

  lemma StepSafeExactly(site: Site, before: Config, ch: Change, after: Config)
    requires SafeConfig(site, before) && (after == before || Completes(site, before, ch, after))
    ensures SafeConfig(site, after) <==> HarmlessStep(site, before, ch, after)
  {
    hide Valid, SafeConfig, HarmlessChange, AdmitsAll, AfterAdd, Cleared;
    if after != before {
      var picks :| Possible(site, before, ch, picks) && Result(site, before, ch, picks).config == after;
      ChangeSafeExactly(site, before, ch, picks);
      if HarmlessStep(site, before, ch, after) {
        var qs :| Possible(site, before, ch, qs) && Result(site, before, ch, qs).config == after &&
            HarmlessChange(site, before, ch, qs);
        ChangeSafeExactly(site, before, ch, qs);
      }
    }
  }

  ghost predicate SafeRun(site: Site, committed: seq<Config>, n: nat)
    requires n < |committed|
  {
    forall i | 0 <= i <= n :: SafeConfig(site, committed[i])
  }

  ghost predicate HarmlessRun(site: Site, committed: seq<Config>, changes: seq<Change>, n: nat)
    requires n <= |changes| < |committed|
  {
    forall i | 0 <= i < n :: HarmlessStep(site, committed[i], changes[i], committed[i + 1])
  }

  /** A safe router stays safe over a run exactly when every change set of it
      created only what nothing stood in the way of. */
  lemma {:induction false} RunSafeExactly(site: Site, committed: seq<Config>, changes: seq<Change>, n: nat)
    requires Run(site, committed, changes) && n <= |changes| && SafeConfig(site, committed[0])
    ensures SafeRun(site, committed, n) <==> HarmlessRun(site, committed, changes, n)
  {
    hide SafeConfig, Completes, HarmlessStep;
    if n > 0 {
      RunSafeExactly(site, committed, changes, n - 1);
      if SafeConfig(site, committed[n - 1]) {
        StepSafeExactly(site, committed[n - 1], changes[n - 1], committed[n]);
      }
    }
  }

  /** dnsmasq keeps starting over every run of change sets of stable records. */
  lemma {:induction false} RunKeepsSafe(site: Site, committed: seq<Config>, changes: seq<Change>, n: nat)
    requires Run(site, committed, changes) && n <= |changes|
    requires SafeConfig(site, committed[0]) && forall ch <- changes :: StableAll(ch.add)
    ensures SafeConfig(site, committed[n])
  {
    hide SafeConfig, Completes, StableAll;
    if n > 0 {
      RunKeepsSafe(site, committed, changes, n - 1);
      if committed[n] != committed[n - 1] {
        ChangeKeepsSafe(site, committed[n - 1], changes[n - 1], committed[n]);
      }
    }
  }
}
