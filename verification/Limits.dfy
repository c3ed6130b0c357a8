/** Where the promises end: for each property that needs a hypothesis, the
    exact condition under which it holds, and an input past it. */
module Limits {
  import opened Types
  import opened Spelling
  import opened Uci
  import opened Graph
  import opened IndexTable
  import opened Reconcile
  import opened Safety
  import opened Counts
  import opened Order
  import opened Plan
  import opened Grouping
  import opened Adjusting
  import opened Tracking
  import opened Prediction
  import opened Forecast

  // ---------- the key does not always tell the record ----------

  // Some record has this one's key, but is another.
  ghost predicate Confusable(r: Record) {
    exists q :: Key(q) == Key(r) && !SameIdentity(q, r)
  }

  // Lower-case and free of white space.
  ghost predicate Tidy(s: string) {
    forall c <- s :: LowerChar(c) == c && !IsSpace(c)
  }

  lemma ValidTidy(r: Record)
    requires Valid(r)
    ensures Tidy(Canonical(r).name) && (r.rtype.CNAME? ==> Tidy(Canonical(r).value))
  {
  }

  lemma LowerEach(s: string)
    ensures ToLower(s) == s <==> forall c <- s :: LowerChar(c) == c
  {
  }

  // Some record is written, in canonical form, with these sides.
  lemma Spelled(t: RecordType, n: string, v: string) returns (q: Record)
    requires Tidy(n) && (t.CNAME? ==> Tidy(v))
    ensures Canonical(q) == Record(t, n, v, "")
  {
    q := Record(t, n + ".", if t.CNAME? then v + "." else v, "");
    LowerEach(n);
    CanonicalDotted(n);
    if t.CNAME? {
      LowerEach(v);
      CanonicalDotted(v);
    }
  }

  lemma Unpiped(t: RecordType, n: string, v: string, m: string, w: string)
    requires '|' !in n && '|' !in v
    requires TypeName(t) + "|" + n + "|" + v == TypeName(t) + "|" + m + "|" + w
    ensures n == m && v == w
  {
    assert TypeName(t) + "|" + n + "|" + v == TypeName(t) + "|" + (n + "|" + v);
    assert TypeName(t) + "|" + m + "|" + w == TypeName(t) + "|" + (m + "|" + w);
    CutUnique(TypeName(t), n + "|" + v, TypeName(t), m + "|" + w);
    var s := n + "|" + v;
    assert s[|m|] == '|';
    assert |m| == |n|;
    assert n == s[..|n|] && m == s[..|n|];
    assert v == s[|n| + 1..] && w == s[|n| + 1..];
  }

  lemma TypesDiffer(r: Record, q: Record)
    requires Key(r) == Key(q)
    ensures r.rtype == q.rtype
  {
    assert Key(r)[0] == if r.rtype.A? then 'A' else 'C';
    assert Key(q)[0] == if q.rtype.A? then 'A' else 'C';
  }

  // Another record whose key comes out the same.
  lemma Confused(r: Record, n: string, v: string)
    requires Tidy(n) && (r.rtype.CNAME? ==> Tidy(v)) && Canonical(r).name != n
    requires Canonical(r).name + "|" + Canonical(r).value == n + "|" + v
    ensures Confusable(r)
  {
    var c := Canonical(r);
    var q := Spelled(r.rtype, n, v);
    assert TypeName(c.rtype) + "|" + c.name + "|" + c.value == TypeName(c.rtype) + "|" + (c.name + "|" + c.value);
    assert TypeName(c.rtype) + "|" + n + "|" + v == TypeName(c.rtype) + "|" + (n + "|" + v);
    assert Key(q) == Key(r) && !SameIdentity(q, r);
  }

  /** The key of a record that can be written is its own exactly when neither
      canonical side holds a pipe, which Validate lets through. */
  lemma KeyUniqueExactly(r: Record)
    requires Valid(r)
    ensures !Confusable(r) <==> '|' !in Canonical(r).name && '|' !in Canonical(r).value
  {
    hide Validate, Canonical, Key, SameIdentity;
    if '|' in Canonical(r).name {
      PipedName(r);
    } else if '|' in Canonical(r).value {
      PipedValue(r);
    } else {
      forall q | Key(q) == Key(r) ensures SameIdentity(q, r) { UnpipedKey(r, q); }
    }
  }

  lemma PipedName(r: Record)
    requires Valid(r) && '|' in Canonical(r).name
    ensures Confusable(r)
  {
    ValidTidy(r);
    hide Validate, CanonicalName, Confusable;
    var n, v := Canonical(r).name, Canonical(r).value;
    var k := FirstPipe(n);
    assert n == n[..k] + "|" + n[k + 1..];
    assert n + "|" + v == n[..k] + "|" + (n[k + 1..] + "|" + v);
    Confused(r, n[..k], n[k + 1..] + "|" + v);
  }

  lemma PipedValue(r: Record)
    requires Valid(r) && '|' in Canonical(r).value
    ensures Confusable(r)
  {
    ValidTidy(r);
    PipedValueTidy(r);
    hide Validate, CanonicalName, Confusable;
    var n, v := Canonical(r).name, Canonical(r).value;
    var k := FirstPipe(v);
    assert v == v[..k] + "|" + v[k + 1..];
    assert n + "|" + v == (n + "|" + v[..k]) + "|" + v[k + 1..];
    Confused(r, n + "|" + v[..k], v[k + 1..]);
  }

  lemma UnpipedKey(r: Record, q: Record)
    requires Key(q) == Key(r) && '|' !in Canonical(r).name && '|' !in Canonical(r).value
    ensures SameIdentity(q, r)
  {
    TypesDiffer(r, q);
    hide CanonicalName;
    var c, d := Canonical(r), Canonical(q);
    Unpiped(c.rtype, c.name, c.value, d.name, d.value);
  }

  // A value with a pipe is no address, so the record is a CNAME.
  lemma PipedValueTidy(r: Record)
    requires Valid(r) && '|' in Canonical(r).value
    ensures Tidy(Canonical(r).value)
  {
    ValidTidy(r);
    if r.rtype.A? {
      var octets := Split(Canonical(r).value, '.');
      SplitMember(Canonical(r).value, '.', '|');
    }
  }

  lemma {:induction false} SplitMember(s: string, sep: char, c: char)
    requires c in s && c != sep
    ensures exists part <- Split(s, sep) :: c in part
  {
    var rest := Split(s[1..], sep);
    if s[0] == c {
      assert Split(s, sep)[0] == [s[0]] + rest[0];
      assert c in Split(s, sep)[0] && Split(s, sep)[0] in Split(s, sep);
    } else {
      SplitMember(s[1..], sep, c);
      var part :| part in rest && c in part;
      var i :| 0 <= i < |rest| && rest[i] == part;
      if s[0] == sep {
        assert Split(s, sep)[i + 1] == part;
      } else if i == 0 {
        assert Split(s, sep)[0] == [s[0]] + part;
        assert Split(s, sep)[0] in Split(s, sep);
      } else {
        assert Split(s, sep)[i] == part;
      }
    }
  }

  // ---------- repeating an addition ----------

  // How long both sides of the key are.
  lemma KeyLength(r: Record)
    ensures |Key(r)| == |TypeName(r.rtype)| + 2 + |Canonical(r).name| + |Canonical(r).value|
  {
  }

  // Two more canonicalisations only ever shorten a canonical name.
  lemma NameShrinks(s: string)
    requires Tidy(CanonicalName(s))
    ensures var n := CanonicalName(s); var m := CanonicalName(CanonicalName(n));
      |m| <= |n| && (|m| == |n| <==> CanonicalName(n) == n) && (CanonicalName(n) == n ==> m == n)
  {
    var n := CanonicalName(s);
    CanonicalIsLower(s);
    CanonicalNoLonger(n);
    CanonicalNoLonger(CanonicalName(n));
    if CanonicalName(n) != n { CanonicalShrinks(n); }
  }

  lemma IndexedNames(site: Site, r: Record)
    requires Valid(r)
    ensures Indexed(site, r).rtype == r.rtype && Indexed(site, r).owner == site.id
    ensures Key(Indexed(site, r)) == Key(r) <==> Stable(r)
    ensures Indexed(site, r).name == CanonicalName(r.name) <==> NameStable(r)
  {
    ValidTidy(r);
    NameShrinks(r.name);
    if r.rtype.CNAME? { NameShrinks(r.value); }
    IndexedAgain(site, r);
    hide Validate, CanonicalName, Key;
    KeyLength(r);
    KeyLength(Indexed(site, r));
    if Stable(r) {
      StableKey(r);
      OwnerIsNoKey(Canonical(r), site.id);
    }
  }

  // Its key is taken from names canonicalised once more still.
  lemma IndexedAgain(site: Site, r: Record)
    requires Valid(r)
    ensures var i := Indexed(site, r);
      |Canonical(i).name| <= |i.name| && |Canonical(i).value| <= |i.value|
  {
    hide Validate;
    var i := Indexed(site, r);
    CanonicalNoLonger(i.name);
    CanonicalNoLonger(i.value);
  }

  // The name alone stays as it is.
  ghost predicate NameStable(r: Record) {
    CanonicalName(CanonicalName(r.name)) == CanonicalName(r.name)
  }

  /** Where a record was created, the next change set finds it there when it is
      stable. A CNAME with a stable alias is refused, its alias being taken;
      one without is refused where the new CNAME closes a loop with it; and
      everything else is created a second time. */
  lemma SecondVerdict(site: Site, c: Config, r: Record, pick: string)
    requires Valid(r) && pick !in c && Judge(site, Reading(site, c), r).Create?
    ensures var now := Reading(site, c[pick := Written(site, r)]);
      Judge(site, now, r) ==
        if Stable(r) then Present
        else if r.rtype.CNAME? && NameStable(r) then Refuse(AliasTaken)
        else if r.rtype.CNAME? && Reaches(now, CanonicalName(r.value), CanonicalName(r.name)) then Refuse(ClosesLoop)
        else Create
  {
    ReadsOneMore(site, c, r, pick);
    IndexedNames(site, r);
    hide Key, CanonicalName, Validate, Reaches, Stable, Reading, Written, Indexed, NameStable;
    JudgedAgain(site, Reading(site, c), r, pick, Indexed(site, r));
  }

  // One more section of this instance's, for a record there was room for.
  lemma JudgedAgain(site: Site, m: Index, r: Record, pick: string, i: Record)
    requires pick !in m && Judge(site, m, r).Create? && i.rtype == r.rtype && i.owner == site.id
    ensures var now := m[pick := i]; var from, name := CanonicalName(r.value), CanonicalName(r.name);
      Judge(site, now, r) ==
        if Key(i) == Key(r) then Present
        else if r.rtype.CNAME? && i.name == name then Refuse(AliasTaken)
        else if r.rtype.CNAME? && Reaches(now, from, name) then Refuse(ClosesLoop)
        else Create
  {
    hide Key, CanonicalName, Reaches;
    var now, key, name := m[pick := i], Key(r), CanonicalName(r.name);
    if Key(i) == key {
      assert pick in OwnedSet(now, key, site.id);
    } else {
      assert OwnedSet(now, key, site.id) == OwnedSet(m, key, site.id);
      assert site.id != "" ==> UnownedSet(now, key) == UnownedSet(m, key);
    }
    assert i.name == name && r.rtype.CNAME? ==> now[pick].name == name;
    forall t ensures Holds(now, t, name) <==> Holds(m, t, name) || (i.rtype == t && i.name == name) {
      assert forall s | s in m :: now[s] == m[s];
      assert now[pick] == i;
    }
  }

  /** Adding once more what was just created, in a change set of its own, writes
      nothing exactly when the record is stable, or is a CNAME refused for its
      alias, which is stable, or for a loop the first one closes. */
  lemma RepeatIdleExactly(site: Site, c: Config, r: Record, pick: string, again: string)
    requires Valid(r) && pick !in c && Judge(site, Reading(site, c), r).Create?
    ensures var ch := Change([], [r]); var after := Result(site, c, ch, [pick]).config;
      && Possible(site, c, ch, [pick])
      && (Edits(site, after, ch, [again]) == 0 <==>
          Stable(r) || (r.rtype.CNAME? && (NameStable(r) ||
            Reaches(Reading(site, after), CanonicalName(r.value), CanonicalName(r.name)))))
  {
    SingleCreate(site, c, r, pick);
    SecondVerdict(site, c, r, pick);
    hide Judge, Stable, NameStable, Reaches, Valid, CanonicalName, Written, Reading;
    var ch := Change([], [r]);
    SingleEdits(site, Result(site, c, ch, [pick]).config, r, again);
  }

  lemma SingleEdits(site: Site, c: Config, r: Record, pick: string)
    ensures Edits(site, c, Change([], [r]), [pick]) == if Writes(Judge(site, Reading(site, c), r)) then 1 else 0
  {
    hide Judge, Reading;
    var st := Start(site, c);
    assert Cleared(site, c, Change([], [r])) == st;
    assert AfterAdd(site, st, [r], [pick], 0) == st;
    assert AddEdits(site, st, [r], [pick], 0) == 0;
  }

  lemma NoSections(site: Site)
    ensures Reading(site, map[]) == map[]
  {
  }

  // ---------- inputs past the conditions ----------

  const DOTTED := Record(A, "a..", "1.2.3.4", "")
  const PIPED_ALIAS := Record(CNAME, "a|b", "c", "")
  const PIPED_TARGET := Record(CNAME, "a", "b|c", "")

  lemma DottedNames()
    ensures CanonicalName("a..") == "a." && CanonicalName("a.") == "a"
  {
  }

  lemma DottedAddress()
    ensures Split("1.2.3.4", '.') == ["1", "2", "3", "4"] && Split("a.", '.') == ["a", ""]
  {
    hide Split;
    SplitFirst("1", "2.3.4", '.');
    SplitFirst("2", "3.4", '.');
    SplitFirst("3", "4", '.');
    SplitNone("4", '.');
    SplitFirst("a", "", '.');
    SplitNone("", '.');
    assert "1.2.3.4" == "1" + ['.'] + "2.3.4";
    assert "2.3.4" == "2" + ['.'] + "3.4";
    assert "3.4" == "3" + ['.'] + "4";
    assert "a." == "a" + ['.'] + "";
  }

  lemma DottedFits()
    ensures IsIPv4("1.2.3.4") && !TooLong("1.2.3.4") && !TooLong("a.")
  {
    DottedAddress();
    hide Split;
  }

  /** Validate takes a name ending in two dots, which is not stable. */
  lemma DottedIsValid()
    ensures Valid(DOTTED) && !Stable(DOTTED)
  {
    DottedNames();
    DottedFits();
    hide CanonicalName, IsIPv4, TooLong;
    assert Canonical(DOTTED) == Record(A, "a.", "1.2.3.4", "");
  }

  lemma PipedNames()
    ensures CanonicalName("a|b") == "a|b" && CanonicalName("b|c") == "b|c"
    ensures CanonicalName("a") == "a" && CanonicalName("b") == "b" && CanonicalName("c") == "c"
  {
  }

  lemma PipedFits()
    ensures !TooLong("a|b") && !TooLong("b|c") && !TooLong("a") && !TooLong("c") && !TooLong("a.")
  {
  }

  lemma PipedKeys()
    ensures Key(PIPED_ALIAS) == Key(PIPED_TARGET) && !SameIdentity(PIPED_ALIAS, PIPED_TARGET)
  {
  }

  /** Two CNAMEs it takes for different aliases have one key, so the second is
      taken to be there already. */
  lemma PipedCollide()
    ensures Key(PIPED_ALIAS) == Key(PIPED_TARGET) && !SameIdentity(PIPED_ALIAS, PIPED_TARGET)
    ensures Valid(PIPED_ALIAS) && Valid(PIPED_TARGET)
  {
    PipedKeys();
    PipedNames();
    PipedFits();
    hide CanonicalName, TooLong, Key;
    assert Canonical(PIPED_ALIAS) == PIPED_ALIAS && Canonical(PIPED_TARGET) == PIPED_TARGET;
  }

  /** Of the two only the first is on the router afterwards, and nothing is
      reported skipped. */
  lemma PipedSilentlyMissing(site: Site, p: string, q: string)
    requires p != q
    ensures var ch := Change([], [PIPED_ALIAS, PIPED_TARGET]);
      && Possible(site, map[], ch, [p, q])
      && SkippedBy(site, map[], ch, [p, q]) == []
      && Result(site, map[], ch, [p, q]).config == map[p := Written(site, PIPED_ALIAS)]
  {
    PipedCollide();
    var add, picks := [PIPED_ALIAS, PIPED_TARGET], [p, q];
    var st := State(map[], map[]);
    NoSections(site);
    hide Validate, Key, CanonicalName, Written;
    EmptyNeverReaches(PIPED_ALIAS);
    assert Judge(site, st.index, PIPED_ALIAS) == Create;
    var one := Created(site, st, PIPED_ALIAS, p);
    assert AfterAdd(site, st, add, picks, 0) == st;
    assert AfterAdd(site, st, add, picks, 1) == one;
    assert Key(Own(site, PIPED_ALIAS)) == Key(PIPED_ALIAS) by { OwnKey(site); }
    assert p in OwnedSet(one.index, Key(PIPED_TARGET), site.id);
    assert Judge(site, one.index, PIPED_TARGET) == Present;
    assert AfterAdd(site, st, add, picks, 2) == one;
    assert Skips(site, st, add, picks, 0) == [] && Skips(site, st, add, picks, 1) == [];
  }

  // A router with a CNAME for the piped alias, to another target.
  function PipedCname(s: string): Config {
    map[s := map[TYPE := Str("cname"), "cname" := Str("a|b"), "target" := Str("x")]]
  }

  const PIPED_OTHER := Record(CNAME, "a|b", "x", "")

  lemma PipedCnameReads(site: Site, s: string)
    ensures Reading(site, PipedCname(s)) == map[s := PIPED_OTHER]
  {
    PipedNames();
    assert CanonicalName("x") == "x" by { assert ToLower("x") == "x"; }
    hide CanonicalName;
    var o := PipedCname(s)[s];
    assert StringOption(o, TYPE) == "cname" && StringOption(o, "cname") == "a|b";
    assert StringOption(o, "target") == "x" && StringOption(o, OWNER) == "";
    assert Parse(site, o) == Some(PIPED_OTHER);
    hide Parse;
    assert Sections(site, PipedCname(s)) == map[s := PIPED_OTHER];
  }

  lemma PipedOtherKey()
    ensures Key(PIPED_OTHER) != Key(PIPED_ALIAS)
  {
    PipedNames();
    assert CanonicalName("x") == "x" by { assert ToLower("x") == "x"; }
    hide CanonicalName;
    assert Key(PIPED_OTHER)[10] == 'x' && Key(PIPED_ALIAS)[10] == 'c';
  }

  // The alias is taken; the other record with its key finds nothing in its way.
  lemma PipedVerdicts(site: Site, s: string)
    ensures var m := map[s := PIPED_OTHER];
      Judge(site, m, PIPED_ALIAS) == Refuse(AliasTaken) && Judge(site, m, PIPED_TARGET) == Create
  {
    PipedKeys();
    PipedOtherKey();
    PipedNames();
    hide Key, CanonicalName;
    var m: Index := map[s := PIPED_OTHER];
    assert m[s].name == "a|b";
    assert OwnedSet(m, Key(PIPED_ALIAS), site.id) == {} && UnownedSet(m, Key(PIPED_ALIAS)) == {};
    assert Holds(m, CNAME, "a|b") && !Holds(m, CNAME, "a") && !Holds(m, A, "a");
    if p :| PathBetween(m, p, "b|c", "a") {
      ClosedUnderEdges(m, {"b|c"}, p);
    }
  }

  /** With one of them refused for its alias the other is written all the same:
      the key is reported skipped and is managed. */
  lemma PipedSkippedYetManaged(site: Site, s: string, p: string, q: string)
    requires q != s
    ensures var c, ch := PipedCname(s), Change([], [PIPED_ALIAS, PIPED_TARGET]);
      && Possible(site, c, ch, [p, q])
      && SkippedBy(site, c, ch, [p, q]) == [Skip(PIPED_ALIAS, AliasTaken)]
      && Key(PIPED_ALIAS) in LetThrough(site, c, ch, [p, q])
      && Key(PIPED_ALIAS) in ManagedKeys(site, Reading(site, Result(site, c, ch, [p, q]).config))
  {
    PipedCollide();
    PipedStable();
    PipedCnameReads(site, s);
    PipedVerdicts(site, s);
    hide Valid, Key, Stable, Written, Judge, Reading, ManagedKeys, CanonicalName;
    var c, ch, picks := PipedCname(s), Change([], [PIPED_ALIAS, PIPED_TARGET]), [p, q];
    var st := Start(site, c);
    assert c.Keys == {s};
    assert Cleared(site, c, ch) == st && st.index == map[s := PIPED_OTHER];
    assert AfterAdd(site, st, ch.add, picks, 0) == st;
    assert AfterAdd(site, st, ch.add, picks, 1) == st;
    assert Skips(site, st, ch.add, picks, 0) == [];
    assert Skips(site, st, ch.add, picks, 1) == [Skip(PIPED_ALIAS, AliasTaken)];
    assert !RefusedAt(site, st, ch.add, picks, 1) && ch.add[1] == PIPED_TARGET;
    ManagedAfter(site, c, ch, picks);
  }

  lemma PipedStable()
    ensures Stable(PIPED_ALIAS) && Stable(PIPED_TARGET)
  {
    PipedNames();
    hide CanonicalName;
  }

  lemma OwnKey(site: Site)
    ensures Key(Own(site, PIPED_ALIAS)) == Key(PIPED_ALIAS)
  {
  }

  lemma EmptyNeverReaches(r: Record)
    requires r == PIPED_ALIAS
    ensures !Reaches(map[], CanonicalName(r.value), CanonicalName(r.name))
  {
    PipedNames();
    hide CanonicalName;
    if p :| PathBetween(map[], p, "c", "a|b") {
      ClosedUnderEdges(map[], {"c"}, p);
    }
  }

  const DOTTED_ALIAS := Record(CNAME, "a..", "c", "")

  // A router with the one CNAME from a to b.
  function OneCname(s: string): Config {
    map[s := map[TYPE := Str("cname"), "cname" := Str("a"), "target" := Str("b")]]
  }

  lemma OneCnameSections(site: Site, s: string)
    ensures Sections(site, OneCname(s)) == map[s := Record(CNAME, "a", "b", "")]
    ensures Reading(site, OneCname(s)) == map[s := Record(CNAME, "a", "b", "")]
  {
    PipedNames();
    hide CanonicalName;
    var o := OneCname(s)[s];
    assert StringOption(o, TYPE) == "cname" && StringOption(o, "cname") == "a" &&
        StringOption(o, "target") == "b" && StringOption(o, OWNER) == "";
    assert Parse(site, o) == Some(Record(CNAME, "a", "b", ""));
  }

  lemma DottedAliasCreated(site: Site, s: string)
    ensures Valid(DOTTED_ALIAS) && Judge(site, map[s := Record(CNAME, "a", "b", "")], DOTTED_ALIAS) == Create
  {
    DottedNames();
    PipedNames();
    PipedFits();
    hide CanonicalName, TooLong;
    assert Canonical(DOTTED_ALIAS) == Record(CNAME, "a.", "c", "");
    var m: Index := map[s := Record(CNAME, "a", "b", "")];
    assert Key(DOTTED_ALIAS)[7] == '.' && Key(m[s])[7] == '|';
    if p :| PathBetween(m, p, "c", "a.") {
      ClosedUnderEdges(m, {"c"}, p);
    }
  }

  // A change set that creates one record.
  lemma SingleCreate(site: Site, c: Config, r: Record, pick: string)
    requires Valid(r) && pick !in c && Judge(site, Reading(site, c), r) == Create
    ensures var ch := Change([], [r]);
      Possible(site, c, ch, [pick]) && Result(site, c, ch, [pick]).config == c[pick := Written(site, r)]
  {
  }

  /** An alias of two dots is written beside the CNAME its name already has:
      the router reads both as one alias, and dnsmasq does not start. */
  lemma DottedAliasUnsafe(site: Site, s: string, pick: string)
    requires pick != s
    ensures var ch := Change([], [DOTTED_ALIAS]);
      && SafeConfig(site, OneCname(s)) && Possible(site, OneCname(s), ch, [pick])
      && !SafeConfig(site, Result(site, OneCname(s), ch, [pick]).config)
  {
    OneCnameKeys(s);
    OneCnameSections(site, s);
    DottedAliasCreated(site, s);
    SingleCreate(site, OneCname(s), DOTTED_ALIAS, pick);
    OneEdgeSafe(s);
    CreateSafeExactly(site, OneCname(s), DOTTED_ALIAS, pick);
    DottedBack();
    hide Canonical, Valid, Written, Sections, OneCname, Safe, Possible, Result;
    var m: Index := map[s := Record(CNAME, "a", "b", "")];
    assert m[s].rtype.CNAME? && m[s].name == "a";
    assert Holds(m, CNAME, "a");
  }

  lemma DottedBack()
    ensures Canonical(Canonical(DOTTED_ALIAS)).name == "a"
  {
  }

  lemma OneCnameKeys(s: string)
    ensures OneCname(s).Keys == {s}
  {
  }

  lemma OneEdgeSafe(s: string)
    ensures Safe(map[s := Record(CNAME, "a", "b", "")])
  {
    PipedNames();
    hide CanonicalName;
    var none: Index := map[];
    assert forall a, b :: !Edge(none, a, b);
    assert forall p | Path(none, p) && |p| > 1 :: Edge(none, p[0], p[0 + 1]);
    forall a | CanonicalName(a) == "a" ensures !Reaches(none, "b", a) {
      if p :| PathBetween(none, p, "b", a) { ClosedUnderEdges(none, {"b"}, p); }
    }
    UnobstructedSafe(none, s, Record(CNAME, "a", "b", ""));
    assert none[s := Record(CNAME, "a", "b", "")] == map[s := Record(CNAME, "a", "b", "")];
  }

  // ---------- rows the tracker tells wrong ----------

  function Asking(recordType: string, targets: seq<string>): Endpoint {
    Endpoint("a", recordType, targets, "", 0, map[], [])
  }

  // An endpoint no record comes of is still expected on the router.
  lemma NoRecordsForetoldWrong(b: Board, ep: Endpoint)
    requires b.actual == Some(map[]) && RecordsOf(ep) == []
    ensures var ch := Changes([ep], [], [], []);
      Cancelled(ch) == Change([], []) && !ReadBack(map[], SeenApply(b, ch, [], None).actual.value)
  {
    var ch := Changes([ep], [], [], []);
    assert ch.Wanted() == [ep] && ch.Withdrawn() == [];
    assert Flatten([ep]) == Flatten([]) + RecordsOf(ep);
    hide EndpointKey, StrLe, RowKey;
    var k, base := EndpointKey(ep), b.actual.value - KeySet(ch.Withdrawn());
    var conflict := b.conflict - KeySet(ch.Wanted());
    assert k in KeySet(ch.Wanted());
    assert Predict(base, [ep], conflict) == Predict(base, [], conflict)[k := SortedTargets(ep.targets)];
    var now := SeenApply(b, ch, [], None).actual.value;
    assert now[k] == SortedTargets(ep.targets);
    assert |now[k]| == |ep.targets|;
    var none: Index := map[];
    assert forall v :: CountOf(none, k, v) == 0 by {
      forall v ensures CountOf(none, k, v) == 0 { CountNone(none, k, v); }
    }
    if ep.targets != [] {
      assert ep.targets[0] in multiset(now[k]);
      assert !Collects(none, k, now[k]);
    }
  }

  /** An address without targets passes AdjustEndpoints and is not written, and
      neither is a type the router does not hold; yet the tracker takes both to
      be there, on a router that is empty before and after. */
  lemma UntellableForetoldWrong(b: Board)
    requires b.actual == Some(map[])
    ensures Assess(Asking("A", [])).Passes?
    ensures forall ep | ep == Asking("A", []) || ep == Asking("TXT", ["b"]) ::
      var ch := Changes([ep], [], [], []);
      Cancelled(ch) == Change([], []) && !ReadBack(map[], SeenApply(b, ch, [], None).actual.value)
  {
    hide ReadBack, Predict, Cancelled;
    forall ep | ep == Asking("A", []) || ep == Asking("TXT", ["b"])
      ensures var ch := Changes([ep], [], [], []);
        Cancelled(ch) == Change([], []) && !ReadBack(map[], SeenApply(b, ch, [], None).actual.value)
    {
      NoRecordsForetoldWrong(b, ep);
    }
  }

  const DOTTED_TARGETS := ["1.2.3.4"]

  lemma DottedStored(site: Site)
    ensures Back(site, DOTTED) == Record(A, "a", "1.2.3.4", site.id)
  {
    DottedNames();
    hide CanonicalName;
  }

  /** An address whose name ends in two dots passes too and is written, but the
      router is read back with another name than the tracker shows. */
  lemma DottedForetoldWrong(site: Site, b: Board, pick: string)
    requires b.actual == Some(map[])
    ensures var ch := Changes([Endpoint("a..", "A", DOTTED_TARGETS, "", 0, map[], [])], [], [], []);
      && Cancelled(ch) == Change([], [DOTTED]) && Possible(site, map[], Cancelled(ch), [pick])
      && !ReadBack(Managed(site, Result(site, map[], Cancelled(ch), [pick]).config),
                   SeenApply(b, ch, SkippedBy(site, map[], Cancelled(ch), [pick]), None).actual.value)
  {
    DottedRuns(site, pick);
    DottedPlan();
    DottedShown(b);
    DottedNames();
    hide Key, Cancelled, Possible, Result, SkippedBy, CanonicalName, Managed, SeenApply, StrLe;
    var m := map[pick := Record(A, "a", "1.2.3.4", site.id)];
    assert RowKey(m[pick]) == RecordKey("a", "A") by { PipedNames(); }
  }

  lemma DottedPlan()
    ensures var ch := Changes([Endpoint("a..", "A", DOTTED_TARGETS, "", 0, map[], [])], [], [], []);
      Cancelled(ch) == Change([], [DOTTED])
  {
    var ep := Endpoint("a..", "A", DOTTED_TARGETS, "", 0, map[], []);
    var ch := Changes([ep], [], [], []);
    assert ch.Wanted() == [ep] && ch.Withdrawn() == [];
    assert RecordsOf(ep) == [DOTTED];
    assert Flatten([ep]) == Flatten([]) + [DOTTED];
    hide Key;
    assert CountKey([DOTTED], Key(DOTTED)) == CountKey([], Key(DOTTED)) + 1;
    assert Unbalanced([DOTTED], [], [DOTTED]) == Unbalanced([], [], [DOTTED]) + [DOTTED];
  }

  lemma DottedShown(b: Board)
    requires b.actual == Some(map[])
    ensures var ch := Changes([Endpoint("a..", "A", DOTTED_TARGETS, "", 0, map[], [])], [], [], []);
      SeenApply(b, ch, [], None).actual.value.Keys == {RecordKey("a.", "A")}
  {
    DottedNames();
    hide CanonicalName, StrLe;
    var ep := Endpoint("a..", "A", DOTTED_TARGETS, "", 0, map[], []);
    var ch := Changes([ep], [], [], []);
    var k, base := EndpointKey(ep), b.actual.value - KeySet(ch.Withdrawn());
    var conflict := b.conflict - KeySet(ch.Wanted());
    assert ch.Wanted() == [ep] && k in KeySet(ch.Wanted());
    assert Predict(base, [ep], conflict) == Predict(base, [], conflict)[k := SortedTargets(ep.targets)];
  }

  lemma DottedRuns(site: Site, pick: string)
    ensures var ch := Change([], [DOTTED]);
      && Possible(site, map[], ch, [pick]) && SkippedBy(site, map[], ch, [pick]) == []
      && Managed(site, Result(site, map[], ch, [pick]).config) == map[pick := Record(A, "a", "1.2.3.4", site.id)]
  {
    DottedIsValid();
    NoSections(site);
    hide Key, CanonicalName, Validate, Written, Managed;
    var none: Index := map[];
    assert Judge(site, none, DOTTED) == Create;
    SingleCreate(site, map[], DOTTED, pick);
    var st := Start(site, map[]);
    assert AfterAdd(site, st, [DOTTED], [pick], 0) == st;
    assert Skips(site, st, [DOTTED], [pick], 0) == [];
    DottedSections(site, pick);
  }

  lemma DottedSections(site: Site, pick: string)
    ensures Managed(site, map[pick := Written(site, DOTTED)]) == map[pick := Record(A, "a", "1.2.3.4", site.id)]
  {
    DottedIsValid();
    DottedStored(site);
    WriteReadRoundTrip(site, DOTTED);
    hide Validate, Written, Parse, Back;
  }
}
