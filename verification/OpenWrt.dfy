/** The reconcile engine: reading the router's records in one session and
    running change sets in another (pkg/openwrt/openwrt.go). */
module OpenWrt {
  import opened Types
  import opened Uci
  import opened Graph
  import opened IndexTable
  import opened Reconcile
  import opened Rpcd
  import opened Ubus

  datatype AddOutcome = Broken | Rejected(error: Invalid) | SkippedFor(why: Reason) | Did(n: nat)

  datatype ApplyOutcome = Applied(skipped: seq<Skip>) | ApplyFailed

  // Names the router holds no section under yet, no two the same: what the
  // random part of a new section's name is for.
  ghost predicate Fresh(names: seq<string>, c: Config) {
    && (forall n <- names :: n !in c)
    && (forall i, j | 0 <= i < j < |names| :: names[i] != names[j])
  }

  class Engine {
    const site: Site
    const ubus: Client
    const reader: Client

    constructor (site: Site, ubus: Client, reader: Client)
      ensures this.site == site && this.ubus == ubus && this.reader == reader
    {
      this.site := site;
      this.ubus := ubus;
      this.reader := reader;
    }

    // The reading session is its own and stages nothing.
    ghost predicate ReaderApart()
      reads this, ubus, reader, ubus.rpcd, reader.rpcd
    {
      && ubus.rpcd == reader.rpcd && ubus != reader
      && reader.Valid() && reader.Clean() && !reader.staged
      && (reader.session != 0 ==> reader.session != ubus.session)
    }

    ghost predicate Valid()
      reads this, ubus, reader, ubus.rpcd, reader.rpcd
    {
      ReaderApart() && ubus.Valid()
    }

    // A change set is under way: the writing session is alive, or nothing
    // is staged in it.
    ghost predicate Working(index: SectionIndex)
      reads this, ubus, reader, ubus.rpcd, reader.rpcd, index
    {
      Valid() && index.Valid() && !ubus.Stranded() && Linked(Here(index))
    }

    ghost predicate Failing(was: Router)
      reads this, ubus, reader, ubus.rpcd, reader.rpcd
    {
      ReaderApart() && ubus.Sound() && SameCommits(was, ubus.rpcd.rt)
    }

    ghost function Here(index: SectionIndex): State
      reads ubus, ubus.rpcd, index
    {
      State(ubus.Seen(), index.contents)
    }

    method ReadSections(client: Client) returns (all: Option<Index>)
      requires client.Valid()
      modifies client, client.rpcd
      ensures client.Sound() && client.rpcd.rt.next >= old(client.rpcd.rt.next)
      ensures client.session == 0 || client.session == old(client.session) || client.session >= old(client.rpcd.rt.next)
      ensures Apart(old(client.rpcd.rt), client.rpcd.rt, old(client.session), old(client.rpcd.rt.next))
      ensures SameCommits(old(client.rpcd.rt), client.rpcd.rt)
      ensures client.Valid()
      ensures all.Some? ==> client.session in client.rpcd.rt.live && client.Seen() == old(client.Seen())
      ensures all.Some? ==> all.value == Sections(site, old(client.Seen()))
      ensures all.Some? ==> client.rpcd.rt.writes == old(client.rpcd.rt.writes)
      ensures (old(client.Clean()) ==> client.Clean()) && (client.staged ==> old(client.staged))
      ensures client.rpcd.troubles >= old(client.rpcd.troubles) && client.rpcd.applies == old(client.rpcd.applies)
      ensures all.None? && client.rpcd.troubles == old(client.rpcd.troubles) ==> old(client.Stranded())
    {
      hide Parse, Router.Staged, Router.View;
      var out := client.Call(Get);
      if out.Err? {
        return None;
      }
      var config := out.reply.config;
      var records: Index := map[];
      var todo := config.Keys;
      while todo != {}
        invariant todo <= config.Keys
        invariant records == map s | s in config && s !in todo &&
            Parse(site, config[s]).Some? :: Parse(site, config[s]).value
        modifies {}
        decreases todo
      {
        var s :| s in todo;
        todo := todo - {s};
        var record := ParseSection(site, config[s]);
        if record.Some? {
          records := records[s := record.value];
        }
      }
      return Some(records);
    }

    // One uci write of a change set.
    method Write(d: Delta) returns (out: Outcome)
      requires Valid() && !ubus.Stranded()
      modifies ubus, ubus.rpcd
      ensures ubus.rpcd.troubles >= old(ubus.rpcd.troubles) && ubus.rpcd.applies == old(ubus.rpcd.applies)
      ensures out.Err? ==> Failing(old(ubus.rpcd.rt))
      ensures out.Err? ==>
        ubus.rpcd.troubles > old(ubus.rpcd.troubles) || Objectionable(Stage(d), old(ubus.Seen()), old(ubus.Clean()))
      ensures out.Ok? ==> Valid() && !ubus.Stranded() && SameCommits(old(ubus.rpcd.rt), ubus.rpcd.rt)
      ensures out.Ok? ==> ubus.Seen() == Do(old(ubus.Seen()), d) && Answers(Stage(d), old(ubus.Seen()), out.reply)
      ensures out.Ok? ==> ubus.rpcd.rt.writes == old(ubus.rpcd.rt.writes) + 1 && !ubus.Clean()
      ensures out.Ok? && ubus.rpcd.troubles == old(ubus.rpcd.troubles) && d.AddSection? ==> out.reply.Section?
    {
      hide Router.Staged, Router.View, Do;
      out := ubus.Call(Stage(d));
    }

    method RemoveRecord(index: SectionIndex, r: Record) returns (out: Option<nat>)
      requires Working(index)
      modifies ubus, ubus.rpcd, index
      ensures out.None? ==> Failing(old(ubus.rpcd.rt)) && ubus.rpcd.troubles > old(ubus.rpcd.troubles)
      ensures ubus.rpcd.troubles >= old(ubus.rpcd.troubles) && ubus.rpcd.applies == old(ubus.rpcd.applies)
      ensures out.Some? ==> Working(index) && SameCommits(old(ubus.rpcd.rt), ubus.rpcd.rt)
      ensures out.Some? ==> Here(index) == RemoveOne(site, old(Here(index)), r)
      ensures out.Some? ==> out.value == |OwnedSet(old(index.contents), Key(r), site.id)|
      ensures out.Some? ==> ubus.rpcd.rt.writes == old(ubus.rpcd.rt.writes) + out.value
      ensures out.Some? ==> (ubus.Clean() <==> old(ubus.Clean()) && out.value == 0)
    {
      hide Key, CanonicalName, Router.Staged, Router.View, Linked, Valid, SectionIndex.Valid, Answers;
      ghost var st := Here(index);
      var sections := index.Owned(Key(r), site.id);
      OwnedListed(sections, index.contents, Key(r), site.id);
      WithoutAll(st, sections);
      if |sections| == 0 {
        return Some(0);
      }
      for i := 0 to |sections|
        invariant Working(index) && SameCommits(old(ubus.rpcd.rt), ubus.rpcd.rt)
        invariant ubus.rpcd.troubles >= old(ubus.rpcd.troubles) && ubus.rpcd.applies == old(ubus.rpcd.applies)
        invariant Here(index) == Without(st, sections, i)
        invariant ubus.rpcd.rt.writes == old(ubus.rpcd.rt.writes) + i
        invariant i > 0 ==> !ubus.Clean()
      {
        WithoutNext(st, sections, i);
        assert sections[i] in OwnedSet(st.index, Key(r), site.id);
        var ok := DropSection(index, Key(r), sections[i]);
        if !ok {
          return None;
        }
      }
      return Some(|sections|);
    }

    // One section off the router and the index.
    method DropSection(index: SectionIndex, key: string, section: string) returns (ok: bool)
      requires Working(index) && section in ubus.Seen()
      requires section in index.contents && Key(index.contents[section]) == key
      requires Linked(State(ubus.Seen() - {section}, index.contents - {section}))
      modifies ubus, ubus.rpcd, index
      ensures ubus.rpcd.troubles >= old(ubus.rpcd.troubles) && ubus.rpcd.applies == old(ubus.rpcd.applies)
      ensures !ok ==> Failing(old(ubus.rpcd.rt)) && ubus.rpcd.troubles > old(ubus.rpcd.troubles)
      ensures ok ==> Working(index) && SameCommits(old(ubus.rpcd.rt), ubus.rpcd.rt)
      ensures ok ==> Here(index) == State(old(ubus.Seen()) - {section}, old(index.contents) - {section})
      ensures ok ==> ubus.rpcd.rt.writes == old(ubus.rpcd.rt.writes) + 1 && !ubus.Clean()
    {
      hide Key, CanonicalName, Router.Staged, Router.View, Linked, Valid, SectionIndex.Valid, Answers;
      var out := Write(DeleteSection(section));
      if out.Err? {
        return false;
      }
      index.Drop(key, section);
      return true;
    }

    // The name is the random one the request carries.
    method CreateSection(r: Record, name: string) returns (section: Option<string>)
      requires Valid() && !ubus.Stranded()
      modifies ubus, ubus.rpcd
      ensures ubus.rpcd.troubles >= old(ubus.rpcd.troubles) && ubus.rpcd.applies == old(ubus.rpcd.applies)
      ensures section.None? ==> Failing(old(ubus.rpcd.rt)) && ubus.rpcd.troubles > old(ubus.rpcd.troubles)
      ensures section.Some? ==> section.value == name
      ensures section.Some? ==> Valid() && !ubus.Stranded() && SameCommits(old(ubus.rpcd.rt), ubus.rpcd.rt)
      ensures section.Some? ==> ubus.Seen() == old(ubus.Seen())[name := Written(site, r)]
      ensures section.Some? ==> ubus.rpcd.rt.writes == old(ubus.rpcd.rt.writes) + 1 && !ubus.Clean()
    {
      hide Router.Staged, Router.View, Written;
      var out := Write(AddSection(name, Written(site, r)));
      if out.Err? || !out.reply.Section? {
        return None;
      }
      return Some(out.reply.name);
    }

    method SetOwner(section: string) returns (ok: bool)
      requires Valid() && !ubus.Stranded() && section in ubus.Seen()
      modifies ubus, ubus.rpcd
      ensures ubus.rpcd.troubles >= old(ubus.rpcd.troubles) && ubus.rpcd.applies == old(ubus.rpcd.applies)
      ensures !ok ==> Failing(old(ubus.rpcd.rt)) && ubus.rpcd.troubles > old(ubus.rpcd.troubles)
      ensures ok ==> Valid() && !ubus.Stranded() && SameCommits(old(ubus.rpcd.rt), ubus.rpcd.rt)
      ensures ok ==> ubus.Seen() == old(ubus.Seen())[section := Stamped(site, old(ubus.Seen())[section])]
      ensures ok ==> ubus.rpcd.rt.writes == old(ubus.rpcd.rt.writes) + 1 && !ubus.Clean()
    {
      hide Router.Staged, Router.View, Valid;
      var out := Write(SetOption(section, OWNER, Str(site.id)));
      ok := out.Ok?;
    }

    // Why a record that is not on the router must not be written.
    method Obstacle(index: SectionIndex, r: Record) returns (why: Option<Reason>)
      requires index.Valid()
      requires OwnedSet(index.contents, Key(r), site.id) == {}
      requires site.id != "" ==> UnownedSet(index.contents, Key(r)) == {}
      ensures Judge(site, index.contents, r) == if why.Some? then Refuse(why.value) else Create
    {
      hide Key, CanonicalName, SectionIndex.Valid, Holds, Reaches;
      if r.rtype.CNAME? {
        var taken := index.Named(CNAME, r.name);
        NamedHolds(taken, index.contents, CNAME, r.name);
        if |taken| > 0 {
          return Some(AliasTaken);
        }
        var closes := index.ClosesCnameLoop(r.name, r.value);
        if closes {
          return Some(ClosesLoop);
        }
      }
      if r.rtype.A? {
        var taken := index.Named(CNAME, r.name);
        NamedHolds(taken, index.contents, CNAME, r.name);
        if |taken| > 0 {
          return Some(NameHasCname);
        }
      } else {
        var taken := index.Named(A, r.name);
        NamedHolds(taken, index.contents, A, r.name);
        if |taken| > 0 {
          return Some(AliasHasAddress);
        }
      }
      return None;
    }

    method AdoptSection(index: SectionIndex, r: Record, section: string) returns (ok: bool)
      requires Working(index) && Judge(site, index.contents, r).Adopt? && section in UnownedSet(index.contents, Key(r))
      modifies ubus, ubus.rpcd, index
      ensures ubus.rpcd.troubles >= old(ubus.rpcd.troubles) && ubus.rpcd.applies == old(ubus.rpcd.applies)
      ensures !ok ==> Failing(old(ubus.rpcd.rt)) && ubus.rpcd.troubles > old(ubus.rpcd.troubles)
      ensures ok ==> Working(index) && SameCommits(old(ubus.rpcd.rt), ubus.rpcd.rt)
      ensures ok ==> Here(index) == AddOne(site, old(Here(index)), r, section)
      ensures ok ==> ubus.rpcd.rt.writes == old(ubus.rpcd.rt.writes) + 1 && !ubus.Clean()
    {
      hide Key, CanonicalName, Router.Staged, Router.View, Valid, SectionIndex.Valid, Stamped, Judge;
      AddLinked(site, Here(index), r, section);
      ok := SetOwner(section);
      if !ok {
        return;
      }
      index.MarkOwned(Key(r), section, site.id);
    }

    method CreateRecord(index: SectionIndex, r: Record, name: string) returns (ok: bool)
      requires Working(index) && Judge(site, index.contents, r).Create? && name !in ubus.Seen()
      modifies ubus, ubus.rpcd, index
      ensures ubus.rpcd.troubles >= old(ubus.rpcd.troubles) && ubus.rpcd.applies == old(ubus.rpcd.applies)
      ensures !ok ==> Failing(old(ubus.rpcd.rt)) && ubus.rpcd.troubles > old(ubus.rpcd.troubles)
      ensures ok ==> Working(index) && SameCommits(old(ubus.rpcd.rt), ubus.rpcd.rt)
      ensures ok ==> Here(index) == AddOne(site, old(Here(index)), r, name)
      ensures ok ==> ubus.rpcd.rt.writes == old(ubus.rpcd.rt.writes) + 1 && !ubus.Clean()
    {
      hide Key, CanonicalName, Router.Staged, Router.View, Valid, SectionIndex.Valid, Written, Judge;
      AddLinked(site, Here(index), r, name);
      var section := CreateSection(r, name);
      if section.None? {
        return false;
      }
      index.Add(r, section.value, site.id);
      return true;
    }

    /** addRecord: the record is created, an unmarked section is adopted for it,
        or it is left out and the reason returned. pick is the section. */
    method AddRecord(index: SectionIndex, r: Record, name: string) returns (out: AddOutcome, ghost pick: string)
      requires Working(index) && name !in ubus.Seen()
      modifies ubus, ubus.rpcd, index
      ensures ubus.rpcd.troubles >= old(ubus.rpcd.troubles) && ubus.rpcd.applies == old(ubus.rpcd.applies)
      ensures out.Broken? || out.Rejected? ==> Failing(old(ubus.rpcd.rt))
      ensures out.Broken? ==> ubus.rpcd.troubles > old(ubus.rpcd.troubles)
      ensures out.Rejected? <==> !Types.Valid(r)
      ensures var st := old(Here(index)); var verdict := Judge(site, st.index, r);
        out.SkippedFor? || out.Did? ==>
        && Working(index) && SameCommits(old(ubus.rpcd.rt), ubus.rpcd.rt)
        && Admits(site, st, r, pick) && Here(index) == AddOne(site, st, r, pick)
        && (verdict.Refuse? <==> out.SkippedFor?) && (out.SkippedFor? ==> out.why == verdict.why)
        && (out.Did? ==> out.n == if Writes(verdict) then 1 else 0)
        && ubus.rpcd.rt.writes == old(ubus.rpcd.rt.writes) + (if out.Did? then out.n else 0)
        && (ubus.Clean() <==> old(ubus.Clean()) && out != Did(1))
        && (pick == name || verdict.Adopt?)
    {
      hide Key, CanonicalName, Router.Staged, Router.View, SectionIndex.Valid, Holds, Reaches, Validate, Linked,
           Adopted, Created;
      ghost var st := Here(index);
      pick := name;
      var invalid := Validate(r);
      if invalid.Some? {
        return Rejected(invalid.value), pick;
      }
      var key := Key(r);
      var mine := index.Owned(key, site.id);
      OwnedListed(mine, index.contents, key, site.id);
      if |mine| > 0 {
        return Did(0), pick;
      }
      if site.id != "" {
        var section := index.FirstUnowned(key);
        if section.Some? {
          var ok := AdoptSection(index, r, section.value);
          if !ok {
            return Broken, pick;
          }
          return Did(1), section.value;
        }
      }
      var obstacle := Obstacle(index, r);
      if obstacle.Some? {
        return SkippedFor(obstacle.value), pick;
      }
      var ok := CreateRecord(index, r, name);
      if !ok {
        return Broken, pick;
      }
      return Did(1), pick;
    }

    method RemoveAll(index: SectionIndex, remove: seq<Record>, ghost c: Config) returns (changed: Option<nat>)
      requires Working(index) && Here(index) == Start(site, c) && ubus.Clean()
      modifies ubus, ubus.rpcd, index
      ensures ubus.rpcd.troubles >= old(ubus.rpcd.troubles) && ubus.rpcd.applies == old(ubus.rpcd.applies)
      ensures changed.None? ==> Failing(old(ubus.rpcd.rt)) && ubus.rpcd.troubles > old(ubus.rpcd.troubles)
      ensures changed.Some? ==> Working(index) && SameCommits(old(ubus.rpcd.rt), ubus.rpcd.rt)
      ensures changed.Some? ==> Here(index) == AfterRemove(site, Start(site, c), remove, |remove|)
      ensures changed.Some? ==> changed.value == RemoveEdits(site, Start(site, c), remove, |remove|)
      ensures changed.Some? ==> ubus.rpcd.rt.writes == old(ubus.rpcd.rt.writes) + changed.value
      ensures changed.Some? ==> ubus.Clean() == (changed.value == 0)
    {
      hide Key, Router.Staged, Router.View, Valid, SectionIndex.Valid, Linked, Start, RemoveOne, OwnedSet;
      var count := 0;
      for i := 0 to |remove|
        invariant Working(index) && SameCommits(old(ubus.rpcd.rt), ubus.rpcd.rt)
        invariant ubus.rpcd.troubles >= old(ubus.rpcd.troubles) && ubus.rpcd.applies == old(ubus.rpcd.applies)
        invariant Here(index) == AfterRemove(site, Start(site, c), remove, i)
        invariant count == RemoveEdits(site, Start(site, c), remove, i)
        invariant ubus.rpcd.rt.writes == old(ubus.rpcd.rt.writes) + count
        invariant ubus.Clean() == (count == 0)
      {
        var n := RemoveRecord(index, remove[i]);
        if n.None? {
          return None;
        }
        count := count + n.value;
      }
      return Some(count);
    }

    method AddAll(index: SectionIndex, add: seq<Record>, names: seq<string>, ghost st: State)
      returns (changed: Option<nat>, skipped: seq<Skip>, ghost picks: seq<string>)
      requires Working(index) && Here(index) == st && |names| == |add| && Fresh(names, ubus.Seen())
      modifies ubus, ubus.rpcd, index
      ensures |picks| == |add|
      ensures ubus.rpcd.troubles >= old(ubus.rpcd.troubles) && ubus.rpcd.applies == old(ubus.rpcd.applies)
      ensures changed.None? ==> Failing(old(ubus.rpcd.rt))
      ensures changed.None? ==> ubus.rpcd.troubles > old(ubus.rpcd.troubles) || exists r <- add :: !Types.Valid(r)
      ensures changed.Some? ==> Working(index) && SameCommits(old(ubus.rpcd.rt), ubus.rpcd.rt)
      ensures changed.Some? ==> AdmitsAll(site, st, add, picks, |add|) && forall r <- add :: Types.Valid(r)
      ensures changed.Some? ==> Here(index) == AfterAdd(site, st, add, picks, |add|)
      ensures changed.Some? ==> skipped == Skips(site, st, add, picks, |add|)
      ensures changed.Some? ==> changed.value == AddEdits(site, st, add, picks, |add|)
      ensures changed.Some? ==> ubus.rpcd.rt.writes == old(ubus.rpcd.rt.writes) + changed.value
      ensures changed.Some? ==> (ubus.Clean() <==> old(ubus.Clean()) && changed.value == 0)
    {
      hide Key, Router.Staged, Router.View, Valid, SectionIndex.Valid, Linked, AddOne, Admits, Judge, Types.Valid;
      var count := 0;
      skipped := [];
      picks := names;
      for i := 0 to |add|
        invariant Working(index) && SameCommits(old(ubus.rpcd.rt), ubus.rpcd.rt)
        invariant ubus.rpcd.troubles >= old(ubus.rpcd.troubles) && ubus.rpcd.applies == old(ubus.rpcd.applies)
        invariant |picks| == |add| && AdmitsAll(site, st, add, picks, i)
        invariant forall j | 0 <= j < i :: Types.Valid(add[j])
        invariant forall j | i <= j < |add| :: names[j] !in ubus.Seen()
        invariant Here(index) == AfterAdd(site, st, add, picks, i)
        invariant skipped == Skips(site, st, add, picks, i)
        invariant count == AddEdits(site, st, add, picks, i)
        invariant ubus.rpcd.rt.writes == old(ubus.rpcd.rt.writes) + count
        invariant ubus.Clean() <==> old(ubus.Clean()) && count == 0
      {
        ghost var before := picks;
        ghost var mid := Here(index);
        var out, pick := AddRecord(index, add[i], names[i]);
        if out.Broken? || out.Rejected? {
          assert out.Rejected? ==> add[i] in add;
          return None, skipped, picks;
        }
        picks := picks[i := pick];
        PicksAgree(site, st, add, before, picks, i);
        PicksAdmit(site, st, add, before, picks, i);
        NewNames(site, mid, add[i], pick, names[i]);
        if out.SkippedFor? {
          skipped := skipped + [Skip(add[i], out.why)];
        } else {
          count := count + out.n;
        }
      }
      return Some(count), skipped, picks;
    }

    /** One change set up to its apply, which commits all of it or, its answer
        lost, may have. */
    method RunChange(remove: seq<Record>, add: seq<Record>, names: seq<string>)
      returns (out: ApplyOutcome, ghost picks: seq<string>)
      requires Valid() && ubus.Clean() && |names| == |add| && Fresh(names, ubus.rpcd.rt.committed)
      modifies ubus, ubus.rpcd
      ensures ReaderApart() && ubus.Sound() && |picks| == |add|
      ensures ubus.rpcd.troubles >= old(ubus.rpcd.troubles)
      ensures ubus.rpcd.applies <= old(ubus.rpcd.applies) + 1
      ensures out.Applied? ==> Valid() && ubus.Clean()
      ensures out.Applied? ==> Applies(old(ubus.rpcd.rt), ubus.rpcd.rt, Change(remove, add), picks, out.skipped)
      ensures out.ApplyFailed? ==> AllOrNothing(old(ubus.rpcd.rt), ubus.rpcd.rt, Change(remove, add), picks)
      ensures out.ApplyFailed? ==>
        ubus.rpcd.troubles > old(ubus.rpcd.troubles) || old(ubus.Stranded()) || exists r <- add :: !Types.Valid(r)
    {
      hide Key, Router.Staged, Router.View, SectionIndex.Valid, Linked, Start, AfterRemove, AfterAdd, RemoveEdits,
           AddEdits, Skips, Admits, Types.Valid, Sections;
      picks := names;
      ghost var c := ubus.rpcd.rt.committed;
      NothingStagedSeen(ubus);
      var all := ReadSections(ubus);
      if all.None? {
        return ApplyFailed, picks;
      }
      NothingStagedSeen(ubus);
      StartLinked(site, c);
      var index := new SectionIndex(all.value);
      assert Here(index) == Start(site, c) by { StartIs(site, c); }
      var removed := RemoveAll(index, remove, c);
      if removed.None? {
        return ApplyFailed, picks;
      }
      var changed := removed.value;
      FreshLater(site, c, remove, |remove|, names);
      var added, skipped, chosen := AddAll(index, add, names, Here(index));
      picks := chosen;
      if added.None? {
        return ApplyFailed, picks;
      }
      changed := changed + added.value;
      ghost var result := Here(index);
      if changed == 0 {
        NothingStagedSeen(ubus);
        return Applied(skipped), picks;
      }
      var applied := ubus.Call(Apply);
      if applied.Err? && !applied.noData {
        return ApplyFailed, picks;
      }
      return Applied(skipped), picks;
    }

    // Nothing was committed, or the complete result of the change set, once.
    ghost predicate AllOrNothing(rt: Router, rt': Router, ch: Change, picks: seq<string>) {
      || SameCommits(rt, rt')
      || (Possible(site, rt.committed, ch, picks) && Commits(rt, rt', Result(site, rt.committed, ch, picks).config))
    }

    // The change set went through: its complete result is committed, in one
    // commit, and it wrote what it had to.
    ghost predicate Applies(rt: Router, rt': Router, ch: Change, picks: seq<string>, skipped: seq<Skip>) {
      && Possible(site, rt.committed, ch, picks)
      && rt'.committed == Result(site, rt.committed, ch, picks).config
      && skipped == SkippedBy(site, rt.committed, ch, picks)
      && rt'.writes == rt.writes + Edits(site, rt.committed, ch, picks)
      && (SameCommits(rt, rt') || Commits(rt, rt', rt'.committed))
      && (Edits(site, rt.committed, ch, picks) == 0 ==> SameCommits(rt, rt'))
    }

    /** ApplyDNSRecords: whatever fails at whichever call, what is committed is
        what was, or the complete result of the change set; and the session the
        next change set runs in has nothing staged. At most one apply is sent
        that may have committed. */
    method ApplyDnsRecords(remove: seq<Record>, add: seq<Record>, names: seq<string>)
      returns (out: ApplyOutcome, ghost picks: seq<string>)
      requires Valid() && ubus.Clean() && |names| == |add| && Fresh(names, ubus.rpcd.rt.committed)
      modifies ubus, ubus.rpcd
      ensures Valid() && ubus.Clean() && |picks| == |add|
      ensures ubus.rpcd.troubles >= old(ubus.rpcd.troubles)
      ensures ubus.rpcd.applies <= old(ubus.rpcd.applies) + 1
      ensures out.Applied? ==> Applies(old(ubus.rpcd.rt), ubus.rpcd.rt, Change(remove, add), picks, out.skipped)
      ensures out.ApplyFailed? ==> AllOrNothing(old(ubus.rpcd.rt), ubus.rpcd.rt, Change(remove, add), picks)
      ensures out.ApplyFailed? ==>
        ubus.rpcd.troubles > old(ubus.rpcd.troubles) || old(ubus.Stranded()) || exists r <- add :: !Types.Valid(r)
    {
      hide Router.Staged, Router.View, Possible, Result, SkippedBy, Edits;
      if |remove| == 0 && |add| == 0 {
        picks := names;
        EmptyChange(site, ubus.rpcd.rt.committed, remove, add, names);
        return Applied([]), picks;
      }
      out, picks := RunChange(remove, add, names);
      if out.ApplyFailed? {
        ubus.Reset();
      }
    }

    /** GetDNSRecords: what this instance manages of the configuration
        committed at that moment, whatever a change set has staged. It fails
        only where something went wrong with a call. */
    method GetDnsRecords() returns (records: Option<Index>)
      requires Valid()
      modifies reader, reader.rpcd
      ensures Valid()
      ensures records.Some? ==> records.value == Managed(site, ubus.rpcd.rt.committed)
      ensures records.None? ==> reader.rpcd.troubles > old(reader.rpcd.troubles)
      ensures SameCommits(old(ubus.rpcd.rt), ubus.rpcd.rt)
      ensures ubus.Valid() && ubus.Seen() == old(ubus.Seen()) && ubus.Clean() == old(ubus.Clean())
    {
      hide Parse;
      NothingStagedSeen(reader);
      var all := ReadSections(reader);
      if all.None? {
        return None;
      }
      var managed: Index := map[];
      var todo := all.value.Keys;
      while todo != {}
        invariant todo <= all.value.Keys
        invariant managed == map s | s in all.value && s !in todo && Manages(site.id, all.value[s]) :: all.value[s]
        modifies {}
        decreases todo
      {
        var s :| s in todo;
        todo := todo - {s};
        if site.id != "" && all.value[s].owner != site.id {
          continue;
        }
        managed := managed[s := all.value[s]];
      }
      return Some(managed);
    }
  }

  lemma EmptyChange(site: Site, c: Config, remove: seq<Record>, add: seq<Record>, names: seq<string>)
    requires remove == [] && add == [] && names == []
    ensures var ch := Change(remove, add);
      && Possible(site, c, ch, names) && Result(site, c, ch, names).config == c
      && SkippedBy(site, c, ch, names) == [] && Edits(site, c, ch, names) == 0
  {
  }

  lemma StartIs(site: Site, c: Config)
    ensures Start(site, c) == State(c, IndexOf(Sections(site, c)))
  {
  }

  // The sections an addition leaves are those there were and its own.
  lemma NewNames(site: Site, st: State, r: Record, pick: string, name: string)
    requires pick == name || Judge(site, st.index, r).Adopt?
    ensures AddOne(site, st, r, pick).config.Keys <= st.config.Keys + {name}
  {
  }

  lemma {:induction false} FreshLater(site: Site, c: Config, remove: seq<Record>, n: nat, names: seq<string>)
    requires n <= |remove| && Fresh(names, c)
    ensures Fresh(names, AfterRemove(site, Start(site, c), remove, n).config)
  {
    hide OwnedSet, Key;
    if n > 0 { FreshLater(site, c, remove, n - 1, names); }
  }

  lemma NamedHolds(matches: seq<Entry>, m: Index, t: RecordType, rawName: string)
    requires forall e :: e in matches <==>
      e.name in m && m[e.name] == e.record && e.record.rtype == t && e.record.name == CanonicalName(rawName)
    ensures |matches| > 0 <==> Holds(m, t, CanonicalName(rawName))
  {
    hide CanonicalName;
    if |matches| > 0 {
      assert matches[0] in matches;
    }
    if Holds(m, t, CanonicalName(rawName)) {
      var s :| s in m && m[s].rtype == t && m[s].name == CanonicalName(rawName);
      assert Entry(s, m[s]) in matches;
    }
  }

  ghost function Listed(names: seq<string>, n: nat): set<string>
    requires n <= |names|
  {
    set i | 0 <= i < n :: names[i]
  }

  // A state less the first n sections of a list.
  ghost function Without(st: State, names: seq<string>, n: nat): State
    requires n <= |names|
  {
    State(st.config - Listed(names, n), st.index - Listed(names, n))
  }

  lemma WithoutNext(st: State, names: seq<string>, i: nat)
    requires i < |names| && Linked(st) && Distinct(names) && forall n <- names :: n in st.index
    ensures var now, next := Without(st, names, i), Without(st, names, i + 1);
      && names[i] in now.index && names[i] in now.config && now.index[names[i]] == st.index[names[i]]
      && next == State(now.config - {names[i]}, now.index - {names[i]})
      && Linked(next)
  {
  }

  lemma WithoutAll(st: State, names: seq<string>)
    ensures Without(st, names, 0) == st
    ensures Without(st, names, |names|) == State(st.config - (set n <- names), st.index - (set n <- names))
  {
  }

  lemma OwnedListed(names: seq<string>, m: Index, key: string, id: string)
    requires Distinct(names) && forall s :: s in names <==> s in OwnedSet(m, key, id)
    ensures (set n <- names) == OwnedSet(m, key, id) && |names| == |OwnedSet(m, key, id)|
    ensures forall n <- names :: n in m && Key(m[n]) == key
  {
    assert (set n <- names) == OwnedSet(m, key, id);
    DistinctCount(names);
  }

  lemma {:induction false} DistinctCount(names: seq<string>)
    requires Distinct(names)
    ensures |(set n <- names)| == |names|
  {
    if names != [] {
      var rest := names[..|names| - 1];
      DistinctCount(rest);
      assert (set n <- names) == (set n <- rest) + {names[|names| - 1]};
    }
  }

  lemma NothingStagedSeen(client: Client)
    requires client.Clean()
    ensures client.Seen() == client.rpcd.rt.committed
  {
  }
}
