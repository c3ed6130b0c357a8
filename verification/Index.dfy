/** The in-memory index a change set works on (pkg/openwrt/index.go). */
module IndexTable {
  import opened Types
  import opened Uci
  import opened Graph

  datatype Entry = Entry(name: string, record: Record)

  // The index of a set of sections: each record stored canonical.
  function IndexOf(sections: Index): Index {
    map s | s in sections :: Canonical(sections[s])
  }

  ghost function OwnedSet(m: Index, key: string, id: string): set<string> {
    set s | s in m && Key(m[s]) == key && Manages(id, m[s])
  }

  ghost function UnownedSet(m: Index, key: string): set<string> {
    set s | s in m && Key(m[s]) == key && m[s].owner == ""
  }

  // No section is listed twice.
  ghost predicate Distinct(names: seq<string>) {
    forall i, j | 0 <= i < j < |names| :: names[i] != names[j]
  }

  ghost predicate DistinctEntries(entries: seq<Entry>) {
    forall i, j | 0 <= i < j < |entries| :: entries[i].name != entries[j].name
  }

  type Buckets = map<string, seq<Entry>>

  // Every section stands once, under its own key, and no bucket is empty.
  ghost predicate WellIndexed(b: Buckets, m: Index) {
    && (forall k | k in b :: b[k] != [] && DistinctEntries(b[k]))
    && (forall k, e | k in b && e in b[k] :: Key(e.record) == k && e.name in m && m[e.name] == e.record)
    && (forall s | s in m :: Key(m[s]) in b && Entry(s, m[s]) in b[Key(m[s])])
  }

  class SectionIndex {
    var buckets: Buckets
    // The sections indexed, bucket order aside.
    ghost var contents: Index

    ghost predicate Valid()
      reads this
    {
      WellIndexed(buckets, contents)
    }

    function Bucket(key: string): seq<Entry>
      reads this
    {
      if key in buckets then buckets[key] else []
    }

    // newSectionIndex: the sections come in any order.
    constructor (sections: Index)
      ensures Valid() && contents == IndexOf(sections)
    {
      buckets := map[];
      contents := map[];
      new;
      hide Key, CanonicalName;
      var todo := sections.Keys;
      while todo != {}
        invariant Valid()
        invariant todo <= sections.Keys
        invariant contents == IndexOf(map s | s in sections && s !in todo :: sections[s])
        decreases todo
      {
        var s :| s in todo;
        todo := todo - {s};
        Add(sections[s], s, sections[s].owner);
      }
      assert sections == map s | s in sections && s !in todo :: sections[s];
    }

    method Owned(key: string, id: string) returns (names: seq<string>)
      requires Valid()
      ensures Distinct(names)
      ensures forall s :: s in names <==> s in OwnedSet(contents, key, id)
    {
      hide Key, CanonicalName;
      names := [];
      var bucket := Bucket(key);
      assert DistinctEntries(bucket);
      for i := 0 to |bucket|
        invariant Distinct(names)
        invariant forall s :: s in names <==>
          exists j | 0 <= j < i :: bucket[j].name == s && Manages(id, bucket[j].record)
      {
        if id != "" && bucket[i].record.owner != id {
          continue;
        }
        assert forall j | 0 <= j < i :: bucket[j].name != bucket[i].name;
        assert bucket[i].name !in names;
        names := names + [bucket[i].name];
      }
      forall s ensures s in names <==> s in OwnedSet(contents, key, id) {
        if s in OwnedSet(contents, key, id) {
          assert Entry(s, contents[s]) in bucket;
        }
      }
    }

    method FirstUnowned(key: string) returns (found: Option<string>)
      requires Valid()
      ensures found.Some? <==> UnownedSet(contents, key) != {}
      ensures found.Some? ==> found.value in UnownedSet(contents, key)
    {
      hide Key, CanonicalName;
      var bucket := Bucket(key);
      for i := 0 to |bucket|
        invariant forall j | 0 <= j < i :: bucket[j].record.owner != ""
      {
        if bucket[i].record.owner == "" {
          assert bucket[i] in buckets[key];
          assert bucket[i].name in UnownedSet(contents, key);
          return Some(bucket[i].name);
        }
      }
      assert forall e | e in bucket :: e.record.owner != "";
      assert forall s | s in contents && Key(contents[s]) == key :: Entry(s, contents[s]) in bucket;
      return None;
    }

    method Named(t: RecordType, rawName: string) returns (matches: seq<Entry>)
      requires Valid()
      ensures forall e :: e in matches <==>
        e.name in contents && contents[e.name] == e.record && e.record.rtype == t &&
        e.record.name == CanonicalName(rawName)
    {
      hide Key, CanonicalName;
      var name := CanonicalName(rawName);
      matches := [];
      var todo := buckets.Keys;
      while todo != {}
        invariant todo <= buckets.Keys
        invariant forall e :: e in matches <==>
          e.name in contents && contents[e.name] == e.record &&
          Key(e.record) !in todo && e.record.rtype == t && e.record.name == name
        decreases todo
      {
        var k :| k in todo;
        todo := todo - {k};
        var bucket := buckets[k];
        ghost var before := matches;
        for i := 0 to |bucket|
          invariant forall e :: e in matches <==>
            e in before || (e in bucket[..i] && e.record.rtype == t && e.record.name == name)
        {
          if bucket[i].record.rtype == t && bucket[i].record.name == name {
            matches := matches + [bucket[i]];
          }
        }
        assert bucket[..|bucket|] == bucket;
      }
    }

    // The names the CNAMEs of one alias lead on to, pushed on the work list.
    method Push(next: seq<string>, name: string) returns (more: seq<string>)
      requires Valid()
      ensures forall b :: b in more <==> b in next || Edge(contents, name, b)
    {
      hide Key, CanonicalName;
      more := next;
      var onward := Named(CNAME, name);
      for i := 0 to |onward|
        invariant forall b | b in more :: b in next || Edge(contents, name, b)
        invariant forall b | b in next :: b in more
        invariant forall j | 0 <= j < i :: onward[j].record.value in more
      {
        assert onward[i] in onward;
        more := more + [onward[i].record.value];
      }
      forall b | Edge(contents, name, b) ensures b in more {
        var s :| s in contents && contents[s].rtype.CNAME? && contents[s].name == CanonicalName(name) &&
            contents[s].value == b;
        assert Entry(s, contents[s]) in onward;
      }
    }

    /** closesCNAMELoop: exactly whether the indexed CNAMEs lead from target to
        alias, the two being the same included, whatever order buckets have. */
    method ClosesCnameLoop(rawAlias: string, target: string) returns (closes: bool)
      requires Valid()
      ensures closes == Reaches(contents, CanonicalName(target), CanonicalName(rawAlias))
    {
      hide Key, CanonicalName, Valid, Path, Edge;
      var alias := CanonicalName(rawAlias);
      var start := CanonicalName(target);
      var seen: set<string> := {};
      var next := [start];
      ghost var names := Meetable(contents, start);
      ReachSelf(contents, start);
      while |next| > 0
        invariant forall n | n in next :: n in names && Reaches(contents, start, n)
        invariant seen <= names && alias !in seen
        invariant start in seen || start in next
        invariant forall a, b | a in seen && Edge(contents, a, b) :: b in seen || b in next
        decreases names - seen, |next|
      {
        var name := next[|next| - 1];
        assert forall n | n in next :: n in next[..|next| - 1] || n == name;
        next := next[..|next| - 1];
        if name == alias {
          return true;
        }
        if name in seen {
          continue;
        }
        seen := seen + {name};
        forall b | Edge(contents, name, b) ensures b in names && Reaches(contents, start, b) {
          EdgeMeets(contents, start, name, b);
          ReachStep(contents, start, name, b);
        }
        next := Push(next, name);
      }
      if p :| PathBetween(contents, p, start, alias) {
        ClosedUnderEdges(contents, seen, p);
        assert false;
      }
      return false;
    }

    method Add(record: Record, section: string, id: string)
      requires Valid() && section !in contents
      modifies this
      ensures Valid()
      ensures contents == old(contents)[section := Canonical(record).(owner := id)]
    {
      hide Key, CanonicalName;
      var stored := Canonical(record).(owner := id);
      var key := Key(stored);
      AddKeeps(buckets, contents, section, stored);
      buckets := buckets[key := Bucket(key) + [Entry(section, stored)]];
      contents := contents[section := stored];
    }

    method MarkOwned(key: string, section: string, id: string)
      requires Valid()
      modifies this
      ensures Valid()
      ensures contents == if section in old(contents) && Key(old(contents)[section]) == key
                          then old(contents)[section := old(contents)[section].(owner := id)]
                          else old(contents)
    {
      hide Key, CanonicalName;
      var bucket := Bucket(key);
      for i := 0 to |bucket|
        invariant forall j | 0 <= j < i :: bucket[j].name != section
        invariant Valid() && buckets == old(buckets) && contents == old(contents)
      {
        if bucket[i].name == section {
          var marked := bucket[i].record.(owner := id);
          OwnerIsNoKey(bucket[i].record, id);
          MarkKeeps(buckets, contents, key, i, marked);
          buckets := buckets[key := bucket[i := Entry(section, marked)]];
          contents := contents[section := marked];
          return;
        }
      }
      assert forall e | e in bucket :: e.name != section;
    }

    method Drop(key: string, section: string)
      requires Valid()
      modifies this
      ensures Valid()
      ensures contents == if section in old(contents) && Key(old(contents)[section]) == key
                          then old(contents) - {section}
                          else old(contents)
    {
      hide Key, CanonicalName;
      var bucket := Bucket(key);
      for i := 0 to |bucket|
        invariant forall j | 0 <= j < i :: bucket[j].name != section
        invariant Valid() && buckets == old(buckets) && contents == old(contents)
      {
        if bucket[i].name == section {
          DropKeeps(buckets, contents, key, i);
          var kept := bucket[..i] + bucket[i + 1..];
          contents := contents - {section};
          if kept == [] {
            buckets := buckets - {key};
          } else {
            buckets := buckets[key := kept];
          }
          return;
        }
      }
      assert forall e | e in bucket :: e.name != section;
    }
  }

  // Every name a search from start can meet.
  ghost function Meetable(m: Index, start: string): set<string> {
    {start} + set s | s in m :: m[s].value
  }

  lemma EdgeMeets(m: Index, start: string, a: string, b: string)
    requires Edge(m, a, b)
    ensures b in Meetable(m, start)
  {
  }

  lemma AddKeeps(b: Buckets, m: Index, section: string, stored: Record)
    requires WellIndexed(b, m) && section !in m
    ensures var key := Key(stored);
      WellIndexed(b[key := (if key in b then b[key] else []) + [Entry(section, stored)]], m[section := stored])
  {
    hide Key;
    var key := Key(stored);
    var bucket := if key in b then b[key] else [];
    assert forall e | e in bucket :: e.name != section;
  }

  lemma MarkKeeps(b: Buckets, m: Index, key: string, i: nat, marked: Record)
    requires WellIndexed(b, m) && key in b && i < |b[key]| && Key(marked) == key
    ensures var s := b[key][i].name;
      && s in m && m[s] == b[key][i].record && Key(m[s]) == key
      && WellIndexed(b[key := b[key][i := Entry(s, marked)]], m[s := marked])
  {
    hide Key;
    assert b[key][i] in b[key];
    ReplacedEntries(b[key], i, marked);
  }

  lemma DropKeeps(b: Buckets, m: Index, key: string, i: nat)
    requires WellIndexed(b, m) && key in b && i < |b[key]|
    ensures var s := b[key][i].name; var kept := b[key][..i] + b[key][i + 1..];
      && s in m && Key(m[s]) == key
      && WellIndexed(if kept == [] then b - {key} else b[key := kept], m - {s})
  {
    hide Key;
    assert b[key][i] in b[key];
    var s, kept := b[key][i].name, b[key][..i] + b[key][i + 1..];
    var b': Buckets, m' := if kept == [] then b - {key} else b[key := kept], m - {s};
    KeptEntries(b[key], i);
    forall k, e: Entry | k in b' && e in b'[k] ensures Key(e.record) == k && e.name in m' && m'[e.name] == e.record {
      assert e in b[k];
    }
    forall t | t in m' ensures Key(m'[t]) in b' && Entry(t, m'[t]) in b'[Key(m'[t])] {
      assert Entry(t, m[t]) in b[Key(m[t])];
    }
  }

  lemma ReplacedEntries(bucket: seq<Entry>, i: nat, marked: Record)
    requires i < |bucket| && DistinctEntries(bucket)
    ensures var now := bucket[i := Entry(bucket[i].name, marked)];
      && DistinctEntries(now)
      && forall e :: e in now <==> e == Entry(bucket[i].name, marked) || (e in bucket && e.name != bucket[i].name)
  {
    var now := bucket[i := Entry(bucket[i].name, marked)];
    assert now[i] == Entry(bucket[i].name, marked);
    forall e | e in bucket && e.name != bucket[i].name ensures e in now {
      var j :| 0 <= j < |bucket| && bucket[j] == e;
      assert now[j] == e;
    }
  }

  lemma KeptEntries(bucket: seq<Entry>, i: nat)
    requires i < |bucket| && DistinctEntries(bucket)
    ensures DistinctEntries(bucket[..i] + bucket[i + 1..])
    ensures forall e :: e in bucket[..i] + bucket[i + 1..] <==> e in bucket && e.name != bucket[i].name
  {
  }
}
