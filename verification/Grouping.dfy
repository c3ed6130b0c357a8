/** Sections grouped back into endpoints (dnsRecords2Endpoints in
    internal/provider/provider.go). */
module Grouping {
  import opened Types
  import opened Uci
  import opened Order
  import opened Plan

  // The sections holding one target of one row.
  ghost function SectionsWith(m: Index, k: RecordKey, v: string): set<string> {
    set s | s in m && RowKey(m[s]) == k && m[s].value == v
  }

  ghost function CountOf(m: Index, k: RecordKey, v: string): nat {
    |SectionsWith(m, k, v)|
  }

  function RawKey(ep: Endpoint): RecordKey {
    RecordKey(ep.dnsName, ep.recordType)
  }

  function RawKeys(eps: seq<Endpoint>): seq<RecordKey> {
    seq(|eps|, i requires 0 <= i < |eps| => RawKey(eps[i]))
  }

  function Reported(k: RecordKey, targets: seq<string>): Endpoint {
    Endpoint(k.name, k.rtype, targets, "", DEFAULT_TTL, map[], [])
  }

  // The targets of one row, each as often as sections hold it.
  ghost predicate Collects(m: Index, k: RecordKey, targets: seq<string>) {
    targets != [] && forall v :: multiset(targets)[v] == CountOf(m, k, v)
  }

  /** eps are the sections of m: one endpoint per canonical name and type, in
      strict order, with every value as often as it is held, sorted. */
  ghost predicate Groups(m: Index, eps: seq<Endpoint>) {
    && Ascending(RawKeys(eps))
    && (forall ep <- eps ::
          ep == Reported(RawKey(ep), ep.targets) && Sorted(ep.targets, StrLe) && Collects(m, RawKey(ep), ep.targets))
    && (forall s | s in m :: exists ep <- eps :: RawKey(ep) == RowKey(m[s]))
  }

  predicate EndpointLe(a: Endpoint, b: Endpoint) {
    KeyLe(RawKey(a), RawKey(b))
  }

  lemma EndpointsPreorder()
    ensures Preorders(EndpointLe)
  {
    hide KeyLe;
    KeysOrder();
    forall a, b ensures EndpointLe(a, b) || EndpointLe(b, a) {
      assert KeyLe(RawKey(a), RawKey(b)) || KeyLe(RawKey(b), RawKey(a));
    }
    forall a, b, c | EndpointLe(a, b) && EndpointLe(b, c) ensures EndpointLe(a, c) {
      assert KeyLe(RawKey(a), RawKey(c));
    }
  }

  // What has been collected of the sections read so far.
  ghost predicate Partial(m: Index, done: set<string>, grouped: map<RecordKey, seq<string>>) {
    var part := map s | s in m && s in done :: m[s];
    && (forall k | k in grouped :: Collects(part, k, grouped[k]))
    && (forall s | s in part :: RowKey(part[s]) in grouped)
  }

  lemma CountMore(part: Index, s: string, r: Record, k: RecordKey, v: string)
    requires s !in part
    ensures CountOf(part[s := r], k, v) == CountOf(part, k, v) + if RowKey(r) == k && r.value == v then 1 else 0
  {
    hide RowKey;
    assert SectionsWith(part[s := r], k, v) ==
      if RowKey(r) == k && r.value == v then SectionsWith(part, k, v) + {s} else SectionsWith(part, k, v);
  }

  lemma CountNone(part: Index, k: RecordKey, v: string)
    requires forall s | s in part :: RowKey(part[s]) != k
    ensures CountOf(part, k, v) == 0
  {
  }

  lemma PartialNext(m: Index, done: set<string>, grouped: map<RecordKey, seq<string>>, s: string)
    requires s in m && s !in done && Partial(m, done, grouped)
    ensures var k := RowKey(m[s]);
      Partial(m, done + {s}, grouped[k := (if k in grouped then grouped[k] else []) + [m[s].value]])
  {
    hide RowKey, CountOf;
    var part := map t | t in m && t in done :: m[t];
    var more := map t | t in m && t in done + {s} :: m[t];
    var key := RowKey(m[s]);
    var had := if key in grouped then grouped[key] else [];
    assert more == part[s := m[s]];
    forall v ensures multiset(had)[v] == CountOf(part, key, v) {
      if key !in grouped { CountNone(part, key, v); }
    }
    forall k, v ensures CountOf(more, k, v) == CountOf(part, k, v) + if key == k && m[s].value == v then 1 else 0 {
      CountMore(part, s, m[s], k, v);
    }
  }

  method CollectTargets(m: Index) returns (grouped: map<RecordKey, seq<string>>)
    ensures forall k | k in grouped :: Collects(m, k, grouped[k])
    ensures forall s | s in m :: RowKey(m[s]) in grouped
  {
    hide RowKey, Collects;
    grouped := map[];
    var todo := m.Keys;
    while todo != {}
      invariant todo <= m.Keys
      invariant Partial(m, m.Keys - todo, grouped)
      decreases todo
    {
      var s :| s in todo;
      var k := RowKey(m[s]);
      PartialNext(m, m.Keys - todo, grouped, s);
      assert (m.Keys - todo) + {s} == m.Keys - (todo - {s});
      todo := todo - {s};
      grouped := grouped[k := (if k in grouped then grouped[k] else []) + [m[s].value]];
    }
    assert m == map s | s in m && s in m.Keys - todo :: m[s];
  }

  method RecordsToEndpoints(m: Index) returns (eps: seq<Endpoint>)
    ensures Groups(m, eps)
  {
    hide RowKey, Collects, Sorted;
    var grouped := CollectTargets(m);
    var found: seq<Endpoint> := [];
    var left := grouped.Keys;
    while left != {}
      invariant left <= grouped.Keys
      invariant forall ep <- found :: RawKey(ep) !in left && FromCollected(grouped, ep)
      invariant forall k | k in grouped.Keys - left :: Reported(k, SortedTargets(grouped[k])) in found
      invariant DistinctBy(found, RawKey)
      decreases left
    {
      var k :| k in left;
      left := left - {k};
      found := found + [Reported(k, SortedTargets(grouped[k]))];
    }
    eps := Sort(found, EndpointLe);
    SortedEndpoints(m, grouped, found);
  }

  // One endpoint, as its targets were collected.
  ghost predicate FromCollected(grouped: map<RecordKey, seq<string>>, ep: Endpoint) {
    RawKey(ep) in grouped && ep == Reported(RawKey(ep), SortedTargets(grouped[RawKey(ep)]))
  }

  lemma CollectedEndpoint(m: Index, grouped: map<RecordKey, seq<string>>, ep: Endpoint)
    requires FromCollected(grouped, ep) && Collects(m, RawKey(ep), grouped[RawKey(ep)])
    ensures ep == Reported(RawKey(ep), ep.targets) && Sorted(ep.targets, StrLe) && Collects(m, RawKey(ep), ep.targets)
  {
  }

  lemma SortedEndpoints(m: Index, grouped: map<RecordKey, seq<string>>, found: seq<Endpoint>)
    requires forall k | k in grouped :: Collects(m, k, grouped[k])
    requires forall s | s in m :: RowKey(m[s]) in grouped
    requires forall ep <- found :: FromCollected(grouped, ep)
    requires forall k | k in grouped :: Reported(k, SortedTargets(grouped[k])) in found
    requires DistinctBy(found, RawKey)
    ensures Groups(m, Sort(found, EndpointLe))
  {
    hide RowKey, StrLe, KeyLe, Sorted, CountOf, Ascending, Collects, FromCollected, EndpointLe;
    EndpointsPreorder();
    SortSorts(found, EndpointLe);
    var eps := Sort(found, EndpointLe);
    Rearranged(found, eps, RawKey);
    SortedKeysAscend(eps);
    forall ep | ep in eps
      ensures ep == Reported(RawKey(ep), ep.targets) && Sorted(ep.targets, StrLe) && Collects(m, RawKey(ep), ep.targets)
    {
      assert FromCollected(grouped, ep);
      CollectedHere(grouped, ep);
      CollectedEndpoint(m, grouped, ep);
    }
    forall s | s in m ensures exists ep <- eps :: RawKey(ep) == RowKey(m[s]) {
      var ep := Reported(RowKey(m[s]), SortedTargets(grouped[RowKey(m[s])]));
      assert ep in eps && RawKey(ep) == RowKey(m[s]);
    }
  }

  lemma CollectedHere(grouped: map<RecordKey, seq<string>>, ep: Endpoint)
    requires FromCollected(grouped, ep)
    ensures RawKey(ep) in grouped
  {
  }

  lemma SortedKeysAscend(eps: seq<Endpoint>)
    requires Sorted(eps, EndpointLe) && DistinctBy(eps, RawKey)
    ensures Ascending(RawKeys(eps))
  {
  }

  /** Whatever order the map of sections is read in, the endpoints are the same. */
  lemma GroupsUnique(m: Index, xs: seq<Endpoint>, ys: seq<Endpoint>)
    requires Groups(m, xs) && Groups(m, ys)
    ensures xs == ys
  {
    hide RowKey, KeyLt, StrLe, Sorted, Ascending, CountOf;
    forall k ensures k in RawKeys(xs) <==> k in RawKeys(ys) {
      GroupedKey(m, xs, k);
      GroupedKey(m, ys, k);
    }
    AscendingUnique(RawKeys(xs), RawKeys(ys));
    forall i | 0 <= i < |xs| ensures xs[i] == ys[i] {
      assert RawKeys(xs)[i] == RawKeys(ys)[i];
      assert xs[i] in xs && ys[i] in ys;
      assert multiset(xs[i].targets) == multiset(ys[i].targets);
      SortedTargetsUnique(xs[i].targets, ys[i].targets);
      SortedTargetsUnique(ys[i].targets, ys[i].targets);
    }
    assert |xs| == |RawKeys(xs)| == |ys|;
  }

  lemma GroupedKey(m: Index, eps: seq<Endpoint>, k: RecordKey)
    requires Groups(m, eps)
    ensures k in RawKeys(eps) <==> exists s | s in m :: RowKey(m[s]) == k
  {
    hide RowKey, StrLe, KeyLt, Ascending, Sorted;
    if k in RawKeys(eps) {
      var i :| 0 <= i < |eps| && RawKeys(eps)[i] == k;
      var ep := eps[i];
      assert ep in eps && ep.targets[0] in multiset(ep.targets);
      assert |SectionsWith(m, k, ep.targets[0])| > 0;
      var s :| s in SectionsWith(m, k, ep.targets[0]);
    }
    if s :| s in m && RowKey(m[s]) == k {
      var ep :| ep in eps && RawKey(ep) == k;
      var i :| 0 <= i < |eps| && eps[i] == ep;
      assert RawKeys(eps)[i] == k;
    }
  }

  // ---------- and back ----------

  ghost function Listing(t: RecordType, k: string, v: string): Record {
    Record(t, k, v, "")
  }

  lemma {:induction false} TargetCount(ep: Endpoint, t: RecordType, n: string, v: string, len: nat)
    requires ReadType(ep.recordType).Some? && len <= |ep.targets|
    ensures multiset(RecordsOf(ep)[..len])[Listing(t, n, v)] ==
            if RawKey(ep) == RecordKey(n, TypeName(t)) then multiset(ep.targets[..len])[v] else 0
  {
    if len > 0 {
      TargetCount(ep, t, n, v, len - 1);
      assert RecordsOf(ep)[..len] == RecordsOf(ep)[..len - 1] + [RecordsOf(ep)[len - 1]];
      assert ep.targets[..len] == ep.targets[..len - 1] + [ep.targets[len - 1]];
    }
  }

  // What flattening needs of the endpoints: known types, no key twice, and
  // each target as often as it is held.
  ghost predicate Counted(m: Index, eps: seq<Endpoint>) {
    && (forall ep <- eps :: ReadType(ep.recordType).Some? && Collects(m, RawKey(ep), ep.targets))
    && (forall i, j | 0 <= i < j < |eps| :: RawKey(eps[i]) != RawKey(eps[j]))
  }

  lemma GroupsCounted(m: Index, eps: seq<Endpoint>)
    requires Groups(m, eps)
    ensures Counted(m, eps)
  {
    hide StrLe, KeyLt, KeyLe, CountOf, RowKey;
    AscendingSorted(RawKeys(eps));
    forall i, j | 0 <= i < j < |eps| ensures RawKey(eps[i]) != RawKey(eps[j]) {
      assert RawKeys(eps)[i] != RawKeys(eps)[j];
    }
    forall ep | ep in eps ensures ReadType(ep.recordType).Some? {
      var i :| 0 <= i < |eps| && eps[i] == ep;
      GroupedTypes(m, eps, i);
    }
  }

  lemma {:induction false} FlattenCount(m: Index, eps: seq<Endpoint>, t: RecordType, n: string, v: string)
    requires Counted(m, eps)
    ensures multiset(Flatten(eps))[Listing(t, n, v)] ==
            if RecordKey(n, TypeName(t)) in RawKeys(eps) then CountOf(m, RecordKey(n, TypeName(t)), v) else 0
  {
    hide RowKey, RecordsOf, CountOf, ReadType;
    if eps != [] {
      var front, ep, k := eps[..|eps| - 1], eps[|eps| - 1], RecordKey(n, TypeName(t));
      assert forall e <- front :: e in eps;
      FlattenCount(m, front, t, n, v);
      assert RawKeys(eps) == RawKeys(front) + [RawKey(ep)];
      assert ep in eps;
      TargetCount(ep, t, n, v, |ep.targets|);
      RecordsWhole(ep);
      assert forall i | 0 <= i < |front| :: RawKeys(front)[i] != RawKey(ep);
    }
  }

  lemma RecordsWhole(ep: Endpoint)
    requires ReadType(ep.recordType).Some?
    ensures RecordsOf(ep)[..|ep.targets|] == RecordsOf(ep) && ep.targets[..|ep.targets|] == ep.targets
  {
  }

  lemma GroupedTypes(m: Index, eps: seq<Endpoint>, i: nat)
    requires Groups(m, eps) && i < |eps|
    ensures ReadType(eps[i].recordType).Some?
  {
    hide StrLe, KeyLt, CanonicalName;
    assert RawKeys(eps)[i] == RawKey(eps[i]);
    GroupedKey(m, eps, RawKey(eps[i]));
    var s :| s in m && RowKey(m[s]) == RawKey(eps[i]);
  }

  lemma RowSections(m: Index, t: RecordType, n: string, v: string)
    ensures SectionsWith(m, RecordKey(n, TypeName(t)), v) ==
      set s | s in m && m[s].rtype == t && CanonicalName(m[s].name) == n && m[s].value == v
  {
  }

  /** Flattening what sections were grouped into gives back every record, by
      its canonical name, as often as sections hold it. */
  lemma GroupingRoundTrip(m: Index, eps: seq<Endpoint>, t: RecordType, n: string, v: string)
    requires Groups(m, eps)
    ensures multiset(Flatten(eps))[Listing(t, n, v)] ==
      |set s | s in m && m[s].rtype == t && CanonicalName(m[s].name) == n && m[s].value == v|
  {
    hide StrLe, KeyLt, CanonicalName, Flatten, RowKey, Sorted, Ascending, Counted;
    GroupsCounted(m, eps);
    FlattenCount(m, eps, t, n, v);
    var k := RecordKey(n, TypeName(t));
    RowSections(m, t, n, v);
    GroupedKey(m, eps, k);
    if k !in RawKeys(eps) { CountNone(m, k, v); }
  }
}
