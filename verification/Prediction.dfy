/** What the tracker expects the router to hold after a change set is what
    reading the router again would group (internal/provider/status.go against
    Records and ApplyChanges in internal/provider/provider.go). */
module Prediction {
  import opened Types
  import opened Uci
  import opened IndexTable
  import opened Reconcile
  import opened Plain
  import opened Order
  import opened Plan
  import opened Grouping
  import opened Tracking

  // ---------- records the key tells ----------

  ghost predicate PlainRecord(q: Record) {
    Canonical(q) == q && '|' !in q.name && q.owner == ""
  }

  lemma PlainKey(r: Record, q: Record)
    requires PlainRecord(q) && PipeFree(r)
    ensures Key(r) == Key(q) <==> Canonical(r).(owner := "") == q
  {
    KeyInjective(r, q);
  }

  // The sections a key owns are the managed ones with its type, name and value.
  lemma OwnedIsRow(site: Site, c: Config, q: Record)
    requires PlainRecord(q) && PlainIndex(Sections(site, c))
    ensures OwnedSet(Reading(site, c), Key(q), site.id) == SectionsWith(Managed(site, c), RowKey(q), q.value)
  {
    var all, m := Sections(site, c), Managed(site, c);
    hide Parse, Sections;
    assert Reading(site, c) == all;
    forall s | s in all ensures Key(all[s]) == Key(q) <==> RowKey(all[s]) == RowKey(q) && all[s].value == q.value {
      PlainKey(all[s], q);
      hide CanonicalName, Key;
      assert all[s].rtype == q.rtype <==> TypeName(all[s].rtype) == TypeName(q.rtype);
    }
    hide CanonicalName, Key, RowKey;
  }

  // ---------- flattened plans, key by key ----------

  // A name whose key tells it, and targets that are canonical once
  // canonicalised.
  ghost predicate PlainEndpoint(ep: Endpoint) {
    && CanonicalName(CanonicalName(ep.dnsName)) == CanonicalName(ep.dnsName)
    && '|' !in CanonicalName(ep.dnsName)
    && (ReadType(ep.recordType) == Some(CNAME) ==>
          forall t <- ep.targets :: CanonicalName(CanonicalName(t)) == CanonicalName(t))
  }

  // The values an endpoint's records are written with.
  function Values(ep: Endpoint): seq<string> {
    seq(|RecordsOf(ep)|, i requires 0 <= i < |RecordsOf(ep)| => Canonical(RecordsOf(ep)[i]).value)
  }

  lemma PlainRecordsOf(ep: Endpoint)
    requires PlainEndpoint(ep)
    ensures forall r <- RecordsOf(ep) :: Stable(r) && PipeFree(r) && RowKey(r) == EndpointKey(ep)
  {
  }

  // How often a row lists a target.
  ghost function RowCount(eps: seq<Endpoint>, k: RecordKey, v: string): nat {
    if eps == [] then 0
    else RowCount(eps[..|eps| - 1], k, v) +
         if EndpointKey(eps[|eps| - 1]) == k then multiset(Values(eps[|eps| - 1]))[v] else 0
  }

  // A plain record has the key of an endpoint's record when it is in the
  // endpoint's row, with the value written.
  lemma TargetKey(ep: Endpoint, q: Record, r: Record)
    requires PlainEndpoint(ep) && PlainRecord(q) && r in RecordsOf(ep)
    ensures Key(r) == Key(q) <==> EndpointKey(ep) == RowKey(q) && Canonical(r).value == q.value
  {
    PlainRecordsOf(ep);
    PlainKey(r, q);
    hide Key, CanonicalName, PlainEndpoint;
    assert r.rtype == q.rtype <==> TypeName(r.rtype) == TypeName(q.rtype);
  }

  lemma {:induction false} TargetKeyCount(ep: Endpoint, q: Record, len: nat)
    requires PlainEndpoint(ep) && PlainRecord(q) && len <= |RecordsOf(ep)|
    ensures CountKey(RecordsOf(ep)[..len], Key(q)) ==
            if EndpointKey(ep) == RowKey(q) then multiset(Values(ep)[..len])[q.value] else 0
  {
    hide Key, Canonical, RowKey, EndpointKey, PlainRecord, PlainEndpoint, RecordsOf;
    if len > 0 {
      TargetKeyCount(ep, q, len - 1);
      var r := RecordsOf(ep)[len - 1];
      assert r in RecordsOf(ep);
      TargetKey(ep, q, r);
      assert RecordsOf(ep)[..len][..len - 1] == RecordsOf(ep)[..len - 1];
      assert Values(ep)[..len] == Values(ep)[..len - 1] + [Canonical(r).value];
    }
  }

  lemma {:induction false} CountConcat(xs: seq<Record>, ys: seq<Record>, key: string)
    ensures CountKey(xs + ys, key) == CountKey(xs, key) + CountKey(ys, key)
  {
    hide Key;
    if ys == [] {
      assert xs + ys == xs;
    } else {
      var n := |ys| - 1;
      CountConcat(xs, ys[..n], key);
      assert (xs + ys)[..|xs + ys| - 1] == xs + ys[..n];
    }
  }

  lemma {:induction false} FlattenKeyCount(eps: seq<Endpoint>, q: Record)
    requires PlainRecord(q) && forall ep <- eps :: PlainEndpoint(ep)
    ensures CountKey(Flatten(eps), Key(q)) == RowCount(eps, RowKey(q), q.value)
  {
    hide Key, RecordsOf, EndpointKey, RowKey, PlainEndpoint, PlainRecord;
    if eps != [] {
      var front, ep := eps[..|eps| - 1], eps[|eps| - 1];
      assert ep in eps;
      FlattenKeyCount(front, q);
      CountConcat(Flatten(front), RecordsOf(ep), Key(q));
      TargetKeyCount(ep, q, |RecordsOf(ep)|);
      assert RecordsOf(ep)[..|RecordsOf(ep)|] == RecordsOf(ep) && Values(ep)[..|RecordsOf(ep)|] == Values(ep);
    }
  }

  lemma {:induction false} RowCountAbsent(eps: seq<Endpoint>, k: RecordKey, v: string)
    requires k !in KeySet(eps)
    ensures RowCount(eps, k, v) == 0
  {
    hide EndpointKey;
    if eps != [] {
      assert eps[|eps| - 1] in eps;
      RowCountAbsent(eps[..|eps| - 1], k, v);
    }
  }

  lemma {:induction false} RowCountOnly(eps: seq<Endpoint>, ep: Endpoint, v: string)
    requires DistinctBy(eps, EndpointKey) && ep in eps
    ensures RowCount(eps, EndpointKey(ep), v) == multiset(Values(ep))[v]
  {
    hide EndpointKey, Values;
    var n := |eps| - 1;
    if eps[n] == ep {
      assert EndpointKey(ep) !in KeySet(eps[..n]);
      RowCountAbsent(eps[..n], EndpointKey(ep), v);
    } else {
      var i :| 0 <= i < n && eps[i] == ep;
      assert EndpointKey(eps[i]) != EndpointKey(eps[n]);
      RowCountOnly(eps[..n], ep, v);
    }
  }

  // ---------- what the router holds, as the tracker keeps it ----------

  /** actual lists the rows of m, each target as often as held, sorted. */
  ghost predicate ReadBack(m: Index, actual: Targets) {
    && (forall k | k in actual :: Sorted(actual[k], StrLe) && Collects(m, k, actual[k]))
    && (forall s | s in m :: RowKey(m[s]) in actual)
  }

  ghost function CountIn(actual: Targets, k: RecordKey, v: string): nat {
    if k in actual then multiset(actual[k])[v] else 0
  }

  lemma ReadBackCounts(m: Index, actual: Targets, k: RecordKey, v: string)
    requires ReadBack(m, actual)
    ensures CountIn(actual, k, v) == CountOf(m, k, v)
  {
  }

  // Listing rows in order with the right counts is listing them as read.
  lemma CountsReadBack(m: Index, actual: Targets)
    requires forall k | k in actual :: Sorted(actual[k], StrLe) && actual[k] != []
    requires forall k, v :: CountIn(actual, k, v) == CountOf(m, k, v)
    ensures ReadBack(m, actual)
  {
    hide RowKey, Sorted;
    forall s | s in m ensures RowKey(m[s]) in actual {
      assert s in SectionsWith(m, RowKey(m[s]), m[s].value);
      assert CountIn(actual, RowKey(m[s]), m[s].value) > 0;
    }
    forall k | k in actual ensures Collects(m, k, actual[k]) {
      forall v ensures multiset(actual[k])[v] == CountOf(m, k, v) {
        assert CountIn(actual, k, v) == CountOf(m, k, v);
      }
    }
  }

  /** There is one way to list them. */
  lemma ReadBackUnique(m: Index, a: Targets, b: Targets)
    requires ReadBack(m, a) && ReadBack(m, b)
    ensures a == b
  {
    hide RowKey, Sorted, StrLe, CountOf;
    forall k | k in a || k in b ensures k in a && k in b && a[k] == b[k] {
      forall v ensures CountIn(a, k, v) == CountIn(b, k, v) {
        ReadBackCounts(m, a, k, v);
        ReadBackCounts(m, b, k, v);
      }
      var t := if k in a then a[k][0] else b[k][0];
      assert CountIn(a, k, t) > 0 || CountIn(b, k, t) > 0;
      assert k in a && k in b;
      forall v ensures multiset(a[k])[v] == multiset(b[k])[v] {
        assert CountIn(a, k, v) == CountIn(b, k, v);
      }
      assert multiset(a[k]) == multiset(b[k]);
      SortedTargetsUnique(a[k], a[k]);
      SortedTargetsUnique(b[k], a[k]);
    }
  }

  lemma {:induction false} GroupedLookup(eps: seq<Endpoint>, ep: Endpoint)
    requires DistinctBy(eps, EndpointKey)
    ensures TargetsByKey(eps).Keys == KeySet(eps)
    ensures ep in eps ==> TargetsByKey(eps)[EndpointKey(ep)] == SortedTargets(ep.targets)
  {
    hide EndpointKey;
    if eps != [] {
      var n := |eps| - 1;
      GroupedLookup(eps[..n], ep);
      assert KeySet(eps) == KeySet(eps[..n]) + {EndpointKey(eps[n])} by {
        KeySetNext(eps, n);
        assert eps[..n + 1] == eps;
      }
      if ep in eps && ep != eps[n] {
        var i :| 0 <= i < n && eps[i] == ep;
        assert EndpointKey(eps[i]) != EndpointKey(eps[n]);
      }
    }
  }

  // The name of every row is canonical, so that canonicalising it once more,
  // as the tracker does, leaves it.
  ghost predicate RowsCanonical(m: Index) {
    forall s | s in m :: CanonicalName(RowKey(m[s]).name) == RowKey(m[s]).name
  }

  lemma RawKeyedAll(m: Index, eps: seq<Endpoint>)
    requires Groups(m, eps) && RowsCanonical(m)
    ensures DistinctBy(eps, EndpointKey) && forall ep <- eps :: EndpointKey(ep) == RawKey(ep)
  {
    hide StrLe, KeyLt, KeyLe, CountOf, Ascending, Sorted, CanonicalName, EndpointKey, RowKey, RowsCanonical;
    GroupsCounted(m, eps);
    forall ep | ep in eps ensures EndpointKey(ep) == RawKey(ep) {
      RawKeyed(m, eps, ep);
    }
    forall i, j | 0 <= i < j < |eps| ensures EndpointKey(eps[i]) != EndpointKey(eps[j]) {
      assert eps[i] in eps && eps[j] in eps;
    }
  }

  // What the tracker makes of the endpoints Records() returned.
  lemma ObservedIsReadBack(m: Index, eps: seq<Endpoint>)
    requires Groups(m, eps) && RowsCanonical(m)
    ensures ReadBack(m, TargetsByKey(eps))
  {
    hide StrLe, KeyLt, KeyLe, CountOf, Ascending, Sorted, EndpointKey, RowKey, RowsCanonical, DistinctBy,
         TargetsByKey;
    RawKeyedAll(m, eps);
    forall k | k in TargetsByKey(eps)
      ensures Sorted(TargetsByKey(eps)[k], StrLe) && Collects(m, k, TargetsByKey(eps)[k])
    {
      KeyedBy(eps, k);
      var ep :| ep in eps && EndpointKey(ep) == k;
      GroupedLookup(eps, ep);
      assert |SortedTargets(ep.targets)| == |ep.targets|;
    }
    forall s | s in m ensures RowKey(m[s]) in TargetsByKey(eps) {
      var ep :| ep in eps && RawKey(ep) == RowKey(m[s]);
      GroupedLookup(eps, ep);
    }
  }

  // A row whose name is not canonical is looked up under the canonical name of
  // a longer one, which is not canonical either.
  lemma LongerRow(m: Index, eps: seq<Endpoint>, s: string) returns (t: string)
    requires Groups(m, eps) && ReadBack(m, TargetsByKey(eps)) && s in m
    requires CanonicalName(RowKey(m[s]).name) != RowKey(m[s]).name
    ensures t in m && CanonicalName(RowKey(m[t]).name) != RowKey(m[t]).name
    ensures |RowKey(m[s]).name| < |RowKey(m[t]).name|
  {
    hide StrLe, KeyLt, KeyLe, CountOf, Ascending, Sorted, CanonicalName, TargetsByKey;
    var k := RowKey(m[s]);
    KeyedBy(eps, k);
    var ep :| ep in eps && EndpointKey(ep) == k;
    var i :| 0 <= i < |eps| && eps[i] == ep;
    assert RawKeys(eps)[i] == RawKey(ep);
    GroupedKey(m, eps, RawKey(ep));
    t :| t in m && RowKey(m[t]) == RawKey(ep);
    CanonicalIsLower(m[t].name);
    CanonicalShrinks(RowKey(m[t]).name);
  }

  lemma {:induction false} NoLongestRow(m: Index, eps: seq<Endpoint>, s: string, len: nat)
    requires Groups(m, eps) && ReadBack(m, TargetsByKey(eps)) && s in m
    requires forall t | t in m :: |RowKey(m[t]).name| <= len
    ensures CanonicalName(RowKey(m[s]).name) == RowKey(m[s]).name
    decreases len - |RowKey(m[s]).name|
  {
    hide Groups, ReadBack, CanonicalName, RowKey;
    if CanonicalName(RowKey(m[s]).name) != RowKey(m[s]).name {
      var t := LongerRow(m, eps, s);
      NoLongestRow(m, eps, t, len);
    }
  }

  /** What the tracker makes of the endpoints Records() returned is what the
      router holds exactly when every row's name is canonical. */
  lemma ObservedExactly(m: Index, eps: seq<Endpoint>)
    requires Groups(m, eps)
    ensures ReadBack(m, TargetsByKey(eps)) <==> RowsCanonical(m)
  {
    hide Groups, ReadBack, RowKey, CanonicalName, TargetsByKey;
    if RowsCanonical(m) { ObservedIsReadBack(m, eps); }
    if ReadBack(m, TargetsByKey(eps)) {
      var len := Longest(set s | s in m :: RowKey(m[s]).name);
      forall s | s in m ensures CanonicalName(RowKey(m[s]).name) == RowKey(m[s]).name {
        NoLongestRow(m, eps, s, len);
      }
    }
  }

  lemma {:induction false} KeyedBy(eps: seq<Endpoint>, k: RecordKey)
    requires k in TargetsByKey(eps)
    ensures exists ep <- eps :: EndpointKey(ep) == k
  {
    hide EndpointKey;
    var n := |eps| - 1;
    if EndpointKey(eps[n]) == k {
      assert eps[n] in eps;
    } else {
      KeyedBy(eps[..n], k);
    }
  }

  lemma RawKeyed(m: Index, eps: seq<Endpoint>, ep: Endpoint)
    requires Groups(m, eps) && RowsCanonical(m) && ep in eps
    ensures EndpointKey(ep) == RawKey(ep)
  {
    hide StrLe, KeyLt, CountOf, Ascending, Sorted, CanonicalName;
    var i :| 0 <= i < |eps| && eps[i] == ep;
    assert RawKeys(eps)[i] == RawKey(ep);
    GroupedKey(m, eps, RawKey(ep));
    var s :| s in m && RowKey(m[s]) == RawKey(ep);
  }
}
