/** Plans into records and sections into endpoints (endpoints2DNSRecords,
    cancelOut and dnsRecords2Endpoints in internal/provider/provider.go). */
module Plan {
  import opened Types
  import opened Order

  datatype Endpoint = Endpoint(
    dnsName: string,
    recordType: string,
    targets: seq<string>,
    setIdentifier: string,
    ttl: int,
    labels: map<string, string>,
    providerSpecific: seq<(string, string)>)

  const DEFAULT_TTL := 300

  function ReadType(s: string): Option<RecordType> {
    if s == "A" then Some(A) else if s == "CNAME" then Some(CNAME) else None
  }

  function KeyOf(name: string, recordType: string): RecordKey {
    RecordKey(CanonicalName(name), recordType)
  }

  function EndpointKey(ep: Endpoint): RecordKey {
    KeyOf(ep.dnsName, ep.recordType)
  }

  function RowKey(r: Record): RecordKey {
    KeyOf(r.name, TypeName(r.rtype))
  }

  // ---------- flattening ----------

  function RecordsOf(ep: Endpoint): seq<Record> {
    var t := ReadType(ep.recordType);
    if t.None? then []
    else seq(|ep.targets|, i requires 0 <= i < |ep.targets| => Record(t.value, ep.dnsName, ep.targets[i], ""))
  }

  function Flatten(eps: seq<Endpoint>): seq<Record> {
    if eps == [] then [] else Flatten(eps[..|eps| - 1]) + RecordsOf(eps[|eps| - 1])
  }

  method EndpointsToRecords(eps: seq<Endpoint>) returns (records: seq<Record>)
    ensures records == Flatten(eps)
  {
    records := [];
    for i := 0 to |eps|
      invariant records == Flatten(eps[..i])
    {
      var ep := eps[i];
      assert eps[..i + 1][..i] == eps[..i];
      if |ep.targets| == 0 {
        assert RecordsOf(ep) == [];
        continue;
      }
      if ep.recordType != "A" && ep.recordType != "CNAME" {
        continue;
      }
      var t := if ep.recordType == "A" then A else CNAME;
      ghost var before := records;
      for j := 0 to |ep.targets|
        invariant records == before + RecordsOf(ep)[..j]
      {
        records := records + [Record(t, ep.dnsName, ep.targets[j], "")];
      }
      assert RecordsOf(ep)[..|ep.targets|] == RecordsOf(ep);
    }
    assert eps[..|eps|] == eps;
  }

  // How many records the first i endpoints come to.
  function Offset(eps: seq<Endpoint>, i: nat): nat
    requires i <= |eps|
  {
    if i == 0 then 0
    else Offset(eps, i - 1) +
         if eps[i - 1].recordType == "A" || eps[i - 1].recordType == "CNAME" then |eps[i - 1].targets| else 0
  }

  lemma {:induction false} OffsetFront(eps: seq<Endpoint>, i: nat)
    requires i < |eps|
    ensures Offset(eps[..|eps| - 1], i) == Offset(eps, i)
  {
    if i > 0 { OffsetFront(eps, i - 1); }
  }

  // The record of one target.
  function TargetRecord(ep: Endpoint, v: string): Record {
    Record(if ep.recordType == "A" then A else CNAME, ep.dnsName, v, "")
  }

  lemma RecordAt(ep: Endpoint, k: nat)
    requires k < |ep.targets| && (ep.recordType == "A" || ep.recordType == "CNAME")
    ensures |RecordsOf(ep)| == |ep.targets| && RecordsOf(ep)[k] == TargetRecord(ep, ep.targets[k])
  {
  }

  /** Flattening gives one record per target, endpoint by endpoint in order, */
  lemma {:induction false} FlattenAt(eps: seq<Endpoint>, i: nat, k: nat)
    requires i < |eps| && k < |eps[i].targets| && (eps[i].recordType == "A" || eps[i].recordType == "CNAME")
    ensures Offset(eps, i) + k < |Flatten(eps)|
    ensures Flatten(eps)[Offset(eps, i) + k] == TargetRecord(eps[i], eps[i].targets[k])
  {
    var n := |eps| - 1;
    OffsetFront(eps, i);
    if i < n {
      hide RecordsOf, Offset, TargetRecord;
      FlattenAt(eps[..n], i, k);
    } else {
      hide RecordsOf, Offset, TargetRecord;
      RecordAt(eps[n], k);
      FlattenLength(eps[..n]);
    }
  }

  /** and no other. */
  lemma {:induction false} FlattenLength(eps: seq<Endpoint>)
    ensures |Flatten(eps)| == Offset(eps, |eps|)
  {
    if eps != [] {
      FlattenLength(eps[..|eps| - 1]);
      OffsetFront(eps, |eps| - 1);
    }
  }

  // ---------- cancelling ----------

  function CountKey(records: seq<Record>, key: string): nat {
    if records == [] then 0
    else CountKey(records[..|records| - 1], key) + if Key(records[|records| - 1]) == key then 1 else 0
  }

  // The records of a list whose key the two plans do not hold equally often.
  function Unbalanced(records: seq<Record>, remove: seq<Record>, add: seq<Record>): seq<Record> {
    if records == [] then []
    else
      var r := records[|records| - 1];
      var kept := Unbalanced(records[..|records| - 1], remove, add);
      if CountKey(remove, Key(r)) != CountKey(add, Key(r)) then kept + [r] else kept
  }

  lemma {:induction false} CountPositive(records: seq<Record>, key: string)
    ensures CountKey(records, key) > 0 <==> exists r <- records :: Key(r) == key
  {
    hide Key;
    if records != [] {
      var n := |records| - 1;
      CountPositive(records[..n], key);
      assert records == records[..n] + [records[n]];
      if r :| r in records && Key(r) == key {
        assert r in records[..n] || r == records[n];
      }
    }
  }

  method CancelOut(remove: seq<Record>, add: seq<Record>) returns (keptRemove: seq<Record>, keptAdd: seq<Record>)
    ensures keptRemove == Unbalanced(remove, remove, add)
    ensures keptAdd == Unbalanced(add, remove, add)
  {
    hide Key;
    var balance: map<string, int> := map[];
    for i := 0 to |remove|
      invariant forall k :: At(balance, k) == CountKey(remove[..i], k)
      invariant forall k :: k in balance <==> exists r <- remove[..i] :: Key(r) == k
    {
      assert remove[..i + 1][..i] == remove[..i];
      assert remove[..i + 1] == remove[..i] + [remove[i]];
      balance := balance[Key(remove[i]) := At(balance, Key(remove[i])) + 1];
    }
    assert remove[..|remove|] == remove;
    for i := 0 to |add|
      invariant forall k :: At(balance, k) == CountKey(remove, k) - CountKey(add[..i], k)
    {
      assert add[..i + 1][..i] == add[..i];
      balance := balance[Key(add[i]) := At(balance, Key(add[i])) - 1];
    }
    assert add[..|add|] == add;
    keptRemove := KeepUnbalanced(remove, balance, remove, add);
    keptAdd := KeepUnbalanced(add, balance, remove, add);
  }

  // A map entry that was never counted is zero.
  function At(balance: map<string, int>, key: string): int {
    if key in balance then balance[key] else 0
  }

  method KeepUnbalanced(records: seq<Record>, balance: map<string, int>, ghost remove: seq<Record>,
      ghost add: seq<Record>)
    returns (kept: seq<Record>)
    requires forall k :: At(balance, k) == CountKey(remove, k) - CountKey(add, k)
    ensures kept == Unbalanced(records, remove, add)
  {
    hide Key;
    kept := [];
    for i := 0 to |records|
      invariant kept == Unbalanced(records[..i], remove, add)
    {
      assert records[..i + 1][..i] == records[..i];
      if At(balance, Key(records[i])) != 0 {
        kept := kept + [records[i]];
      }
    }
    assert records[..|records|] == records;
  }

  lemma {:induction false} UnbalancedCount(records: seq<Record>, remove: seq<Record>, add: seq<Record>, key: string)
    ensures CountKey(Unbalanced(records, remove, add), key) ==
            if CountKey(remove, key) == CountKey(add, key) then 0 else CountKey(records, key)
  {
    hide Key;
    if records != [] {
      UnbalancedCount(records[..|records| - 1], remove, add, key);
      var kept := Unbalanced(records[..|records| - 1], remove, add);
      assert (kept + [records[|records| - 1]])[..|kept|] == kept;
    }
  }

  // ks picks, in order, the elements of xs that make up ys.
  ghost predicate PicksOut<T>(xs: seq<T>, ks: seq<nat>, ys: seq<T>) {
    && |ks| == |ys|
    && (forall i | 0 <= i < |ks| :: ks[i] < |xs| && xs[ks[i]] == ys[i])
    && (forall i, j | 0 <= i < j < |ks| :: ks[i] < ks[j])
  }

  lemma {:induction false} UnbalancedOrder(records: seq<Record>, remove: seq<Record>, add: seq<Record>)
      returns (ks: seq<nat>)
    ensures PicksOut(records, ks, Unbalanced(records, remove, add))
  {
    hide Key;
    if records == [] {
      ks := [];
    } else {
      var n := |records| - 1;
      ks := UnbalancedOrder(records[..n], remove, add);
      if CountKey(remove, Key(records[n])) != CountKey(add, Key(records[n])) {
        ks := ks + [n];
      }
    }
  }

  /** Cancelling keeps, per key, the difference between the two lists; and
      where neither list repeats a key, no key is left in both. */
  lemma CancelKeepsDifference(remove: seq<Record>, add: seq<Record>, key: string)
    ensures var r, a := Unbalanced(remove, remove, add), Unbalanced(add, remove, add);
      && CountKey(r, key) - CountKey(a, key) == CountKey(remove, key) - CountKey(add, key)
      && (CountKey(remove, key) <= 1 && CountKey(add, key) <= 1 ==> CountKey(r, key) == 0 || CountKey(a, key) == 0)
  {
    hide Key;
    UnbalancedCount(remove, remove, add, key);
    UnbalancedCount(add, remove, add, key);
  }

  ghost predicate KeyPermutation(xs: seq<Record>, ys: seq<Record>) {
    forall k :: CountKey(xs, k) == CountKey(ys, k)
  }

  /** It empties both lists exactly when each is a permutation of the other's keys. */
  lemma CancelEmpties(remove: seq<Record>, add: seq<Record>)
    ensures Unbalanced(remove, remove, add) == [] && Unbalanced(add, remove, add) == [] <==> KeyPermutation(remove, add)
  {
    hide Key;
    if KeyPermutation(remove, add) {
      AllBalanced(remove, remove, add);
      AllBalanced(add, remove, add);
    }
    if Unbalanced(remove, remove, add) == [] && Unbalanced(add, remove, add) == [] {
      forall k ensures CountKey(remove, k) == CountKey(add, k) {
        UnbalancedCount(remove, remove, add, k);
        UnbalancedCount(add, remove, add, k);
      }
    }
  }

  lemma {:induction false} AllBalanced(records: seq<Record>, remove: seq<Record>, add: seq<Record>)
    requires KeyPermutation(remove, add)
    ensures Unbalanced(records, remove, add) == []
  {
    hide Key;
    if records != [] { AllBalanced(records[..|records| - 1], remove, add); }
  }
}
