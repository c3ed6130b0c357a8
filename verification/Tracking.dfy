/** The record status tracker (internal/provider/status.go). */
module Tracking {
  import opened Types
  import opened Order
  import opened Plan
  import opened Adjusting
  import Reconcile

  datatype Status = Ready | Pending | Conflict | Error | Rejected | Orphan

  // One row of the mirror.
  datatype Row = Row(dnsName: string, recordType: string, targets: seq<string>, state: Status, reason: string)

  datatype Changes = Changes(
    create: seq<Endpoint>, updateOld: seq<Endpoint>, updateNew: seq<Endpoint>, delete: seq<Endpoint>)
  {
    function Wanted(): seq<Endpoint> { create + updateNew }

    function Withdrawn(): seq<Endpoint> { delete + updateOld }
  }

  type Targets = map<RecordKey, seq<string>>

  // What the runs so far have shown; actual and desired are None before the first.
  datatype Board = Board(
    actual: Option<Targets>,
    desired: Option<Targets>,
    rejected: map<RecordKey, Rejection>,
    attempted: set<RecordKey>,
    failed: map<RecordKey, string>,
    conflict: map<RecordKey, string>)

  const NOTHING := Board(None, None, map[], {}, map[], map[])

  // A missing entry reads as "".
  function Get(m: map<RecordKey, string>, k: RecordKey): string {
    if k in m then m[k] else ""
  }

  function KeySet(eps: seq<Endpoint>): set<RecordKey> {
    set ep <- eps :: EndpointKey(ep)
  }

  function SkipKey(skip: Reconcile.Skip): RecordKey {
    RowKey(skip.record)
  }

  // ---------- what each observation does to the board ----------

  // Each endpoint's targets under its key, the last of two with one key winning.
  function TargetsByKey(eps: seq<Endpoint>): Targets {
    if eps == [] then map[]
    else TargetsByKey(eps[..|eps| - 1])[EndpointKey(eps[|eps| - 1]) := SortedTargets(eps[|eps| - 1].targets)]
  }

  function MarkConflicts(conflict: map<RecordKey, string>, skipped: seq<Reconcile.Skip>): map<RecordKey, string> {
    if skipped == [] then conflict
    else
      var last := skipped[|skipped| - 1];
      MarkConflicts(conflict, skipped[..|skipped| - 1])[SkipKey(last) := Reconcile.Text(last.why)]
  }

  function Predict(actual: Targets, wanted: seq<Endpoint>, conflict: map<RecordKey, string>): Targets {
    if wanted == [] then actual
    else
      var ep := wanted[|wanted| - 1];
      var before := Predict(actual, wanted[..|wanted| - 1], conflict);
      if Get(conflict, EndpointKey(ep)) == "" then before[EndpointKey(ep) := SortedTargets(ep.targets)] else before
  }

  function Failures(failed: map<RecordKey, string>, keys: set<RecordKey>, err: Option<string>): map<RecordKey, string> {
    (failed - keys) + if err.Some? then map k | k in keys :: err.value else map[]
  }

  function SeenRecords(b: Board, eps: seq<Endpoint>): Board {
    b.(actual := Some(TargetsByKey(eps)))
  }

  function SeenDesired(b: Board, eps: seq<Endpoint>, rejected: map<RecordKey, Rejection>): Board {
    b.(desired := Some(TargetsByKey(eps)), rejected := rejected)
  }

  function SeenApply(b: Board, changes: Changes, skipped: seq<Reconcile.Skip>, err: Option<string>): Board {
    var keys := KeySet(changes.Wanted());
    var conflict := if err.None? then MarkConflicts(b.conflict - keys, skipped) else b.conflict - keys;
    b.(attempted := b.attempted + keys,
       failed := Failures(b.failed, keys, err),
       conflict := conflict,
       actual := if err.None? && b.actual.Some?
                 then Some(Predict(b.actual.value - KeySet(changes.Withdrawn()), changes.Wanted(), conflict))
                 else b.actual)
  }

  // ---------- the rows ----------

  function Join(parts: seq<string>): string {
    if parts == [] then ""
    else if |parts| == 1 then parts[0]
    else parts[0] + ", " + Join(parts[1..])
  }

  predicate Both(b: Board) {
    b.actual.Some? && b.desired.Some?
  }

  function Known(b: Board): set<RecordKey>
    requires Both(b)
  {
    b.actual.value.Keys + b.desired.value.Keys + b.rejected.Keys
  }

  function RowFor(b: Board, k: RecordKey): Option<Row>
    requires Both(b) && k in Known(b)
  {
    var row := (targets: seq<string>, state: Status, reason: string) =>
      Some(Row(k.name, k.rtype, targets, state, reason));
    if k in b.rejected then row(b.rejected[k].targets, Rejected, b.rejected[k].reason)
    else if k !in b.desired.value then row(b.actual.value[k], Orphan, "not requested by ExternalDNS")
    else
      var want := b.desired.value[k];
      if k in b.actual.value && b.actual.value[k] == want then row(want, Ready, "")
      else if Get(b.conflict, k) != "" then row(want, Conflict, Get(b.conflict, k))
      else if Get(b.failed, k) != "" then row(want, Error, Get(b.failed, k))
      else if k in b.actual.value then row(want, Pending, "router has " + Join(b.actual.value[k]))
      else if k in b.attempted then row(want, Pending, "")
      else None
  }

  function RowKeyOf(row: Row): RecordKey {
    RecordKey(row.dnsName, row.recordType)
  }

  function RowKeys(rows: seq<Row>): seq<RecordKey> {
    seq(|rows|, i requires 0 <= i < |rows| => RowKeyOf(rows[i]))
  }

  /** The rows of a board: in strict order, one per known key that has one. */
  ghost predicate IsSnapshot(b: Board, rows: seq<Row>)
    requires Both(b)
  {
    && Ascending(RowKeys(rows))
    && (forall row <- rows :: RowKeyOf(row) in Known(b) && RowFor(b, RowKeyOf(row)) == Some(row))
    && (forall k <- Known(b) :: RowFor(b, k).Some? ==> RowFor(b, k).value in rows)
  }

  // ---------- the tracker ----------

  class Tracker {
    var actual: Option<Targets>
    var desired: Option<Targets>
    var rejected: map<RecordKey, Rejection>
    var attempted: set<RecordKey>
    var failed: map<RecordKey, string>
    var conflict: map<RecordKey, string>
    // Every snapshot handed to publish, oldest first.
    var published: seq<seq<Row>>

    function Shows(): Board
      reads this
    {
      Board(actual, desired, rejected, attempted, failed, conflict)
    }

    constructor ()
      ensures Shows() == NOTHING && published == []
    {
      actual, desired := None, None;
      rejected, attempted, failed, conflict := map[], {}, map[], map[];
      published := [];
    }

    // A snapshot follows once both sides have been seen.
    twostate predicate Publishes()
      reads this
    {
      if Both(Shows())
      then |published| == |old(published)| + 1 && published[..|old(published)|] == old(published) &&
           IsSnapshot(Shows(), published[|old(published)|])
      else published == old(published)
    }

    method ObserveRecords(eps: seq<Endpoint>)
      modifies this
      ensures Shows() == SeenRecords(old(Shows()), eps) && published == old(published)
    {
      hide EndpointKey;
      var m: Targets := map[];
      for i := 0 to |eps|
        invariant m == TargetsByKey(eps[..i])
      {
        assert eps[..i + 1][..i] == eps[..i];
        m := m[EndpointKey(eps[i]) := SortedTargets(eps[i].targets)];
      }
      assert eps[..|eps|] == eps;
      actual := Some(m);
    }

    method ObserveDesired(adjusted: seq<Endpoint>, rejections: map<RecordKey, Rejection>)
      modifies this
      ensures Shows() == SeenDesired(old(Shows()), adjusted, rejections)
      ensures Publishes()
    {
      hide EndpointKey, IsSnapshot;
      var m: Targets := map[];
      for i := 0 to |adjusted|
        invariant m == TargetsByKey(adjusted[..i])
      {
        assert adjusted[..i + 1][..i] == adjusted[..i];
        m := m[EndpointKey(adjusted[i]) := SortedTargets(adjusted[i].targets)];
      }
      assert adjusted[..|adjusted|] == adjusted;
      desired := Some(m);
      rejected := rejections;
      Publish();
    }

    method MarkAttempted(wanted: seq<Endpoint>, err: Option<string>)
      modifies this`attempted, this`failed, this`conflict
      ensures attempted == old(attempted) + KeySet(wanted)
      ensures failed == Failures(old(failed), KeySet(wanted), err)
      ensures conflict == old(conflict) - KeySet(wanted)
    {
      hide EndpointKey, KeySet, Failures;
      KeySetNone(wanted);
      FailuresNone(failed, err);
      for i := 0 to |wanted|
        invariant attempted == old(attempted) + KeySet(wanted[..i])
        invariant failed == Failures(old(failed), KeySet(wanted[..i]), err)
        invariant conflict == old(conflict) - KeySet(wanted[..i])
      {
        var k := EndpointKey(wanted[i]);
        KeySetNext(wanted, i);
        FailuresNext(old(failed), KeySet(wanted[..i]), k, err);
        attempted := attempted + {k};
        failed := failed - {k};
        conflict := conflict - {k};
        if err.Some? {
          failed := failed[k := err.value];
        }
      }
      assert wanted[..|wanted|] == wanted;
    }

    method MarkSkipped(skipped: seq<Reconcile.Skip>)
      modifies this`conflict
      ensures conflict == MarkConflicts(old(conflict), skipped)
    {
      hide SkipKey;
      for i := 0 to |skipped|
        invariant conflict == MarkConflicts(old(conflict), skipped[..i])
      {
        assert skipped[..i + 1][..i] == skipped[..i];
        conflict := conflict[SkipKey(skipped[i]) := Reconcile.Text(skipped[i].why)];
      }
      assert skipped[..|skipped|] == skipped;
    }

    method PredictActual(gone: seq<Endpoint>, wanted: seq<Endpoint>)
      requires actual.Some?
      modifies this`actual
      ensures actual == Some(Predict(old(actual).value - KeySet(gone), wanted, conflict))
    {
      hide EndpointKey;
      var m := actual.value;
      for i := 0 to |gone|
        invariant actual == old(actual) && m == actual.value - KeySet(gone[..i])
      {
        KeySetNext(gone, i);
        m := m - {EndpointKey(gone[i])};
      }
      assert gone[..|gone|] == gone;
      ghost var rest := m;
      for i := 0 to |wanted|
        invariant m == Predict(rest, wanted[..i], conflict)
      {
        assert wanted[..i + 1][..i] == wanted[..i];
        var k := EndpointKey(wanted[i]);
        if Get(conflict, k) == "" {
          m := m[k := SortedTargets(wanted[i].targets)];
        }
      }
      assert wanted[..|wanted|] == wanted;
      actual := Some(m);
    }

    method ObserveApply(changes: Changes, skipped: seq<Reconcile.Skip>, err: Option<string>)
      modifies this
      ensures Shows() == SeenApply(old(Shows()), changes, skipped, err)
      ensures Publishes()
    {
      hide EndpointKey, IsSnapshot, KeySet, Predict, MarkConflicts;
      var wanted := changes.create + changes.updateNew;
      MarkAttempted(wanted, err);
      if err.None? {
        MarkSkipped(skipped);
        if actual.Some? {
          PredictActual(changes.delete + changes.updateOld, wanted);
        }
      }
      Publish();
    }

    method Publish()
      modifies this`published
      ensures Publishes()
    {
      if actual.None? || desired.None? {
        return;
      }
      var rows := Snapshot();
      published := published + [rows];
    }

    method Snapshot() returns (rows: seq<Row>)
      requires Both(Shows())
      ensures IsSnapshot(Shows(), rows)
    {
      hide KeyLe, KeyLt, Join, Get;
      var keys: set<RecordKey> := actual.value.Keys + desired.value.Keys + rejected.Keys;
      var order := SortKeys(keys);
      rows := [];
      for i := 0 to |order|
        invariant RowsOf(Shows(), order[..i], rows)
      {
        assert order[..i + 1] == order[..i] + [order[i]];
        assert order[i] in order;
        var row := RowFor(Shows(), order[i]);
        RowsNext(Shows(), order, i, rows);
        if row.None? {
          continue;
        }
        rows := rows + [row.value];
      }
      assert order[..|order|] == order;
    }
  }

  // The rows of the first keys in order.
  ghost predicate RowsOf(b: Board, order: seq<RecordKey>, rows: seq<Row>)
    requires Both(b)
  {
    && Ascending(RowKeys(rows))
    && (forall row <- rows ::
          RowKeyOf(row) in order && RowKeyOf(row) in Known(b) && RowFor(b, RowKeyOf(row)) == Some(row))
    && (forall k <- order :: k in Known(b) && (RowFor(b, k).Some? ==> RowFor(b, k).value in rows))
  }

  lemma RowsNext(b: Board, order: seq<RecordKey>, i: nat, rows: seq<Row>)
    requires Both(b) && i < |order| && Ascending(order) && order[i] in Known(b) && RowsOf(b, order[..i], rows)
    ensures RowsOf(b, order[..i] + [order[i]], if RowFor(b, order[i]).Some? then rows + [RowFor(b,
        order[i]).value] else rows)
  {
    var k := order[i];
    RowNamed(b, k);
    hide RowFor, KeyLt, Known;
    if RowFor(b, k).Some? {
      var more := rows + [RowFor(b, k).value];
      assert RowKeys(more) == RowKeys(rows) + [k];
      forall j | 0 <= j < |rows| ensures KeyLt(RowKeys(rows)[j], k) {
        assert rows[j] in rows;
        var l :| 0 <= l < i && order[l] == RowKeyOf(rows[j]);
      }
    }
  }

  lemma RowNamed(b: Board, k: RecordKey)
    requires Both(b) && k in Known(b)
    ensures RowFor(b, k).Some? ==> RowKeyOf(RowFor(b, k).value) == k
  {
  }

  lemma RowKeysMember(rows: seq<Row>, k: RecordKey)
    ensures k in RowKeys(rows) <==> exists row <- rows :: RowKeyOf(row) == k
  {
    if row :| row in rows && RowKeyOf(row) == k {
      var i :| 0 <= i < |rows| && rows[i] == row;
      assert RowKeys(rows)[i] == k;
    }
    if k in RowKeys(rows) {
      var i :| 0 <= i < |rows| && RowKeys(rows)[i] == k;
      assert rows[i] in rows;
    }
  }

  lemma KeySetNone(eps: seq<Endpoint>)
    ensures KeySet(eps[..0]) == {}
  {
  }

  lemma KeySetNext(eps: seq<Endpoint>, i: nat)
    requires i < |eps|
    ensures KeySet(eps[..i + 1]) == KeySet(eps[..i]) + {EndpointKey(eps[i])}
  {
  }

  lemma FailuresNone(failed: map<RecordKey, string>, err: Option<string>)
    ensures Failures(failed, {}, err) == failed
  {
  }

  lemma FailuresNext(failed: map<RecordKey, string>, keys: set<RecordKey>, k: RecordKey, err: Option<string>)
    ensures Failures(failed, keys + {k}, err) ==
            if err.Some? then (Failures(failed, keys, err) - {k})[k := err.value] else Failures(failed, keys, err) - {k}
  {
  }

  method SortKeys(keys: set<RecordKey>) returns (order: seq<RecordKey>)
    ensures Ascending(order) && forall k :: k in order <==> k in keys
  {
    hide KeyLe, KeyLt;
    var found: seq<RecordKey> := [];
    var left := keys;
    while left != {}
      invariant left <= keys
      invariant forall k :: k in found <==> k in keys && k !in left
      invariant forall i, j | 0 <= i < j < |found| :: found[i] != found[j]
      decreases left
    {
      var k :| k in left;
      left := left - {k};
      found := found + [k];
    }
    order := Sort(found, KeyLe);
    SortedKeys(found);
  }

  lemma SortedKeys(found: seq<RecordKey>)
    requires forall i, j | 0 <= i < j < |found| :: found[i] != found[j]
    ensures var order := Sort(found, KeyLe); Ascending(order) && forall k :: k in order <==> k in found
  {
    hide KeyLe, KeyLt;
    KeysOrder();
    SortSorts(found, KeyLe);
    var order := Sort(found, KeyLe);
    Rearranged(found, order, k => k);
    SortedDistinctAscends(order);
  }

  // ---------- over every sequence of observations ----------

  datatype Observation =
    | Records(eps: seq<Endpoint>)
    | Desired(adjusted: seq<Endpoint>, rejections: map<RecordKey, Rejection>)
    | Apply(changes: Changes, skipped: seq<Reconcile.Skip>, err: Option<string>)

  function Observe(b: Board, o: Observation): Board {
    match o
    case Records(eps) => SeenRecords(b, eps)
    case Desired(eps, rejections) => SeenDesired(b, eps, rejections)
    case Apply(changes, skipped, err) => SeenApply(b, changes, skipped, err)
  }

  function ObserveAll(b: Board, os: seq<Observation>): Board {
    if os == [] then b else Observe(ObserveAll(b, os[..|os| - 1]), os[|os| - 1])
  }

  // A change set skips only what it was asked to add.
  ghost predicate Honest(o: Observation) {
    o.Apply? ==> forall s <- o.skipped :: SkipKey(s) in KeySet(o.changes.Wanted())
  }

  ghost predicate Consistent(b: Board) {
    b.failed.Keys !! b.conflict.Keys && b.failed.Keys <= b.attempted && b.conflict.Keys <= b.attempted
  }

  lemma {:induction false} MarkedKeys(conflict: map<RecordKey, string>, skipped: seq<Reconcile.Skip>)
    ensures MarkConflicts(conflict, skipped).Keys == conflict.Keys + set s <- skipped :: SkipKey(s)
  {
    hide RowKey;
    if skipped != [] {
      MarkedKeys(conflict, skipped[..|skipped| - 1]);
      assert skipped == skipped[..|skipped| - 1] + [skipped[|skipped| - 1]];
    }
  }

  /** Over every sequence of observations, a row never counts as failed and as
      in conflict at once, and both only after a change set carried it. */
  lemma {:induction false} AlwaysConsistent(os: seq<Observation>)
    requires forall o <- os :: Honest(o)
    ensures Consistent(ObserveAll(NOTHING, os))
  {
    hide KeySet, SkipKey;
    if os != [] {
      var o := os[|os| - 1];
      assert o in os;
      AlwaysConsistent(os[..|os| - 1]);
      if o.Apply? {
        var b := ObserveAll(NOTHING, os[..|os| - 1]);
        MarkedKeys(b.conflict - KeySet(o.changes.Wanted()), o.skipped);
      }
    }
  }

  /** Ready says exactly that the record is not rejected, asked for and on the
      router with the very targets asked for; and a known record has no row
      exactly when it is asked for, not rejected, off the router and was never
      part of a change set. */
  lemma RowsExact(b: Board, rows: seq<Row>, k: RecordKey)
    requires Both(b) && Consistent(b) && IsSnapshot(b, rows) && k in Known(b)
    ensures (exists row <- rows :: RowKeyOf(row) == k && row.state == Ready) <==>
      k !in b.rejected && k in b.desired.value && k in b.actual.value && b.actual.value[k] == b.desired.value[k]
    ensures k !in RowKeys(rows) <==>
      k !in b.rejected && k in b.desired.value && k !in b.actual.value && k !in b.attempted
  {
    hide KeyLt, Join;
    RowKeysMember(rows, k);
    RowNamed(b, k);
  }

  // ---------- what the rows say ----------

  // Of one record, the rows hold this and nothing else.
  ghost predicate Only(rows: seq<Row>, row: Row) {
    row in rows && forall other <- rows :: RowKeyOf(other) == RowKeyOf(row) ==> other == row
  }

  ghost predicate HasState(rows: seq<Row>, k: RecordKey, state: Status) {
    exists row <- rows :: RowKeyOf(row) == k && row.state == state
  }

  // Asked for by ExternalDNS and not refused.
  ghost predicate Asked(b: Board, k: RecordKey)
    requires Both(b)
  {
    k !in b.rejected && k in b.desired.value
  }

  // On the router with the very targets asked for.
  ghost predicate AsAsked(b: Board, k: RecordKey)
    requires Both(b)
  {
    k in b.actual.value && k in b.desired.value && b.actual.value[k] == b.desired.value[k]
  }

  /** One row a record, with what the board holds of it. */
  lemma RowsSay(b: Board, rows: seq<Row>, k: RecordKey)
    requires Both(b) && IsSnapshot(b, rows) && k in Known(b)
    ensures k in b.rejected ==> Only(rows, Row(k.name, k.rtype, b.rejected[k].targets, Rejected, b.rejected[k].reason))
    ensures k !in b.rejected && k !in b.desired.value ==>
      k in b.actual.value && Only(rows, Row(k.name, k.rtype, b.actual.value[k], Orphan, "not requested by ExternalDNS"))
    ensures Asked(b, k) ==> var want := b.desired.value[k];
      && (AsAsked(b, k) ==> Only(rows, Row(k.name, k.rtype, want, Ready, "")))
      && (!AsAsked(b, k) && Get(b.conflict, k) != "" ==>
            Only(rows, Row(k.name, k.rtype, want, Conflict, b.conflict[k])))
      && (!AsAsked(b, k) && Get(b.conflict, k) == "" && Get(b.failed, k) != "" ==>
            Only(rows, Row(k.name, k.rtype, want, Error, b.failed[k])))
      && (!AsAsked(b, k) && Get(b.conflict, k) == "" && Get(b.failed, k) == "" ==>
            if k in b.actual.value
            then Only(rows, Row(k.name, k.rtype, want, Pending, "router has " + Join(b.actual.value[k])))
            else if k in b.attempted then Only(rows, Row(k.name, k.rtype, want, Pending, ""))
            else k !in RowKeys(rows))
  {
    hide KeyLt, Join, Ascending;
    RowNamed(b, k);
    OneRow(b, rows, k);
    RowKeysMember(rows, k);
  }

  lemma OneRow(b: Board, rows: seq<Row>, k: RecordKey)
    requires Both(b) && IsSnapshot(b, rows) && k in Known(b)
    ensures RowFor(b, k).Some? ==> RowKeyOf(RowFor(b, k).value) == k && Only(rows, RowFor(b, k).value)
  {
    RowNamed(b, k);
    hide RowFor, Ascending;
  }

  /** Each state says exactly one thing of a record. */
  lemma StatesExact(b: Board, rows: seq<Row>, k: RecordKey)
    requires Both(b) && Consistent(b) && IsSnapshot(b, rows) && k in Known(b)
    ensures HasState(rows, k, Rejected) <==> k in b.rejected
    ensures HasState(rows, k, Orphan) <==> k !in b.rejected && k !in b.desired.value
    ensures HasState(rows, k, Ready) <==> Asked(b, k) && AsAsked(b, k)
    ensures HasState(rows, k, Conflict) <==> Asked(b, k) && !AsAsked(b, k) && Get(b.conflict, k) != ""
    ensures HasState(rows, k, Error) <==> Asked(b, k) && !AsAsked(b, k) && Get(b.failed, k) != ""
    ensures HasState(rows, k, Pending) <==>
      && Asked(b, k) && !AsAsked(b, k) && Get(b.conflict, k) == "" && Get(b.failed, k) == ""
      && (k in b.actual.value || k in b.attempted)
  {
    RowsSay(b, rows, k);
    NoRowNoState(rows, k);
    hide IsSnapshot, Join;
    assert Get(b.conflict, k) != "" ==> Get(b.failed, k) == "";
    assert forall row <- rows :: RowKeyOf(row) == k ==> row == Row(k.name, k.rtype, row.targets, row.state, row.reason);
  }

  lemma NoRowNoState(rows: seq<Row>, k: RecordKey)
    ensures k !in RowKeys(rows) <==> forall row <- rows :: RowKeyOf(row) != k
  {
    RowKeysMember(rows, k);
  }

  // ---------- what an observation shows next ----------

  /** After a change set that failed, every record it was to write shows the
      error, unless it is refused, not asked for, or on the router as asked. */
  lemma FailureShows(b: Board, changes: Changes, skipped: seq<Reconcile.Skip>, err: string, rows: seq<Row>,
                     k: RecordKey)
    requires Both(b) && err != "" && Asked(b, k) && !AsAsked(b, k)
    requires exists ep :: (ep in changes.create || ep in changes.updateNew) && EndpointKey(ep) == k
    requires IsSnapshot(SeenApply(b, changes, skipped, Some(err)), rows)
    ensures Only(rows, Row(k.name, k.rtype, b.desired.value[k], Error, err))
  {
    hide IsSnapshot, Join, EndpointKey;
    var now := SeenApply(b, changes, skipped, Some(err));
    assert k in KeySet(changes.Wanted());
    assert now.actual == b.actual && now.desired == b.desired && now.rejected == b.rejected;
    RowsSay(now, rows, k);
  }

  lemma {:induction false} LastMark(conflict: map<RecordKey, string>, skipped: seq<Reconcile.Skip>, i: nat)
    requires i < |skipped| && forall j | i < j < |skipped| :: SkipKey(skipped[j]) != SkipKey(skipped[i])
    ensures Get(MarkConflicts(conflict, skipped), SkipKey(skipped[i])) == Reconcile.Text(skipped[i].why)
  {
    hide SkipKey, Reconcile.Text;
    var n := |skipped| - 1;
    if i < n { LastMark(conflict, skipped[..n], i); }
  }

  /** After one that went through, a record skipped, the last for its row, shows
      as a conflict with the reason, unless it is refused, not asked for, or on
      the router as asked. */
  lemma SkipShows(b: Board, changes: Changes, skipped: seq<Reconcile.Skip>, rows: seq<Row>, i: nat)
    requires Both(b) && i < |skipped| && forall j | i < j < |skipped| :: SkipKey(skipped[j]) != SkipKey(skipped[i])
    requires var now, k := SeenApply(b, changes, skipped, None), SkipKey(skipped[i]); Asked(now, k) && !AsAsked(now, k)
    requires IsSnapshot(SeenApply(b, changes, skipped, None), rows)
    ensures var k := SkipKey(skipped[i]);
      Only(rows, Row(k.name, k.rtype, b.desired.value[k], Conflict, Reconcile.Text(skipped[i].why)))
  {
    hide IsSnapshot, KeySet, Join, SkipKey, Reconcile.Text, Predict, MarkConflicts;
    var now := SeenApply(b, changes, skipped, None);
    LastMark(b.conflict - KeySet(changes.Wanted()), skipped, i);
    RowsSay(now, rows, SkipKey(skipped[i]));
  }

  /** What was adjusted and refused last decides: a record refused shows as
      rejected with that refusal, and one refused before no longer does. */
  lemma RefusalShows(b: Board, adjusted: seq<Endpoint>, rejections: map<RecordKey, Rejection>, rows: seq<Row>,
                     k: RecordKey)
    requires b.actual.Some? && IsSnapshot(SeenDesired(b, adjusted, rejections), rows)
    ensures HasState(rows, k, Rejected) <==> k in rejections
    ensures k in rejections ==>
      Only(rows, Row(k.name, k.rtype, rejections[k].targets, Rejected, rejections[k].reason))
  {
    var now := SeenDesired(b, adjusted, rejections);
    if k in Known(now) {
      RowsSay(now, rows, k);
      NotRejected(now, rows, k);
    }
    hide RowFor, TargetsByKey, Ascending;
    if HasState(rows, k, Rejected) { assert k in Known(now); }
  }

  lemma NotRejected(b: Board, rows: seq<Row>, k: RecordKey)
    requires Both(b) && IsSnapshot(b, rows) && k in Known(b)
    ensures HasState(rows, k, Rejected) <==> k in b.rejected
  {
    OneRow(b, rows, k);
    hide Ascending, Join;
  }

  lemma {:induction false} LastTargets(eps: seq<Endpoint>, i: nat)
    requires i < |eps| && forall j | i < j < |eps| :: EndpointKey(eps[j]) != EndpointKey(eps[i])
    ensures EndpointKey(eps[i]) in TargetsByKey(eps)
    ensures TargetsByKey(eps)[EndpointKey(eps[i])] == SortedTargets(eps[i].targets)
  {
    hide EndpointKey, SortedTargets;
    var n := |eps| - 1;
    if i < n {
      assert eps[..n][i] == eps[i];
      LastTargets(eps[..n], i);
    }
  }

  /** The targets asked for and read are those of the last endpoint with the
      key, sorted; no other key is asked for or read. */
  lemma {:induction false} TargetsExactly(eps: seq<Endpoint>, k: RecordKey)
    ensures k in TargetsByKey(eps) <==> exists ep <- eps :: EndpointKey(ep) == k
  {
    hide EndpointKey, SortedTargets;
    if eps != [] {
      var n := |eps| - 1;
      TargetsExactly(eps[..n], k);
      assert forall ep :: ep in eps <==> ep in eps[..n] || ep == eps[n];
    }
  }
}
