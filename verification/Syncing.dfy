/** The background mirror: one sync of the objects on the API server, and the
    one-slot kick that starts it (pkg/status/syncer.go). */
module Syncing {
  import opened Types
  import opened Spelling
  import opened Uci
  import opened Order
  import opened Plan
  import opened Grouping
  import opened Adjusting
  import opened Tracking

  // ---------- object names ----------

  predicate IsAlnum(c: char) {
    'a' <= c <= 'z' || '0' <= c <= '9'
  }

  predicate IsLabel(s: string) {
    && s != [] && IsAlnum(s[0]) && IsAlnum(s[|s| - 1])
    && forall c <- s :: IsAlnum(c) || c == '-'
  }

  predicate IsSubdomain(s: string) {
    forall part <- Split(s, '.') :: IsLabel(part)
  }

  // What a row is hashed by.
  function Identity(row: Row): string {
    row.recordType + "|" + row.dnsName
  }

  // The name of a row's object. digest stands for the first 16 hex digits of
  // the SHA-256 sum.
  function ObjectName(digest: string -> string, row: Row): string {
    var name := ToLower(row.recordType + "." + row.dnsName);
    if |name| <= 253 && IsSubdomain(name) then name
    else ToLower(row.recordType) + "-" + digest(Identity(row))
  }

  // No two of these rows collide.
  ghost predicate CollisionFree(digest: string -> string, rows: seq<Row>) {
    forall x, y | x in rows && y in rows && digest(Identity(x)) == digest(Identity(y)) :: Identity(x) == Identity(y)
  }

  // As record types are spelled: nothing lower-case, and neither separator.
  predicate IsType(t: string) {
    forall c <- t :: !('a' <= c <= 'z') && c != '.' && c != '-'
  }

  // A row as the tracker publishes it.
  predicate CanonicalRow(row: Row) {
    IsType(row.recordType) && ToLower(row.dnsName) == row.dnsName
  }

  // How an object's name begins tells the type and whether it is a digest.
  lemma NameShape(digest: string -> string, row: Row)
    requires CanonicalRow(row)
    ensures var t := ToLower(row.recordType);
      || ObjectName(digest, row) == t + "." + row.dnsName
      || ObjectName(digest, row) == t + "-" + digest(Identity(row))
  {
    hide Identity, IsSubdomain;
    var whole := row.recordType + "." + row.dnsName;
    assert ToLower(whole) == ToLower(row.recordType) + "." + ToLower(row.dnsName);
  }

  // Where a name goes on after the type.
  lemma LowerType(t: string)
    requires IsType(t)
    ensures forall c <- ToLower(t) :: c != '.' && c != '-'
  {
    forall c | c in ToLower(t) ensures c != '.' && c != '-' {
      var i :| 0 <= i < |t| && ToLower(t)[i] == c;
      assert t[i] in t;
    }
  }

  lemma LowerTells(t: string, u: string)
    requires IsType(t) && IsType(u) && ToLower(t) == ToLower(u)
    ensures t == u
  {
    assert |t| == |ToLower(t)| && |u| == |ToLower(u)|;
    forall i | 0 <= i < |t| ensures t[i] == u[i] {
      assert ToLower(t)[i] == ToLower(u)[i] && t[i] in t && u[i] in u;
    }
  }

  lemma ConcatCancel(p: string, a: string, b: string)
    requires p + a == p + b
    ensures a == b
  {
    assert (p + a)[|p|..] == a && (p + b)[|p|..] == b;
  }

  /** Rows with different keys get objects of different names, unless their
      digests collide. */
  lemma ObjectNameInjective(digest: string -> string, x: Row, y: Row)
    requires CanonicalRow(x) && CanonicalRow(y)
    requires digest(Identity(x)) == digest(Identity(y)) ==> Identity(x) == Identity(y)
    ensures ObjectName(digest, x) == ObjectName(digest, y) <==> RowKeyOf(x) == RowKeyOf(y)
  {
    NameShape(digest, x);
    NameShape(digest, y);
    hide ObjectName, ToLower;
    var n := ObjectName(digest, x);
    if n == ObjectName(digest, y) {
      TypeShown(n, x, y, digest);
      var t := ToLower(x.recordType);
      if n == t + "." + x.dnsName && n == t + "." + y.dnsName {
        ConcatCancel(t + ".", x.dnsName, y.dnsName);
      } else {
        SeparatorShown(n, t, x.dnsName, digest(Identity(y)));
        SeparatorShown(n, t, y.dnsName, digest(Identity(x)));
        ConcatCancel(t + "-", digest(Identity(x)), digest(Identity(y)));
        ConcatCancel(x.recordType + "|", x.dnsName, y.dnsName);
      }
    }
    if RowKeyOf(x) == RowKeyOf(y) { SameName(digest, x, y); }
  }

  lemma TypeShown(n: string, x: Row, y: Row, digest: string -> string)
    requires CanonicalRow(x) && CanonicalRow(y)
    requires var t := ToLower(x.recordType); n == t + "." + x.dnsName || n == t + "-" + digest(Identity(x))
    requires var t := ToLower(y.recordType); n == t + "." + y.dnsName || n == t + "-" + digest(Identity(y))
    ensures x.recordType == y.recordType
  {
    LowerType(x.recordType);
    LowerType(y.recordType);
    var t, u := ToLower(x.recordType), ToLower(y.recordType);
    hide ToLower, IsType;
    assert n[|t|] == '.' || n[|t|] == '-';
    assert n[|u|] == '.' || n[|u|] == '-';
    assert t == n[..|t|] && u == n[..|u|];
    assert forall k | 0 <= k < |t| :: n[k] == t[k] && t[k] in t;
    assert forall k | 0 <= k < |u| :: n[k] == u[k] && u[k] in u;
    assert |t| == |u|;
    LowerTells(x.recordType, y.recordType);
  }

  lemma SeparatorShown(n: string, t: string, name: string, sum: string)
    ensures !(n == t + "." + name && n == t + "-" + sum)
  {
    assert n == t + "." + name ==> n[|t|] == '.';
    assert n == t + "-" + sum ==> n[|t|] == '-';
  }

  lemma SameName(digest: string -> string, x: Row, y: Row)
    requires RowKeyOf(x) == RowKeyOf(y)
    ensures ObjectName(digest, x) == ObjectName(digest, y)
  {
  }

  // ---------- names Kubernetes takes ----------

  // As the digest comes: sixteen hexadecimal digits.
  ghost predicate HexDigest(digest: string -> string) {
    forall s :: |digest(s)| == 16 && forall c <- digest(s) :: IsAlnum(c)
  }

  lemma LabelAlone(s: string)
    requires IsLabel(s) && |s| <= 253
    ensures IsSubdomain(s)
  {
    assert '.' !in s;
    SplitNone(s, '.');
  }

  /** A row whose type and name make a name Kubernetes takes has that for its
      object; any other has a digest, which Kubernetes takes as well. */
  lemma ObjectNameLegal(digest: string -> string, row: Row)
    requires row.recordType == "A" || row.recordType == "CNAME"
    requires HexDigest(digest)
    ensures var plain, name := ToLower(row.recordType + "." + row.dnsName), ObjectName(digest, row);
      && IsSubdomain(name) && |name| <= 253
      && (IsSubdomain(plain) && |plain| <= 253 ==> name == plain)
  {
    var t, d := ToLower(row.recordType), digest(Identity(row));
    hide Identity, IsSubdomain;
    assert t == if row.recordType == "A" then "a" else "cname";
    var hashed := t + "-" + d;
    assert hashed[|hashed| - 1] == d[15] && d[15] in d;
    assert IsLabel(hashed);
    LabelAlone(hashed);
  }

  // ---------- one sync ----------

  // An object on the API server: the row it shows and since when.
  datatype Object = Object(row: Row, since: string)

  type Store = map<string, Object>

  // The transition time an object is written with.
  function Since(store: Store, name: string, row: Row, now: string): string {
    if name !in store || store[name].row.state != row.state || store[name].since == "" then now else store[name].since
  }

  predicate UpToDate(store: Store, name: string, row: Row) {
    name in store && store[name].row == row && store[name].since != ""
  }

  class Api {
    // This owner's objects.
    var objects: Store
    // The writes and deletes that went through.
    var changes: nat
    ghost var failures: nat

    constructor (objects: Store)
      ensures this.objects == objects && changes == 0 && failures == 0
    {
      this.objects := objects;
      changes := 0;
      failures := 0;
    }

    method ListAll() returns (found: Option<Store>)
      modifies this`failures
      ensures found.Some? ==> found.value == objects && failures == old(failures)
      ensures found.None? ==> failures > old(failures)
    {
      var fails: bool := *;
      if fails {
        failures := failures + 1;
        return None;
      }
      return Some(objects);
    }

    method Apply(name: string, o: Object)
      modifies this
      ensures failures >= old(failures)
      ensures objects == old(objects)[name := o] || (failures > old(failures) && objects == old(objects))
      ensures failures == old(failures) ==> changes == old(changes) + 1
    {
      var fails: bool, done: bool := *, *;
      if fails { failures := failures + 1; }
      if !fails || done {
        objects := objects[name := o];
        changes := changes + 1;
      }
    }

    method Remove(name: string)
      modifies this
      ensures failures >= old(failures)
      ensures objects == old(objects) - {name} || (failures > old(failures) && objects == old(objects))
      ensures failures == old(failures) ==> changes == old(changes) + 1
    {
      var fails: bool, done: bool := *, *;
      if fails { failures := failures + 1; }
      if !fails || done {
        objects := objects - {name};
        changes := changes + 1;
      }
    }
  }

  // The names the rows of a snapshot ask for.
  function Names(digest: string -> string, rows: seq<Row>): set<string> {
    set row <- rows :: ObjectName(digest, row)
  }

  // No two rows share an object.
  ghost predicate NamesDistinct(digest: string -> string, rows: seq<Row>) {
    forall i, j | 0 <= i < j < |rows| :: ObjectName(digest, rows[i]) != ObjectName(digest, rows[j])
  }

  /** The store shows the rows and nothing else, each since the time it was in
      that state, as far as was knows one. */
  ghost predicate Mirrors(digest: string -> string, was: Store, store: Store, rows: seq<Row>, times: seq<string>)
    requires |times| == |rows|
  {
    && store.Keys == Names(digest, rows)
    && forall i | 0 <= i < |rows| ::
         var name := ObjectName(digest, rows[i]);
         store[name].row == rows[i] && SinceThen(was, name, rows[i].state, times[i], store[name].since)
  }

  /** An object is in its state since now if it was not there, was there in
      another state or had no time; else since the time it had. */
  ghost predicate SinceThen(was: Store, name: string, state: Status, now: string, since: string) {
    if name in was && was[name].row.state == state && was[name].since != ""
    then since == was[name].since
    else since == now
  }

  // How many of the first n rows call for a write.
  ghost function Stale(digest: string -> string, store: Store, rows: seq<Row>, n: nat): nat
    requires n <= |rows|
  {
    if n == 0 then 0
    else Stale(digest, store, rows, n - 1) +
         if UpToDate(store, ObjectName(digest, rows[n - 1]), rows[n - 1]) then 0 else 1
  }

  // What is in the store once the first n rows are written.
  ghost predicate WrittenTo(digest: string -> string, was: Store, store: Store, rows: seq<Row>, times: seq<string>,
      n: nat)
    requires n <= |rows| == |times|
  {
    && store.Keys == was.Keys + Names(digest, rows[..n])
    && (forall i | 0 <= i < n ::
         var name := ObjectName(digest, rows[i]);
         store[name] == Object(rows[i], Since(was, name, rows[i], times[i])))
    && (forall name | name in was && name !in Names(digest, rows[..n]) :: store[name] == was[name])
  }

  lemma NewName(digest: string -> string, rows: seq<Row>, n: nat)
    requires n < |rows| && NamesDistinct(digest, rows)
    ensures ObjectName(digest, rows[n]) !in Names(digest, rows[..n])
    ensures Names(digest, rows[..n + 1]) == Names(digest, rows[..n]) + {ObjectName(digest, rows[n])}
    ensures forall i | 0 <= i < n :: ObjectName(digest, rows[i]) in Names(digest, rows[..n])
  {
  }

  lemma WrittenNext(digest: string -> string, was: Store, store: Store, rows: seq<Row>, times: seq<string>, n: nat)
    requires n < |rows| == |times| && NamesDistinct(digest, rows) && WrittenTo(digest, was, store, rows, times, n)
    ensures var name := ObjectName(digest, rows[n]);
      WrittenTo(digest, was, store[name := Object(rows[n], Since(was, name, rows[n], times[n]))], rows, times, n + 1)
  {
    hide ObjectName, Since, NamesDistinct, Names;
    NewName(digest, rows, n);
  }

  lemma WrittenAlready(digest: string -> string, was: Store, store: Store, rows: seq<Row>, times: seq<string>, n: nat)
    requires n < |rows| == |times| && NamesDistinct(digest, rows) && WrittenTo(digest, was, store, rows, times, n)
    requires UpToDate(was, ObjectName(digest, rows[n]), rows[n])
    ensures WrittenTo(digest, was, store, rows, times, n + 1)
  {
    hide ObjectName, NamesDistinct, Names;
    NewName(digest, rows, n);
    assert store[ObjectName(digest, rows[n])] == was[ObjectName(digest, rows[n])];
  }

  // o is what some row wants the object of that name to be.
  ghost predicate WantedAs(digest: string -> string, was: Store, rows: seq<Row>, times: seq<string>,
                           name: string, o: Object)
    requires |times| == |rows|
  {
    exists i | 0 <= i < |rows| ::
      name == ObjectName(digest, rows[i]) && o.row == rows[i] && SinceThen(was, name, rows[i].state, times[i], o.since)
  }

  /** However far a sync came: every object is as it was or as its row wants
      it, and only those no row wants are gone. */
  ghost predicate Underway(digest: string -> string, was: Store, store: Store, rows: seq<Row>, times: seq<string>)
    requires |times| == |rows|
  {
    && (forall name | name in store ::
          (name in was && store[name] == was[name]) || WantedAs(digest, was, rows, times, name, store[name]))
    && (forall name | name in was && name !in store :: name !in Names(digest, rows))
  }

  lemma UnderwayNext(digest: string -> string, was: Store, store: Store, rows: seq<Row>, times: seq<string>, i: nat)
    requires i < |rows| == |times| && Underway(digest, was, store, rows, times)
    ensures var name := ObjectName(digest, rows[i]);
      Underway(digest, was, store[name := Object(rows[i], Since(was, name, rows[i], times[i]))], rows, times)
  {
    hide ObjectName, Names;
  }

  // Deleting what no row wants, or part of it.
  lemma UnderwayStill(digest: string -> string, was: Store, store: Store, left: Store, rows: seq<Row>,
                      times: seq<string>)
    requires |times| == |rows| && Underway(digest, was, store, rows, times)
    requires forall name | name in left :: name in store && left[name] == store[name]
    requires store.Keys - (was.Keys - Names(digest, rows)) <= left.Keys
    ensures Underway(digest, was, left, rows, times)
  {
    hide WantedAs, Names;
  }

  // The rows of the snapshot that are not as they should be are written.
  method WriteRows(api: Api, digest: string -> string, rows: seq<Row>, times: seq<string>, live: Store)
    returns (wanted: set<string>)
    requires |times| == |rows| && NamesDistinct(digest, rows) && live == api.objects
    modifies api
    ensures wanted == Names(digest, rows) && api.failures >= old(api.failures)
    ensures Underway(digest, live, api.objects, rows, times)
    ensures api.failures == old(api.failures) ==> WrittenTo(digest, live, api.objects, rows, times, |rows|)
    ensures api.failures == old(api.failures) ==> api.changes == old(api.changes) + Stale(digest, live, rows, |rows|)
  {
    hide ObjectName, WrittenTo, NamesDistinct, Names, Underway;
    NothingWritten(digest, live, rows, times);
    wanted := {};
    for i := 0 to |rows|
      invariant api.failures >= old(api.failures)
      invariant wanted == Names(digest, rows[..i])
      invariant Underway(digest, live, api.objects, rows, times)
      invariant api.failures == old(api.failures) ==> WrittenTo(digest, live, api.objects, rows, times, i)
      invariant api.failures == old(api.failures) ==> api.changes == old(api.changes) + Stale(digest, live, rows, i)
    {
      var row := rows[i];
      var name := ObjectName(digest, row);
      NewName(digest, rows, i);
      wanted := wanted + {name};
      if name in live && live[name].row == row && live[name].since != "" {
        if api.failures == old(api.failures) { WrittenAlready(digest, live, api.objects, rows, times, i); }
        continue;
      }
      if api.failures == old(api.failures) { WrittenNext(digest, live, api.objects, rows, times, i); }
      UnderwayNext(digest, live, api.objects, rows, times, i);
      var since := if name in live then live[name].since else "";
      if name !in live || live[name].row.state != row.state || since == "" {
        since := times[i];
      }
      api.Apply(name, Object(row, since));
    }
    assert rows[..|rows|] == rows;
  }

  method DeleteAll(api: Api, names: set<string>)
    modifies api
    ensures api.failures >= old(api.failures)
    ensures forall name | name in api.objects :: name in old(api.objects) && api.objects[name] == old(api.objects)[name]
    ensures old(api.objects).Keys - names <= api.objects.Keys
    ensures api.failures == old(api.failures) ==> api.objects == old(api.objects) - names
    ensures api.failures == old(api.failures) ==> api.changes == old(api.changes) + |names|
  {
    var left := names;
    while left != {}
      invariant left <= names && api.failures >= old(api.failures)
      invariant forall name | name in api.objects ::
        name in old(api.objects) && api.objects[name] == old(api.objects)[name]
      invariant old(api.objects).Keys - names <= api.objects.Keys
      invariant api.failures == old(api.failures) ==> api.objects == old(api.objects) - (names - left)
      invariant api.failures == old(api.failures) ==> api.changes == old(api.changes) + |names| - |left|
      decreases left
    {
      var name :| name in left;
      left := left - {name};
      api.Remove(name);
    }
  }

  // How many objects are written or deleted.
  ghost function Work(digest: string -> string, was: Store, rows: seq<Row>): nat {
    Stale(digest, was, rows, |rows|) + |was.Keys - Names(digest, rows)|
  }

  /** One sync. With no failure the objects are exactly the snapshot; a time is
      kept exactly when the object was there with that state and a time; and
      one object is written or deleted per row or object that is not as it
      should be, and no more. Whatever fails, an object is then as it was or as
      its row wants it, and only one no row wants is gone. */
  method Sync(api: Api, digest: string -> string, rows: seq<Row>, times: seq<string>)
    requires |times| == |rows| && NamesDistinct(digest, rows)
    modifies api
    ensures api.failures >= old(api.failures)
    ensures Underway(digest, old(api.objects), api.objects, rows, times)
    ensures api.failures == old(api.failures) ==> Mirrors(digest, old(api.objects), api.objects, rows, times)
    ensures api.failures == old(api.failures) ==> api.changes == old(api.changes) + Work(digest, old(api.objects), rows)
  {
    hide ObjectName, WrittenTo, NamesDistinct, Names, Mirrors, Stale, Underway;
    NothingWritten(digest, api.objects, rows, times);
    var found := api.ListAll();
    if found.None? {
      return;
    }
    var wanted := WriteRows(api, digest, rows, times, found.value);
    if api.failures == old(api.failures) { MirrorsAtLast(digest, found.value, api.objects, rows, times); }
    ghost var written := api.objects;
    DeleteAll(api, found.value.Keys - wanted);
    UnderwayStill(digest, found.value, written, api.objects, rows, times);
  }

  lemma NothingWritten(digest: string -> string, was: Store, rows: seq<Row>, times: seq<string>)
    requires |times| == |rows|
    ensures WrittenTo(digest, was, was, rows, times, 0) && Names(digest, rows[..0]) == {}
    ensures Underway(digest, was, was, rows, times)
  {
  }

  lemma MirrorsAtLast(digest: string -> string, was: Store, store: Store, rows: seq<Row>, times: seq<string>)
    requires |times| == |rows| && WrittenTo(digest, was, store, rows, times, |rows|)
    ensures Mirrors(digest, was, store - (was.Keys - Names(digest, rows)), rows, times)
  {
  }

  /** Once the store mirrors a snapshot, syncing it again writes and deletes
      nothing and keeps every transition time. */
  lemma SecondSyncIdle(digest: string -> string, was: Store, store: Store, rows: seq<Row>, times: seq<string>,
      later: seq<string>)
    requires |times| == |rows| == |later| && forall t <- times :: t != ""
    requires Mirrors(digest, was, store, rows, times)
    ensures Work(digest, store, rows) == 0
    ensures Mirrors(digest, store, store, rows, later)
  {
    hide ObjectName;
    forall i | 0 <= i < |rows| ensures UpToDate(store, ObjectName(digest, rows[i]), rows[i]) {
      assert rows[i] in rows && times[i] in times;
    }
    NoneStale(digest, store, rows, |rows|);
    assert store.Keys - Names(digest, rows) == {};
  }

  lemma {:induction false} NoneStale(digest: string -> string, store: Store, rows: seq<Row>, n: nat)
    requires n <= |rows| && forall i | 0 <= i < |rows| :: UpToDate(store, ObjectName(digest, rows[i]), rows[i])
    ensures Stale(digest, store, rows, n) == 0
  {
    hide ObjectName;
    if n > 0 { NoneStale(digest, store, rows, n - 1); }
  }

  /** The rows of one snapshot, in strict key order, never share an object. */
  lemma SnapshotNamesDistinct(digest: string -> string, rows: seq<Row>)
    requires CollisionFree(digest, rows) && Ascending(RowKeys(rows)) && forall row <- rows :: CanonicalRow(row)
    ensures NamesDistinct(digest, rows)
  {
    hide ObjectName, KeyLt, KeyLe, CanonicalRow, Identity;
    AscendingSorted(RowKeys(rows));
    forall i, j | 0 <= i < j < |rows| ensures ObjectName(digest, rows[i]) != ObjectName(digest, rows[j]) {
      assert RowKeys(rows)[i] != RowKeys(rows)[j];
      ObjectNameInjective(digest, rows[i], rows[j]);
    }
  }

  // ---------- the rows that are published ----------

  predicate TypedKey(k: RecordKey) {
    IsType(k.rtype) && ToLower(k.name) == k.name
  }

  // Endpoints of types spelled as types are, whether the router holds them or not.
  ghost predicate Typed(o: Observation) {
    match o
    case Records(eps) => forall ep <- eps :: IsType(ep.recordType)
    case Desired(eps, rejections) =>
      (forall ep <- eps :: IsType(ep.recordType)) && forall k <- rejections :: TypedKey(k)
    case Apply(changes, _, _) => forall ep <- changes.Wanted() :: IsType(ep.recordType)
  }

  ghost predicate TypedBoard(b: Board) {
    && (b.actual.Some? ==> forall k <- b.actual.value :: TypedKey(k))
    && (b.desired.Some? ==> forall k <- b.desired.value :: TypedKey(k))
    && (forall k <- b.rejected :: TypedKey(k))
  }

  lemma EndpointTyped(ep: Endpoint)
    requires IsType(ep.recordType)
    ensures TypedKey(EndpointKey(ep))
  {
    CanonicalIsLower(ep.dnsName);
  }

  lemma {:induction false} TargetsTyped(eps: seq<Endpoint>)
    requires forall ep <- eps :: IsType(ep.recordType)
    ensures forall k <- TargetsByKey(eps) :: TypedKey(k)
  {
    hide TypedKey, EndpointKey, IsType;
    if eps != [] {
      TargetsTyped(eps[..|eps| - 1]);
      assert eps[|eps| - 1] in eps;
      EndpointTyped(eps[|eps| - 1]);
    }
  }

  lemma {:induction false} PredictTyped(actual: Targets, wanted: seq<Endpoint>, conflict: map<RecordKey, string>)
    requires forall k <- actual :: TypedKey(k)
    requires forall ep <- wanted :: IsType(ep.recordType)
    ensures forall k <- Predict(actual, wanted, conflict) :: TypedKey(k)
  {
    hide TypedKey, EndpointKey, IsType, Get;
    if wanted != [] {
      PredictTyped(actual, wanted[..|wanted| - 1], conflict);
      assert wanted[|wanted| - 1] in wanted;
      EndpointTyped(wanted[|wanted| - 1]);
    }
  }

  lemma {:induction false} BoardTyped(os: seq<Observation>)
    requires forall o <- os :: Typed(o)
    ensures TypedBoard(ObserveAll(NOTHING, os))
  {
    hide TypedKey, IsType, Predict, MarkConflicts, TargetsByKey;
    if os != [] {
      BoardTyped(os[..|os| - 1]);
      var b, o := ObserveAll(NOTHING, os[..|os| - 1]), os[|os| - 1];
      assert Typed(o);
      match o
      case Records(eps) => TargetsTyped(eps);
      case Desired(eps, _) => TargetsTyped(eps);
      case Apply(changes, skipped, err) =>
        if err.None? && b.actual.Some? {
          var conflict := SeenApply(b, changes, skipped, err).conflict;
          PredictTyped(b.actual.value - KeySet(changes.Withdrawn()), changes.Wanted(), conflict);
        }
    }
  }

  /** So whatever was observed, the snapshot published then can be synced. */
  lemma PublishedCanBeSynced(digest: string -> string, os: seq<Observation>, rows: seq<Row>)
    requires (forall o <- os :: Typed(o)) && Both(ObserveAll(NOTHING, os))
    requires IsSnapshot(ObserveAll(NOTHING, os), rows) && CollisionFree(digest, rows)
    ensures NamesDistinct(digest, rows)
  {
    hide ObserveAll, RowFor, Ascending, CollisionFree, NamesDistinct;
    BoardTyped(os);
    forall row | row in rows ensures CanonicalRow(row) {
      assert RowKeyOf(row) in Known(ObserveAll(NOTHING, os));
    }
    SnapshotNamesDistinct(digest, rows);
  }

  // The endpoints Records() groups are of those types.
  lemma GroupedTyped(m: Index, eps: seq<Endpoint>)
    requires Groups(m, eps)
    ensures Typed(Records(eps))
  {
    hide Groups;
    forall ep | ep in eps ensures IsType(ep.recordType) {
      var i :| 0 <= i < |eps| && eps[i] == ep;
      GroupedTypes(m, eps, i);
    }
  }

  // And so is all that AdjustEndpoints lets through or refuses.
  lemma {:induction false} AdjustedTyped(eps: seq<EndpointRef?>)
    ensures forall k <- Rejections(eps) :: TypedKey(k)
    ensures forall e <- Passing(eps) :: IsType(e.it.recordType)
  {
    hide TypedKey, EndpointKey;
    if eps != [] {
      AdjustedTyped(eps[..|eps| - 1]);
      var e := eps[|eps| - 1];
      if e != null && !Assess(e.it).Unsupported? { EndpointTyped(e.it); }
    }
  }
}
