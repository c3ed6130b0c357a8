/** The orders the program sorts by, and what sorting by them gives. */
module Order {

  // The identity of a row: canonical name and record type.
  datatype RecordKey = RecordKey(name: string, rtype: string)

  predicate StrLe(a: string, b: string) {
    a == [] || (b != [] && (a[0] < b[0] || (a[0] == b[0] && StrLe(a[1..], b[1..]))))
  }

  predicate StrLt(a: string, b: string) {
    a != b && StrLe(a, b)
  }

  predicate KeyLt(a: RecordKey, b: RecordKey) {
    if a.name != b.name then StrLt(a.name, b.name) else StrLt(a.rtype, b.rtype)
  }

  predicate KeyLe(a: RecordKey, b: RecordKey) {
    a == b || KeyLt(a, b)
  }

  lemma {:induction false} StrTotal(a: string, b: string)
    ensures StrLe(a, b) || StrLe(b, a)
    ensures StrLe(a, b) && StrLe(b, a) ==> a == b
  {
    if a != [] && b != [] {
      StrTotal(a[1..], b[1..]);
      assert a == [a[0]] + a[1..] && b == [b[0]] + b[1..];
    }
  }

  lemma {:induction false} StrTransitive(a: string, b: string, c: string)
    requires StrLe(a, b) && StrLe(b, c)
    ensures StrLe(a, c)
  {
    if a != [] && a[0] == b[0] == c[0] { StrTransitive(a[1..], b[1..], c[1..]); }
  }

  lemma KeyTotal(a: RecordKey, b: RecordKey)
    ensures KeyLe(a, b) || KeyLe(b, a)
    ensures KeyLe(a, b) && KeyLe(b, a) ==> a == b
  {
    StrTotal(a.name, b.name);
    StrTotal(a.rtype, b.rtype);
  }

  lemma KeyTransitive(a: RecordKey, b: RecordKey, c: RecordKey)
    requires KeyLe(a, b) && KeyLe(b, c)
    ensures KeyLe(a, c)
  {
    hide StrLe;
    if a != b && b != c {
      if a.name == b.name == c.name {
        StrTransitive(a.rtype, b.rtype, c.rtype);
        StrTotal(a.rtype, b.rtype);
      } else if a.name != b.name && b.name != c.name {
        StrTransitive(a.name, b.name, c.name);
        StrTotal(a.name, b.name);
      }
    }
  }

  // ---------- sorting ----------

  ghost predicate Preorders<T(!new)>(le: (T, T) -> bool) {
    && (forall a, b :: le(a, b) || le(b, a))
    && (forall a, b, c :: le(a, b) && le(b, c) ==> le(a, c))
  }

  ghost predicate Orders<T(!new)>(le: (T, T) -> bool) {
    Preorders(le) && forall a, b :: le(a, b) && le(b, a) ==> a == b
  }

  ghost predicate Sorted<T>(xs: seq<T>, le: (T, T) -> bool) {
    forall i, j | 0 <= i < j < |xs| :: le(xs[i], xs[j])
  }

  // Where x goes among sorted elements.
  function Insert<T>(x: T, xs: seq<T>, le: (T, T) -> bool): seq<T> {
    if xs == [] || le(x, xs[0]) then [x] + xs else [xs[0]] + Insert(x, xs[1..], le)
  }

  // What the library sorts return: the same elements, in order.
  function Sort<T>(xs: seq<T>, le: (T, T) -> bool): seq<T> {
    if xs == [] then [] else Insert(xs[0], Sort(xs[1..], le), le)
  }

  lemma {:induction false} InsertSorted<T(!new)>(x: T, xs: seq<T>, le: (T, T) -> bool)
    requires Preorders(le) && Sorted(xs, le)
    ensures Sorted(Insert(x, xs, le), le)
    ensures multiset(Insert(x, xs, le)) == multiset(xs) + multiset{x}
  {
    if xs != [] {
      assert xs == [xs[0]] + xs[1..];
      if !le(x, xs[0]) {
        SortedTail(xs, le);
        InsertSorted(x, xs[1..], le);
        var rest := Insert(x, xs[1..], le);
        forall y | y in rest ensures le(xs[0], y) {
          assert y in multiset(rest);
          assert y == x || y in xs[1..];
        }
      } else {
        forall y | y in xs ensures le(x, y) {
          assert y == xs[0] || le(xs[0], y);
        }
      }
    }
  }

  lemma {:induction false} SortSorts<T(!new)>(xs: seq<T>, le: (T, T) -> bool)
    requires Preorders(le)
    ensures Sorted(Sort(xs, le), le) && multiset(Sort(xs, le)) == multiset(xs)
  {
    if xs != [] {
      SortSorts(xs[1..], le);
      InsertSorted(xs[0], Sort(xs[1..], le), le);
      assert xs == [xs[0]] + xs[1..];
    }
  }

  lemma SortedTail<T(!new)>(xs: seq<T>, le: (T, T) -> bool)
    requires Sorted(xs, le) && xs != []
    ensures Sorted(xs[1..], le)
  {
  }

  // Where two sorted listings agree up to i, neither goes on with less.
  lemma NotBefore<T(!new)>(xs: seq<T>, ys: seq<T>, le: (T, T) -> bool, i: nat)
    requires Sorted(ys, le) && Preorders(le) && i < |xs| == |ys| && xs[..i] == ys[..i]
    requires multiset(xs) == multiset(ys)
    ensures le(ys[i], xs[i])
  {
    assert xs == xs[..i] + xs[i..] && ys == ys[..i] + ys[i..];
    assert multiset(xs[i..]) == multiset(xs) - multiset(xs[..i]);
    assert multiset(ys[i..]) == multiset(ys) - multiset(ys[..i]);
    assert xs[i] == xs[i..][0] && xs[i] in multiset(xs[i..]);
    assert xs[i] in ys[i..];
    assert le(ys[i], ys[i]);
  }

  lemma {:induction false} AgreeUpTo<T(!new)>(xs: seq<T>, ys: seq<T>, le: (T, T) -> bool, i: nat)
    requires Orders(le) && Sorted(xs, le) && Sorted(ys, le) && multiset(xs) == multiset(ys)
    requires i <= |xs| == |ys|
    ensures xs[..i] == ys[..i]
  {
    hide Sorted;
    if i > 0 {
      AgreeUpTo(xs, ys, le, i - 1);
      NotBefore(xs, ys, le, i - 1);
      NotBefore(ys, xs, le, i - 1);
      assert xs[..i] == xs[..i - 1] + [xs[i - 1]] && ys[..i] == ys[..i - 1] + [ys[i - 1]];
    }
  }

  /** An order leaves one way to list given elements. */
  lemma OneListing<T(!new)>(xs: seq<T>, ys: seq<T>, le: (T, T) -> bool)
    requires Orders(le) && Sorted(xs, le) && Sorted(ys, le) && multiset(xs) == multiset(ys)
    ensures xs == ys
  {
    assert |multiset(xs)| == |multiset(ys)|;
    AgreeUpTo(xs, ys, le, |xs|);
    assert xs[..|xs|] == xs && ys[..|xs|] == ys;
  }

  // No two elements of a list have the same key.
  ghost predicate DistinctBy<T, K(!new)>(xs: seq<T>, key: T -> K) {
    forall i, j | 0 <= i < j < |xs| :: key(xs[i]) != key(xs[j])
  }

  lemma TwiceCounts<T>(xs: seq<T>, i: nat, j: nat)
    requires i < j < |xs| && xs[i] == xs[j]
    ensures multiset(xs)[xs[i]] >= 2
  {
    assert xs == xs[..i] + [xs[i]] + xs[i + 1..j] + [xs[j]] + xs[j + 1..];
  }

  lemma {:induction false} OnceCounts<T, K(!new)>(xs: seq<T>, key: T -> K, x: T)
    requires DistinctBy(xs, key)
    ensures multiset(xs)[x] <= 1
  {
    if xs != [] {
      OnceCounts(xs[1..], key, x);
      assert xs == [xs[0]] + xs[1..];
      if xs[0] == x { assert x !in xs[1..]; }
    }
  }

  // Rearranging keeps the members, and keys distinct.
  lemma Rearranged<T, K(!new)>(xs: seq<T>, ys: seq<T>, key: T -> K)
    requires multiset(xs) == multiset(ys) && DistinctBy(xs, key)
    ensures DistinctBy(ys, key)
    ensures forall x :: x in ys <==> x in xs
  {
    forall x ensures x in ys <==> x in xs {
      assert x in ys <==> x in multiset(ys);
      assert x in xs <==> x in multiset(xs);
    }
    forall i, j | 0 <= i < j < |ys| ensures key(ys[i]) != key(ys[j]) {
      assert ys[i] in xs && ys[j] in xs;
      if ys[i] == ys[j] {
        TwiceCounts(ys, i, j);
        OnceCounts(xs, key, ys[i]);
      }
    }
  }

  lemma StringsOrder()
    ensures Orders(StrLe)
  {
    hide StrLe;
    forall a, b ensures StrLe(a, b) || StrLe(b, a) { StrTotal(a, b); }
    forall a, b | StrLe(a, b) && StrLe(b, a) ensures a == b { StrTotal(a, b); }
    forall a, b, c | StrLe(a, b) && StrLe(b, c) ensures StrLe(a, c) { StrTransitive(a, b, c); }
  }

  lemma KeysOrder()
    ensures Orders(KeyLe)
  {
    hide KeyLe;
    forall a, b ensures KeyLe(a, b) || KeyLe(b, a) { KeyTotal(a, b); }
    forall a, b | KeyLe(a, b) && KeyLe(b, a) ensures a == b { KeyTotal(a, b); }
    forall a, b, c | KeyLe(a, b) && KeyLe(b, c) ensures KeyLe(a, c) { KeyTransitive(a, b, c); }
  }

  // ---------- targets ----------

  function SortedTargets(targets: seq<string>): (sorted: seq<string>)
    ensures Sorted(sorted, StrLe) && multiset(sorted) == multiset(targets) && |sorted| == |targets|
  {
    StringsOrder();
    SortSorts(targets, StrLe);
    assert |multiset(Sort(targets, StrLe))| == |multiset(targets)|;
    Sort(targets, StrLe)
  }

  lemma SortedTargetsUnique(xs: seq<string>, ys: seq<string>)
    requires Sorted(xs, StrLe) && multiset(xs) == multiset(ys)
    ensures xs == SortedTargets(ys)
  {
    StringsOrder();
    OneListing(xs, SortedTargets(ys), StrLe);
  }

  // ---------- rows in strict order ----------

  ghost predicate Ascending(keys: seq<RecordKey>) {
    forall i, j | 0 <= i < j < |keys| :: KeyLt(keys[i], keys[j])
  }

  lemma SortedDistinctAscends(keys: seq<RecordKey>)
    requires Sorted(keys, KeyLe) && forall i, j | 0 <= i < j < |keys| :: keys[i] != keys[j]
    ensures Ascending(keys)
  {
  }

  lemma AscendingSorted(keys: seq<RecordKey>)
    requires Ascending(keys)
    ensures Sorted(keys, KeyLe)
    ensures forall i, j | 0 <= i < j < |keys| :: keys[i] != keys[j]
  {
  }

  // A list without repetitions holds each element once.
  lemma {:induction false} DistinctOnce(keys: seq<RecordKey>, k: RecordKey)
    requires forall i, j | 0 <= i < j < |keys| :: keys[i] != keys[j]
    ensures multiset(keys)[k] == if k in keys then 1 else 0
  {
    if keys != [] {
      assert keys == [keys[0]] + keys[1..];
      DistinctOnce(keys[1..], k);
    }
  }

  /** Keys in strict order are determined by which they are. */
  lemma AscendingUnique(xs: seq<RecordKey>, ys: seq<RecordKey>)
    requires Ascending(xs) && Ascending(ys) && forall k :: k in xs <==> k in ys
    ensures xs == ys
  {
    hide KeyLt, KeyLe;
    AscendingSorted(xs);
    AscendingSorted(ys);
    forall k ensures multiset(xs)[k] == multiset(ys)[k] {
      DistinctOnce(xs, k);
      DistinctOnce(ys, k);
    }
    assert multiset(xs) == multiset(ys);
    KeysOrder();
    OneListing(xs, ys, KeyLe);
  }
}
