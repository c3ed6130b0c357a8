/** The graph the indexed CNAMEs span, and what dnsmasq needs of it. */
module Graph {
  import opened Types
  import opened Uci

  // A CNAME whose alias is what looking up `from` finds leads on to `to`.
  ghost predicate Edge(m: Index, from: string, to: string) {
    exists s | s in m :: m[s].rtype.CNAME? && m[s].name == CanonicalName(from) && m[s].value == to
  }

  ghost predicate Path(m: Index, p: seq<string>) {
    |p| > 0 && forall i | 0 <= i < |p| - 1 :: Edge(m, p[i], p[i + 1])
  }

  ghost predicate PathBetween(m: Index, p: seq<string>, a: string, b: string) {
    Path(m, p) && p[0] == a && p[|p| - 1] == b
  }

  ghost predicate Reaches(m: Index, a: string, b: string) {
    exists p :: PathBetween(m, p, a, b)
  }

  ghost predicate Holds(m: Index, t: RecordType, name: string) {
    exists s | s in m :: m[s].rtype == t && m[s].name == name
  }

  // ---------- the three rules ----------

  ghost predicate OneCnamePerAlias(m: Index) {
    forall s, t | s in m && t in m && s != t && m[s].rtype.CNAME? && m[t].rtype.CNAME? ::
      m[s].name != m[t].name
  }

  ghost predicate NoAddressBesideCname(m: Index) {
    forall s, t | s in m && t in m && m[s].rtype.A? && m[t].rtype.CNAME? :: m[s].name != m[t].name
  }

  ghost predicate Acyclic(m: Index) {
    forall p | Path(m, p) && |p| > 1 :: p[0] != p[|p| - 1]
  }

  /** dnsmasq starts on these sections and answers every one of them. */
  ghost predicate Safe(m: Index) {
    OneCnamePerAlias(m) && NoAddressBesideCname(m) && Acyclic(m)
  }

  // ---------- paths ----------

  // Every CNAME of m is one of n, sections and owners aside.
  ghost predicate FewerEdges(m: Index, n: Index) {
    forall s | s in m && m[s].rtype.CNAME? ::
      exists t | t in n :: n[t].rtype.CNAME? && n[t].name == m[s].name && n[t].value == m[s].value
  }

  lemma PathKept(m: Index, n: Index, p: seq<string>)
    requires FewerEdges(m, n) && Path(m, p)
    ensures Path(n, p)
  {
  }

  lemma ReachKept(m: Index, n: Index, a: string, b: string)
    requires FewerEdges(m, n) && Reaches(m, a, b)
    ensures Reaches(n, a, b)
  {
    var p :| PathBetween(m, p, a, b);
    PathKept(m, n, p);
    assert PathBetween(n, p, a, b);
  }

  lemma AcyclicKept(m: Index, n: Index)
    requires FewerEdges(m, n) && Acyclic(n)
    ensures Acyclic(m)
  {
  }

  lemma ReachStep(m: Index, a: string, b: string, c: string)
    requires Reaches(m, a, b) && Edge(m, b, c)
    ensures Reaches(m, a, c)
  {
    var p :| PathBetween(m, p, a, b);
    assert PathBetween(m, p + [c], a, c);
  }

  lemma ReachSelf(m: Index, a: string)
    ensures Reaches(m, a, a)
  {
    assert PathBetween(m, [a], a, a);
  }

  // A set of names that holds the start and every way on holds all a path visits.
  lemma {:induction false} ClosedUnderEdges(m: Index, inside: set<string>, p: seq<string>)
    requires Path(m, p) && p[0] in inside
    requires forall a, b | a in inside && Edge(m, a, b) :: b in inside
    ensures p[|p| - 1] in inside
  {
    if |p| > 1 {
      assert Edge(m, p[0], p[1]);
      assert Path(m, p[1..]) by {
        forall i | 0 <= i < |p| - 2 ensures Edge(m, p[1..][i], p[1..][i + 1]) {
          assert Edge(m, p[i + 1], p[i + 2]);
        }
      }
      ClosedUnderEdges(m, inside, p[1..]);
    }
  }

  // ---------- one more edge ----------

  // n has the CNAMEs of m and one more, from alias to target.
  ghost predicate OneMore(m: Index, n: Index, alias: string, target: string) {
    forall a, b | Edge(n, a, b) :: Edge(m, a, b) || (CanonicalName(a) == alias && b == target)
  }

  // Where a path from target to alias uses the new edge, its end does without.
  lemma {:induction false} Shortcut(m: Index, n: Index, alias: string, target: string, p: seq<string>)
    requires OneMore(m, n, alias, target) && Path(n, p) && p[0] == target
    ensures Reaches(m, target, p[|p| - 1])
    decreases |p|
  {
    if i :| 0 <= i < |p| - 1 && !Edge(m, p[i], p[i + 1]) {
      assert Edge(n, p[i], p[i + 1]) && p[i + 1] == target;
      var q := p[i + 1..];
      forall j | 0 <= j < |q| - 1 ensures Edge(n, q[j], q[j + 1]) {
        assert Edge(n, p[i + 1 + j], p[i + 1 + j + 1]);
      }
      Shortcut(m, n, alias, target, q);
    } else {
      assert PathBetween(m, p, target, p[|p| - 1]);
    }
  }

  // What a cycle through the new edge leaves is a path from target to the edge's start.
  lemma Rotate(n: Index, p: seq<string>, i: nat)
    requires Path(n, p) && i < |p| - 1 && p[0] == p[|p| - 1]
    ensures PathBetween(n, p[i + 1..] + p[1..i + 1], p[i + 1], p[i])
  {
  }

  /** Adding a CNAME keeps the graph free of loops when its alias, by any
      spelling, was not to be reached from its target. */
  lemma AcyclicExtended(m: Index, n: Index, alias: string, target: string)
    requires Acyclic(m) && OneMore(m, n, alias, target)
    requires forall a | CanonicalName(a) == alias :: !Reaches(m, target, a)
    ensures Acyclic(n)
  {
    forall p | Path(n, p) && |p| > 1 ensures p[0] != p[|p| - 1] {
      if p[0] == p[|p| - 1] {
        if i :| 0 <= i < |p| - 1 && !Edge(m, p[i], p[i + 1]) {
          assert Edge(n, p[i], p[i + 1]);
          Rotate(n, p, i);
          Shortcut(m, n, alias, target, p[i + 1..] + p[1..i + 1]);
        } else {
          assert Path(m, p);
        }
        assert false;
      }
    }
  }
}
