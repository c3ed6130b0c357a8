/** Records, their canonical spelling and their identity (pkg/openwrt/types.go). */
module Types {
  datatype Option<+T> = None | Some(value: T)

  datatype RecordType = A | CNAME

  datatype Record = Record(rtype: RecordType, name: string, value: string, owner: string)

  // ---------- canonical names ----------

  predicate IsSpace(c: char) {
    c == ' ' || 9 as char <= c <= 13 as char
  }

  function LowerChar(c: char): char {
    if 'A' <= c <= 'Z' then (c as int + 32) as char else c
  }

  function ToLower(s: string): string {
    seq(|s|, i requires 0 <= i < |s| => LowerChar(s[i]))
  }

  function TrimLeft(s: string): string {
    if s != [] && IsSpace(s[0]) then TrimLeft(s[1..]) else s
  }

  function TrimRight(s: string): string {
    if s != [] && IsSpace(s[|s| - 1]) then TrimRight(s[..|s| - 1]) else s
  }

  predicate EndsInDot(s: string) {
    s != [] && s[|s| - 1] == '.'
  }

  function TrimDot(s: string): string {
    if EndsInDot(s) then s[..|s| - 1] else s
  }

  function CanonicalName(name: string): string {
    ToLower(TrimDot(TrimLeft(TrimRight(name))))
  }

  function Canonical(r: Record): Record {
    r.(name := CanonicalName(r.name),
       value := if r.rtype.CNAME? then CanonicalName(r.value) else r.value)
  }

  function TypeName(t: RecordType): string {
    match t
    case A => "A"
    case CNAME => "CNAME"
  }

  // The identity of a record: its type and both canonical sides.
  function Key(r: Record): string {
    var c := Canonical(r);
    TypeName(c.rtype) + "|" + c.name + "|" + c.value
  }

  // Canonicalising what is canonical already changes nothing more.
  predicate Stable(r: Record) {
    Canonical(Canonical(r)) == Canonical(r)
  }

  // ---------- validation ----------

  datatype Invalid = NameRequired | ValueRequired | NameBreaks | ValueBreaks
                   | NameTooLong | ValueTooLong | NotIPv4

  predicate BreaksDnsmasq(c: char) {
    c <= ' ' || c >= 0x7f as char || c == ',' || c == '"' || c == '#'
  }

  function Split(s: string, sep: char): (parts: seq<string>)
    ensures |parts| > 0
  {
    if s == [] then [[]]
    else
      var rest := Split(s[1..], sep);
      if s[0] == sep then [[]] + rest else [[s[0]] + rest[0]] + rest[1..]
  }

  predicate TooLong(name: string) {
    |name| > 253 || exists part <- Split(name, '.') :: |part| > 63
  }

  predicate IsDigit(c: char) {
    '0' <= c <= '9'
  }

  predicate IsOctet(s: string) {
    && 1 <= |s| <= 3
    && (forall c <- s :: IsDigit(c))
    && (|s| > 1 ==> s[0] != '0')
    && (|s| == 3 ==> s[0] < '2' || (s[0] == '2' && (s[1] < '5' || (s[1] == '5' && s[2] <= '5'))))
  }

  // A dotted quad, the only text netip.ParseAddr reads as an IPv4 address.
  predicate IsIPv4(s: string) {
    var octets := Split(s, '.');
    |octets| == 4 && forall o <- octets :: IsOctet(o)
  }

  function Validate(r: Record): Option<Invalid> {
    var c := Canonical(r);
    if c.name == "" then Some(NameRequired)
    else if c.value == "" then Some(ValueRequired)
    else if exists ch <- c.name :: BreaksDnsmasq(ch) then Some(NameBreaks)
    else if exists ch <- c.value :: BreaksDnsmasq(ch) then Some(ValueBreaks)
    else if TooLong(c.name) then Some(NameTooLong)
    else if TooLong(c.value) then Some(ValueTooLong)
    else if r.rtype.A? && !IsIPv4(c.value) then Some(NotIPv4)
    else None
  }

  predicate Valid(r: Record) {
    Validate(r).None?
  }

  // ---------- what the canonical spelling keeps ----------

  lemma {:induction false} TrimLeftHead(s: string)
    ensures TrimLeft(s) == [] || !IsSpace(TrimLeft(s)[0])
    ensures |TrimLeft(s)| <= |s| && TrimLeft(s) == s[|s| - |TrimLeft(s)|..]
  {
    if s != [] && IsSpace(s[0]) { TrimLeftHead(s[1..]); }
  }

  // A name free of white space is canonical exactly when it is lower-case
  // and does not end in a dot.
  lemma CanonicalFixpoint(s: string)
    requires forall c <- s :: !IsSpace(c)
    requires ToLower(s) == s
    ensures CanonicalName(s) == s <==> !EndsInDot(s)
  {
  }

  lemma CanonicalIsLower(s: string)
    ensures ToLower(CanonicalName(s)) == CanonicalName(s)
  {
  }

  /** A record Validate accepts is stable exactly when neither canonical name
      still ends in a dot: the condition a caller can check. */
  lemma ValidStability(r: Record)
    requires Valid(r)
    ensures Stable(r) <==> !EndsInDot(Canonical(r).name) && (r.rtype.CNAME? ==> !EndsInDot(Canonical(r).value))
  {
    var c := Canonical(r);
    assert forall ch <- c.name :: !BreaksDnsmasq(ch);
    assert forall ch <- c.value :: !BreaksDnsmasq(ch);
    CanonicalIsLower(r.name);
    CanonicalFixpoint(c.name);
    if r.rtype.CNAME? {
      CanonicalIsLower(r.value);
      CanonicalFixpoint(c.value);
    }
  }

  lemma CanonicalNoLonger(s: string)
    ensures |CanonicalName(s)| <= |s|
  {
    TrimRightShortens(s);
    TrimLeftHead(TrimRight(s));
  }

  lemma {:induction false} TrimRightShortens(s: string)
    ensures |TrimRight(s)| <= |s| && TrimRight(s) == s[..|TrimRight(s)|]
  {
    if s != [] && IsSpace(s[|s| - 1]) { TrimRightShortens(s[..|s| - 1]); }
  }

  // A lower-case name that is not canonical gets shorter.
  lemma CanonicalShrinks(s: string)
    requires ToLower(s) == s && CanonicalName(s) != s
    ensures |CanonicalName(s)| < |s|
  {
    TrimRightShortens(s);
    TrimLeftHead(TrimRight(s));
  }

  /** Canonicalising twice more brings a valid record's canonical form back
      only if it was stable. */
  lemma ThriceCanonical(r: Record)
    requires Valid(r)
    ensures Canonical(Canonical(Canonical(r))) == Canonical(r) <==> Stable(r)
  {
    var c := Canonical(r);
    assert forall ch <- c.name :: !BreaksDnsmasq(ch);
    assert forall ch <- c.value :: !BreaksDnsmasq(ch);
    ShrinkForGood(r.name);
    if r.rtype.CNAME? { ShrinkForGood(r.value); }
  }

  lemma ShrinkForGood(s: string)
    requires forall c <- CanonicalName(s) :: !IsSpace(c)
    ensures CanonicalName(CanonicalName(CanonicalName(s))) == CanonicalName(s) <==>
            CanonicalName(CanonicalName(s)) == CanonicalName(s)
  {
  }

  lemma StableKey(r: Record)
    requires Stable(r)
    ensures Key(Canonical(r)) == Key(r)
  {
  }

  lemma OwnerIsNoKey(r: Record, id: string)
    ensures Key(r.(owner := id)) == Key(r)
  {
  }

  // ---------- identity ----------

  // A canonical name that Key can be cut apart at again.
  predicate PipeFree(r: Record) {
    '|' !in Canonical(r).name
  }

  ghost predicate SameIdentity(r: Record, q: Record) {
    var c, d := Canonical(r), Canonical(q);
    c.rtype == d.rtype && c.name == d.name && c.value == d.value
  }

  lemma CutUnique(a: string, b: string, x: string, y: string)
    requires '|' !in a && '|' !in x
    requires a + "|" + b == x + "|" + y
    ensures a == x && b == y
  {
    var t := a + "|" + b;
    assert t[|a|] == '|' && t[|x|] == '|';
    assert a == t[..|a|] && x == t[..|x|];
    assert b == t[|a| + 1..] && y == t[|x| + 1..];
  }

  /** For names without a pipe, equal keys mean equal type, name and value. */
  lemma KeyInjective(r: Record, q: Record)
    requires PipeFree(r) && PipeFree(q)
    ensures Key(r) == Key(q) <==> SameIdentity(r, q)
  {
    var c, d := Canonical(r), Canonical(q);
    if Key(r) == Key(q) {
      JoinUnique(c.rtype, c.name, c.value, d.rtype, d.name, d.value);
    }
  }

  lemma JoinUnique(t: RecordType, n: string, v: string, u: RecordType, m: string, w: string)
    requires '|' !in n && '|' !in m
    requires TypeName(t) + "|" + n + "|" + v == TypeName(u) + "|" + m + "|" + w
    ensures t == u && n == m && v == w
  {
    assert TypeName(t) + "|" + n + "|" + v == TypeName(t) + "|" + (n + "|" + v);
    assert TypeName(u) + "|" + m + "|" + w == TypeName(u) + "|" + (m + "|" + w);
    CutUnique(TypeName(t), n + "|" + v, TypeName(u), m + "|" + w);
    CutUnique(n, v, m, w);
  }

  // A name typed with one more dot is canonical in what is left.
  lemma CanonicalDotted(s: string)
    requires ToLower(s) == s && (s == [] || !IsSpace(s[0]))
    ensures CanonicalName(s + ".") == s
  {
  }

  lemma {:induction false} FirstPipe(s: string) returns (k: nat)
    requires '|' in s
    ensures k < |s| && s[k] == '|' && '|' !in s[..k]
  {
    if s[0] == '|' {
      k := 0;
    } else {
      k := FirstPipe(s[1..]);
      k := k + 1;
      assert s[..k] == [s[0]] + s[1..][..k - 1];
    }
  }

  lemma {:induction false} Longest(names: set<string>) returns (len: nat)
    ensures forall n <- names :: |n| <= len
  {
    if names == {} {
      len := 0;
    } else {
      var n :| n in names;
      len := Longest(names - {n});
      len := if len < |n| then |n| else len;
    }
  }
}
