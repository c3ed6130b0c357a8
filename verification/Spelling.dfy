/** What canonical names and validation mean, character by character. */
module Spelling {
  import opened Types

  // ---------- one name, however typed ----------

  // The same letter, small or capital, or the same other character.
  predicate SameLetter(c: char, d: char) {
    || c == d
    || ('A' <= c <= 'Z' && d as int == c as int + 32)
    || ('A' <= d <= 'Z' && c as int == d as int + 32)
  }

  ghost predicate SameLetters(s: string, t: string) {
    |s| == |t| && forall i | 0 <= i < |s| :: SameLetter(s[i], t[i])
  }

  lemma LowerExactly(s: string, t: string)
    ensures ToLower(s) == ToLower(t) <==> SameLetters(s, t)
  {
    assert |ToLower(s)| == |s| && |ToLower(t)| == |t|;
    if ToLower(s) == ToLower(t) {
      forall i | 0 <= i < |s| ensures SameLetter(s[i], t[i]) {
        assert ToLower(s)[i] == ToLower(t)[i];
      }
    }
  }

  ghost predicate Blank(s: string) {
    forall c <- s :: IsSpace(c)
  }

  // No white space at either end, and no final dot.
  predicate Trim(s: string) {
    s != [] && !IsSpace(s[0]) && !IsSpace(s[|s| - 1]) && s[|s| - 1] != '.'
  }

  lemma {:induction false} LeftBlank(l: string, s: string)
    requires Blank(l) && (s == [] || !IsSpace(s[0]))
    ensures TrimLeft(l + s) == s
  {
    if l == [] {
      assert l + s == s;
    } else {
      assert (l + s)[1..] == l[1..] + s && (l + s)[0] in l;
      LeftBlank(l[1..], s);
    }
  }

  lemma {:induction false} RightBlank(s: string, r: string)
    requires Blank(r) && (s == [] || !IsSpace(s[|s| - 1]))
    ensures TrimRight(s + r) == s
  {
    if r == [] {
      assert s + r == s;
    } else {
      var t := s + r;
      assert t[|t| - 1] == r[|r| - 1] && r[|r| - 1] in r;
      assert t[..|t| - 1] == s + r[..|r| - 1];
      RightBlank(s, r[..|r| - 1]);
    }
  }

  /** White space around a name and one dot at its end make no other name. */
  lemma TypedAround(l: string, s: string, dot: bool, r: string)
    requires Blank(l) && Blank(r) && Trim(s)
    ensures CanonicalName(l + s + (if dot then "." else "") + r) == ToLower(s)
  {
    var t := s + if dot then "." else "";
    assert l + s + (if dot then "." else "") + r == (l + t) + r;
    RightBlank(l + t, r);
    LeftBlank(l, t);
    assert TrimDot(t) == s;
  }

  /** Two names differ in nothing but case exactly when they are canonically one. */
  lemma SameNameExactly(s: string, t: string)
    requires Trim(s) && Trim(t)
    ensures CanonicalName(s) == CanonicalName(t) <==> SameLetters(s, t)
  {
    TypedAround("", s, false, "");
    TypedAround("", t, false, "");
    assert "" + s + "" + "" == s && "" + t + "" + "" == t;
    LowerExactly(s, t);
  }

  /** So records typed so are one record: they have one key. */
  lemma SameKey(r: Record, q: Record)
    requires r.rtype == q.rtype && Trim(r.name) && Trim(q.name) && SameLetters(r.name, q.name)
    requires r.rtype.CNAME? ==> Trim(r.value) && Trim(q.value) && SameLetters(r.value, q.value)
    requires r.rtype.A? ==> r.value == q.value
    ensures Key(r) == Key(q)
  {
    SameNameExactly(r.name, q.name);
    if r.rtype.CNAME? { SameNameExactly(r.value, q.value); }
    hide CanonicalName;
  }

  // ---------- labels ----------

  // n characters of s from i on, none of them the separator.
  predicate RunAt(s: string, i: nat, n: nat, sep: char) {
    i + n <= |s| && sep !in s[i..i + n]
  }

  lemma {:induction false} PartIsRun(s: string, sep: char, part: string) returns (i: nat)
    requires part in Split(s, sep)
    ensures RunAt(s, i, |part|, sep) && s[i..i + |part|] == part
  {
    i := 0;
    if s != [] {
      var rest := Split(s[1..], sep);
      if s[0] == sep && part !in rest {
        assert s[0..0] == part;
      } else if s[0] != sep && part !in rest[1..] {
        FirstPart(s, sep);
        assert part == Split(s, sep)[0];
        assert s[0..|part|] == part;
      } else {
        var j := PartIsRun(s[1..], sep, part);
        i := j + 1;
        assert s[i..i + |part|] == s[1..][j..j + |part|];
      }
    }
  }

  lemma {:induction false} FirstPart(s: string, sep: char)
    ensures var p := Split(s, sep)[0]; |p| <= |s| && s[..|p|] == p && sep !in p
  {
    if s != [] && s[0] != sep {
      FirstPart(s[1..], sep);
      var q := Split(s[1..], sep)[0];
      assert s[..|q| + 1] == [s[0]] + s[1..][..|q|];
    }
  }

  // A run without the separator lies in one part.
  lemma {:induction false} RunInPart(s: string, sep: char, i: nat, n: nat)
    requires i + n <= |s| && sep !in s[i..i + n]
    ensures exists part <- Split(s, sep) :: |part| >= n && (i == 0 ==> part == Split(s, sep)[0])
  {
    if s == [] || (i == 0 && n == 0) {
      assert Split(s, sep)[0] in Split(s, sep);
    } else {
      var rest := Split(s[1..], sep);
      if i > 0 {
        assert s[1..][i - 1..i - 1 + n] == s[i..i + n];
        RunInPart(s[1..], sep, i - 1, n);
        var part :| part in rest && |part| >= n;
        Grown(s, sep, part);
      } else {
        assert s[0..n][0] == s[0];
        assert s[1..][0..n - 1] == s[0..n][1..];
        RunInPart(s[1..], sep, 0, n - 1);
        assert Split(s, sep)[0] == [s[0]] + rest[0];
        assert Split(s, sep)[0] in Split(s, sep);
      }
    }
  }

  // A part of the rest is, or begins in, a part of the whole.
  lemma Grown(s: string, sep: char, part: string)
    requires s != [] && part in Split(s[1..], sep)
    ensures exists p <- Split(s, sep) :: |p| >= |part|
  {
    var rest, all := Split(s[1..], sep), Split(s, sep);
    var i :| 0 <= i < |rest| && rest[i] == part;
    if s[0] == sep {
      assert all[i + 1] == part;
    } else if i == 0 {
      assert all[0] == [s[0]] + part;
    } else {
      assert all[i] == part;
    }
  }

  /** A name is too long for DNS exactly when it has more than 253 characters,
      or 64 in a row without a dot. */
  lemma TooLongExactly(s: string)
    ensures TooLong(s) <==> |s| > 253 || exists i: nat :: RunAt(s, i, 64, '.')
  {
    if part :| part in Split(s, '.') && |part| > 63 {
      var i := PartIsRun(s, '.', part);
      assert s[i..i + 64] == part[..64];
      assert RunAt(s, i, 64, '.');
    }
    if i: nat :| RunAt(s, i, 64, '.') {
      RunInPart(s, '.', i, 64);
    }
  }

  // ---------- addresses ----------

  function Digit(n: nat): char
    requires n < 10
  {
    ('0' as int + n) as char
  }

  function Decimal(n: nat): string {
    if n < 10 then [Digit(n)] else Decimal(n / 10) + [Digit(n % 10)]
  }

  function DigitValue(c: char): nat
    requires IsDigit(c)
  {
    c as int - '0' as int
  }

  /** An octet is what a number up to 255 is written as. */
  lemma OctetExactly(s: string)
    ensures IsOctet(s) <==> exists n | 0 <= n <= 255 :: s == Decimal(n)
  {
    if IsOctet(s) {
      assert forall i | 0 <= i < |s| :: s[i] in s;
      var n := OctetValue(s);
      assert s == Decimal(n);
    }
    if n :| 0 <= n <= 255 && s == Decimal(n) {
      ShortDecimal(n);
    }
  }

  lemma OctetValue(s: string) returns (n: nat)
    requires IsOctet(s)
    ensures n <= 255 && s == Decimal(n)
  {
    assert forall i | 0 <= i < |s| :: s[i] in s;
    if |s| == 1 {
      n := DigitValue(s[0]);
    } else if |s| == 2 {
      n := 10 * DigitValue(s[0]) + DigitValue(s[1]);
      assert Decimal(n / 10) == [s[0]];
    } else {
      n := 100 * DigitValue(s[0]) + 10 * DigitValue(s[1]) + DigitValue(s[2]);
      var tens := n / 10;
      assert tens == 10 * DigitValue(s[0]) + DigitValue(s[1]);
      assert Decimal(tens / 10) == [s[0]];
      assert Decimal(tens) == [s[0], s[1]];
    }
  }

  lemma ShortDecimal(n: nat)
    requires n <= 255
    ensures IsOctet(Decimal(n))
  {
    if n >= 100 {
      assert Decimal(n / 100) == [Digit(n / 100)];
      assert Decimal(n / 10) == [Digit(n / 100), Digit(n / 10 % 10)];
    } else if n >= 10 {
      assert Decimal(n / 10) == [Digit(n / 10)];
    }
  }

  lemma {:induction false} SplitNone(s: string, sep: char)
    requires sep !in s
    ensures Split(s, sep) == [s]
  {
    if s != [] {
      SplitNone(s[1..], sep);
      assert [s[0]] + s[1..] == s;
    }
  }

  lemma {:induction false} SplitFirst(a: string, b: string, sep: char)
    requires sep !in a
    ensures Split(a + [sep] + b, sep) == [a] + Split(b, sep)
  {
    if a != [] {
      SplitFirst(a[1..], b, sep);
      assert (a + [sep] + b)[1..] == a[1..] + [sep] + b;
      var rest := Split(a[1..] + [sep] + b, sep);
      assert rest[0] == a[1..] && rest[1..] == Split(b, sep);
      assert [a[0]] + a[1..] == a;
    } else {
      assert (a + [sep] + b)[1..] == b;
    }
  }

  // The first part, cut off with its separator, leaves the rest.
  lemma {:induction false} SplitBack(s: string, sep: char) returns (b: string)
    requires |Split(s, sep)| > 1
    ensures s == Split(s, sep)[0] + [sep] + b && Split(b, sep) == Split(s, sep)[1..]
  {
    var rest := Split(s[1..], sep);
    if s[0] == sep {
      b := s[1..];
      assert s == [] + [sep] + b;
    } else {
      b := SplitBack(s[1..], sep);
      assert s == [s[0]] + s[1..];
      assert rest[0] + [sep] + b == s[1..];
    }
  }

  lemma {:induction false} SplitOne(s: string, sep: char)
    requires |Split(s, sep)| == 1
    ensures Split(s, sep) == [s]
  {
    if s != [] {
      SplitOne(s[1..], sep);
      assert [s[0]] + s[1..] == s;
    }
  }

  function Quad(a: nat, b: nat, c: nat, d: nat): string {
    Decimal(a) + ['.'] + (Decimal(b) + ['.'] + (Decimal(c) + ['.'] + Decimal(d)))
  }

  lemma OctetNoDot(s: string)
    requires IsOctet(s)
    ensures '.' !in s
  {
  }

  /** An IPv4 address is four numbers up to 255 in decimal, dots between them. */
  lemma IPv4Exactly(s: string)
    ensures IsIPv4(s) <==> exists a: nat, b: nat, c: nat, d: nat ::
      s == Quad(a, b, c, d) && a <= 255 && b <= 255 && c <= 255 && d <= 255
  {
    hide Split, Decimal, IsOctet;
    if IsIPv4(s) {
      var parts := Split(s, '.');
      assert forall i | 0 <= i < 4 :: parts[i] in parts;
      var t := SplitBack(s, '.');
      var u := SplitBack(t, '.');
      var v := SplitBack(u, '.');
      SplitOne(v, '.');
      var a := OctetValue(parts[0]);
      var b := OctetValue(parts[1]);
      var c := OctetValue(parts[2]);
      var d := OctetValue(parts[3]);
      assert s == Quad(a, b, c, d);
    }
    if a: nat, b: nat, c: nat, d: nat :| s == Quad(a, b, c, d) && a <= 255 && b <= 255 && c <= 255 && d <= 255 {
      QuadReads(a, b, c, d);
    }
  }

  lemma QuadReads(a: nat, b: nat, c: nat, d: nat)
    requires a <= 255 && b <= 255 && c <= 255 && d <= 255
    ensures IsIPv4(Quad(a, b, c, d))
  {
    ShortDecimal(a);
    ShortDecimal(b);
    ShortDecimal(c);
    ShortDecimal(d);
    OctetNoDot(Decimal(a));
    OctetNoDot(Decimal(b));
    OctetNoDot(Decimal(c));
    OctetNoDot(Decimal(d));
    hide Split, Decimal, IsOctet;
    SplitFirst(Decimal(a), Decimal(b) + ['.'] + (Decimal(c) + ['.'] + Decimal(d)), '.');
    SplitFirst(Decimal(b), Decimal(c) + ['.'] + Decimal(d), '.');
    SplitFirst(Decimal(c), Decimal(d), '.');
    SplitNone(Decimal(d), '.');
  }

  // What a line of a dnsmasq configuration cannot take in a name.
  predicate Unwritable(c: char) {
    c as int <= 32 || c as int >= 127 || c == ',' || c == '"' || c == '#'
  }

  ghost predicate WritableName(s: string) {
    s != [] && |s| <= 253 && !(exists i: nat :: RunAt(s, i, 64, '.')) && forall c <- s :: !Unwritable(c)
  }

  /** A record can be written exactly when both its sides, canonical, are names
      DNS and dnsmasq can take, and an address is an IPv4 address. */
  lemma ValidExactly(r: Record)
    ensures var c := Canonical(r);
      Valid(r) <==> WritableName(c.name) && WritableName(c.value) && (r.rtype.A? ==>
        exists i: nat, j: nat, k: nat, l: nat ::
          c.value == Quad(i, j, k, l) && i <= 255 && j <= 255 && k <= 255 && l <= 255)
  {
    hide CanonicalName, TooLong, IsIPv4, Quad, RunAt;
    var c := Canonical(r);
    TooLongExactly(c.name);
    TooLongExactly(c.value);
    IPv4Exactly(c.value);
    assert forall ch: char :: BreaksDnsmasq(ch) <==> Unwritable(ch);
    hide BreaksDnsmasq, Unwritable;
  }
}
