/** The dhcp configuration as uci holds it, and the records read from and
    written to it (parseSection, createSection in pkg/openwrt/openwrt.go). */
module Uci {
  import opened Types

  datatype Value = Str(text: string) | List(items: seq<string>)

  type Options = map<string, Value>

  // Every section of /etc/config/dhcp by name, whatever its type.
  type Config = map<string, Options>

  // Records by the name of the section holding them.
  type Index = map<string, Record>

  const TYPE := ".type"
  const OWNER := "external_dns"

  /** One configured instance: its ownership ID, empty for ownership disabled,
      and which texts netip.ParseAddr reads as an address other than IPv4. */
  datatype Site = Site(id: string, isIPv6: string -> bool)

  function StringOption(o: Options, key: string): string {
    if key in o && o[key].Str? then o[key].text else ""
  }

  // What dnsmasq would serve as AAAA.
  predicate OtherAddress(site: Site, s: string) {
    !IsIPv4(s) && site.isIPv6(s)
  }

  function Single(r: Record): Option<Record> {
    if r.name == "" || r.value == "" then None else Some(Canonical(r))
  }

  // The record a section holds, if it is a single one this program understands.
  function Parse(site: Site, o: Options): Option<Record> {
    var owner := StringOption(o, OWNER);
    var kind := StringOption(o, TYPE);
    if kind == "domain" then
      var ip := StringOption(o, "ip");
      if OtherAddress(site, ip) then None else Single(Record(A, StringOption(o, "name"), ip, owner))
    else if kind == "cname" then
      Single(Record(CNAME, StringOption(o, "cname"), StringOption(o, "target"), owner))
    else None
  }

  method ParseSection(site: Site, o: Options) returns (r: Option<Record>)
    ensures r == Parse(site, o)
  {
    var record := Record(A, "", "", StringOption(o, OWNER));
    var kind := StringOption(o, TYPE);
    if kind == "domain" {
      record := record.(name := StringOption(o, "name"));
      record := record.(value := StringOption(o, "ip"));
      if !IsIPv4(record.value) && site.isIPv6(record.value) {
        return None;
      }
    } else if kind == "cname" {
      record := record.(rtype := CNAME, name := StringOption(o, "cname"));
      record := record.(value := StringOption(o, "target"));
    } else {
      return None;
    }
    if record.name == "" || record.value == "" {
      return None;
    }
    return Some(Canonical(record));
  }

  // The options `uci add` is given for a record.
  function Written(site: Site, r: Record): Options {
    var c := Canonical(r);
    var values :=
      if c.rtype.CNAME?
      then map[TYPE := Str("cname"), "cname" := Str(c.name), "target" := Str(c.value)]
      else map[TYPE := Str("domain"), "name" := Str(c.name), "ip" := Str(c.value)];
    if site.id == "" then values else values[OWNER := Str(site.id)]
  }

  function Stamped(site: Site, o: Options): Options {
    o[OWNER := Str(site.id)]
  }

  // Every domain and cname section, owned or not.
  function Sections(site: Site, c: Config): Index {
    map s | s in c && Parse(site, c[s]).Some? :: Parse(site, c[s]).value
  }

  // Whether an instance with this ID may change the section holding r.
  predicate Manages(id: string, r: Record) {
    id == "" || r.owner == id
  }

  // What Records() reports.
  function Managed(site: Site, c: Config): Index {
    var all := Sections(site, c);
    map s | s in all && Manages(site.id, all[s]) :: all[s]
  }

  // ---------- round trips ----------

  /** Reading back what a valid record was written as gives its canonical form
      once more canonicalised, under this instance's ID: the canonical record
      itself exactly when the record is stable. */
  lemma WriteReadRoundTrip(site: Site, r: Record)
    requires Valid(r)
    ensures Parse(site, Written(site, r)) == Some(Canonical(Canonical(r)).(owner := site.id))
    ensures Parse(site, Written(site, r)) == Some(Canonical(r).(owner := site.id)) <==> Stable(r)
    ensures Stable(r) ==> Key(Parse(site, Written(site, r)).value) == Key(r)
  {
    hide CanonicalName, IsIPv4, TooLong, Key;
    var c := Canonical(r);
    var o := Written(site, r);
    assert StringOption(o, OWNER) == site.id;
    if r.rtype.CNAME? {
      assert StringOption(o, TYPE) == "cname" && StringOption(o, "cname") == c.name &&
          StringOption(o, "target") == c.value;
    } else {
      assert StringOption(o, TYPE) == "domain" && StringOption(o, "name") == c.name && StringOption(o, "ip") == c.value;
    }
    if Stable(r) {
      StableKey(r);
      OwnerIsNoKey(Canonical(r), site.id);
    }
  }

  lemma StampReadsBack(site: Site, o: Options)
    requires Parse(site, o).Some?
    ensures Parse(site, Stamped(site, o)) == Some(Parse(site, o).value.(owner := site.id))
  {
  }

  /** A record's section has its type and both its sides, this instance's
      marker if it has an ID, and no other option. */
  lemma WrittenKeys(site: Site, r: Record)
    ensures Written(site, r).Keys ==
      (if r.rtype.CNAME? then {TYPE, "cname", "target"} else {TYPE, "name", "ip"}) +
      (if site.id == "" then {} else {OWNER})
  {
  }

  // ---------- what a section holds, option by option ----------

  // Nothing, a list or the empty text.
  predicate Lacks(o: Options, key: string) {
    key !in o || o[key].List? || o[key] == Str("")
  }

  predicate IsKind(o: Options, kind: string) {
    TYPE in o && o[TYPE] == Str(kind)
  }

  /** A section that holds no record of this program's: of another type, with a
      list or nothing on either side, or with an address other than IPv4. */
  predicate HoldsNothing(site: Site, o: Options) {
    if IsKind(o, "domain")
    then Lacks(o, "name") || Lacks(o, "ip") || (!IsIPv4(o["ip"].text) && site.isIPv6(o["ip"].text))
    else if IsKind(o, "cname") then Lacks(o, "cname") || Lacks(o, "target")
    else true
  }

  // Whom the marker names.
  function Marker(o: Options): string {
    if OWNER in o && o[OWNER].Str? then o[OWNER].text else ""
  }

  /** The sections read are those that hold a record, and what is read is what
      their options say, in canonical form. */
  lemma ReadExactly(site: Site, c: Config, s: string)
    requires s in c
    ensures var all, o := Sections(site, c), c[s];
      && (s in all <==> !HoldsNothing(site, o))
      && (s in all && IsKind(o, "domain") ==>
            all[s] == Record(A, CanonicalName(o["name"].text), o["ip"].text, Marker(o)))
      && (s in all && IsKind(o, "cname") ==>
            all[s] == Record(CNAME, CanonicalName(o["cname"].text), CanonicalName(o["target"].text), Marker(o)))
  {
    hide CanonicalName, IsIPv4;
  }

  /** What Records() reports: every record held, or, with ownership on, those
      marked with this instance's ID. */
  lemma ManagedExactly(site: Site, c: Config, s: string)
    ensures s in Managed(site, c) <==>
      s in c && !HoldsNothing(site, c[s]) && (site.id == "" || Marker(c[s]) == site.id)
    ensures s in Managed(site, c) ==> Managed(site, c)[s] == Sections(site, c)[s]
  {
    if s in c { ReadExactly(site, c, s); }
    hide HoldsNothing, CanonicalName, Parse;
    if s in c && s in Sections(site, c) { ReadOwner(site, c, s); }
  }

  lemma ReadOwner(site: Site, c: Config, s: string)
    requires s in Sections(site, c)
    ensures Sections(site, c)[s].owner == Marker(c[s])
  {
    hide CanonicalName, IsIPv4;
  }

  // ---------- how the sections follow the configuration ----------

  lemma SectionsDelete(site: Site, c: Config, gone: set<string>)
    ensures Sections(site, c - gone) == Sections(site, c) - gone
  {
  }

  lemma SectionsSet(site: Site, c: Config, s: string, o: Options)
    requires Parse(site, o).Some?
    ensures Sections(site, c[s := o]) == Sections(site, c)[s := Parse(site, o).value]
  {
  }
}
