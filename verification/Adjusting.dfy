/** What is let through to the plan (AdjustEndpoints in
    internal/provider/provider.go). */
module Adjusting {
  import opened Types
  import opened Order
  import opened Plan

  // An endpoint as the request decoded it, edited in place.
  class EndpointRef {
    var it: Endpoint

    constructor (it: Endpoint)
      ensures this.it == it
    {
      this.it := it;
    }
  }

  datatype Rejection = Rejection(targets: seq<string>, reason: string)

  datatype Assessment = Unsupported | Refused(reason: string) | Passes

  const WILDCARD := "dnsmasq does not expand wildcard names"
  const SEVERAL_TARGETS := "a CNAME has one target and dnsmasq does not start with two"

  function Text(e: Invalid): (text: string)
    ensures text != ""
  {
    match e
    case NameRequired => "name is required"
    case ValueRequired => "value is required"
    case NameBreaks => "name holds a character dnsmasq cannot take"
    case ValueBreaks => "value holds a character dnsmasq cannot take"
    case NameTooLong => "name is longer than DNS allows"
    case ValueTooLong => "value is longer than DNS allows"
    case NotIPv4 => "value is not an IPv4 address"
  }

  predicate IsWildcard(name: string) {
    |name| >= 2 && name[0] == '*' && name[1] == '.'
  }

  // The first target, from the i-th on, that could not be written.
  function FirstInvalid(t: RecordType, ep: Endpoint, i: nat): (found: Option<Invalid>)
    requires i <= |ep.targets|
    ensures found.None? <==> forall j | i <= j < |ep.targets| :: Valid(Record(t, ep.dnsName, ep.targets[j], ""))
    decreases |ep.targets| - i
  {
    hide Validate;
    if i == |ep.targets| then None
    else
      var e := Validate(Record(t, ep.dnsName, ep.targets[i], ""));
      if e.Some? then e else FirstInvalid(t, ep, i + 1)
  }

  function Assess(ep: Endpoint): Assessment {
    var t := ReadType(ep.recordType);
    if t.None? then Unsupported
    else if IsWildcard(ep.dnsName) then Refused(WILDCARD)
    else if t.value.CNAME? && |ep.targets| > 1 then Refused(SEVERAL_TARGETS)
    else
      var e := FirstInvalid(t.value, ep, 0);
      if e.Some? then Refused(Text(e.value)) else Passes
  }

  function Trimmed(ep: Endpoint): Endpoint {
    ep.(ttl := if ep.ttl > 0 then 0 else ep.ttl, setIdentifier := "", providerSpecific := [])
  }

  lemma {:induction false} TrimmedTargets(t: RecordType, ep: Endpoint, i: nat)
    requires i <= |ep.targets|
    ensures FirstInvalid(t, Trimmed(ep), i) == FirstInvalid(t, ep, i)
    decreases |ep.targets| - i
  {
    hide Validate;
    if i < |ep.targets| { TrimmedTargets(t, ep, i + 1); }
  }

  lemma TrimmedAssess(ep: Endpoint)
    ensures Assess(Trimmed(ep)) == Assess(ep) && Trimmed(Trimmed(ep)) == Trimmed(ep)
  {
    if ReadType(ep.recordType).Some? { TrimmedTargets(ReadType(ep.recordType).value, ep, 0); }
  }

  // A type uci can hold.
  predicate Supported(ep: Endpoint) {
    ep.recordType == "A" || ep.recordType == "CNAME"
  }

  /** What the router can represent: a supported type, no wildcard name, one
      target at most for a CNAME, and targets that can all be written. */
  ghost predicate Representable(ep: Endpoint) {
    && Supported(ep) && !("*." <= ep.dnsName)
    && (ep.recordType == "CNAME" ==> |ep.targets| <= 1)
    && forall v <- ep.targets :: Valid(Record(if ep.recordType == "A" then A else CNAME, ep.dnsName, v, ""))
  }

  // A supported endpoint the router cannot represent.
  ghost predicate Refusable(ep: Endpoint) {
    Supported(ep) && !Representable(ep)
  }

  /** An endpoint passes exactly when the router can represent it, and is
      refused exactly when it cannot though the type is supported. */
  lemma PassesExactly(ep: Endpoint)
    ensures Assess(ep).Passes? <==> Representable(ep)
    ensures Assess(ep).Refused? <==> Refusable(ep)
  {
    hide Validate;
    assert IsWildcard(ep.dnsName) <==> "*." <= ep.dnsName;
    if Supported(ep) {
      var t := if ep.recordType == "A" then A else CNAME;
      assert FirstInvalid(t, ep, 0).None? <==> forall v <- ep.targets :: Valid(Record(t, ep.dnsName, v, "")) by {
        assert forall j | 0 <= j < |ep.targets| :: ep.targets[j] in ep.targets;
      }
    }
  }

  // Every record of what the router can represent can be written.
  lemma RepresentableValid(ep: Endpoint)
    requires Representable(ep)
    ensures forall r <- RecordsOf(ep) :: Valid(r)
  {
    hide Validate;
    forall r | r in RecordsOf(ep) ensures Valid(r) {
      var i :| 0 <= i < |RecordsOf(ep)| && RecordsOf(ep)[i] == r;
      assert ep.targets[i] in ep.targets;
    }
  }

  /** The reason is the first thing wrong: the wildcard, the second target, or
      the first target that cannot be written. */
  lemma ReasonExactly(ep: Endpoint)
    requires Refusable(ep)
    ensures var t, reason := if ep.recordType == "A" then A else CNAME, Assess(ep).reason;
      if "*." <= ep.dnsName then reason == WILDCARD
      else if ep.recordType == "CNAME" && |ep.targets| > 1 then reason == SEVERAL_TARGETS
      else exists i | 0 <= i < |ep.targets| ::
        && Validate(Record(t, ep.dnsName, ep.targets[i], "")).Some?
        && reason == Text(Validate(Record(t, ep.dnsName, ep.targets[i], "")).value)
        && forall j | 0 <= j < i :: Valid(Record(t, ep.dnsName, ep.targets[j], ""))
  {
    PassesExactly(ep);
    hide Validate, Text, Representable;
    var t := if ep.recordType == "A" then A else CNAME;
    if Assess(ep) == Refused(Text(NameRequired)) || !("*." <= ep.dnsName) {
      if FirstInvalid(t, ep, 0).Some? { FirstInvalidIs(t, ep, 0); }
    }
  }

  lemma {:induction false} FirstInvalidIs(t: RecordType, ep: Endpoint, i: nat)
    requires i <= |ep.targets| && FirstInvalid(t, ep, i).Some?
    ensures exists k | i <= k < |ep.targets| ::
      && Validate(Record(t, ep.dnsName, ep.targets[k], "")) == FirstInvalid(t, ep, i)
      && forall j | i <= j < k :: Valid(Record(t, ep.dnsName, ep.targets[j], ""))
    decreases |ep.targets| - i
  {
    hide Validate;
    if Validate(Record(t, ep.dnsName, ep.targets[i], "")).None? { FirstInvalidIs(t, ep, i + 1); }
  }

  /** Nothing AdjustEndpoints does not refuse can fail a change set: every
      record is one addRecord does not reject. */
  lemma {:induction false} UnrefusedNeverRejected(eps: seq<Endpoint>)
    requires forall ep <- eps :: !Refusable(ep)
    ensures forall r <- Flatten(eps) :: Valid(r)
  {
    hide Validate, Representable;
    if eps != [] {
      UnrefusedNeverRejected(eps[..|eps| - 1]);
      var ep := eps[|eps| - 1];
      assert ep in eps;
      if Supported(ep) { RepresentableValid(ep); }
    }
  }

  // ---------- the pass over a request ----------

  ghost function Passing(eps: seq<EndpointRef?>): seq<EndpointRef>
    reads eps
  {
    if eps == [] then []
    else
      var e := eps[|eps| - 1];
      var before := Passing(eps[..|eps| - 1]);
      if e != null && Assess(e.it).Passes? then before + [e] else before
  }

  ghost function Rejections(eps: seq<EndpointRef?>): map<RecordKey, Rejection>
    reads eps
  {
    if eps == [] then map[]
    else
      var e := eps[|eps| - 1];
      var before := Rejections(eps[..|eps| - 1]);
      if e != null && Assess(e.it).Refused?
      then before[EndpointKey(e.it) := Rejection(SortedTargets(e.it.targets), Assess(e.it).reason)]
      else before
  }

  /** What comes back are the endpoints the router can represent, in the order
      of the request and as often as given. */
  lemma {:induction false} PassingExactly(eps: seq<EndpointRef?>) returns (ks: seq<nat>)
    ensures PicksOut(eps, ks, Passing(eps))
    ensures forall i | 0 <= i < |eps| :: i in ks <==> eps[i] != null && Representable(eps[i].it)
  {
    hide Assess, Representable;
    if eps == [] {
      ks := [];
    } else {
      var n := |eps| - 1;
      var before := PassingExactly(eps[..n]);
      var e := eps[n];
      if e != null { PassesExactly(e.it); }
      if e != null && Representable(e.it) {
        ks := before + [n];
        assert forall i :: i in ks <==> i in before || i == n;
      } else {
        ks := before;
        assert forall k <- ks :: k < n;
      }
    }
  }

  /** The keys recorded as refused are those of the supported endpoints the
      router cannot represent, */
  lemma {:induction false} RejectionsExactly(eps: seq<EndpointRef?>, k: RecordKey)
    ensures k in Rejections(eps) <==>
      exists i | 0 <= i < |eps| :: Refusal(eps[i]) && EndpointKey(eps[i].it) == k
  {
    hide Assess, Representable, EndpointKey;
    if eps != [] {
      var n := |eps| - 1;
      RejectionsExactly(eps[..n], k);
      if eps[n] != null { PassesExactly(eps[n].it); }
      if i :| 0 <= i < |eps| && Refusal(eps[i]) && EndpointKey(eps[i].it) == k && i < n {
        assert Refusal(eps[..n][i]);
      }
    }
  }

  ghost predicate Refusal(e: EndpointRef?)
    reads e
  {
    e != null && Refusable(e.it)
  }

  /** each with the targets and the reason of the last of them. */
  lemma {:induction false} LastRejection(eps: seq<EndpointRef?>, i: nat)
    requires i < |eps| && Refusal(eps[i])
    requires forall j | i < j < |eps| && Refusal(eps[j]) :: EndpointKey(eps[j].it) != EndpointKey(eps[i].it)
    ensures var k := EndpointKey(eps[i].it);
      && k in Rejections(eps)
      && Rejections(eps)[k] == Rejection(SortedTargets(eps[i].it.targets), Assess(eps[i].it).reason)
  {
    hide Assess, Representable, Refusable, EndpointKey, SortedTargets;
    var n := |eps| - 1;
    if eps[n] != null { PassesExactly(eps[n].it); }
    if i < n {
      var front := eps[..n];
      assert front[i] == eps[i];
      forall j | i < j < n && Refusal(front[j]) ensures EndpointKey(front[j].it) != EndpointKey(eps[i].it) {
        assert Refusal(eps[j]);
      }
      LastRejection(front, i);
    }
  }

  lemma {:induction false} PassingPass(eps: seq<EndpointRef?>)
    ensures forall e <- Passing(eps) :: e in eps && Assess(e.it).Passes?
  {
    hide Assess;
    if eps != [] { PassingPass(eps[..|eps| - 1]); }
  }

  ghost function Adjusted(ep: Endpoint): Endpoint {
    if Assess(ep).Passes? then Trimmed(ep) else ep
  }

  /** The endpoints that pass come back in order, trimmed in place; the others
      are left as they were; and the last refusal of each row is recorded. */
  method AdjustEndpoints(eps: seq<EndpointRef?>)
    returns (adjusted: seq<EndpointRef>, rejected: map<RecordKey, Rejection>)
    modifies eps
    ensures adjusted == old(Passing(eps)) && rejected == old(Rejections(eps))
    ensures forall e <- eps :: e != null ==> e.it == Adjusted(old(e.it))
    ensures forall e <- adjusted :: Assess(e.it).Passes?
  {
    hide Assess, EndpointKey, Trimmed, SortedTargets;
    adjusted := [];
    rejected := map[];
    for i := 0 to |eps|
      invariant forall e <- eps :: e != null ==> e.it == old(e.it) || e.it == Adjusted(old(e.it))
      invariant forall e <- eps[..i] :: e != null ==> e.it == Adjusted(old(e.it))
      invariant adjusted == old(Passing(eps[..i])) && rejected == old(Rejections(eps[..i]))
      invariant forall e <- adjusted :: e in eps && old(Assess(e.it).Passes?)
    {
      var ep := eps[i];
      assert eps[..i + 1][..i] == eps[..i];
      assert forall e <- eps[..i + 1] :: e in eps[..i] || e == ep;
      if ep == null {
        continue;
      }
      TrimmedAssess(old(ep.it));
      SameKey(old(ep.it));
      var verdict := Check(ep.it);
      match verdict
      case Unsupported =>
      case Refused(reason) =>
        rejected := rejected[EndpointKey(ep.it) := Rejection(SortedTargets(ep.it.targets), reason)];
      case Passes =>
        Trim(ep);
        adjusted := adjusted + [ep];
    }
    assert eps[..|eps|] == eps;
    forall e | e in adjusted ensures Assess(e.it).Passes? {
      TrimmedAssess(old(e.it));
    }
  }

  method Trim(ep: EndpointRef)
    modifies ep
    ensures ep.it == Trimmed(old(ep.it))
  {
    if ep.it.ttl > 0 {
      ep.it := ep.it.(ttl := 0);
    }
    ep.it := ep.it.(setIdentifier := "");
    ep.it := ep.it.(providerSpecific := []);
  }

  // The first thing that keeps an endpoint from passing, in the order looked for.
  method Check(ep: Endpoint) returns (a: Assessment)
    ensures a == Assess(ep)
  {
    hide FirstInvalid, Validate;
    var t := ReadType(ep.recordType);
    if t.None? {
      return Unsupported;
    }
    if IsWildcard(ep.dnsName) {
      return Refused(WILDCARD);
    }
    if ep.recordType == "CNAME" && |ep.targets| > 1 {
      return Refused(SEVERAL_TARGETS);
    }
    var e := CheckTargets(t.value, ep);
    return if e.Some? then Refused(Text(e.value)) else Passes;
  }

  lemma SameKey(ep: Endpoint)
    ensures EndpointKey(Trimmed(ep)) == EndpointKey(ep) && Trimmed(ep).targets == ep.targets
  {
  }

  method CheckTargets(t: RecordType, ep: Endpoint) returns (found: Option<Invalid>)
    ensures found == FirstInvalid(t, ep, 0)
  {
    hide Validate;
    for i := 0 to |ep.targets|
      invariant FirstInvalid(t, ep, 0) == FirstInvalid(t, ep, i)
    {
      found := Validate(Record(t, ep.dnsName, ep.targets[i], ""));
      if found.Some? {
        return;
      }
    }
    return None;
  }
}
