/** A change set from the plan to the router and into the status, and the
    records read back (Provider in internal/provider/provider.go). */
module Provider {
  import opened Types
  import opened Uci
  import opened Reconcile
  import opened Ubus
  import opened OpenWrt
  import opened Plan
  import opened Grouping
  import opened Tracking
  import opened Prediction
  import opened Forecast
  import opened Adjusting

  const FAILED := "error applying changes"

  lemma {:induction false} FlattenConcat(a: seq<Endpoint>, b: seq<Endpoint>)
    ensures Flatten(a) + Flatten(b) == Flatten(a + b)
  {
    hide RecordsOf;
    if b == [] {
      assert a + b == a;
    } else {
      var n := |b| - 1;
      FlattenConcat(a, b[..n]);
      assert Flatten(b) == Flatten(b[..n]) + RecordsOf(b[n]);
      assert (a + b)[..|a + b| - 1] == a + b[..n] && (a + b)[|a + b| - 1] == b[n];
    }
  }

  lemma {:induction false} UnbalancedShorter(records: seq<Record>, remove: seq<Record>, add: seq<Record>)
    ensures |Unbalanced(records, remove, add)| <= |records|
  {
    hide Key;
    if records != [] { UnbalancedShorter(records[..|records| - 1], remove, add); }
  }

  /** The tracker's view of the router is what reading it would give. */
  ghost predicate Faithful(site: Site, c: Config, b: Board) {
    b.actual.Some? && ReadBack(Managed(site, c), b.actual.value)
  }

  // The tracker saw this very router, clean, and the plan was made from that.
  ghost predicate Foreseeable(site: Site, c: Config, b: Board, ch: Changes) {
    Faithful(site, c, b) && CleanRouter(site, c) && HonestPlan(b.actual.value, ch)
  }

  class Controller {
    const engine: Engine
    const status: Tracker

    constructor (engine: Engine, status: Tracker)
      ensures this.engine == engine && this.status == status
    {
      this.engine := engine;
      this.status := status;
    }

    // Ready for a change set: nothing is staged in the session it will run in.
    ghost predicate Ready()
      reads this, engine, engine.ubus, engine.reader, engine.ubus.rpcd, engine.reader.rpcd
    {
      engine.Valid() && engine.ubus.Clean()
    }

    ghost function Committed(): Config
      reads this, engine, engine.ubus, engine.ubus.rpcd
    {
      engine.ubus.rpcd.rt.committed
    }

    /** ApplyChanges: withdraws and writes what the plan asks for in one change
        set, whatever the two lists share left alone, and tells the tracker.
        From a clean router and an honest plan the tracker then holds what the
        next Records() will read, exactly when every row written can be told.
        It fails only where something went wrong with a call, the session died
        with changes staged, or a record is invalid, which none of an adjusted
        plan is. */
    method ApplyChanges(changes: Changes, names: seq<string>) returns (err: Option<string>, ghost picks: seq<string>)
      requires Ready() && |names| >= |Flatten(changes.Wanted())| && Fresh(names, Committed())
      modifies engine.ubus, engine.ubus.rpcd, status
      ensures Ready() && status.Publishes()
      ensures |picks| == |Cancelled(changes).add|
      ensures err.None? ==>
        Possible(engine.site, old(Committed()), Cancelled(changes), picks)
      ensures err.None? ==>
        Committed() == Result(engine.site, old(Committed()), Cancelled(changes), picks).config
      ensures err.None? ==>
        status.Shows() == SeenApply(old(status.Shows()), changes,
                                    SkippedBy(engine.site, old(Committed()), Cancelled(changes), picks), None)
      ensures err.None? && Foreseeable(engine.site, old(Committed()), old(status.Shows()), changes) ==>
        (Faithful(engine.site, Committed(), status.Shows()) <==>
         AllTellable(old(status.Shows()).actual.value, changes,
                     SkippedBy(engine.site, old(Committed()), Cancelled(changes), picks)))
      ensures err.Some? ==> engine.AllOrNothing(old(engine.ubus.rpcd.rt), engine.ubus.rpcd.rt, Cancelled(changes),
          picks)
      ensures err.Some? ==> status.Shows() == SeenApply(old(status.Shows()), changes, [], err)
      ensures err.Some? ==>
        || engine.ubus.rpcd.troubles > old(engine.ubus.rpcd.troubles) || old(engine.ubus.Stranded())
        || exists ep <- changes.Wanted() :: Refusable(ep)
    {
      hide Flatten, SeenApply, Engine.Valid, Engine.AllOrNothing, Possible, Result, SkippedBy, CleanRouter,
           HonestPlan, ReadBack, Fresh, Edits, Unbalanced, Managed, Tellable, Types.Valid, Refusable, SkipsRow,
           IsSnapshot;
      var remove := EndpointsToRecords(changes.delete);
      var more := EndpointsToRecords(changes.updateOld);
      FlattenConcat(changes.delete, changes.updateOld);
      remove := remove + more;
      var add := EndpointsToRecords(changes.create);
      more := EndpointsToRecords(changes.updateNew);
      FlattenConcat(changes.create, changes.updateNew);
      add := add + more;
      UnbalancedShorter(add, remove, add);
      remove, add := CancelOut(remove, add);
      assert Change(remove, add) == Cancelled(changes);
      FreshPrefix(names, |add|, Committed());
      var out, chosen := engine.ApplyDnsRecords(remove, add, names[..|add|]);
      picks := chosen;
      CancelledValid(changes);
      if out.ApplyFailed? {
        err := Some(FAILED);
        status.ObserveApply(changes, [], err);
      } else {
        err := None;
        status.ObserveApply(changes, out.skipped, None);
        Foretold(engine.site, old(Committed()), old(status.Shows()), changes, picks);
      }
    }

    /** AdjustEndpoints: what passes is trimmed and returned, and the tracker is
        told it and what was refused. */
    method AdjustEndpoints(eps: seq<EndpointRef?>) returns (adjusted: seq<EndpointRef>)
      modifies eps, status
      ensures adjusted == old(Passing(eps))
      ensures forall e <- eps :: e != null ==> e.it == Adjusted(old(e.it))
      ensures status.Shows() == SeenDesired(old(status.Shows()), Held(adjusted), old(Rejections(eps)))
      ensures status.Publishes()
      ensures forall ep <- Held(adjusted) :: Assess(ep).Passes?
      ensures forall e <- eps :: e in adjusted ==> e != null && LikeReported(old(e.it), e.it)
    {
      hide Assess, SeenDesired, IsSnapshot, LikeReported, Trimmed;
      PassingPass(eps);
      var rejected;
      adjusted, rejected := Adjusting.AdjustEndpoints(eps);
      var desired := ReadRefs(adjusted);
      status.ObserveDesired(desired, rejected);
      forall e | e in eps && e in adjusted ensures e != null && LikeReported(old(e.it), e.it) {
        TrimmedLike(old(e.it));
      }
    }

    /** Records: the managed sections committed at that moment, grouped, and
        the tracker told so, which then shows what the router holds exactly
        when every row's name is canonical. */
    method Records() returns (eps: Option<seq<Endpoint>>)
      requires Ready()
      modifies engine.reader, engine.reader.rpcd, status
      ensures Ready() && SameCommits(old(engine.ubus.rpcd.rt), engine.ubus.rpcd.rt)
      ensures eps.Some? ==> Groups(Managed(engine.site, Committed()), eps.value)
      ensures eps.Some? ==> status.Shows() == SeenRecords(old(status.Shows()), eps.value)
      ensures eps.Some? ==>
        (Faithful(engine.site, Committed(), status.Shows()) <==> RowsCanonical(Managed(engine.site, Committed())))
      ensures eps.None? ==> status.Shows() == old(status.Shows())
      ensures eps.None? ==> engine.reader.rpcd.troubles > old(engine.reader.rpcd.troubles)
      ensures status.published == old(status.published)
    {
      hide Engine.Valid, ReadBack, Groups, Managed, RowsCanonical, TargetsByKey;
      var records := ReadRecords();
      if records.None? {
        return None;
      }
      var found := RecordsToEndpoints(records.value);
      status.ObserveRecords(found);
      ObservedExactly(Managed(engine.site, Committed()), found);
      return Some(found);
    }

    method ReadRecords() returns (records: Option<Index>)
      requires Ready()
      modifies engine.reader, engine.reader.rpcd
      ensures Ready() && SameCommits(old(engine.ubus.rpcd.rt), engine.ubus.rpcd.rt)
      ensures records.Some? ==> records.value == Managed(engine.site, Committed())
      ensures records.None? ==> engine.reader.rpcd.troubles > old(engine.reader.rpcd.troubles)
    {
      records := engine.GetDnsRecords();
    }
  }

  lemma FreshPrefix(names: seq<string>, n: nat, c: Config)
    requires n <= |names| && Fresh(names, c)
    ensures Fresh(names[..n], c)
  {
  }

  /** now asks for what was asks for, without what no section can hold: it has
      the set identifier and properties Records() reports for such a row, and
      no TTL of its own. */
  predicate LikeReported(was: Endpoint, now: Endpoint) {
    var reported := Reported(RawKey(now), now.targets);
    && now.setIdentifier == reported.setIdentifier && now.providerSpecific == reported.providerSpecific
    && (if was.ttl > 0 then now.ttl == 0 else now.ttl == was.ttl)
    && now.dnsName == was.dnsName && now.recordType == was.recordType
    && now.targets == was.targets && now.labels == was.labels
  }

  lemma TrimmedLike(ep: Endpoint)
    ensures LikeReported(ep, Trimmed(ep))
  {
  }

  // The endpoints references stand for, as they are now.
  ghost function Held(refs: seq<EndpointRef>): seq<Endpoint>
    reads refs
  {
    seq(|refs|, i requires 0 <= i < |refs| reads refs => refs[i].it)
  }

  method ReadRefs(refs: seq<EndpointRef>) returns (eps: seq<Endpoint>)
    ensures eps == Held(refs)
  {
    eps := [];
    for i := 0 to |refs|
      invariant eps == Held(refs[..i])
    {
      eps := eps + [refs[i].it];
    }
    assert refs[..|refs|] == refs;
  }

  // An adjusted plan asks for no invalid record.
  lemma CancelledValid(ch: Changes)
    ensures (forall ep <- ch.Wanted() :: !Refusable(ep)) ==> forall r <- Cancelled(ch).add :: Types.Valid(r)
  {
    hide Refusable, Types.Valid, Flatten;
    if forall ep <- ch.Wanted() :: !Refusable(ep) {
      UnrefusedNeverRejected(ch.Wanted());
      UnbalancedMember(Flatten(ch.Wanted()), Flatten(ch.Withdrawn()), Flatten(ch.Wanted()));
    }
  }

  // The prediction, when its hypotheses hold.
  lemma Foretold(site: Site, c: Config, b: Board, ch: Changes, picks: seq<string>)
    requires Possible(site, c, Cancelled(ch), picks)
    ensures var skipped := SkippedBy(site, c, Cancelled(ch), picks);
      Foreseeable(site, c, b, ch) ==>
      (Faithful(site, Result(site, c, Cancelled(ch), picks).config, SeenApply(b, ch, skipped, None)) <==>
       AllTellable(b.actual.value, ch, skipped))
  {
    hide CleanRouter, HonestPlan, ReadBack, Cancelled, AfterAdd, AfterRemove, Admits, Valid, Skips, Managed, Tellable;
    hide SkipsRow;
    if Foreseeable(site, c, b, ch) {
      PredictionExactly(site, c, b, ch, picks);
      PredictedAs(b, ch, SkippedBy(site, c, Cancelled(ch), picks));
    }
  }

  /** So the next Records() changes nothing the tracker shows of the router,
      exactly when every row's name is canonical. */
  lemma NextReadAgrees(site: Site, c: Config, b: Board, eps: seq<Endpoint>)
    requires Faithful(site, c, b) && Groups(Managed(site, c), eps)
    ensures SeenRecords(b, eps) == b <==> RowsCanonical(Managed(site, c))
  {
    hide ReadBack, Groups, Managed, RowsCanonical, TargetsByKey;
    ObservedExactly(Managed(site, c), eps);
    if RowsCanonical(Managed(site, c)) {
      ReadBackUnique(Managed(site, c), b.actual.value, TargetsByKey(eps));
    }
  }
}
