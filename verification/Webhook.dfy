/** Change sets one after the other, as the webhook lets them through
    (ApplyChanges under applyMu in pkg/webhook/webhook.go). */
module Webhook {
  import opened Rpcd
  import opened Uci
  import opened Reconcile
  import opened Safety
  import opened Ownership
  import opened OpenWrt
  import opened Ubus
  import opened Plan
  import opened Adjusting
  import opened Tracking
  import opened Forecast
  import opened Provider
  import opened Counts
  import opened Convergence

  const NO_CONTENT := 204
  const INTERNAL_SERVER_ERROR := 500

  class Server {
    const provider: Controller
    // What was committed before the first request and after each, and what
    // each asked the engine for.
    ghost var committed: seq<Config>
    ghost var requests: seq<Change>

    ghost predicate Valid()
      reads this, provider, provider.engine, provider.engine.ubus, provider.engine.reader
      reads provider.engine.ubus.rpcd, provider.engine.reader.rpcd
    {
      && provider.Ready()
      && Run(provider.engine.site, committed, requests)
      && committed[|committed| - 1] == provider.Committed()
    }

    constructor (provider: Controller)
      requires provider.Ready()
      ensures this.provider == provider && Valid() && committed == [provider.Committed()] && requests == []
    {
      this.provider := provider;
      this.committed := [provider.Committed()];
      this.requests := [];
    }

    /** ApplyChanges: a request runs alone, and extends the run by a step that
        went through completely or not at all. From a safe start every
        configuration of the run is safe exactly when no change set of it did
        harm, as none of stable records does. */
    method ApplyChanges(changes: Changes, names: seq<string>) returns (code: nat)
      requires Valid() && |names| >= |Flatten(changes.Wanted())| && Fresh(names, provider.Committed())
      modifies this, provider.engine.ubus, provider.engine.ubus.rpcd, provider.status
      ensures Valid() && old(committed) <= committed
      ensures requests == old(requests) + [Cancelled(changes)]
      ensures code == NO_CONTENT ==>
        Completes(provider.engine.site, old(provider.Committed()), Cancelled(changes), provider.Committed())
      ensures code == NO_CONTENT || code == INTERNAL_SERVER_ERROR
      ensures code == INTERNAL_SERVER_ERROR ==>
        || provider.engine.ubus.rpcd.troubles > old(provider.engine.ubus.rpcd.troubles)
        || old(provider.engine.ubus.Stranded()) || exists ep <- changes.Wanted() :: Refusable(ep)
      ensures SafeConfig(provider.engine.site, committed[0]) ==>
        (SafeRun(provider.engine.site, committed, |requests|) <==>
         HarmlessRun(provider.engine.site, committed, requests, |requests|))
      ensures RunOfStable() && SafeConfig(provider.engine.site, committed[0]) ==>
        SafeConfig(provider.engine.site, provider.Committed())
      ensures forall s | s in committed[0] && Foreign(provider.engine.site, committed[0][s]) ::
        s in provider.Committed() && provider.Committed()[s] == committed[0][s]
    {
      hide Cancelled, SeenApply, Foreseeable, Faithful, Possible, Result, SkippedBy, Flatten, SafeConfig, Foreign,
           StableAll, SafeRun, HarmlessRun, Refusable;
      ghost var before := provider.Committed();
      var err, picks := provider.ApplyChanges(changes, names);
      ghost var ch := Cancelled(changes);
      StepCompletes(provider.engine.site, before, ch, picks);
      committed := committed + [provider.Committed()];
      requests := requests + [ch];
      code := if err.Some? then INTERNAL_SERVER_ERROR else NO_CONTENT;
      if SafeConfig(provider.engine.site, committed[0]) {
        RunSafeExactly(provider.engine.site, committed, requests, |requests|);
      }
      if RunOfStable() && SafeConfig(provider.engine.site, committed[0]) {
        RunKeepsSafe(provider.engine.site, committed, requests, |requests|);
      }
      forall s | s in committed[0] && Foreign(provider.engine.site, committed[0][s])
        ensures s in provider.Committed() && provider.Committed()[s] == committed[0][s]
      {
        RunSparesForeign(provider.engine.site, committed, requests, s, |requests|);
      }
    }

    // No request so far added a record with an unstable name.
    ghost predicate RunOfStable()
      reads this
    {
      forall ch <- requests :: StableAll(ch.add)
    }
  }

  // ---------- two queued copies of one request ----------

  /** Right after a change set went through, a copy of it writes nothing and
      makes no commit, unless it replaces records; it skips the same records
      exactly when no key was both skipped and let through; and even when it
      fails on the way, what is committed stays as it was. */
  method ApplyCopy(engine: Engine, ch: Change, names: seq<string>,
                   ghost before: Router, ghost picks: seq<string>, ghost skipped: seq<Skip>)
    returns (out: ApplyOutcome)
    requires engine.Valid() && engine.ubus.Clean()
    requires |names| == |ch.add| && Fresh(names, engine.ubus.rpcd.rt.committed)
    requires engine.Applies(before, engine.ubus.rpcd.rt, ch, picks, skipped)
    requires StableAll(ch.add) && NothingReplaced(engine.site, before.committed, ch, picks)
    modifies engine.ubus, engine.ubus.rpcd
    ensures engine.Valid() && engine.ubus.Clean()
    ensures engine.ubus.rpcd.rt.committed == old(engine.ubus.rpcd.rt.committed)
    ensures out.Applied? ==>
      && SameCommits(old(engine.ubus.rpcd.rt), engine.ubus.rpcd.rt)
      && engine.ubus.rpcd.rt.writes == old(engine.ubus.rpcd.rt.writes)
      && (Convergence.Records(out.skipped) == Convergence.Records(skipped) <==>
          SkipsApart(engine.site, before.committed, ch, picks))
  {
    hide Possible, StableAll, SkipsApart, NothingReplaced, Result, SkippedBy, Edits, Engine.Valid, Fresh;
    ghost var again;
    out, again := engine.ApplyDnsRecords(ch.remove, ch.add, names);
    assert Change(ch.remove, ch.add) == ch;
    Converges(engine.site, before.committed, ch, picks, again);
  }

  lemma StepCompletes(site: Site, before: Config, ch: Change, picks: seq<string>)
    requires |picks| == |ch.add|
    ensures Possible(site, before, ch, picks) ==> Completes(site, before, ch, Result(site, before, ch, picks).config)
  {
  }
}
