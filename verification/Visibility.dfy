/** What Records() sees while a change set runs: the reading session stages
    nothing, so it sees what is committed, and a change set commits once. */
module Visibility {
  import opened Uci
  import opened Rpcd

  datatype Event =
    | Call(session: Session, request: Request, reply: Reply)
    | Login

  // The router hands out one more session.
  ghost predicate LoggedIn(rt: Router, rt': Router) {
    && rt'.committed == rt.committed && rt'.commits == rt.commits && rt'.writes == rt.writes
    && rt'.staged == rt.staged && rt.live <= rt'.live && rt.next <= rt'.next
  }

  // Readers only ever get; whoever else calls may do anything.
  ghost predicate Step(rt: Router, rt': Router, readers: set<Session>, e: Event) {
    match e
    case Login => LoggedIn(rt, rt')
    case Call(s, req, reply) => Served(rt, rt', s, req, reply) && (s in readers ==> req.Get?)
  }

  ghost predicate Trace(states: seq<Router>, events: seq<Event>, readers: set<Session>) {
    && |states| == |events| + 1
    && forall i | 0 <= i < |events| :: Step(states[i], states[i + 1], readers, events[i])
  }

  ghost predicate ReadersClean(rt: Router, readers: set<Session>) {
    forall s | s in readers :: rt.Staged(s) == []
  }

  lemma StepKeeps(rt: Router, rt': Router, readers: set<Session>, e: Event)
    requires Step(rt, rt', readers, e) && ReadersClean(rt, readers)
    ensures ReadersClean(rt', readers)
    ensures (rt'.commits == rt.commits && rt'.committed == rt.committed) || rt'.commits == rt.commits + [rt'.committed]
  {
  }

  lemma {:induction false} TraceKeeps(states: seq<Router>, events: seq<Event>, readers: set<Session>, i: nat, j: nat)
    requires Trace(states, events, readers) && ReadersClean(states[0], readers) && i <= j < |states|
    ensures ReadersClean(states[j], readers)
    ensures |states[i].commits| <= |states[j].commits|
    ensures |states[i].commits| == |states[j].commits| ==> states[i].committed == states[j].committed
    decreases j
  {
    hide Step, ReadersClean;
    if i < j {
      TraceKeeps(states, events, readers, i, j - 1);
      assert Step(states[j - 1], states[j], readers, events[j - 1]);
      StepKeeps(states[j - 1], states[j], readers, events[j - 1]);
    } else if j > 0 {
      TraceKeeps(states, events, readers, j - 1, j - 1);
      assert Step(states[j - 1], states[j], readers, events[j - 1]);
      StepKeeps(states[j - 1], states[j], readers, events[j - 1]);
    }
  }

  // The i-th event is a read that came through with this configuration.
  ghost predicate Reads(events: seq<Event>, readers: set<Session>, i: nat, c: Config) {
    i < |events| && events[i].Call? && events[i].session in readers && events[i].reply == Values(c)
  }

  /** Every read gives the configuration committed at that moment. */
  lemma ReadsCommitted(states: seq<Router>, events: seq<Event>, readers: set<Session>, i: nat, c: Config)
    requires Trace(states, events, readers) && ReadersClean(states[0], readers) && Reads(events, readers, i, c)
    ensures c == states[i].committed
  {
    hide Step;
    TraceKeeps(states, events, readers, i, i);
    assert Step(states[i], states[i + 1], readers, events[i]);
    ReadIsView(states[i], states[i + 1], readers, events[i], c);
  }

  lemma ReadIsView(rt: Router, rt': Router, readers: set<Session>, e: Event, c: Config)
    requires Step(rt, rt', readers, e) && e.Call? && e.session in readers && e.reply == Values(c)
    requires ReadersClean(rt, readers)
    ensures c == rt.committed
  {
  }

  // ---------- how often something is committed ----------

  predicate Commits(e: Event) {
    e.Call? && MayCommit(e.request, e.reply)
  }

  function Applies(events: seq<Event>): nat {
    if events == [] then 0
    else Applies(events[..|events| - 1]) + if Commits(events[|events| - 1]) then 1 else 0
  }

  lemma TraceFront(states: seq<Router>, events: seq<Event>, readers: set<Session>)
    requires Trace(states, events, readers) && events != []
    ensures var n := |events| - 1;
      Trace(states[..n + 1], events[..n], readers) && Step(states[n], states[n + 1], readers, events[n])
  {
    hide Step;
  }

  /** Nothing but an apply commits, and each apply commits once. */
  lemma {:induction false} CommitsFollowApplies(states: seq<Router>, events: seq<Event>, readers: set<Session>)
    requires Trace(states, events, readers)
    ensures |states[0].commits| <= |states[|events|].commits| <= |states[0].commits| + Applies(events)
  {
    hide Step;
    if events != [] {
      var n := |events| - 1;
      TraceFront(states, events, readers);
      CommitsFollowApplies(states[..n + 1], events[..n], readers);
      StepCommits(states[n], states[n + 1], readers, events[n]);
    }
  }

  lemma StepCommits(rt: Router, rt': Router, readers: set<Session>, e: Event)
    requires Step(rt, rt', readers, e)
    ensures |rt.commits| <= |rt'.commits| <= |rt.commits| + if Commits(e) then 1 else 0
  {
  }

  predicate ByReader(e: Event, readers: set<Session>) {
    e.Call? && e.session in readers
  }

  // The calls left when the readers' are taken out.
  function Others(events: seq<Event>, readers: set<Session>): seq<Event> {
    if events == [] then []
    else
      var before, e := Others(events[..|events| - 1], readers), events[|events| - 1];
      if ByReader(e, readers) then before else before + [e]
  }

  // Readers apply nothing.
  lemma {:induction false} AppliesByOthers(states: seq<Router>, events: seq<Event>, readers: set<Session>)
    requires Trace(states, events, readers)
    ensures Applies(Others(events, readers)) == Applies(events)
  {
    if events != [] {
      var n := |events| - 1;
      TraceFront(states, events, readers);
      hide Served, LoggedIn;
      AppliesByOthers(states[..n + 1], events[..n], readers);
      var before := Others(events[..n], readers);
      assert (before + [events[n]])[..|before|] == before;
    }
  }

  /** In every interleaving with a change set, which without the readers sends
      one apply that may commit, the managed sections a read reports are all of before or all of
      after, and once a read reports after, no later one reports anything else. */
  lemma AllOrNoneVisible(site: Site, states: seq<Router>, events: seq<Event>, readers: set<Session>,
                         i: nat, c: Config, j: nat, d: Config)
    requires Trace(states, events, readers) && ReadersClean(states[0], readers)
    requires Applies(Others(events, readers)) <= 1
    requires Reads(events, readers, i, c) && Reads(events, readers, j, d) && i <= j
    ensures c == states[0].committed || c == states[|events|].committed
    ensures Managed(site, c) == Managed(site, states[0].committed) ||
            Managed(site, c) == Managed(site, states[|events|].committed)
    ensures c != states[0].committed ==> d == states[|events|].committed
  {
    hide Step, Managed, ReadersClean, Reads;
    CommitsFollowApplies(states, events, readers);
    AppliesByOthers(states, events, readers);
    ReadsCommitted(states, events, readers, i, c);
    ReadsCommitted(states, events, readers, j, d);
    ReadWithin(events, readers, i, c);
    ReadWithin(events, readers, j, d);
    TraceKeeps(states, events, readers, 0, i);
    TraceKeeps(states, events, readers, i, j);
    TraceKeeps(states, events, readers, i, |events|);
    TraceKeeps(states, events, readers, j, |events|);
  }

  lemma ReadWithin(events: seq<Event>, readers: set<Session>, i: nat, c: Config)
    requires Reads(events, readers, i, c)
    ensures i < |events|
  {
  }

  // ---------- the readers make no difference ----------

  // What anyone but the readers can tell of a router.
  ghost predicate Alike(a: Router, b: Router, readers: set<Session>) {
    && a.committed == b.committed && a.commits == b.commits && a.writes == b.writes
    && (forall s: Session | s !in readers :: a.Staged(s) == b.Staged(s) && (s in a.live <==> s in b.live))
  }

  // A reader's call leaves every other session what it had and saw.
  lemma ReaderUnnoticed(rt: Router, rt': Router, readers: set<Session>, e: Event)
    requires Step(rt, rt', readers, e) && ByReader(e, readers)
    ensures Alike(rt, rt', readers)
    ensures forall s: Session | s !in readers :: rt'.View(s) == rt.View(s)
  {
  }

  // What another session's call does does not depend on the readers.
  lemma OtherFollows(a: Router, a': Router, b: Router, readers: set<Session>, e: Event) returns (b': Router)
    requires Step(a, a', readers, e) && !ByReader(e, readers) && Alike(a, b, readers)
    ensures Step(b, b', readers, e) && Alike(a', b', readers)
  {
    match e
    case Login =>
      b' := b.(live := b.live + (a'.live - readers));
    case Call(s, req, reply) =>
      SameSight(a, b, readers, s, req);
      match reply
      case Refused =>
        b' := b.(live := if s in a'.live then b.live else b.live - {s},
                 staged := if a'.staged == a.staged then b.staged else b.staged - {s});
      case Failed(_) => b' := b;
      case NoReply => b' := if a' == a then b else b.Exec(s, req);
      case _ => b' := b.Exec(s, req);
  }

  lemma SameSight(a: Router, b: Router, readers: set<Session>, s: Session, req: Request)
    requires Alike(a, b, readers) && s !in readers
    ensures a.View(s) == b.View(s) && a.Objection(s, req) == b.Objection(s, req) && a.Answer(s, req) == b.Answer(s, req)
    ensures Alike(a.Exec(s, req), b.Exec(s, req), readers)
  {
  }

  /** Whatever a change set goes through while readers read, it can go through
      with no reader there: the same calls with the same answers, to a router
      that comes out the same. So what is proved of a change set that runs alone
      holds of one that readers interleave with. */
  lemma {:induction false} ReadersErased(states: seq<Router>, events: seq<Event>, readers: set<Session>)
    returns (alone: seq<Router>)
    requires Trace(states, events, readers)
    ensures Trace(alone, Others(events, readers), readers) && alone[0] == states[0]
    ensures Alike(states[|events|], alone[|alone| - 1], readers)
  {
    hide Step, Alike;
    if events == [] {
      alone := states;
      AlikeSelf(states[0], readers);
    } else {
      var n := |events| - 1;
      TraceFront(states, events, readers);
      alone := ReadersErased(states[..n + 1], events[..n], readers);
      if ByReader(events[n], readers) {
        ReaderUnnoticed(states[n], states[n + 1], readers, events[n]);
        AlikeOnward(states[n + 1], states[n], alone[|alone| - 1], readers);
      } else {
        var next := OtherFollows(states[n], states[n + 1], alone[|alone| - 1], readers, events[n]);
        TraceMore(alone, Others(events[..n], readers), readers, next, events[n]);
        alone := alone + [next];
      }
    }
  }

  lemma TraceMore(states: seq<Router>, events: seq<Event>, readers: set<Session>, next: Router, e: Event)
    requires Trace(states, events, readers) && Step(states[|events|], next, readers, e)
    ensures Trace(states + [next], events + [e], readers)
  {
    hide Step;
  }

  lemma AlikeSelf(a: Router, readers: set<Session>)
    ensures Alike(a, a, readers)
  {
  }

  lemma AlikeOnward(a: Router, b: Router, c: Router, readers: set<Session>)
    requires Alike(b, a, readers) && Alike(b, c, readers)
    ensures Alike(a, c, readers)
  {
  }
}
