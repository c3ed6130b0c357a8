/** The kick between Publish and Run (pkg/status/syncer.go), as the steps any
    number of publishers and the one runner take, in any order. */
module Kick {
  datatype Runner = Waiting | Received | Syncing

  // latest and picked number the snapshots stored and read; pending are the
  // publishers that stored theirs and have not sent yet.
  datatype State = State(
    latest: nat, slot: bool, pending: set<nat>, runner: Runner, picked: nat,
    // how many publishers sent, and how often the runner read
    sent: nat, syncs: nat)

  const START := State(0, false, {}, Waiting, 0, 0, 0)

  datatype Step =
    | Store(p: nat)   // Publish replaces the snapshot
    | Send(p: nat)    // and kicks, unless a kick is waiting
    | Receive         // Run takes the kick
    | Read            // and reads the newest snapshot
    | Finish          // and is done syncing it

  predicate Enabled(s: State, e: Step) {
    match e
    case Store(p) => p !in s.pending
    case Send(p) => p in s.pending
    case Receive => s.runner.Waiting? && s.slot
    case Read => s.runner.Received?
    case Finish => s.runner.Syncing?
  }

  function Next(s: State, e: Step): State {
    match e
    case Store(p) => s.(latest := s.latest + 1, pending := s.pending + {p})
    case Send(p) => s.(slot := true, pending := s.pending - {p}, sent := s.sent + 1)
    case Receive => s.(slot := false, runner := Received)
    case Read => s.(picked := s.latest, runner := Syncing, syncs := s.syncs + 1)
    case Finish => s.(runner := Waiting)
  }

  function After(s: State, steps: seq<Step>): State {
    if steps == [] then s else Next(After(s, steps[..|steps| - 1]), steps[|steps| - 1])
  }

  ghost predicate Possible(s: State, steps: seq<Step>) {
    forall i | 0 <= i < |steps| :: Enabled(After(s, steps[..i]), steps[i])
  }

  // The newest snapshot was read, or something is still going to make the
  // runner read it.
  ghost predicate Awake(s: State) {
    s.picked < s.latest ==> s.slot || s.pending != {} || s.runner.Received?
  }

  ghost predicate NoSpareReads(s: State) {
    s.syncs + (if s.slot then 1 else 0) + (if s.runner.Received? then 1 else 0) <= s.sent && s.picked <= s.latest
  }

  lemma PossibleFront(s: State, steps: seq<Step>)
    requires Possible(s, steps) && steps != []
    ensures Possible(s, steps[..|steps| - 1]) && Enabled(After(s, steps[..|steps| - 1]), steps[|steps| - 1])
  {
    var front := steps[..|steps| - 1];
    forall i | 0 <= i < |front| ensures Enabled(After(s, front[..i]), front[i]) {
      assert front[..i] == steps[..i];
    }
  }

  /** No wake-up is lost, whatever the interleaving; and the runner never
      reads more often than it was kicked. */
  lemma {:induction false} NoLostWakeUp(steps: seq<Step>)
    requires Possible(START, steps)
    ensures Awake(After(START, steps)) && NoSpareReads(After(START, steps))
  {
    if steps != [] {
      PossibleFront(START, steps);
      NoLostWakeUp(steps[..|steps| - 1]);
    }
  }

  /** Once every publisher has sent and the runner waits with no kick left, it
      has read the newest snapshot. */
  lemma QuietIsCurrent(steps: seq<Step>)
    requires Possible(START, steps)
    requires var s := After(START, steps); s.pending == {} && !s.slot && s.runner.Waiting?
    ensures After(START, steps).picked == After(START, steps).latest
  {
    NoLostWakeUp(steps);
  }

  // What the runner does when left to itself, one step at a time.
  function Own(s: State): seq<Step> {
    match s.runner
    case Received => [Read]
    case Syncing => [Finish]
    case Waiting => if s.slot then [Receive] else []
  }

  lemma PossibleMore(s: State, steps: seq<Step>, e: Step)
    requires Possible(s, steps) && Enabled(After(s, steps), e)
    ensures Possible(s, steps + [e]) && After(s, steps + [e]) == Next(After(s, steps), e)
  {
    var more := steps + [e];
    assert more[..|steps|] == steps;
    forall i | 0 <= i < |more| ensures Enabled(After(s, more[..i]), more[i]) {
      if i < |steps| { assert more[..i] == steps[..i]; }
    }
  }

  /** From wherever things stand, the publishers' sends and the runner's own
      steps bring it to the newest snapshot: at most three steps once all sent. */
  lemma Catches(steps: seq<Step>) returns (more: seq<Step>)
    requires Possible(START, steps) && After(START, steps).pending == {}
    ensures steps <= more && |more| <= |steps| + 3 && Possible(START, more)
    ensures After(START, more).picked == After(START, more).latest == After(START, steps).latest
  {
    more := steps;
    NoLostWakeUp(steps);
    for n := 0 to 3
      invariant steps <= more && |more| <= |steps| + n && Possible(START, more)
      invariant After(START, more).latest == After(START, steps).latest && After(START, more).pending == {}
      invariant Distance(After(START, more)) <= 3 - n
    {
      var s := After(START, more);
      NoLostWakeUp(more);
      if s.picked < s.latest {
        var e := Own(s)[0];
        PossibleMore(START, more, e);
        more := more + [e];
      }
    }
    NoLostWakeUp(more);
  }

  // Runner steps until the newest snapshot is read.
  ghost function Distance(s: State): nat {
    if s.picked == s.latest then 0
    else match s.runner
      case Received => 1
      case Waiting => 2
      case Syncing => 3
  }
}
