/** The router's end of the session protocol: rpcd keeps the committed
    configuration, and per session what that session staged on top of it
    (the comments of pkg/ubus/ubus.go and pkg/openwrt/openwrt.go). */
module Rpcd {
  import opened Types
  import opened Uci

  datatype Delta =
    | AddSection(section: string, options: Options)
    | SetOption(section: string, option: string, value: Value)
    | DeleteSection(section: string)

  function Do(c: Config, d: Delta): Config {
    match d
    case AddSection(s, o) => c[s := o]
    case SetOption(s, k, v) => if s in c then c[s := c[s][k := v]] else c
    case DeleteSection(s) => c - {s}
  }

  function Overlay(c: Config, ds: seq<Delta>): Config {
    if ds == [] then c else Do(Overlay(c, ds[..|ds| - 1]), ds[|ds| - 1])
  }

  // Session 0 stands for none.
  type Session = nat

  // UBUS_STATUS_NOT_FOUND and UBUS_STATUS_NO_DATA.
  const NOT_FOUND := 4
  const NO_DATA := 5

  datatype Request = Get | Stage(delta: Delta) | Apply

  datatype Reply =
    | Values(config: Config)   // what the session sees
    | Section(name: string)    // the section added
    | Done                     // status 0 without data
    | Refused                  // no such session, or no right to the call
    | Failed(code: nat)        // any other status
    | NoReply                  // nothing came back

  datatype Router = Router(
    committed: Config,
    staged: map<Session, seq<Delta>>,
    live: set<Session>,
    next: Session,
    // every configuration committed since the start, oldest first
    commits: seq<Config>,
    // how many uci writes were staged since the start
    writes: nat)
  {
    ghost predicate WellFormed() {
      next > 0 && (forall s | s in staged || s in live :: 0 < s < next)
    }

    function Staged(s: Session): seq<Delta> {
      if s in staged then staged[s] else []
    }

    function View(s: Session): Config {
      Overlay(committed, Staged(s))
    }

    // The status of a request rpcd turns down by itself.
    function Objection(s: Session, req: Request): Option<nat> {
      match req
      case Get => None
      case Apply => if Staged(s) == [] then Some(NO_DATA) else None
      case Stage(AddSection(_, _)) => None
      case Stage(SetOption(sec, _, _)) => if sec in View(s) then None else Some(NOT_FOUND)
      case Stage(DeleteSection(sec)) => if sec in View(s) then None else Some(NOT_FOUND)
    }

    function Exec(s: Session, req: Request): Router {
      match req
      case Get => this
      case Stage(d) => this.(staged := staged[s := Staged(s) + [d]], writes := writes + 1)
      case Apply => this.(committed := View(s), staged := staged[s := []], commits := commits + [View(s)])
    }

    function Answer(s: Session, req: Request): Reply {
      match req
      case Get => Values(View(s))
      case Stage(AddSection(sec, _)) => Section(sec)
      case _ => Done
    }
  }

  // What a session sees after a request, and that one with nothing staged
  // sees what is committed.
  lemma ExecView(rt: Router, s: Session, req: Request)
    ensures req.Stage? ==> rt.Exec(s, req).View(s) == Do(rt.View(s), req.delta)
    ensures !req.Stage? ==> rt.Exec(s, req).View(s) == rt.View(s)
    ensures rt.Staged(s) == [] ==> rt.View(s) == rt.committed
    ensures forall t | t != s :: rt.Exec(s, req).Staged(t) == rt.Staged(t)
  {
  }

  // A session that is gone took what it staged with it, or left it to rot.
  ghost predicate Expired(rt: Router, rt': Router, s: Session) {
    && rt'.committed == rt.committed && rt'.commits == rt.commits && rt'.next == rt.next && rt'.writes == rt.writes
    && rt'.live <= rt.live && rt.live - {s} <= rt'.live
    && (rt'.staged == rt.staged || rt'.staged == rt.staged - {s})
  }

  /** Everything the router may do with one request, and what may come back. */
  ghost predicate Served(rt: Router, rt': Router, s: Session, req: Request, reply: Reply) {
    match reply
    case Refused => Expired(rt, rt', s)
    case Failed(code) => rt' == rt && (req.Apply? && code == NO_DATA ==> rt.Staged(s) == [])
    case NoReply => rt' == rt || (s in rt.live && rt.Objection(s, req).None? && rt' == rt.Exec(s, req))
    case Done => !req.Get? && s in rt.live && rt.Objection(s, req).None? && rt' == rt.Exec(s, req)
    case _ => s in rt.live && rt.Objection(s, req).None? && rt' == rt.Exec(s, req) && reply == rt.Answer(s, req)
  }

  // An apply that went through, or whose answer never came.
  predicate MayCommit(req: Request, reply: Reply) {
    req.Apply? && (reply.Done? || reply.NoReply?)
  }

  // What a router nothing is wrong with answers.
  ghost predicate Calm(rt: Router, rt': Router, s: Session, req: Request, reply: Reply) {
    if s !in rt.live then reply == Refused && rt' == rt
    else if rt.Objection(s, req).Some? then reply == Failed(rt.Objection(s, req).value) && rt' == rt
    else reply == rt.Answer(s, req) && rt' == rt.Exec(s, req)
  }

  // What goes wrong with a call.
  datatype Fate = Fine | Expire(purged: bool) | Deny | Break(code: nat) | Drop | LoseReply | Blank

  class Host {
    var rt: Router
    // How many calls something went wrong with.
    ghost var troubles: nat
    // How many applies went through, or may have, for no answer came.
    ghost var applies: nat

    constructor (committed: Config)
      ensures rt.WellFormed() && rt.committed == committed && rt.commits == [] && rt.live == {} && rt.writes == 0
    {
      rt := Router(committed, map[], {}, 1, [], 0);
      troubles, applies := 0, 0;
    }

    method Serve(s: Session, req: Request) returns (reply: Reply)
      requires rt.WellFormed()
      modifies this
      ensures rt.WellFormed() && Served(old(rt), rt, s, req, reply)
      ensures troubles >= old(troubles)
      ensures troubles == old(troubles) ==> Calm(old(rt), rt, s, req, reply)
      ensures applies == old(applies) + if MayCommit(req, reply) then 1 else 0
    {
      reply := Answered(s, req);
      if MayCommit(req, reply) { applies := applies + 1; }
    }

    method Answered(s: Session, req: Request) returns (reply: Reply)
      requires rt.WellFormed()
      modifies this
      ensures rt.WellFormed() && Served(old(rt), rt, s, req, reply)
      ensures troubles >= old(troubles)
      ensures troubles == old(troubles) ==> Calm(old(rt), rt, s, req, reply)
      ensures applies == old(applies)
    {
      var fate: Fate := *;
      if !fate.Fine? { troubles := troubles + 1; }
      match fate
      case Expire(purged) =>
        rt := rt.(live := rt.live - {s}, staged := if purged then rt.staged - {s} else rt.staged);
        return Refused;
      case Deny => return Refused;
      case Drop => return NoReply;
      case Break(code) =>
        if req.Apply? && code == NO_DATA { return NoReply; }
        return Failed(code);
      case _ =>
        if s !in rt.live { return Refused; }
        var objection := rt.Objection(s, req);
        if objection.Some? { return Failed(objection.value); }
        reply := rt.Answer(s, req);
        rt := rt.Exec(s, req);
        if fate.LoseReply? { reply := NoReply; }
        if fate.Blank? && !req.Get? { reply := Done; }
    }

    // session.login: a session nobody holds yet, unless the reply is lost.
    method Login() returns (s: Session)
      requires rt.WellFormed()
      modifies this
      ensures rt.WellFormed()
      ensures rt.committed == old(rt).committed && rt.staged == old(rt).staged && rt.commits == old(rt).commits
      ensures rt.writes == old(rt).writes && old(rt).live <= rt.live && rt.next >= old(rt).next
      ensures s != 0 ==> old(rt).next <= s < rt.next && s in rt.live
      ensures troubles >= old(troubles) && (troubles == old(troubles) ==> s != 0)
      ensures applies == old(applies)
    {
      var fate: Fate := *;
      if !fate.Fine? { troubles := troubles + 1; }
      if fate.Fine? || fate.LoseReply? {
        s := rt.next;
        rt := rt.(live := rt.live + {s}, next := s + 1);
        if fate.LoseReply? { s := 0; }
      } else {
        s := 0;
      }
    }
  }
}
