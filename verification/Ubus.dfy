/** The ubus client: one session, and whether changes are staged in it, as far
    as is known (pkg/ubus/ubus.go). */
module Ubus {
  import opened Uci
  import opened Rpcd

  datatype Outcome = Ok(reply: Reply) | Err(noData: bool)

  // What a session sees once a request went through.
  function After(req: Request, seen: Config): Config {
    if req.Stage? then Do(seen, req.delta) else seen
  }

  // What a request that went through answered.
  ghost predicate Answers(req: Request, seen: Config, reply: Reply) {
    match req
    case Get => reply == Values(seen)
    case Stage(AddSection(s, _)) => reply == Section(s) || reply == Done
    case _ => reply == Done
  }

  predicate Fails(reply: Reply) {
    reply.Refused? || reply.Failed? || reply.NoReply?
  }

  ghost predicate SameCommits(rt: Router, rt': Router) {
    rt'.committed == rt.committed && rt'.commits == rt.commits
  }

  // seen is committed, and nothing else.
  ghost predicate Commits(rt: Router, rt': Router, seen: Config) {
    rt'.committed == seen && rt'.commits == rt.commits + [seen]
  }

  ghost predicate OthersKept(rt: Router, rt': Router, s: Session) {
    forall t: Session | t != s :: rt'.Staged(t) == rt.Staged(t)
  }

  // The sessions handed out before `bound` other than s hold what they held.
  ghost predicate Apart(rt: Router, rt': Router, s: Session, bound: Session) {
    forall t: Session | t < bound && t != s :: rt'.Staged(t) == rt.Staged(t)
  }

  function Weight(req: Request): nat {
    if req.Stage? then 1 else 0
  }

  // What one request over one session comes to.
  ghost predicate Sent(rt: Router, rt': Router, s: Session, req: Request, reply: Reply) {
    && rt'.WellFormed() && rt'.next == rt.next && OthersKept(rt, rt', s)
    && (!Fails(reply) ==> s in rt'.live && rt'.View(s) == After(req, rt.View(s)) && Answers(req, rt.View(s), reply))
    && (!Fails(reply) ==> rt'.writes == rt.writes + Weight(req))
    && (reply.Refused? ==> rt'.writes == rt.writes)
    && (!Fails(reply) && req.Apply? ==> rt'.Staged(s) == [] && Commits(rt, rt', rt.View(s)))
    && (!Fails(reply) && !req.Apply? ==> SameCommits(rt, rt'))
    && (!Fails(reply) && req.Stage? ==> rt'.Staged(s) != [])
    && (req.Get? ==> rt'.Staged(s) == rt.Staged(s) || rt'.Staged(s) == [])
    && (Fails(reply) ==> SameCommits(rt, rt') || (req.Apply? && Commits(rt, rt', rt.View(s))))
    && (reply.Refused? ==> SameCommits(rt, rt') && (rt.Staged(s) == [] ==> rt'.Staged(s) == []))
    && (req.Apply? && reply == Failed(NO_DATA) ==> rt' == rt && rt.Staged(s) == [])
  }

  lemma ServedSends(rt: Router, rt': Router, s: Session, req: Request, reply: Reply)
    requires rt.WellFormed() && rt'.WellFormed() && Served(rt, rt', s, req, reply)
    ensures Sent(rt, rt', s, req, reply)
  {
  }

  lemma NothingStaged(rt: Router, s: Session)
    requires rt.Staged(s) == []
    ensures rt.View(s) == rt.committed
  {
  }

  class Client {
    const rpcd: Host
    var session: Session
    var staged: bool

    ghost predicate Sound()
      reads this, rpcd
    {
      rpcd.rt.WellFormed() && session < rpcd.rt.next && (session == 0 ==> !staged)
    }

    // What the session staged and did not apply is known to be there.
    ghost predicate Valid()
      reads this, rpcd
    {
      Sound() && (session != 0 && rpcd.rt.Staged(session) != [] ==> staged)
    }

    ghost predicate Clean()
      reads this, rpcd
    {
      session == 0 || rpcd.rt.Staged(session) == []
    }

    // The configuration the next call works on, logging in first if need be.
    ghost function Seen(): Config
      reads this, rpcd
    {
      if session == 0 then rpcd.rt.committed else rpcd.rt.View(session)
    }

    // A session that died with changes staged in it, as far as is known.
    ghost predicate Stranded()
      reads this, rpcd
    {
      staged && session !in rpcd.rt.live
    }

    constructor (rpcd: Host)
      requires rpcd.rt.WellFormed()
      ensures this.rpcd == rpcd && session == 0 && !staged && Valid() && Clean()
    {
      this.rpcd := rpcd;
      session := 0;
      staged := false;
    }

    method Reset()
      modifies this
      ensures session == 0 && !staged
    {
      session := 0;
      staged := false;
    }

    method IsStaged(s: Session) returns (yes: bool)
      ensures yes == (session == s && staged)
    {
      yes := session == s && staged;
    }

    method Track(s: Session, req: Request)
      modifies this
      ensures session == old(session)
      ensures staged == if session != s || req.Get? then old(staged) else req.Stage?
    {
      if session != s { return; }
      match req
      case Get =>
      case Stage(_) => staged := true;
      case Apply => staged := false;
    }

    method Forget(s: Session)
      modifies this
      ensures if old(session) == s then session == 0 && !staged else session == old(session) && staged == old(staged)
    {
      if session == s {
        session := 0;
        staged := false;
      }
    }

    method Login() returns (s: Session)
      requires Sound()
      modifies this, rpcd
      ensures Sound() && session == s && staged == old(staged)
      ensures s == 0 ==> rpcd.troubles > old(rpcd.troubles)
      ensures rpcd.troubles >= old(rpcd.troubles) && rpcd.applies == old(rpcd.applies)
      ensures old(session) != 0 ==> session == old(session) && rpcd.rt == old(rpcd.rt)
      ensures old(session) == 0 && s != 0 ==>
        old(rpcd.rt.next) <= s && s in rpcd.rt.live && rpcd.rt.Staged(s) == []
      ensures rpcd.rt.committed == old(rpcd.rt.committed) && rpcd.rt.commits == old(rpcd.rt.commits)
      ensures rpcd.rt.writes == old(rpcd.rt.writes)
      ensures rpcd.rt.staged == old(rpcd.rt.staged) && rpcd.rt.next >= old(rpcd.rt.next)
      ensures forall t: Session :: rpcd.rt.Staged(t) == old(rpcd.rt).Staged(t)
    {
      if session != 0 {
        return session;
      }
      s := rpcd.Login();
      if s == 0 {
        return;
      }
      session := s;
    }

    // One request over one session, the HTTP exchange of it left out.
    method Send(s: Session, req: Request) returns (reply: Reply)
      requires rpcd.rt.WellFormed()
      modifies rpcd
      ensures Sent(old(rpcd.rt), rpcd.rt, s, req, reply)
      ensures rpcd.troubles >= old(rpcd.troubles)
      ensures rpcd.applies == old(rpcd.applies) + if MayCommit(req, reply) then 1 else 0
      ensures rpcd.troubles == old(rpcd.troubles) && !Fails(reply) && Adds(req) ==> reply.Section?
      ensures rpcd.troubles == old(rpcd.troubles) && Fails(reply) ==>
        (reply.Refused? && s !in old(rpcd.rt.live)) ||
        (s in old(rpcd.rt.live) && Objectionable(req, old(rpcd.rt.View(s)), old(rpcd.rt.Staged(s)) == []) &&
            !reply.Refused?)
    {
      reply := rpcd.Serve(s, req);
      ServedSends(old(rpcd.rt), rpcd.rt, s, req, reply);
    }

    /** One uci call. It goes through as a whole on the configuration the
        client saw, whichever session it ended up in, or it fails; and only an
        apply, failed or not, can have committed anything, which is then all
        that the client saw. */
    method Call(req: Request) returns (out: Outcome)
      requires Valid()
      modifies this, rpcd
      ensures Sound() && rpcd.rt.next >= old(rpcd.rt.next)
      ensures session == 0 || session == old(session) || session >= old(rpcd.rt.next)
      ensures Apart(old(rpcd.rt), rpcd.rt, old(session), old(rpcd.rt.next))
      ensures out.Ok? ==> Valid() && session in rpcd.rt.live
      ensures out.Ok? ==> Seen() == After(req, old(Seen())) && Answers(req, old(Seen()), out.reply)
      ensures out.Ok? && req.Apply? ==> Clean() && Commits(old(rpcd.rt), rpcd.rt, old(Seen()))
      ensures out.Ok? && !req.Apply? ==> SameCommits(old(rpcd.rt), rpcd.rt)
      ensures out.Ok? && req.Stage? ==> !Clean()
      ensures req.Get? ==> Valid() && (old(Clean()) ==> Clean()) && (staged ==> old(staged))
      ensures out.Ok? ==> rpcd.rt.writes == old(rpcd.rt.writes) + Weight(req)
      ensures out.Err? ==>
        SameCommits(old(rpcd.rt), rpcd.rt) || (req.Apply? && Commits(old(rpcd.rt), rpcd.rt, old(Seen())))
      ensures req.Apply? && out == Err(true) ==>
        Valid() && Clean() && old(Seen()) == rpcd.rt.committed && SameCommits(old(rpcd.rt), rpcd.rt) &&
        rpcd.rt.writes == old(rpcd.rt.writes)
      ensures rpcd.troubles >= old(rpcd.troubles)
      ensures old(rpcd.applies) <= rpcd.applies <= old(rpcd.applies) + if req.Apply? then 1 else 0
      ensures out.Ok? && rpcd.troubles == old(rpcd.troubles) && Adds(req) ==> out.reply.Section?
      ensures out.Err? && rpcd.troubles == old(rpcd.troubles) ==>
        old(Stranded()) || Objectionable(req, old(Seen()), old(Clean()))
    {
      hide Overlay, Do, Answers, After, Objectionable, Router.Staged;
      var s := Login();
      if s == 0 {
        return Err(false);
      }
      if rpcd.rt.Staged(s) == [] { NothingStaged(rpcd.rt, s); }
      assert rpcd.rt.View(s) == old(Seen());
      label First:
      var reply := Send(s, req);
      if reply.Refused? {
        var dirty := IsStaged(s);
        if dirty {
          return Err(false);
        }
        Forget(s);
        s := Login();
        if s == 0 {
          return Err(false);
        }
        NothingStaged(rpcd.rt, s);
        assert rpcd.rt.View(s) == old(Seen());
        label Second:
        reply := Send(s, req);
      }
      if Fails(reply) {
        return Err(reply.Failed? && reply.code == NO_DATA);
      }
      Track(s, req);
      return Ok(reply);
    }
  }

  predicate Adds(req: Request) {
    req.Stage? && req.delta.AddSection?
  }

  // A request rpcd turns down on this configuration.
  ghost predicate Objectionable(req: Request, seen: Config, clean: bool) {
    match req
    case Get => false
    case Apply => clean
    case Stage(AddSection(_, _)) => false
    case Stage(SetOption(s, _, _)) => s !in seen
    case Stage(DeleteSection(s)) => s !in seen
  }
}
