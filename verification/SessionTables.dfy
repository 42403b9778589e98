/**
 The server's session tables as the handlers change them.  Each method is one handler from its first
 lock to its last with nothing in between, proved to be the steps of `Sessions` in a row; the steps
 in any other order are the business of `Sessions`.
 */
module SessionTables {
  import opened Options
  import opened AutoNames
  import opened Sessions

  // ---------------------------------------------------------------- handlers without interruption

  /** A join with nothing in between; a refused name costs the handle. */
  function WholeJoin(n: Node, s: SessionId, m: Membership, requested: Option<string>): Node {
    var n' := n.(next := n.next[m.fed := m.handle + 1], taken := n.taken[m := Ticket(s, requested)]);
    if requested.Some? && NameIn(n.members, m.fed, requested.value) then n'
    else n'.(members := n.members[m := Member(s, ChosenName(requested, m.handle))], live := n.live[s := Some(m)])
  }

  function WholeClose(n: Node, s: SessionId, window: bool): Node
    requires s in n.live
  {
    Closed(n, s, window).(connections := n.connections - {s}, closing := n.closing[s := ClosingOf(n, s)])
  }

  function WholeResume(n: Node, s: SessionId, late: bool, delivered: bool): Node
    requires s in n.suspended
  {
    var n' := n.(suspended := n.suspended - {s});
    if late || !delivered then n'
    else n'.(live := n.live[s := Some(n.suspended[s])], connections := n.connections + {s})
  }

  function WholeExpiry(n: Node, s: SessionId): Node
    requires s in n.suspended
  {
    n.(suspended := n.suspended - {s}, members := n.members - {n.suspended[s]})
  }

  lemma FindLeaves(n: Node, n': Node, s: SessionId, name: string, requested: Option<string>)
    requires Finds(n, s, name) && n' == Step(n, Find(s, name, requested))
    ensures n' == n.(joining := n.joining[s := Located(n.registry[name], requested)])
  {
  }

  lemma TakeLeaves(n: Node, n': Node, s: SessionId, m: Membership, requested: Option<string>)
    requires s in n.joining && n.joining[s] == Located(m.fed, requested) && m.fed in n.next && m.handle == n.next[m.fed]
    requires n' == Step(n, Take(s))
    ensures n' == n.(
      next := n.next[m.fed := m.handle + 1],
      taken := n.taken[m := Ticket(s, requested)],
      joining := n.joining[s := Numbered(m, requested)])
  {
  }

  lemma CheckLeaves(n: Node, n': Node, s: SessionId, m: Membership, requested: Option<string>)
    requires s in n.joining && n.joining[s] == Numbered(m, requested) && n' == Step(n, Check(s))
    ensures n' == n.(joining :=
      if requested.Some? && NameIn(n.members, m.fed, requested.value) then n.joining - {s}
      else n.joining[s := Checked(m, requested)])
  {
  }

  lemma InsertLeaves(n: Node, n': Node, s: SessionId)
    requires n' == Step(n, Insert(s))
    ensures s !in n.joining ==> n' == n
    ensures s in n.joining && n.joining[s].Checked? ==>
      var j := n.joining[s];
      n' == n.(members := n.members[j.m := Member(s, ChosenName(j.requested, j.m.handle))],
               live := n.live[s := Some(j.m)],
               joining := n.joining - {s})
  {
  }

  /** It is lookup, handle, name test and insertion in a row. */
  lemma JoinSteps(n: Node, n1: Node, n2: Node, n3: Node, s: SessionId, name: string, requested: Option<string>,
          m: Membership)
    requires Idle(n, s) && n.live[s].None? && name in n.registry
    requires m.fed == n.registry[name] && m.fed in n.next && m.handle == n.next[m.fed]
    requires n1 == Step(n, Find(s, name, requested)) && n2 == Step(n1, Take(s)) && n3 == Step(n2, Check(s))
    ensures Step(n3, Insert(s)) == WholeJoin(n, s, m, requested)
  {
    FindLeaves(n, n1, s, name, requested);
    TakeLeaves(n1, n2, s, m, requested);
    CheckLeaves(n2, n3, s, m, requested);
    InsertLeaves(n3, Step(n3, Insert(s)), s);
    JoinerGone(n.joining, s, Located(m.fed, requested), Numbered(m, requested), Checked(m, requested));
  }

  lemma JoinerGone(joining: map<SessionId, Joiner>, s: SessionId, a: Joiner, b: Joiner, c: Joiner)
    requires s !in joining
    ensures joining[s := a][s := b] - {s} == joining
    ensures joining[s := a][s := b][s := c] - {s} == joining
  {
  }

  lemma CloseSteps(n: Node, n1: Node, n2: Node, s: SessionId, window: bool)
    requires Idle(n, s) && n1 == Step(n, Close(s, window)) && n2 == Step(n1, Disconnect(s))
    ensures n2 == WholeClose(n, s, window)
  {
    assert n1 == Closed(n, s, window);
    assert n1.closing == n.closing[s := ClosingOf(n, s) + 1] && n1.connections == n.connections;
    DisconnectLeaves(n1, n2, s);
    assert n.closing[s := ClosingOf(n, s) + 1][s := ClosingOf(n, s)] == n.closing[s := ClosingOf(n, s)];
  }

  lemma DisconnectLeaves(n: Node, n': Node, s: SessionId)
    requires ClosingOf(n, s) > 0 && n' == Step(n, Disconnect(s))
    ensures n' == n.(connections := n.connections - {s}, closing := n.closing[s := ClosingOf(n, s) - 1])
  {
  }

  lemma ResumeSteps(n: Node, n1: Node, s: SessionId, late: bool, delivered: bool)
    requires s in n.suspended && s !in n.moving && n1 == Step(n, TakeOut(s, late))
    ensures Step(n1, if delivered then Attach(s) else StatusLost(s)) == WholeResume(n, s, late, delivered)
  {
    assert n1.moving == if late then n.moving else n.moving[s := Resuming(n.suspended[s])];
    assert n.moving[s := Resuming(n.suspended[s])] - {s} == n.moving;
  }

  lemma ExpirySteps(n: Node, n1: Node, s: SessionId)
    requires s in n.suspended && s !in n.moving && n1 == Step(n, Reap(s))
    ensures Step(n1, Remove(s)) == WholeExpiry(n, s)
  {
    assert n1.moving == n.moving[s := Reaping(n.suspended[s])];
    assert n.moving[s := Reaping(n.suspended[s])] - {s} == n.moving;
  }

  // ---------------------------------------------------------------- a resume that fails

  /** A resume that comes too late, or whose status frame is not delivered, leaves an orphan behind. */
  lemma FailedResumeOrphans(n: Node, s: SessionId, late: bool, delivered: bool)
    requires Sound(n) && s in n.suspended
    ensures Orphan(WholeResume(n, s, late, delivered), n.suspended[s]) <==> late || !delivered
  {
    var n' := WholeResume(n, s, late, delivered);
    if late || !delivered {
      forall t
        ensures !Holds(n', t, n.suspended[s])
      {
        if Holds(n', t, n.suspended[s]) {
          HeldOnce(n, s, t, n.suspended[s], n.suspended[s]);
        }
      }
    } else {
      assert Holds(n', s, n.suspended[s]);
    }
  }

  // ---------------------------------------------------------------- the tables

  function Federates(suspended: map<SessionId, Membership>, ss: set<SessionId>): set<Membership> {
    set s | s in ss && s in suspended :: suspended[s]
  }

  lemma ExpireOne(suspended: map<SessionId, Membership>, members: map<Membership, Member>, done: set<SessionId>,
          s: SessionId)
    requires s !in done
    ensures suspended - done - {s} == suspended - (done + {s})
    ensures members - Federates(suspended, done) - Federates(suspended - done, {s}) ==
      members - Federates(suspended, done + {s})
  {
    assert Federates(suspended, done + {s}) == Federates(suspended, done) + Federates(suspended - done, {s});
  }

  datatype JoinReply = Joined(h: Handle) | AlreadyMember | NoFederation | NameInUse

  function JoinOutcome(n: Node, s: SessionId, name: string, requested: Option<string>): JoinReply
    requires s in n.live && RegistryKnown(n.registry, n.next)
  {
    if n.live[s].Some? then AlreadyMember
    else if name !in n.registry then NoFederation
    else if requested.Some? && NameIn(n.members, n.registry[name], requested.value) then NameInUse
    else Joined(n.next[n.registry[name]])
  }

  class RtiNode {
    var nextSession: SessionId
    var registry: map<string, FederationId>
    var next: map<FederationId, Handle>
    var members: map<Membership, Member>
    var live: map<SessionId, Option<Membership>>
    var suspended: map<SessionId, Membership>
    var connections: set<SessionId>
    /** Where other handlers are between their locks, and the history of handles. */
    ghost var joining: map<SessionId, Joiner>
    ghost var moving: map<SessionId, Move>
    ghost var closing: map<SessionId, nat>
    ghost var taken: map<Membership, Ticket>

    constructor ()
      ensures State() == Run([])
    {
      nextSession, registry, next, members := 1, map[], map[], map[];
      live, suspended, connections := map[], map[], {};
      joining, moving, closing, taken := map[], map[], map[], map[];
    }

    ghost function State(): Node
      reads this
    {
      Node(nextSession, registry, next, members, live, joining, suspended, moving, connections, closing, taken)
    }

    /** Look the federation up, take a handle, test a requested name, insert. */
    method Join(s: SessionId, name: string, requested: Option<string>) returns (reply: JoinReply)
      requires Idle(State(), s) && RegistryKnown(registry, next)
      modifies this`next, this`members, this`live, this`taken
      ensures reply == JoinOutcome(old(State()), s, name, requested)
      ensures State() ==
        if reply.AlreadyMember? || reply.NoFederation? then old(State())
        else WholeJoin(old(State()), s, Membership(registry[name], old(next)[registry[name]]), requested)
    {
      if live[s].Some? {
        return AlreadyMember;
      }
      if name !in registry {
        return NoFederation;
      }
      var m := Membership(registry[name], next[registry[name]]);
      next := next[m.fed := m.handle + 1];
      taken := taken[m := Ticket(s, requested)];
      if requested.Some? && NameIn(members, m.fed, requested.value) {
        return NameInUse;
      }
      members := members[m := Member(s, ChosenName(requested, m.handle))];
      live := live[s := Some(m)];
      return Joined(m.handle);
    }

    method ResignFederationExecution(s: SessionId) returns (ok: bool)
      requires Idle(State(), s)
      modifies this`members, this`live
      ensures State() == Step(old(State()), Resign(s))
      ensures ok <==> old(live)[s].Some?
    {
      if live[s].None? {
        return false;
      }
      members := members - {live[s].value};
      live := live[s := None];
      return true;
    }

    /** Suspend or resign, then leave the connection table. */
    method ConnectionClosed(s: SessionId, window: bool)
      requires Idle(State(), s)
      modifies this`members, this`live, this`suspended, this`connections, this`closing
      ensures State() == WholeClose(old(State()), s, window)
    {
      var held := live[s];
      live := live - {s};
      if window && held.Some? {
        suspended := suspended[s := held.value];
      }
      if !window && held.Some? {
        members := members - {held.value};
      }
      connections := connections - {s};
      closing := closing[s := if s in closing then closing[s] else 0];
    }

    /** Take the session out, write the status frame, attach. */
    method ResumeRequest(s: SessionId, late: bool, delivered: bool) returns (ok: bool)
      modifies this`live, this`suspended, this`connections
      ensures State() == if s in old(suspended) then WholeResume(old(State()), s, late, delivered) else old(State())
      ensures ok <==> s in old(suspended) && !late && delivered
    {
      if s !in suspended {
        return false;
      }
      var m := suspended[s];
      suspended := suspended - {s};
      if late || !delivered {
        return false;
      }
      live := live[s := Some(m)];
      connections := connections + {s};
      return true;
    }

    method ExpireSession(s: SessionId)
      modifies this`members, this`suspended
      ensures State() == if s in old(suspended) then WholeExpiry(old(State()), s) else old(State())
      ensures suspended == old(suspended) - {s}
      ensures members == old(members) - Federates(old(suspended), {s})
    {
      if s in suspended {
        members := members - {suspended[s]};
        suspended := suspended - {s};
      }
    }

    /** One tick of the janitor: every session past its deadline goes, in whatever order, and exactly
        their federates leave the tables. */
    method JanitorTick(expired: set<SessionId>)
      modifies this`members, this`suspended
      ensures suspended == old(suspended) - expired
      ensures members == old(members) - Federates(old(suspended), expired)
    {
      var rest := expired;
      ghost var done: set<SessionId> := {};
      while rest != {}
        invariant done + rest == expired && done !! rest
        invariant suspended == old(suspended) - done
        invariant members == old(members) - Federates(old(suspended), done)
        decreases |rest|
      {
        var s :| s in rest;
        ExpireOne(old(suspended), old(members), done, s);
        ExpireSession(s);
        rest, done := rest - {s}, done + {s};
      }
    }

    method DestroyFederationExecution(name: string) returns (ok: bool)
      modifies this`registry
      ensures State() == Step(old(State()), Destroy(name))
      ensures ok <==> name in old(registry) && Empty(members, old(registry)[name])
    {
      if name !in registry || exists m :: m in members && m.fed == registry[name] {
        return false;
      }
      registry := registry - {name};
      return true;
    }
  }
}
