/**
 Sessions and memberships: connect, join, resign, connection loss with its resume window, expiry,
 and the creation and destruction of federations.

 Each step is one lock scope of the source, so anything may happen between the lookup of a
 federation, the handle, the name test and the insertion of a join, between the two tables a closing
 connection leaves, between taking a suspended session out and attaching it, and between the
 janitor's two removals.
 */
module Sessions {
  import opened Options
  import opened AutoNames

  type SessionId = nat
  /** Identity of a federation object: a name may be reused, an identity is not. */
  type FederationId = nat

  /** A federate handle in a federation. */
  datatype Membership = Membership(fed: FederationId, handle: Handle)
  datatype Member = Member(session: SessionId, name: string)

  /** How far a session has got inside `join`. */
  datatype Joiner =
    | Located(fed: FederationId, requested: Option<string>)
    | Numbered(m: Membership, requested: Option<string>)
    | Checked(m: Membership, requested: Option<string>)

  /** A membership taken out of the suspended sessions, by its resume or by the janitor. */
  datatype Move = Resuming(m: Membership) | Reaping(m: Membership)

  /** Who was given a handle, and the name that was asked for. */
  datatype Ticket = Ticket(session: SessionId, requested: Option<string>)

  /** `members` puts the federate tables of all federations side by side and `next` holds their
      handle counters; `joining`, `moving` and `closing` are handlers on their way from one lock to
      the next.  `taken` is history: the handles given out. */
  datatype Node = Node(
    nextSession: SessionId,
    registry: map<string, FederationId>,
    next: map<FederationId, Handle>,
    members: map<Membership, Member>,
    live: map<SessionId, Option<Membership>>,
    joining: map<SessionId, Joiner>,
    suspended: map<SessionId, Membership>,
    moving: map<SessionId, Move>,
    connections: set<SessionId>,
    closing: map<SessionId, nat>,
    taken: map<Membership, Ticket>)

  const START := Node(1, map[], map[], map[], map[], map[], map[], map[], {}, map[], map[])

  datatype Event =
    | Connect
    | Create(name: string, fed: FederationId)
    | Find(s: SessionId, name: string, requested: Option<string>)
    | Take(s: SessionId)
    | Check(s: SessionId)
    | Insert(s: SessionId)
    | Resign(s: SessionId)
    | Close(s: SessionId, window: bool)
    | Disconnect(s: SessionId)
    | TakeOut(s: SessionId, late: bool)
    | Attach(s: SessionId)
    | StatusLost(s: SessionId)
    | Reap(s: SessionId)
    | Remove(s: SessionId)
    | Destroy(name: string)

  // ---------------------------------------------------------------- the steps

  predicate NameIn(members: map<Membership, Member>, fed: FederationId, name: string) {
    exists m :: m in members && m.fed == fed && members[m].name == name
  }

  predicate Empty(members: map<Membership, Member>, fed: FederationId) {
    forall m :: m in members ==> m.fed != fed
  }

  /** A session that is in no handler. */
  predicate Idle(n: Node, s: SessionId) {
    s in n.live && s !in n.joining
  }

  function ChosenName(requested: Option<string>, h: Handle): string {
    if requested.Some? then requested.value else AutoName(h)
  }

  predicate Finds(n: Node, s: SessionId, name: string) {
    Idle(n, s) && n.live[s].None? && name in n.registry
  }

  predicate Takes(n: Node, s: SessionId) {
    s in n.joining && n.joining[s].Located? && n.joining[s].fed in n.next
  }

  /** A handle is used up even when the name is refused later. */
  function Taken(n: Node, s: SessionId): Node
    requires Takes(n, s)
  {
    var j := n.joining[s];
    var m := Membership(j.fed, n.next[j.fed]);
    n.(next := n.next[j.fed := m.handle + 1],
       taken := n.taken[m := Ticket(s, j.requested)],
       joining := n.joining[s := Numbered(m, j.requested)])
  }

  /** Only a name that was asked for is tested. */
  predicate Refused(members: map<Membership, Member>, j: Joiner)
    requires j.Numbered?
  {
    j.requested.Some? && NameIn(members, j.m.fed, j.requested.value)
  }

  function NameChecked(n: Node, s: SessionId): Node
    requires s in n.joining && n.joining[s].Numbered?
  {
    var j := n.joining[s];
    n.(joining := if Refused(n.members, j) then n.joining - {s} else n.joining[s := Checked(j.m, j.requested)])
  }

  predicate Inserts(n: Node, s: SessionId) {
    s in n.joining && n.joining[s].Checked?
  }

  function NameToInsert(j: Joiner): string
    requires j.Checked?
  {
    ChosenName(j.requested, j.m.handle)
  }

  function Inserted(n: Node, s: SessionId): Node
    requires Inserts(n, s)
  {
    var j := n.joining[s];
    n.(members := n.members[j.m := Member(s, NameToInsert(j))],
       live := n.live[s := Some(j.m)],
       joining := n.joining - {s})
  }

  /** How many of the session's connections are closed and still in the connection table. */
  function ClosingOf(n: Node, s: SessionId): nat {
    if s in n.closing then n.closing[s] else 0
  }

  function Resigned(n: Node, s: SessionId): Node
    requires s in n.live && n.live[s].Some?
  {
    n.(live := n.live[s := None], members := n.members - {n.live[s].value})
  }

  function Closed(n: Node, s: SessionId, window: bool): Node
    requires s in n.live
  {
    var held := n.live[s];
    n.(live := n.live - {s},
       closing := n.closing[s := ClosingOf(n, s) + 1],
       suspended := if held.Some? && window then n.suspended[s := held.value] else n.suspended,
       members := if held.Some? && !window then n.members - {held.value} else n.members)
  }

  /** A resume takes the session out of the suspended ones; after the deadline it only does that. */
  function TakenOut(n: Node, s: SessionId, late: bool): Node
    requires s in n.suspended
  {
    n.(suspended := n.suspended - {s},
       moving := if late then n.moving else n.moving[s := Resuming(n.suspended[s])])
  }

  predicate IsResuming(n: Node, s: SessionId) {
    s in n.moving && n.moving[s].Resuming?
  }

  predicate IsReaping(n: Node, s: SessionId) {
    s in n.moving && n.moving[s].Reaping?
  }

  function Attached(n: Node, s: SessionId): Node
    requires IsResuming(n, s)
  {
    n.(moving := n.moving - {s}, live := n.live[s := Some(n.moving[s].m)], connections := n.connections + {s})
  }

  function Reaped(n: Node, s: SessionId): Node
    requires s in n.suspended
  {
    n.(suspended := n.suspended - {s}, moving := n.moving[s := Reaping(n.suspended[s])])
  }

  function Removed(n: Node, s: SessionId): Node
    requires IsReaping(n, s)
  {
    n.(moving := n.moving - {s}, members := n.members - {n.moving[s].m})
  }

  /** Within `join`. */
  predicate InJoin(e: Event) {
    e.Find? || e.Take? || e.Check? || e.Insert?
  }

  /** Ends a membership, or sets about it. */
  predicate InLeave(e: Event) {
    e.Resign? || e.Close? || e.Reap? || e.Remove?
  }

  predicate InResume(e: Event) {
    e.TakeOut? || e.Attach? || e.StatusLost?
  }

  function JoinStep(n: Node, e: Event): Node
    requires InJoin(e)
  {
    match e
    case Find(s, name, requested) =>
      if Finds(n, s, name) then n.(joining := n.joining[s := Located(n.registry[name], requested)]) else n
    case Take(s) => if Takes(n, s) then Taken(n, s) else n
    case Check(s) => if s in n.joining && n.joining[s].Numbered? then NameChecked(n, s) else n
    case Insert(s) => if Inserts(n, s) then Inserted(n, s) else n
  }

  function LeaveStep(n: Node, e: Event): Node
    requires InLeave(e)
  {
    match e
    case Resign(s) => if Idle(n, s) && n.live[s].Some? then Resigned(n, s) else n
    case Close(s, window) => if Idle(n, s) then Closed(n, s, window) else n
    case Reap(s) => if s in n.suspended then Reaped(n, s) else n
    case Remove(s) => if IsReaping(n, s) then Removed(n, s) else n
  }

  function ResumeStep(n: Node, e: Event): Node
    requires InResume(e)
  {
    match e
    case TakeOut(s, late) => if s in n.suspended then TakenOut(n, s, late) else n
    case Attach(s) => if IsResuming(n, s) then Attached(n, s) else n
    case StatusLost(s) => if IsResuming(n, s) then n.(moving := n.moving - {s}) else n
  }

  predicate InAdmin(e: Event) {
    e.Connect? || e.Create? || e.Disconnect? || e.Destroy?
  }

  function AdminStep(n: Node, e: Event): Node
    requires InAdmin(e)
  {
    match e
    case Connect =>
      n.(nextSession := n.nextSession + 1,
         live := n.live[n.nextSession := None],
         connections := n.connections + {n.nextSession})
    case Create(name, fed) =>
      if name == "" || name in n.registry || fed in n.next then n
      else n.(registry := n.registry[name := fed], next := n.next[fed := 1])
    case Disconnect(s) =>
      if ClosingOf(n, s) > 0 then n.(connections := n.connections - {s}, closing := n.closing[s := ClosingOf(n, s) - 1])
      else n
    case Destroy(name) =>
      if name in n.registry && Empty(n.members, n.registry[name]) then n.(registry := n.registry - {name}) else n
  }

  function Step(n: Node, e: Event): Node {
    if InJoin(e) then JoinStep(n, e)
    else if InLeave(e) then LeaveStep(n, e)
    else if InResume(e) then ResumeStep(n, e)
    else AdminStep(n, e)
  }

  function Run(es: seq<Event>): Node {
    if es == [] then START else Step(Run(es[..|es| - 1]), es[|es| - 1])
  }

  // ---------------------------------------------------------------- what every run keeps

  /** The session holds the membership: live, suspended, or between the two or the janitor's locks. */
  predicate Holds(n: Node, s: SessionId, m: Membership) {
    || (s in n.live && n.live[s] == Some(m))
    || (s in n.suspended && n.suspended[s] == m)
    || (s in n.moving && n.moving[s].m == m)
  }

  /** Session ids are behind the counter, and a session is live, suspended or on the move, and only
      one of these. */
  ghost predicate SessionsApart(live: map<SessionId, Option<Membership>>, suspended: map<SessionId, Membership>,
                                moving: map<SessionId, Move>, next: SessionId) {
    && (forall s :: s in live ==> s < next)
    && (forall s :: s in suspended ==> s < next && s !in live)
    && (forall s :: s in moving ==> s < next && s !in live && s !in suspended)
  }

  /** Handles given out are behind their federation's counter. */
  ghost predicate HandlesApart(taken: map<Membership, Ticket>, next: map<FederationId, Handle>) {
    forall m :: m in taken ==> m.fed in next && m.handle < next[m.fed]
  }

  ghost predicate RegistryKnown(registry: map<string, FederationId>, next: map<FederationId, Handle>) {
    forall name :: name in registry ==> registry[name] in next
  }

  /** Every federate in a table is there under the session its handle was given to, and bears the name
      that was asked for, or else its automatic name. */
  ghost predicate Listed(members: map<Membership, Member>, taken: map<Membership, Ticket>) {
    forall m :: m in members ==>
      m in taken && members[m] == Member(taken[m].session, ChosenName(taken[m].requested, m.handle))
  }

  /** A session inside `join` holds nothing yet. */
  ghost predicate JoinersLive(joining: map<SessionId, Joiner>, live: map<SessionId, Option<Membership>>) {
    forall s :: s in joining ==> s in live && live[s] == None
  }

  /** It knows its federation, or has a handle of its own that is not in use yet. */
  ghost predicate JoinersApart(joining: map<SessionId, Joiner>, taken: map<Membership, Ticket>,
                               members: map<Membership, Member>, next: map<FederationId, Handle>) {
    forall s :: s in joining ==>
      if joining[s].Located? then joining[s].fed in next
      else joining[s].m in taken && taken[joining[s].m] == Ticket(s, joining[s].requested) && joining[s].m !in members
  }

  /** The table has the membership under the session that holds it. */
  predicate Under(members: map<Membership, Member>, s: SessionId, m: Membership) {
    m in members && members[m].session == s
  }

  ghost predicate LiveListed(live: map<SessionId, Option<Membership>>, members: map<Membership, Member>) {
    forall s :: s in live && live[s].Some? ==> Under(members, s, live[s].value)
  }

  ghost predicate SuspendedListed(suspended: map<SessionId, Membership>, members: map<Membership, Member>) {
    forall s :: s in suspended ==> Under(members, s, suspended[s])
  }

  ghost predicate MovingListed(moving: map<SessionId, Move>, members: map<Membership, Member>) {
    forall s :: s in moving ==> Under(members, s, moving[s].m)
  }

  ghost predicate Sound(n: Node) {
    && SessionsApart(n.live, n.suspended, n.moving, n.nextSession)
    && HandlesApart(n.taken, n.next)
    && RegistryKnown(n.registry, n.next)
    && Listed(n.members, n.taken)
    && JoinersLive(n.joining, n.live)
    && JoinersApart(n.joining, n.taken, n.members, n.next)
    && LiveListed(n.live, n.members)
    && SuspendedListed(n.suspended, n.members)
    && MovingListed(n.moving, n.members)
  }

  /** No federate is held by two sessions, no session holds two federates, and no session is both
      live and suspended. */
  lemma HeldOnce(n: Node, s: SessionId, t: SessionId, m: Membership, k: Membership)
    requires Sound(n) && Holds(n, s, m) && Holds(n, t, k)
    ensures s == t <==> m == k
    ensures Under(n.members, s, m)
    ensures s in n.live ==> s !in n.suspended && s !in n.moving
    ensures s in n.suspended ==> s !in n.moving
  {
  }

  lemma TakenSound(n: Node, n': Node, s: SessionId)
    requires Sound(n) && Takes(n, s) && n' == Taken(n, s)
    ensures Sound(n')
  {
    assert Membership(n.joining[s].fed, n.next[n.joining[s].fed]) !in n.taken;
  }

  lemma CheckedSound(n: Node, s: SessionId)
    requires Sound(n) && s in n.joining && n.joining[s].Numbered?
    ensures Sound(NameChecked(n, s))
  {
  }

  lemma InsertedSound(n: Node, n': Node, s: SessionId)
    requires Sound(n) && Inserts(n, s) && n' == Inserted(n, s)
    ensures Sound(n')
  {
  }

  /** A membership leaves the table together with its one holder. */
  lemma WithoutMember(n: Node, s: SessionId, m: Membership)
    requires Sound(n) && Holds(n, s, m)
    ensures Listed(n.members - {m}, n.taken)
    ensures JoinersApart(n.joining, n.taken, n.members - {m}, n.next)
    ensures forall t, k :: t != s && Holds(n, t, k) ==> Under(n.members - {m}, t, k)
  {
  }

  lemma ResignedSound(n: Node, s: SessionId)
    requires Sound(n) && Idle(n, s) && n.live[s].Some?
    ensures Sound(Resigned(n, s))
  {
    WithoutMember(n, s, n.live[s].value);
    OthersListed(n, Resigned(n, s), s);
  }

  /** What the others hold stays listed. */
  lemma OthersListed(n: Node, n': Node, s: SessionId)
    requires forall t, k :: t != s && Holds(n, t, k) ==> Under(n'.members, t, k)
    ensures LiveListed(n.live - {s}, n'.members)
    ensures SuspendedListed(n.suspended - {s}, n'.members)
    ensures MovingListed(n.moving - {s}, n'.members)
  {
    assert forall t :: t in n.live && t != s && n.live[t].Some? ==> Holds(n, t, n.live[t].value);
    assert forall t :: t in n.suspended && t != s ==> Holds(n, t, n.suspended[t]);
    assert forall t :: t in n.moving && t != s ==> Holds(n, t, n.moving[t].m);
  }

  lemma ClosedSound(n: Node, n': Node, s: SessionId, window: bool)
    requires Sound(n) && Idle(n, s) && n' == Closed(n, s, window)
    ensures Sound(n')
  {
    if n.live[s].None? {
    } else if window {
      SuspendedSound(n, n', s);
    } else {
      WithoutMember(n, s, n.live[s].value);
      OthersListed(n, n', s);
    }
  }

  lemma SuspendedSound(n: Node, n': Node, s: SessionId)
    requires Sound(n) && Idle(n, s) && n.live[s].Some? && n' == Closed(n, s, true)
    ensures Sound(n')
  {
  }

  lemma TakenOutSound(n: Node, n': Node, s: SessionId, late: bool)
    requires Sound(n) && s in n.suspended && n' == TakenOut(n, s, late)
    ensures Sound(n')
  {
  }

  lemma ReapedSound(n: Node, s: SessionId)
    requires Sound(n) && s in n.suspended
    ensures Sound(Reaped(n, s))
  {
  }

  lemma AttachedSound(n: Node, s: SessionId)
    requires Sound(n) && IsResuming(n, s)
    ensures Sound(Attached(n, s))
  {
  }

  lemma LostSound(n: Node, s: SessionId)
    requires Sound(n)
    ensures Sound(n.(moving := n.moving - {s}))
  {
  }

  lemma RemovedSound(n: Node, s: SessionId)
    requires Sound(n) && IsReaping(n, s)
    ensures Sound(Removed(n, s))
  {
    WithoutMember(n, s, n.moving[s].m);
    OthersListed(n, Removed(n, s), s);
  }

  lemma JoinSound(n: Node, e: Event)
    requires Sound(n) && InJoin(e)
    ensures Sound(JoinStep(n, e))
  {
    match e
    case Find(s, name, requested) =>
    case Take(s) =>
      if Takes(n, s) {
        TakenSound(n, JoinStep(n, e), s);
      }
    case Check(s) =>
      if s in n.joining && n.joining[s].Numbered? {
        CheckedSound(n, s);
      }
    case Insert(s) =>
      if Inserts(n, s) {
        InsertedSound(n, JoinStep(n, e), s);
      }
  }

  lemma LeaveSound(n: Node, e: Event)
    requires Sound(n) && InLeave(e)
    ensures Sound(LeaveStep(n, e))
  {
    match e
    case Resign(s) =>
      if Idle(n, s) && n.live[s].Some? {
        ResignedSound(n, s);
      }
    case Close(s, window) =>
      if Idle(n, s) {
        ClosedSound(n, LeaveStep(n, e), s, window);
      }
    case Reap(s) =>
      if s in n.suspended {
        ReapedSound(n, s);
      }
    case Remove(s) =>
      if IsReaping(n, s) {
        RemovedSound(n, s);
      }
  }

  lemma ResumeSound(n: Node, e: Event)
    requires Sound(n) && InResume(e)
    ensures Sound(ResumeStep(n, e))
  {
    match e
    case TakeOut(s, late) =>
      if s in n.suspended {
        TakenOutSound(n, ResumeStep(n, e), s, late);
      }
    case Attach(s) =>
      if IsResuming(n, s) {
        AttachedSound(n, s);
      }
    case StatusLost(s) => LostSound(n, s);
  }

  lemma AdminSound(n: Node, e: Event)
    requires Sound(n) && InAdmin(e)
    ensures Sound(AdminStep(n, e))
  {
    match e
    case Connect =>
    case Create(name, fed) =>
    case Disconnect(s) =>
    case Destroy(name) =>
  }

  lemma StepSound(n: Node, e: Event)
    requires Sound(n)
    ensures Sound(Step(n, e))
  {
    if InJoin(e) {
      JoinSound(n, e);
    } else if InLeave(e) {
      LeaveSound(n, e);
    } else if InResume(e) {
      ResumeSound(n, e);
    } else {
      AdminSound(n, e);
    }
  }

  lemma {:induction false} RunSound(es: seq<Event>)
    ensures Sound(Run(es))
  {
    if es == [] {
    } else {
      RunSound(es[..|es| - 1]);
      StepSound(Run(es[..|es| - 1]), es[|es| - 1]);
    }
  }

  /** At any point of any run, a held federate is in its table under its holder, and its holder is
      the only session to hold it and holds nothing else. */
  lemma RunHeldOnce(es: seq<Event>, s: SessionId, m: Membership)
    requires Holds(Run(es), s, m)
    ensures Under(Run(es).members, s, m)
    ensures s in Run(es).live ==> s !in Run(es).suspended
    ensures forall t, k :: Holds(Run(es), t, k) ==> (t == s <==> k == m)
  {
    RunSound(es);
    forall t, k | Holds(Run(es), t, k)
      ensures t == s <==> k == m
    {
      HeldOnce(Run(es), s, t, m, k);
    }
  }

  // ---------------------------------------------------------------- what runs keep, and exactly when

  predicate IsRegistered(registry: map<string, FederationId>, fed: FederationId) {
    exists name :: name in registry && registry[name] == fed
  }

  /** Every held membership is in a federation that is still registered. */
  ghost predicate Registered(n: Node) {
    forall s, m :: Holds(n, s, m) ==> IsRegistered(n.registry, m.fed)
  }

  /** Federates of one federation have different names. */
  ghost predicate NamesDiffer(members: map<Membership, Member>) {
    forall m, k :: m in members && k in members && m.fed == k.fed && m != k ==> members[m].name != members[k].name
  }

  /** Every federate in a table is held by a session. */
  ghost predicate NoOrphans(n: Node) {
    forall m :: m in n.members ==> Holds(n, n.members[m].session, m)
  }

  /** Every live session can be reached. */
  ghost predicate Connected(n: Node) {
    n.live.Keys <= n.connections
  }

  /** An insert into a federation destroyed since it was looked up. */
  predicate LateInsert(n: Node, e: Event) {
    e.Insert? && Inserts(n, e.s) && !IsRegistered(n.registry, n.joining[e.s].m.fed)
  }

  /** An insert under a name in use: an automatic name someone asked for, or one taken since the test. */
  predicate Clash(n: Node, e: Event) {
    e.Insert? && Inserts(n, e.s) && NameIn(n.members, n.joining[e.s].m.fed, NameToInsert(n.joining[e.s]))
  }

  /** A resume after the deadline, before the janitor came by. */
  predicate LateResume(n: Node, e: Event) {
    e.TakeOut? && e.late && e.s in n.suspended
  }

  /** A resume in time whose status frame cannot be written. */
  predicate LostResume(n: Node, e: Event) {
    e.StatusLost? && IsResuming(n, e.s)
  }

  /** A closed connection leaves the table after its session was resumed. */
  predicate Crossing(n: Node, e: Event) {
    e.Disconnect? && ClosingOf(n, e.s) > 0 && e.s in n.live
  }

  predicate Drops(n: Node, e: Event) {
    LateResume(n, e) || LostResume(n, e)
  }

  /** Nothing new is held or listed. */
  ghost predicate Shrinks(n: Node, n': Node) {
    && (forall s, m :: Holds(n', s, m) ==> Holds(n, s, m))
    && (forall m :: m in n'.members ==> m in n.members && n'.members[m] == n.members[m])
  }

  /** Whoever stays listed stays held. */
  ghost predicate KeepsHeld(n: Node, n': Node) {
    forall m :: m in n'.members && Holds(n, n'.members[m].session, m) ==> Holds(n', n'.members[m].session, m)
  }

  /** One holder gives up its membership, which leaves the table with it. */
  lemma GivenUp(n: Node, n': Node, s: SessionId, m: Membership)
    requires Sound(n) && Holds(n, s, m) && n'.members == n.members - {m}
    requires forall t, k :: Holds(n', t, k) <==> Holds(n, t, k) && t != s
    ensures Shrinks(n, n') && KeepsHeld(n, n')
  {
    forall k | k in n'.members && Holds(n, n'.members[k].session, k)
      ensures n'.members[k].session != s
    {
      if n'.members[k].session == s {
        HeldOnce(n, s, s, m, k);
        assert false;
      }
    }
  }

  lemma ResignedShrinks(n: Node, s: SessionId)
    requires Sound(n) && Idle(n, s) && n.live[s].Some?
    ensures Shrinks(n, Resigned(n, s)) && KeepsHeld(n, Resigned(n, s))
  {
    GivenUp(n, Resigned(n, s), s, n.live[s].value);
  }

  /** The same memberships are held by the same sessions. */
  lemma SameHeld(n: Node, n': Node)
    requires n'.members == n.members
    requires forall s, m :: Holds(n', s, m) <==> Holds(n, s, m)
    ensures Shrinks(n, n') && KeepsHeld(n, n')
  {
  }

  lemma ClosedShrinks(n: Node, s: SessionId, window: bool)
    requires Sound(n) && Idle(n, s)
    ensures Shrinks(n, Closed(n, s, window)) && KeepsHeld(n, Closed(n, s, window))
  {
    var n' := Closed(n, s, window);
    if n.live[s].None? {
      SameHeld(n, n');
    } else if window {
      MovedHeld(n, n', s, n.live[s].value);
    } else {
      GivenUp(n, n', s, n.live[s].value);
    }
  }

  lemma TakenOutShrinks(n: Node, n': Node, s: SessionId, late: bool)
    requires Sound(n) && s in n.suspended && n' == TakenOut(n, s, late)
    ensures Shrinks(n, n')
    ensures !late ==> KeepsHeld(n, n')
  {
    if !late {
      MovedHeld(n, n', s, n.suspended[s]);
    }
  }

  /** A membership that changes tables with its session stays held by it. */
  lemma MovedHeld(n: Node, n': Node, s: SessionId, m: Membership)
    requires Sound(n) && Holds(n, s, m) && n'.members == n.members
    requires forall k :: Holds(n', s, k) <==> k == m
    requires forall t :: t != s ==>
      && (t in n'.live <==> t in n.live) && (t in n.live ==> n'.live[t] == n.live[t])
      && (t in n'.suspended <==> t in n.suspended) && (t in n.suspended ==> n'.suspended[t] == n.suspended[t])
      && (t in n'.moving <==> t in n.moving) && (t in n.moving ==> n'.moving[t] == n.moving[t])
    ensures Shrinks(n, n') && KeepsHeld(n, n')
  {
  }

  lemma ReapedShrinks(n: Node, s: SessionId)
    requires Sound(n) && s in n.suspended
    ensures Shrinks(n, Reaped(n, s)) && KeepsHeld(n, Reaped(n, s))
  {
    MovedHeld(n, Reaped(n, s), s, n.suspended[s]);
  }

  lemma AttachedShrinks(n: Node, s: SessionId)
    requires Sound(n) && IsResuming(n, s)
    ensures Shrinks(n, Attached(n, s)) && KeepsHeld(n, Attached(n, s))
    ensures Shrinks(n, n.(moving := n.moving - {s}))
  {
    MovedHeld(n, Attached(n, s), s, n.moving[s].m);
  }

  lemma RemovedShrinks(n: Node, s: SessionId)
    requires Sound(n) && IsReaping(n, s)
    ensures Shrinks(n, Removed(n, s)) && KeepsHeld(n, Removed(n, s))
  {
    GivenUp(n, Removed(n, s), s, n.moving[s].m);
  }

  lemma JoinShrinks(n: Node, e: Event)
    requires InJoin(e) && !e.Insert?
    ensures Shrinks(n, JoinStep(n, e)) && KeepsHeld(n, JoinStep(n, e))
  {
    match e
    case Find(s, name, requested) => SameHeld(n, JoinStep(n, e));
    case Take(s) => SameHeld(n, JoinStep(n, e));
    case Check(s) => SameHeld(n, JoinStep(n, e));
  }

  lemma AdminShrinks(n: Node, e: Event)
    requires Sound(n) && InAdmin(e)
    ensures Shrinks(n, AdminStep(n, e)) && KeepsHeld(n, AdminStep(n, e))
  {
    match e
    case Connect => ConnectHolds(n);
    case Create(name, fed) =>
      CreateTables(n, AdminStep(n, e), name, fed);
      TablesHeld(n, AdminStep(n, e));
    case Disconnect(s) =>
      DisconnectTables(n, AdminStep(n, e), s);
      TablesHeld(n, AdminStep(n, e));
    case Destroy(name) =>
      DestroyTables(n, AdminStep(n, e), name);
      TablesHeld(n, AdminStep(n, e));
  }

  /** The four tables that hold and list are as they were. */
  predicate SameTables(n: Node, n': Node) {
    n'.members == n.members && n'.live == n.live && n'.suspended == n.suspended && n'.moving == n.moving
  }

  lemma CreateTables(n: Node, n': Node, name: string, fed: FederationId)
    requires n' == AdminStep(n, Create(name, fed))
    ensures SameTables(n, n')
  {
  }

  lemma DisconnectTables(n: Node, n': Node, s: SessionId)
    requires n' == AdminStep(n, Disconnect(s))
    ensures SameTables(n, n')
  {
  }

  lemma DestroyTables(n: Node, n': Node, name: string)
    requires n' == AdminStep(n, Destroy(name))
    ensures SameTables(n, n')
  {
  }

  lemma TablesHeld(n: Node, n': Node)
    requires SameTables(n, n')
    ensures Shrinks(n, n') && KeepsHeld(n, n')
  {
  }

  lemma ConnectHolds(n: Node)
    requires Sound(n)
    ensures Shrinks(n, AdminStep(n, Connect)) && KeepsHeld(n, AdminStep(n, Connect))
  {
    var n' := AdminStep(n, Connect);
    assert n'.members == n.members && n.nextSession !in n.live;
    forall s, m
      ensures Holds(n', s, m) <==> Holds(n, s, m)
    {
    }
    SameHeld(n, n');
  }

  lemma LeaveShrinks(n: Node, e: Event)
    requires Sound(n) && InLeave(e)
    ensures Shrinks(n, LeaveStep(n, e)) && KeepsHeld(n, LeaveStep(n, e))
  {
    match e
    case Resign(s) =>
      if Idle(n, s) && n.live[s].Some? {
        ResignedShrinks(n, s);
      }
    case Close(s, window) =>
      if Idle(n, s) {
        ClosedShrinks(n, s, window);
      }
    case Reap(s) =>
      if s in n.suspended {
        ReapedShrinks(n, s);
      }
    case Remove(s) =>
      if IsReaping(n, s) {
        RemovedShrinks(n, s);
      }
  }

  lemma ResumeShrinks(n: Node, e: Event)
    requires Sound(n) && InResume(e)
    ensures Shrinks(n, ResumeStep(n, e))
    ensures Drops(n, e) || KeepsHeld(n, ResumeStep(n, e))
  {
    match e
    case TakeOut(s, late) =>
      if s in n.suspended {
        TakenOutShrinks(n, ResumeStep(n, e), s, late);
      }
    case Attach(s) =>
      if IsResuming(n, s) {
        AttachedShrinks(n, s);
      }
    case StatusLost(s) =>
      if IsResuming(n, s) {
        AttachedShrinks(n, s);
      }
  }

  /** Only an insert makes a session hold something new; only a resume that comes to nothing loses a
      federate. */
  lemma StepShrinks(n: Node, e: Event)
    requires Sound(n) && !e.Insert?
    ensures Shrinks(n, Step(n, e))
    ensures Drops(n, e) || KeepsHeld(n, Step(n, e))
  {
    if InJoin(e) {
      JoinShrinks(n, e);
    } else if InLeave(e) {
      LeaveShrinks(n, e);
    } else if InResume(e) {
      ResumeShrinks(n, e);
    } else {
      AdminShrinks(n, e);
    }
  }

  lemma InsertedHolds(n: Node, s: SessionId)
    requires Sound(n) && Inserts(n, s)
    ensures forall t, m :: Holds(Inserted(n, s), t, m) <==> Holds(n, t, m) || (t == s && m == n.joining[s].m)
  {
  }

  lemma RegistryEntryStays(n: Node, e: Event, name: string)
    requires name in n.registry && !Empty(n.members, n.registry[name])
    ensures name in Step(n, e).registry && Step(n, e).registry[name] == n.registry[name]
  {
    RegistryUntouched(n, e);
  }

  lemma RegistryUntouched(n: Node, e: Event)
    ensures InJoin(e) ==> JoinStep(n, e).registry == n.registry
    ensures InLeave(e) ==> LeaveStep(n, e).registry == n.registry
    ensures InResume(e) ==> ResumeStep(n, e).registry == n.registry
  {
  }

  lemma RegistryStep(n: Node, e: Event, fed: FederationId)
    requires IsRegistered(n.registry, fed) && !Empty(n.members, fed)
    ensures IsRegistered(Step(n, e).registry, fed)
  {
    var name :| name in n.registry && n.registry[name] == fed;
    RegistryEntryStays(n, e, name);
  }

  /** Held memberships stay in registered federations exactly unless a join inserts into a
      federation that was destroyed under it. */
  lemma StepRegistered(n: Node, e: Event)
    requires Sound(n) && Registered(n)
    ensures Registered(Step(n, e)) <==> !LateInsert(n, e)
  {
    var n' := Step(n, e);
    if e.Insert? && Inserts(n, e.s) {
      InsertedHolds(n, e.s);
      assert n' == Inserted(n, e.s) && n'.registry == n.registry;
      assert Holds(n', e.s, n.joining[e.s].m);
    } else if !e.Insert? {
      StepShrinks(n, e);
      forall s, m | Holds(n', s, m)
        ensures IsRegistered(n'.registry, m.fed)
      {
        assert Holds(n, s, m) && Under(n.members, s, m);
        RegistryStep(n, e, m.fed);
      }
    }
  }

  lemma NamesWith(members: map<Membership, Member>, m: Membership, x: Member)
    requires m !in members && NamesDiffer(members)
    ensures NamesDiffer(members[m := x]) <==> !NameIn(members, m.fed, x.name)
  {
    if NameIn(members, m.fed, x.name) {
      var k :| k in members && k.fed == m.fed && members[k].name == x.name;
      assert members[m := x][k].name == members[m := x][m].name;
    }
  }

  /** Names stay different exactly unless a join inserts a name in use. */
  lemma StepNames(n: Node, e: Event)
    requires Sound(n) && NamesDiffer(n.members)
    ensures NamesDiffer(Step(n, e).members) <==> !Clash(n, e)
  {
    if e.Insert? && Inserts(n, e.s) {
      var j := n.joining[e.s];
      NamesWith(n.members, j.m, Member(e.s, NameToInsert(j)));
    } else if !e.Insert? {
      StepShrinks(n, e);
    }
  }

  /** Its holder is gone and it is still listed. */
  lemma DropLeaves(n: Node, e: Event)
    requires Sound(n) && Drops(n, e)
    ensures var m := if e.TakeOut? then n.suspended[e.s] else n.moving[e.s].m;
      Step(n, e).members == n.members && Under(n.members, e.s, m) && !Holds(Step(n, e), e.s, m)
  {
  }

  /** No federate is left behind exactly unless a session resumes too late or in vain. */
  lemma StepOrphans(n: Node, e: Event)
    requires Sound(n) && NoOrphans(n)
    ensures NoOrphans(Step(n, e)) <==> !Drops(n, e)
  {
    if Drops(n, e) {
      DropLeaves(n, e);
    } else if e.Insert? && Inserts(n, e.s) {
      InsertedHolds(n, e.s);
    } else if !e.Insert? {
      StepShrinks(n, e);
    }
  }

  /** Live sessions stay reachable exactly unless a closing connection crosses its own resume. */
  lemma StepConnected(n: Node, e: Event)
    requires Sound(n) && Connected(n)
    ensures Connected(Step(n, e)) <==> !Crossing(n, e)
  {
    if InJoin(e) {
      JoinConnected(n, e);
    } else if InLeave(e) {
      LeaveConnected(n, e);
    } else if InResume(e) {
      ResumeConnected(n, e);
    } else {
      AdminConnected(n, e);
    }
  }

  lemma JoinConnected(n: Node, e: Event)
    requires Sound(n) && Connected(n) && InJoin(e)
    ensures Connected(JoinStep(n, e))
  {
  }

  lemma LeaveConnected(n: Node, e: Event)
    requires Connected(n) && InLeave(e)
    ensures Connected(LeaveStep(n, e))
  {
  }

  lemma ResumeConnected(n: Node, e: Event)
    requires Connected(n) && InResume(e)
    ensures Connected(ResumeStep(n, e))
  {
  }

  lemma AdminConnected(n: Node, e: Event)
    requires Connected(n) && InAdmin(e)
    ensures Connected(AdminStep(n, e)) <==> !Crossing(n, e)
  {
  }

  ghost predicate Tidy(n: Node) {
    Registered(n) && NamesDiffer(n.members) && NoOrphans(n) && Connected(n)
  }

  predicate Trouble(n: Node, e: Event) {
    LateInsert(n, e) || Clash(n, e) || LateResume(n, e) || LostResume(n, e) || Crossing(n, e)
  }

  lemma StepTidy(n: Node, e: Event)
    requires Sound(n) && Tidy(n)
    ensures Tidy(Step(n, e)) <==> !Trouble(n, e)
  {
    StepRegistered(n, e);
    StepNames(n, e);
    StepOrphans(n, e);
    StepConnected(n, e);
  }

  /** Tidy at every point of the run. */
  ghost predicate AlwaysTidy(es: seq<Event>) {
    Tidy(Run(es)) && (es == [] || AlwaysTidy(es[..|es| - 1]))
  }

  /** None of the five races and misses happens anywhere in the run. */
  predicate Untroubled(es: seq<Event>) {
    es == [] || (Untroubled(es[..|es| - 1]) && !Trouble(Run(es[..|es| - 1]), es[|es| - 1]))
  }

  /** Whole runs: exactly the five kinds of trouble break the four promises. */
  lemma {:induction false} RunTidy(es: seq<Event>)
    ensures AlwaysTidy(es) <==> Untroubled(es)
  {
    if es == [] {
    } else {
      var n := |es| - 1;
      RunTidy(es[..n]);
      RunSound(es[..n]);
      if Untroubled(es[..n]) {
        assert AlwaysTidy(es[..n]);
        StepTidy(Run(es[..n]), es[n]);
      }
    }
  }

  // ---------------------------------------------------------------- joins and closes without interruption

  /** A federate of the federation asked for this name. */
  ghost predicate AskedFor(n: Node, fed: FederationId, name: string) {
    exists m :: m in n.members && m in n.taken && m.fed == fed && n.taken[m].requested == Some(name)
  }

  /** An automatic name that is about to be given is in use exactly if someone asked for it. */
  lemma AutoNameInUse(n: Node, fed: FederationId)
    requires Sound(n) && fed in n.next
    ensures NameIn(n.members, fed, AutoName(n.next[fed])) <==> AskedFor(n, fed, AutoName(n.next[fed]))
  {
    var name := AutoName(n.next[fed]);
    if NameIn(n.members, fed, name) {
      var m :| m in n.members && m.fed == fed && n.members[m].name == name;
      if n.taken[m].requested.None? {
        AutoNamesDiffer(m.handle, n.next[fed]);
      }
    }
    if AskedFor(n, fed, name) {
      var m :| m in n.members && m in n.taken && m.fed == fed && n.taken[m].requested == Some(name);
      assert n.members[m].name == name;
    }
  }

  /** Lookup, handle and name test, with nothing in between. */
  function UpToCheck(n: Node, s: SessionId, name: string, requested: Option<string>): Node {
    Step(Step(Step(n, Find(s, name, requested)), Take(s)), Check(s))
  }

  lemma UpToCheckAt(n: Node, n': Node, s: SessionId, name: string, requested: Option<string>)
    requires Sound(n) && Finds(n, s, name) && n' == UpToCheck(n, s, name, requested)
    ensures n.registry[name] in n.next
    ensures n'.registry == n.registry && SameTables(n, n')
    ensures var fed := n.registry[name];
      n'.joining ==
        if requested.Some? && NameIn(n.members, fed, requested.value) then n.joining
        else n.joining[s := Checked(Membership(fed, n.next[fed]), requested)]
  {
    var fed := n.registry[name];
    var n1 := Step(n, Find(s, name, requested));
    var n2 := Step(n1, Take(s));
    FoundAt(n, n1, s, name, requested);
    TakenAt(n1, n2, s);
    CheckedAt(n2, n', s);
    assert n.joining[s := Located(fed, requested)][s := n2.joining[s]] - {s} == n.joining;
  }

  lemma FoundAt(n: Node, n': Node, s: SessionId, name: string, requested: Option<string>)
    requires Finds(n, s, name) && n' == Step(n, Find(s, name, requested))
    ensures n'.registry == n.registry && n'.next == n.next && SameTables(n, n')
    ensures n'.joining == n.joining[s := Located(n.registry[name], requested)]
  {
  }

  lemma TakenAt(n: Node, n': Node, s: SessionId)
    requires Takes(n, s) && n' == Step(n, Take(s))
    ensures n'.registry == n.registry && SameTables(n, n')
    ensures var j := n.joining[s]; n'.joining == n.joining[s := Numbered(Membership(j.fed, n.next[j.fed]), j.requested)]
  {
  }

  lemma CheckedAt(n: Node, n': Node, s: SessionId)
    requires s in n.joining && n.joining[s].Numbered? && n' == Step(n, Check(s))
    ensures n'.registry == n.registry && SameTables(n, n')
    ensures var j := n.joining[s];
      n'.joining == if Refused(n.members, j) then n.joining - {s} else n.joining[s := Checked(j.m, j.requested)]
  {
  }

  /** A join that is not interrupted never lands in a destroyed federation, and clashes exactly when
      it asks for no name and its automatic name is one that a federate there asked for. */
  lemma UninterruptedJoin(n: Node, s: SessionId, name: string, requested: Option<string>)
    requires Sound(n) && Finds(n, s, name) && s in UpToCheck(n, s, name, requested).joining
    ensures n.registry[name] in n.next
    ensures var n', fed := UpToCheck(n, s, name, requested), n.registry[name];
      !LateInsert(n', Insert(s)) &&
      (Clash(n', Insert(s)) <==> requested.None? && AskedFor(n, fed, AutoName(n.next[fed])))
  {
    UpToCheckAt(n, UpToCheck(n, s, name, requested), s, name, requested);
    AutoNameInUse(n, n.registry[name]);
  }

  /** A close that is not interrupted never cuts off a live session. */
  lemma UninterruptedClose(n: Node, s: SessionId, window: bool)
    requires Sound(n) && Idle(n, s)
    ensures !Crossing(Step(n, Close(s, window)), Disconnect(s))
  {
  }

  // ---------------------------------------------------------------- a resume that comes to nothing is final

  /** In a table, held by nobody. */
  ghost predicate Orphan(n: Node, m: Membership) {
    m in n.members && forall s :: !Holds(n, s, m)
  }

  /** A late resume, and one whose status frame is lost, leave the federate behind. */
  lemma DroppedOrphan(n: Node, e: Event)
    requires Sound(n) && Drops(n, e)
    ensures Orphan(Step(n, e), if e.TakeOut? then n.suspended[e.s] else n.moving[e.s].m)
  {
    var n', m := Step(n, e), if e.TakeOut? then n.suspended[e.s] else n.moving[e.s].m;
    DropLeaves(n, e);
    StepShrinks(n, e);
    forall t
      ensures !Holds(n', t, m)
    {
      if Holds(n', t, m) {
        assert Holds(n, t, m) && Holds(n, e.s, m);
        HeldOnce(n, e.s, t, m, m);
      }
    }
  }

  /** Only a holder's own steps remove a federate. */
  lemma RemovedWasHeld(n: Node, e: Event, m: Membership)
    requires Sound(n) && Orphan(n, m)
    ensures m in Step(n, e).members
  {
    if InJoin(e) {
      JoinRemovesNone(n, e);
    } else if InLeave(e) {
      LeaverWasHeld(n, e, m);
    } else if InResume(e) {
      ResumeRemovesNone(n, e);
    }
  }

  lemma JoinRemovesNone(n: Node, e: Event)
    requires InJoin(e)
    ensures n.members.Keys <= JoinStep(n, e).members.Keys
  {
  }

  lemma ResumeRemovesNone(n: Node, e: Event)
    requires InResume(e)
    ensures ResumeStep(n, e).members == n.members
  {
  }

  lemma LeaverWasHeld(n: Node, e: Event, m: Membership)
    requires Orphan(n, m) && InLeave(e)
    ensures m in LeaveStep(n, e).members
  {
    match e
    case Resign(s) =>
      if Idle(n, s) && n.live[s].Some? {
        assert Holds(n, s, n.live[s].value);
      }
    case Close(s, window) =>
      if Idle(n, s) && n.live[s].Some? {
        assert Holds(n, s, n.live[s].value);
      }
    case Remove(s) =>
      if IsReaping(n, s) {
        assert Holds(n, s, n.moving[s].m);
      }
    case Reap(s) =>
  }

  lemma OrphanStays(n: Node, e: Event, m: Membership)
    requires Sound(n) && Orphan(n, m)
    ensures Orphan(Step(n, e), m)
  {
    RemovedWasHeld(n, e, m);
    if e.Insert? {
      if Inserts(n, e.s) {
        InsertedHolds(n, e.s);
      }
    } else {
      StepShrinks(n, e);
    }
  }

  /** Left behind in a federation registered under `name`. */
  ghost predicate Stranded(n: Node, m: Membership, name: string) {
    Orphan(n, m) && name in n.registry && n.registry[name] == m.fed
  }

  lemma StrandedStays(n: Node, e: Event, m: Membership, name: string)
    requires Sound(n) && Stranded(n, m, name)
    ensures Stranded(Step(n, e), m, name)
  {
    OrphanStays(n, e, m);
    RegistryEntryStays(n, e, name);
  }

  /** Once a federate is left behind, no later run removes it, and its federation stays registered
      whatever anyone asks. */
  lemma {:induction false} OrphanForever(es: seq<Event>, k: nat, m: Membership, name: string)
    requires k <= |es| && Stranded(Run(es[..k]), m, name)
    ensures Stranded(Run(es), m, name)
  {
    if k == |es| {
      assert es[..k] == es;
    } else {
      var n := |es| - 1;
      assert es[..n][..k] == es[..k];
      OrphanForever(es[..n], k, m, name);
      StrandedOneMore(es[..n], es[n], Run(es[..n]), m, name);
    }
  }

  lemma StrandedOneMore(es: seq<Event>, e: Event, n: Node, m: Membership, name: string)
    requires n == Run(es) && Stranded(n, m, name)
    ensures Stranded(Step(n, e), m, name)
  {
    RunSound(es);
    StrandedStays(n, e, m, name);
  }
}
