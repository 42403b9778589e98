/** Runs from the start in which each of the five kinds of trouble breaks its promise. */
module SessionWitnesses {
  import opened Options
  import opened AutoNames
  import opened Sessions
  import opened SessionTables

  lemma OneMore(es: seq<Event>, e: Event)
    ensures Run(es + [e]) == Step(Run(es), e)
  {
    assert (es + [e])[..|es|] == es;
  }

  // ---------------------------------------------------------------- two sessions and a federation

  const OPENED := [Connect] + [Connect] + [Create("f", 0)]

  const FIRST := Membership(0, 1)
  const SECOND := Membership(0, 2)

  /** Sessions 1 and 2 are connected, and federation 0 is registered as "f". */
  lemma Opened()
    ensures Run(OPENED) == START.(
      nextSession := 3, live := map[1 := None, 2 := None], connections := {1, 2},
      registry := map["f" := 0], next := map[0 := 1])
  {
    OneMore([], Connect);
    assert [] + [Connect] == [Connect];
    OneMore([Connect], Connect);
    OneMore([Connect] + [Connect], Create("f", 0));
    assert {} + {1} + {2} == {1, 2};
  }

  /** A join up to the name test. */
  function Tried(es: seq<Event>, s: SessionId, requested: Option<string>): seq<Event> {
    es + [Find(s, "f", requested)] + [Take(s)] + [Check(s)]
  }

  lemma TriedRun(es: seq<Event>, s: SessionId, requested: Option<string>)
    ensures Run(Tried(es, s, requested)) == UpToCheck(Run(es), s, "f", requested)
  {
    OneMore(es, Find(s, "f", requested));
    OneMore(es + [Find(s, "f", requested)], Take(s));
    OneMore(es + [Find(s, "f", requested)] + [Take(s)], Check(s));
  }

  lemma JoinedRun(es: seq<Event>, n: Node, s: SessionId, requested: Option<string>, m: Membership)
    requires n == Run(es) && Finds(n, s, "f")
    requires m.fed == n.registry["f"] && m.fed in n.next && m.handle == n.next[m.fed]
    ensures Run(Tried(es, s, requested) + [Insert(s)]) == WholeJoin(n, s, m, requested)
  {
    TriedRun(es, s, requested);
    OneMore(Tried(es, s, requested), Insert(s));
    var n1 := Step(n, Find(s, "f", requested));
    var n2 := Step(n1, Take(s));
    JoinSteps(n, n1, n2, Step(n2, Check(s)), s, "f", requested, m);
  }

  // ---------------------------------------------------------------- a federation destroyed under a join

  /** The federation goes between name test and insertion; the federate joins it all the same. */
  lemma JoinsDestroyed()
    ensures !Registered(Run(Tried(OPENED, 1, None) + [Destroy("f")] + [Insert(1)]))
  {
    Opened();
    var es := Tried(OPENED, 1, None);
    TriedRun(OPENED, 1, None);
    RunSound(OPENED);
    UpToCheckAt(Run(OPENED), Run(es), 1, "f", None);
    OneMore(es, Destroy("f"));
    OneMore(es + [Destroy("f")], Insert(1));
    InsertsLate(Run(es), Step(Run(es), Destroy("f")));
  }

  lemma InsertsLate(n: Node, n1: Node)
    requires n.registry == map["f" := 0] && n.members == map[] && n.joining == map[1 := Checked(FIRST, None)]
    requires n1 == Step(n, Destroy("f"))
    ensures !Registered(Step(n1, Insert(1)))
  {
    assert n1 == n.(registry := map[]);
    InsertLeaves(n1, Step(n1, Insert(1)), 1);
    assert Holds(Step(n1, Insert(1)), 1, FIRST);
  }

  // ---------------------------------------------------------------- two federates of one name

  /** One session asks for the name the next one will be given; nothing comes between. */
  lemma SharesName()
    ensures !NamesDiffer(Run(Tried(Tried(OPENED, 1, Some(AutoName(2))) + [Insert(1)], 2, None) + [Insert(2)]).members)
  {
    Opened();
    var name, n := Some(AutoName(2)), Run(OPENED);
    JoinedRun(OPENED, n, 1, name, FIRST);
    var n1 := WholeJoin(n, 1, FIRST, name);
    assert n1.members == map[FIRST := Member(1, AutoName(2))] && n1.next == map[0 := 2] && n1.registry == n.registry;
    assert n1.live[2] == None && n1.joining == map[];
    JoinedRun(Tried(OPENED, 1, name) + [Insert(1)], n1, 2, None, SECOND);
    var members := WholeJoin(n1, 2, SECOND, None).members;
    assert FIRST in members && SECOND in members && members[FIRST].name == members[SECOND].name;
  }

  // ---------------------------------------------------------------- a suspended session

  const SUSPENDED := Tried(OPENED, 1, None) + [Insert(1)] + [Close(1, true)]

  /** Federate 1 is in its table, held by the suspended session 1, whose old connection is closing. */
  ghost predicate IsSuspended(n: Node) {
    && n.members == map[FIRST := Member(1, AutoName(1))]
    && n.live == map[2 := None] && n.suspended == map[1 := FIRST] && n.moving == map[]
    && ClosingOf(n, 1) == 1
  }

  lemma SuspendedRun()
    ensures IsSuspended(Run(SUSPENDED))
  {
    Opened();
    var n := Run(OPENED);
    JoinedRun(OPENED, n, 1, None, FIRST);
    var n1 := WholeJoin(n, 1, FIRST, None);
    assert n1.members == map[FIRST := Member(1, AutoName(1))] && n1.live == map[1 := Some(FIRST), 2 := None];
    OneMore(Tried(OPENED, 1, None) + [Insert(1)], Close(1, true));
  }

  /** Too late for the deadline, too early for the janitor. */
  lemma LateResumeLoses()
    ensures !NoOrphans(Run(SUSPENDED + [TakeOut(1, true)]))
  {
    SuspendedRun();
    OneMore(SUSPENDED, TakeOut(1, true));
    var n := Step(Run(SUSPENDED), TakeOut(1, true));
    assert FIRST in n.members && !Holds(n, 1, FIRST);
  }

  /** In time, but the status frame cannot be written. */
  lemma LostResumeLoses()
    ensures !NoOrphans(Run(SUSPENDED + [TakeOut(1, false)] + [StatusLost(1)]))
  {
    SuspendedRun();
    OneMore(SUSPENDED, TakeOut(1, false));
    OneMore(SUSPENDED + [TakeOut(1, false)], StatusLost(1));
    var n := Run(SUSPENDED);
    ResumeSteps(n, Step(n, TakeOut(1, false)), 1, false, false);
    var n' := WholeResume(n, 1, false, false);
    assert FIRST in n'.members && !Holds(n', 1, FIRST);
  }

  /** The old connection leaves the table after the new one has entered it. */
  lemma CloseCutsResumed()
    ensures !Connected(Run(SUSPENDED + [TakeOut(1, false)] + [Attach(1)] + [Disconnect(1)]))
  {
    SuspendedRun();
    OneMore(SUSPENDED, TakeOut(1, false));
    OneMore(SUSPENDED + [TakeOut(1, false)], Attach(1));
    OneMore(SUSPENDED + [TakeOut(1, false)] + [Attach(1)], Disconnect(1));
    var n := Run(SUSPENDED);
    ResumeSteps(n, Step(n, TakeOut(1, false)), 1, false, true);
    var n' := WholeResume(n, 1, false, true);
    DisconnectLeaves(n', Step(n', Disconnect(1)), 1);
    assert 1 in n'.live;
  }
}
