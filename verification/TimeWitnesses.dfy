/**
 Runs from the empty federation in which a handler does what its conditions in `Safety` and
 `TsoOrder` exclude, for exact addition.
 */
module TimeWitnesses {
  import opened Options
  import opened LogicalTime
  import opened TimeModel
  import opened Cascades
  import opened Safety
  import opened History
  import opened Arrivals
  import opened TsoOrder

  ghost predicate Exact(add: Addition) {
    forall t: real, l: Interval :: add(t, l) == At(t + l)
  }

  // ---------------------------------------------------------------- two federates, step by step

  /** A federate without its history. */
  function View(f: Federate): Federate {
    f.(sent := [], asked := [], routed := [])
  }

  function Idler(regulating: bool, constrained: bool, now: real, lookahead: Interval): Federate {
    Federate(regulating, constrained, now, lookahead, None, [], [], [], [])
  }

  /** The federation consists of federates 1 and 2, which look like `x` and `y`. */
  ghost predicate IsPair(fs: Federates, x: Federate, y: Federate) {
    fs.Keys == {1, 2} && View(fs[1]) == x && View(fs[2]) == y
  }

  lemma RunOneMore(add: Addition, es: seq<Event>, e: Event)
    ensures Run(add, map[], es + [e]) == Step(add, Run(add, map[], es), e)
  {
    assert (es + [e])[..|es|] == es;
  }

  lemma CascadeIdle(add: Addition, fs: Federates)
    requires Pending(fs) == {}
    ensures Cascade(add, fs) == fs
  {
    ReadyArePending(Lbts(add, fs), fs);
  }

  const JOINS := [Join(1), Join(2)]

  lemma PairJoins(add: Addition)
    ensures IsPair(Run(add, map[], JOINS), JOINING, JOINING)
  {
    RunOneMore(add, [], Join(1));
    RunOneMore(add, [Join(1)], Join(2));
    assert [] + [Join(1)] == [Join(1)] && [Join(1)] + [Join(2)] == JOINS;
  }

  lemma Regulates(add: Addition, fs: Federates, x: Federate, y: Federate, l: Interval)
    requires IsPair(fs, x, y) && !x.regulating && x.pending.None? && y.pending.None?
    ensures IsPair(Step(add, fs, EnableRegulationCall(1, Some(At(l)))), x.(regulating := true, lookahead := l), y)
  {
    CascadeIdle(add, Regulating(fs, 1, l));
  }

  lemma Constrains(add: Addition, fs: Federates, x: Federate, y: Federate)
    requires IsPair(fs, x, y)
    ensures !x.constrained ==> IsPair(Step(add, fs, EnableConstrainedCall(1)), x.(constrained := true), y)
    ensures !y.constrained ==> IsPair(Step(add, fs, EnableConstrainedCall(2)), x, y.(constrained := true))
  {
  }

  lemma PairBound(add: Addition, fs: Federates, x: Federate, y: Federate)
    requires IsPair(fs, x, y) && !y.regulating
    ensures Lbts(add, fs) == if x.regulating then add(x.now, x.lookahead) else PosInf
  {
    if x.regulating {
      SoleRegulator(add, fs, 1);
    }
  }

  /** Federate 2, unconstrained, is granted on the spot. */
  lemma AdvancesFreely(add: Addition, fs: Federates, x: Federate, y: Federate, t: real)
    requires IsPair(fs, x, y) && x.pending.None? && y.pending.None?
    requires !y.constrained && y.queue == [] && y.now <= t
    ensures IsPair(Step(add, fs, AdvanceRequestCall(2, Some(At(t)))), x, y.(now := t))
  {
    var gs := fs[2 := Requested(fs[2], t)];
    assert Pending(gs) == {};
    ReadyArePending(Lbts(add, gs), gs);
    assert DrainAll(gs, {}) == gs;
    CascadeIdle(add, gs);
  }

  /** Federate 2, constrained, asks for a time the bound allows. */
  lemma Advances(add: Addition, fs: Federates, x: Federate, y: Federate, t: real)
    requires IsPair(fs, x, y) && x.pending.None? && y.pending.None?
    requires !y.regulating && y.constrained && y.queue == [] && y.now <= t && Leq(At(t), Lbts(add, fs))
    ensures IsPair(Step(add, fs, AdvanceRequestCall(2, Some(At(t)))), x, y.(now := t))
  {
    var gs := fs[2 := Requested(fs[2], t)];
    LbtsSame(add, fs, gs);
    GrantedAtOnce(add, gs, DrainAndCascade(add, gs));
  }

  lemma GrantedAtOnce(add: Addition, gs: Federates, end: Federates)
    requires gs.Keys == {1, 2} && AllWellTimed(gs) && gs[1].pending.None? && gs[2].pending.Some? && gs[2].queue == []
    requires Leq(At(gs[2].pending.value), Lbts(add, gs)) && end == DrainAndCascade(add, gs)
    ensures end.Keys == {1, 2} && end[1] == gs[1]
    ensures View(end[2]) == View(gs[2]).(now := gs[2].pending.value, pending := None)
  {
    assert 2 in Ready(Lbts(add, gs), gs) && 1 !in Pending(gs);
    DrainAndCascadeAt(add, gs, 1);
    DrainAndCascadeAt(add, gs, 2);
  }

  // ---------------------------------------------------------------- losing safety

  const BEFORE_LOWERING := JOINS + [EnableRegulationCall(1, Some(At(5.0)))] + [EnableConstrainedCall(2)] +
    [AdvanceRequestCall(2, Some(At(4.0)))]

  /** Lowering lookahead: the regulator may now send into federate 2's past. */
  lemma LoweringLosesSafety(add: Addition)
    requires Exact(add)
    ensures Safe(add, Run(add, map[], BEFORE_LOWERING))
    ensures !Safe(add, Run(add, map[], BEFORE_LOWERING + [ModifyLookaheadCall(1, Some(At(1.0)))]))
  {
    PairJoins(add);
    RunOneMore(add, JOINS, EnableRegulationCall(1, Some(At(5.0))));
    Regulates(add, Run(add, map[], JOINS), JOINING, JOINING, 5.0);
    var es := JOINS + [EnableRegulationCall(1, Some(At(5.0)))];
    var x, y := Idler(true, false, 0.0, 5.0), Idler(false, true, 0.0, 0.0);
    RunOneMore(add, es, EnableConstrainedCall(2));
    Constrains(add, Run(add, map[], es), x, JOINING);
    es := es + [EnableConstrainedCall(2)];
    RunOneMore(add, es, AdvanceRequestCall(2, Some(At(4.0))));
    PairBound(add, Run(add, map[], es), x, y);
    Advances(add, Run(add, map[], es), x, y, 4.0);
    LoweringStep(add, Run(add, map[], BEFORE_LOWERING));
    RunOneMore(add, BEFORE_LOWERING, ModifyLookaheadCall(1, Some(At(1.0))));
  }

  lemma LoweringStep(add: Addition, fs: Federates)
    requires Exact(add) && IsPair(fs, Idler(true, false, 0.0, 5.0), Idler(false, true, 4.0, 0.0))
    ensures Safe(add, fs) && !Safe(add, Step(add, fs, ModifyLookaheadCall(1, Some(At(1.0)))))
  {
    PairBound(add, fs, View(fs[1]), View(fs[2]));
    ModifyLookaheadSafe(add, fs, 1, 1.0);
    assert !Leq(At(fs[2].now), add(fs[1].now, 1.0));
  }

  const BEFORE_REGULATING := JOINS + [EnableConstrainedCall(2)] + [AdvanceRequestCall(2, Some(At(4.0)))]

  /** Enabling regulation: the new regulator starts behind federate 2. */
  lemma RegulatingLosesSafety(add: Addition)
    requires Exact(add)
    ensures Safe(add, Run(add, map[], BEFORE_REGULATING))
    ensures !Safe(add, Run(add, map[], BEFORE_REGULATING + [EnableRegulationCall(1, Some(At(1.0)))]))
  {
    PairJoins(add);
    RunOneMore(add, JOINS, EnableConstrainedCall(2));
    Constrains(add, Run(add, map[], JOINS), JOINING, JOINING);
    var es, y := JOINS + [EnableConstrainedCall(2)], Idler(false, true, 0.0, 0.0);
    RunOneMore(add, es, AdvanceRequestCall(2, Some(At(4.0))));
    PairBound(add, Run(add, map[], es), JOINING, y);
    Advances(add, Run(add, map[], es), JOINING, y, 4.0);
    RegulatingStep(add, Run(add, map[], BEFORE_REGULATING));
    RunOneMore(add, BEFORE_REGULATING, EnableRegulationCall(1, Some(At(1.0))));
  }

  lemma RegulatingStep(add: Addition, fs: Federates)
    requires Exact(add) && IsPair(fs, JOINING, Idler(false, true, 4.0, 0.0))
    ensures Safe(add, fs) && !Safe(add, Step(add, fs, EnableRegulationCall(1, Some(At(1.0)))))
  {
    PairBound(add, fs, View(fs[1]), View(fs[2]));
    EnableRegulationSafe(add, fs, 1, 1.0);
    assert !Leq(At(fs[2].now), add(fs[1].now, 1.0));
  }

  const BEFORE_CONSTRAINING := JOINS + [EnableRegulationCall(1, Some(At(1.0)))] + [AdvanceRequestCall(2, Some(At(4.0)))]

  /** Becoming constrained: federate 2 is beyond the bound already. */
  lemma ConstrainingLosesSafety(add: Addition)
    requires Exact(add)
    ensures Safe(add, Run(add, map[], BEFORE_CONSTRAINING))
    ensures !Safe(add, Run(add, map[], BEFORE_CONSTRAINING + [EnableConstrainedCall(2)]))
  {
    PairJoins(add);
    RunOneMore(add, JOINS, EnableRegulationCall(1, Some(At(1.0))));
    Regulates(add, Run(add, map[], JOINS), JOINING, JOINING, 1.0);
    var es, x := JOINS + [EnableRegulationCall(1, Some(At(1.0)))], Idler(true, false, 0.0, 1.0);
    RunOneMore(add, es, AdvanceRequestCall(2, Some(At(4.0))));
    AdvancesFreely(add, Run(add, map[], es), x, JOINING, 4.0);
    ConstrainingStep(add, Run(add, map[], BEFORE_CONSTRAINING));
    RunOneMore(add, BEFORE_CONSTRAINING, EnableConstrainedCall(2));
  }

  lemma ConstrainingStep(add: Addition, fs: Federates)
    requires Exact(add) && IsPair(fs, Idler(true, false, 0.0, 1.0), Idler(false, false, 4.0, 0.0))
    ensures Safe(add, fs) && !Safe(add, Step(add, fs, EnableConstrainedCall(2)))
  {
    PairBound(add, fs, View(fs[1]), View(fs[2]));
    EnableConstrainedSafe(add, fs, 2);
  }

  // ---------------------------------------------------------------- a grant passes a message

  /** Nothing has happened to the federate that order could be about. */
  lemma QuietOrdered(f: Federate, at: real)
    requires f.sent == [TimeConstrainedEnabled(at)] && f.queue == [] && f.routed == []
    ensures Ordered(f)
  {
    var c := TimeConstrainedEnabled(at);
    TimesOne([], c);
    OneMoreCallback([], c);
    OneMoreSent([], [], c);
    assert [] + [c] == [c];
    assert Messages(f.sent) + f.queue == f.routed;
  }

  const REGULATOR := Idler(true, true, 0.0, 1.0)
  const WAITING := Idler(false, true, 0.0, 0.0)

  const SET_UP := JOINS + [EnableRegulationCall(1, Some(At(1.0)))] + [EnableConstrainedCall(1)] +
    [EnableConstrainedCall(2)]

  lemma SetUp(add: Addition)
    ensures IsPair(Run(add, map[], SET_UP), REGULATOR, WAITING)
    ensures Ordered(Run(add, map[], SET_UP)[2])
  {
    PairJoins(add);
    RunOneMore(add, JOINS, EnableRegulationCall(1, Some(At(1.0))));
    Regulates(add, Run(add, map[], JOINS), JOINING, JOINING, 1.0);
    var es := JOINS + [EnableRegulationCall(1, Some(At(1.0)))];
    RunOneMore(add, es, EnableConstrainedCall(1));
    Constrains(add, Run(add, map[], es), Idler(true, false, 0.0, 1.0), JOINING);
    es := es + [EnableConstrainedCall(1)];
    RunOneMore(add, es, EnableConstrainedCall(2));
    Constrains(add, Run(add, map[], es), REGULATOR, JOINING);
    SecondIsFresh(add);
    QuietOrdered(Run(add, map[], SET_UP)[2], 0.0);
  }

  /** Nothing was sent to federate 2 before it became constrained. */
  lemma SecondIsFresh(add: Addition)
    ensures 2 in Run(add, map[], SET_UP)
    ensures var f := Run(add, map[], SET_UP)[2]; f.sent == [TimeConstrainedEnabled(0.0)] && f.routed == []
  {
    RunOneMore(add, [], Join(1));
    RunOneMore(add, [Join(1)], Join(2));
    assert [] + [Join(1)] == [Join(1)] && [Join(1)] + [Join(2)] == JOINS;
    assert Run(add, map[], JOINS)[2] == JOINING;
    PairJoins(add);
    CascadeIdle(add, Regulating(Run(add, map[], JOINS), 1, 1.0));
    RunOneMore(add, JOINS, EnableRegulationCall(1, Some(At(1.0))));
    var es := JOINS + [EnableRegulationCall(1, Some(At(1.0)))];
    assert Run(add, map[], es)[2] == JOINING;
    RunOneMore(add, es, EnableConstrainedCall(1));
    assert Run(add, map[], es + [EnableConstrainedCall(1)])[2] == JOINING;
    RunOneMore(add, es + [EnableConstrainedCall(1)], EnableConstrainedCall(2));
    assert [] + [TimeConstrainedEnabled(0.0)] == [TimeConstrainedEnabled(0.0)];
  }

  /** Federate 1 regulates and is constrained, federate 2 is only constrained; both are at time 0. */
  ghost predicate Both(fs: Federates) {
    && fs.Keys == {1, 2}
    && fs[1].regulating && fs[1].constrained && fs[1].now == 0.0 && fs[1].lookahead == 1.0 && fs[1].pending.None?
    && !fs[2].regulating && fs[2].constrained && fs[2].now == 0.0
  }

  /** A message stamped 1.5 is first in the queue. */
  ghost predicate HasDue(f: Federate) {
    f.queue != [] && f.queue[0].stamp == At(1.5)
  }

  lemma BothSafe(add: Addition, fs: Federates)
    requires Exact(add) && Both(fs)
    ensures Safe(add, fs) && Lbts(add, fs) == At(1.0)
  {
    SoleRegulator(add, fs, 1);
  }

  const SENDS := TimedUpdateCall(1, {2}, Some(At(1.5)), [])

  /** Federate 1 sends a message stamped 1.5, which federate 2 must wait for. */
  lemma MessageWaits(add: Addition, fs: Federates)
    requires Exact(add) && Both(fs) && fs[2].pending.None? && fs[2].queue == []
    ensures TimedUpdate(add, fs, 1, {2}, Some(At(1.5)), []).Done?
    ensures var gs := Step(add, fs, SENDS); Both(gs) && gs[2].pending.None? && HasDue(gs[2])
  {
    var m := TsoMessage(At(1.5), Body(1, true, []));
    assert {2} - {1} == {2};
    assert Step(add, fs, SENDS) == Route(fs, {2}, m);
    assert Insert([], m) == [m];
  }

  const ASKS := AdvanceRequestCall(2, Some(At(2.0)))

  /** Federate 2 asks for time 2 and has to wait, for the bound is 1. */
  lemma RequestWaits(add: Addition, fs: Federates)
    requires Exact(add) && Both(fs) && fs[2].pending.None? && HasDue(fs[2])
    ensures var gs := Step(add, fs, ASKS);
      gs == fs[2 := Requested(fs[2], 2.0)] && Both(gs) && gs[2].pending == Some(2.0) && HasDue(gs[2])
  {
    var gs := fs[2 := Requested(fs[2], 2.0)];
    BothSafe(add, gs);
    NobodyReady(add, gs);
  }

  lemma NobodyReady(add: Addition, gs: Federates)
    requires Ready(Lbts(add, gs), gs) == {}
    ensures DrainAndCascade(add, gs) == gs
  {
    assert DrainAll(gs, {}) == gs;
  }

  /** What matters of the pair while federate 1 waits for time 1. */
  ghost predicate Asking(gs: Federates) {
    && gs.Keys == {1, 2}
    && gs[1].regulating && gs[1].constrained && gs[1].now == 0.0 && gs[1].lookahead == 1.0 && gs[1].pending == Some(1.0)
    && !gs[2].regulating && gs[2].constrained && gs[2].now == 0.0 && gs[2].pending == Some(2.0)
  }

  lemma FirstRound(add: Addition, gs: Federates)
    requires Exact(add) && Asking(gs)
    ensures Ready(Lbts(add, gs), gs) == {1}
  {
    SoleRegulator(add, gs, 1);
  }

  /** After federate 1 has been granted, the bound allows federate 2 what it waits for. */
  lemma BoundRises(add: Addition, end: Federates)
    requires Exact(add) && end.Keys == {1, 2}
    requires end[1].regulating && end[1].now == 1.0 && end[1].lookahead == 1.0
    requires !end[2].regulating && end[2].pending == Some(2.0)
    ensures 2 in Ready(Lbts(add, end), end)
  {
    SoleRegulator(add, end, 1);
  }

  lemma BothGranted(add: Addition, gs: Federates)
    requires Exact(add) && Asking(gs) && AllWellTimed(gs)
    ensures 2 in GrantedBy(add, gs)
  {
    FirstRound(add, gs);
    CascadeSettles(add, gs);
    CascadeGrants(add, gs);
    CascadeAt(add, gs, 1);
    CascadeAt(add, gs, 2);
    if 2 !in GrantedBy(add, gs) {
      BoundRises(add, Cascade(add, gs));
    }
  }

  /** The cascade that follows an advance of federate 1 to time 1. */
  lemma SecondRound(add: Addition, gs: Federates)
    requires Exact(add) && Asking(gs)
    ensures 2 in LateGrants(add, gs)
  {
    FirstRound(add, gs);
    BothGranted(add, DrainAll(gs, {1}));
  }

  const ADVANCES := AdvanceRequestCall(1, Some(At(1.0)))

  lemma AdvanceDoesNotKeepOrder(add: Addition, fs: Federates)
    requires Exact(add) && Both(fs) && fs[2].pending == Some(2.0) && HasDue(fs[2])
    ensures !KeepsOrder(add, fs, ADVANCES, 2)
  {
    SecondRound(add, fs[1 := Requested(fs[1], 1.0)]);
    assert Leq(fs[2].queue[0].stamp, At(2.0));
  }

  const BEFORE_PASSING := SET_UP + [SENDS] + [ASKS]

  lemma BeforePassing(add: Addition)
    requires Exact(add)
    ensures var fs := Run(add, map[], BEFORE_PASSING);
      Both(fs) && fs[2].pending == Some(2.0) && HasDue(fs[2]) && Ordered(fs[2])
  {
    SetUpBoth(add);
    RunKept(add, map[], SET_UP);
    SendingKeepsOrder(add, Run(add, map[], SET_UP));
    RunOneMore(add, SET_UP, SENDS);
    AskingKeepsOrder(add, Run(add, map[], SET_UP + [SENDS]));
    RunOneMore(add, SET_UP + [SENDS], ASKS);
  }

  lemma SetUpBoth(add: Addition)
    ensures var fs := Run(add, map[], SET_UP); Both(fs) && fs[2].pending.None? && fs[2].queue == [] && Ordered(fs[2])
  {
    SetUp(add);
  }

  lemma SendingKeepsOrder(add: Addition, fs: Federates)
    requires Exact(add) && AllKept(fs) && Both(fs) && fs[2].pending.None? && fs[2].queue == [] && Ordered(fs[2])
    ensures var gs := Step(add, fs, SENDS); Both(gs) && gs[2].pending.None? && HasDue(gs[2]) && Ordered(gs[2])
  {
    BothSafe(add, fs);
    MessageWaits(add, fs);
    StayJoined(add, fs, SENDS, 2);
    StepOrdered(add, fs, SENDS, 2);
  }

  lemma AskingKeepsOrder(add: Addition, fs: Federates)
    requires Exact(add) && Both(fs) && fs[2].pending.None? && HasDue(fs[2]) && Ordered(fs[2])
    ensures var gs := Step(add, fs, ASKS); Both(gs) && gs[2].pending == Some(2.0) && HasDue(gs[2]) && Ordered(gs[2])
  {
    RequestWaits(add, fs);
    SameOrder(fs[2], Requested(fs[2], 2.0));
  }

  /** A run from the empty federation whose last event, an advance by federate 1, lets the cascade
      grant federate 2 in its second round, past the message in its queue. */
  lemma CascadedGrantPassesMessage(add: Addition)
    requires Exact(add)
    ensures 2 in Run(add, map[], BEFORE_PASSING) && 2 in Run(add, map[], BEFORE_PASSING + [ADVANCES])
    ensures Safe(add, Run(add, map[], BEFORE_PASSING)) && Ordered(Run(add, map[], BEFORE_PASSING)[2])
    ensures !NoneOverdue(Run(add, map[], BEFORE_PASSING + [ADVANCES])[2])
  {
    var fs := Run(add, map[], BEFORE_PASSING);
    BeforePassing(add);
    BothSafe(add, fs);
    RunKept(add, map[], BEFORE_PASSING);
    StayJoined(add, fs, ADVANCES, 2);
    AdvanceDoesNotKeepOrder(add, fs);
    StepOverdue(add, fs, ADVANCES, 2);
    RunOneMore(add, BEFORE_PASSING, ADVANCES);
  }
}
