/**
 Conservative safety: no constrained federate is ahead of what a regulating federate may still
 send.  Which handlers keep this, and the exact condition under which the others do.
 */
module Safety {
  import opened Options
  import opened LogicalTime
  import opened TimeModel
  import opened Cascades

  /** No constrained federate has passed the lower bound on time stamps. */
  ghost predicate Safe(add: Addition, fs: Federates) {
    forall c :: c in fs && fs[c].constrained ==> Leq(At(fs[c].now), Lbts(add, fs))
  }

  /** Safety is exactly the guarantee that an update a regulator gets accepted is never stamped
      in a constrained federate's past. */
  lemma SafeMeansNoPastUpdates(add: Addition, fs: Federates)
    ensures Safe(add, fs) <==>
      forall h, c, s: Stamp, to: set<Handle>, p: seq<int> {:trigger TimedUpdate(add, fs, h, to, Some(s), p), fs[c]} ::
        (h in fs && fs[h].regulating && c in fs && fs[c].constrained &&
         TimedUpdate(add, fs, h, to, Some(s), p).Done?) ==> !Less(s, At(fs[c].now))
  {
    if !Safe(add, fs) {
      var b := Lbts(add, fs);
      var c :| c in fs && fs[c].constrained && !Leq(At(fs[c].now), b);
      var r :| r in fs && fs[r].regulating && b == Contribution(add, fs[r]);
      assert TimedUpdate(add, fs, r, {c}, Some(b), []).Done?;
      assert Less(b, At(fs[c].now));
    }
  }

  // ---------------------------------------------------------------- the bound, one regulator apart

  lemma LbtsSplit(add: Addition, fs: Federates, n: Handle, t: real)
    requires n in fs && fs[n].regulating
    ensures Leq(At(t), Lbts(add, fs)) <==>
      Leq(At(t), Lbts(add, fs - {n})) && Leq(At(t), Contribution(add, fs[n]))
  {
    var rest := fs - {n};
    LbtsRises(add, fs, rest);
    var b := Lbts(add, fs);
    if !b.PosInf? {
      var r :| r in fs && fs[r].regulating && b == Contribution(add, fs[r]);
      assert r == n || (r in rest && rest[r] == fs[r]);
    }
  }

  /** A federate that does not regulate has no say in the bound. */
  lemma LbtsWithout(add: Addition, fs: Federates, n: Handle)
    requires n in fs && !fs[n].regulating
    ensures Lbts(add, fs - {n}) == Lbts(add, fs)
  {
    LbtsRises(add, fs, fs - {n});
    LbtsRises(add, fs - {n}, fs);
  }

  lemma LbtsSame(add: Addition, fs: Federates, gs: Federates)
    requires fs.Keys == gs.Keys
    requires forall h :: h in fs ==>
      fs[h].regulating == gs[h].regulating &&
      (fs[h].regulating ==> Contribution(add, fs[h]) == Contribution(add, gs[h]))
    ensures Lbts(add, fs) == Lbts(add, gs)
  {
    LbtsRises(add, fs, gs);
    LbtsRises(add, gs, fs);
  }

  lemma SoleRegulator(add: Addition, fs: Federates, r: Handle)
    requires r in fs && forall h :: h in fs ==> (fs[h].regulating <==> h == r)
    ensures Lbts(add, fs) == Contribution(add, fs[r])
  {
    assert Leq(At(fs[r].now), Contribution(add, fs[r]));
    assert fs[r].regulating;
    LbtsUnique(add, fs, Contribution(add, fs[r]), Lbts(add, fs));
  }

  // ---------------------------------------------------------------- the cascade

  /** What the cascade does to one federate. */
  lemma CascadeAt(add: Addition, fs: Federates, h: Handle)
    requires AllWellTimed(fs) && h in fs
    ensures Cascade(add, fs)[h] == if h in GrantedBy(add, fs) then Granted(fs[h]) else fs[h]
    ensures fs[h].now <= Cascade(add, fs)[h].now
  {
    CascadeGrants(add, fs);
  }

  /** A constrained federate the cascade grants ends at or below the final bound. */
  lemma {:induction false} CascadeWithinBound(add: Addition, fs: Federates, c: Handle)
    requires AllWellTimed(fs)
    requires c in fs && fs[c].constrained && c in GrantedBy(add, fs)
    ensures Leq(At(fs[c].pending.value), Lbts(add, Cascade(add, fs)))
    decreases |Pending(fs)|
  {
    var b := Lbts(add, fs);
    var ready := Ready(b, fs);
    CascadeSettles(add, fs);
    if c !in ready {
      var fs' := GrantAll(fs, ready);
      PendingFalls(fs, ready);
      ReadyArePending(b, fs);
      GrantsWellTimed(fs, ready);
      CascadeWithinBound(add, fs', c);
    }
  }

  lemma CascadeSafe(add: Addition, fs: Federates)
    requires AllWellTimed(fs)
    requires Safe(add, fs)
    ensures Safe(add, Cascade(add, fs))
  {
    var end := Cascade(add, fs);
    CascadeSettles(add, fs);
    forall c | c in end && end[c].constrained
      ensures Leq(At(end[c].now), Lbts(add, end))
    {
      CascadeAt(add, fs, c);
      if c in GrantedBy(add, fs) {
        CascadeWithinBound(add, fs, c);
      }
    }
  }

  lemma ContributionAfter(add: Addition, fs: Federates, end: Federates, h: Handle)
    requires AllWellTimed(fs) && end == Cascade(add, fs) && h in fs
    ensures fs[h].regulating == end[h].regulating && Leq(Contribution(add, fs[h]), Contribution(add, end[h]))
  {
    CascadeAt(add, fs, h);
    ContributionRises(add, fs[h], end[h]);
  }

  lemma CascadeRaisesRest(add: Addition, fs: Federates, n: Handle)
    requires AllWellTimed(fs) && n in fs
    ensures Leq(Lbts(add, fs - {n}), Lbts(add, Cascade(add, fs) - {n}))
  {
    var end := Cascade(add, fs);
    forall h | h in fs
      ensures fs[h].regulating == end[h].regulating && Leq(Contribution(add, fs[h]), Contribution(add, end[h]))
    {
      ContributionAfter(add, fs, end, h);
    }
    LbtsRises(add, fs - {n}, end - {n});
  }

  /** From a state that is safe except perhaps for regulator `n`, the cascade ends safe exactly
      when every constrained federate was at or below what `n` ends up contributing. */
  lemma CascadeSafeBut(add: Addition, fs: Federates, n: Handle)
    requires AllWellTimed(fs)
    requires n in fs && fs[n].regulating
    requires forall c :: c in fs && fs[c].constrained ==> Leq(At(fs[c].now), Lbts(add, fs - {n}))
    ensures Safe(add, Cascade(add, fs)) <==>
      forall c :: c in fs && fs[c].constrained ==>
        Leq(At(fs[c].now), add(Cascade(add, fs)[n].now, fs[n].lookahead))
  {
    var end := Cascade(add, fs);
    CascadeAt(add, fs, n);
    CascadeRaisesRest(add, fs, n);
    forall c | c in fs && fs[c].constrained
      ensures end[c].constrained
      ensures Leq(At(end[c].now), Lbts(add, end)) <==> Leq(At(fs[c].now), Contribution(add, end[n]))
    {
      CascadeAt(add, fs, c);
      LbtsSplit(add, end, n, end[c].now);
      if c in GrantedBy(add, fs) {
        CascadeWithinBound(add, fs, c);
      }
    }
    forall c | c in end && end[c].constrained
      ensures c in fs && fs[c].constrained
    {
      CascadeAt(add, fs, c);
    }
  }

  // ---------------------------------------------------------------- every handler

  lemma DrainKeeps(add: Addition, fs: Federates, hs: set<Handle>)
    ensures AllWellTimed(fs) ==> AllWellTimed(DrainAll(fs, hs))
    ensures Safe(add, fs) ==> Safe(add, DrainAll(fs, hs))
    ensures Lbts(add, DrainAll(fs, hs)) == Lbts(add, fs)
  {
    LbtsSame(add, fs, DrainAll(fs, hs));
  }

  lemma StepWellTimed(add: Addition, fs: Federates, e: Event)
    requires AllWellTimed(fs)
    ensures AllWellTimed(Step(add, fs, e))
  {
    var r := Dispatch(add, fs, e);
    if r.Done? {
      match e
      case EnableRegulationCall(h, l) => CascadeSettles(add, Regulating(fs, h, FiniteInterval(l).value));
      case DisableRegulationCall(h) => CascadeSettles(add, fs[h := fs[h].(regulating := false)]);
      case AdvanceRequestCall(h, t) =>
        var gs := fs[h := Requested(fs[h], t.value.t)];
        DrainKeeps(add, gs, Ready(Lbts(add, gs), gs));
        CascadeSettles(add, DrainAll(gs, Ready(Lbts(add, gs), gs)));
      case _ =>
    }
  }

  // ---------------------------------------------------------------- the events, by what they touch

  /** Membership, the constrained role and lookahead: no clock moves and nothing is delivered. */
  predicate IsPlain(e: Event) {
    e.Join? || e.Resign? || e.EnableConstrainedCall? || e.DisableConstrainedCall? || e.ModifyLookaheadCall?
  }

  /** What order and conservation are about is as it was. */
  predicate Undisturbed(f: Federate, g: Federate) {
    && g.now == f.now && g.pending == f.pending && g.queue == f.queue
    && g.asked == f.asked && g.routed == f.routed
    && (g.sent == f.sent || g.sent == f.sent + [TimeConstrainedEnabled(f.now)])
    && (f.constrained ==> g.sent == f.sent)
  }

  lemma PlainAt(add: Addition, fs: Federates, gs: Federates, e: Event, c: Handle)
    requires IsPlain(e) && gs == Step(add, fs, e) && c in gs
    ensures if c in fs then Undisturbed(fs[c], gs[c]) else gs[c] == JOINING
  {
    match e
    case Join(h) =>
    case Resign(h) =>
    case EnableConstrainedCall(h) =>
    case DisableConstrainedCall(h) =>
    case ModifyLookaheadCall(h, l) =>
  }

  predicate IsSend(e: Event) {
    e.TimedUpdateCall? || e.TimedSendCall?
  }

  /** The message a timed service routes. */
  function MessageSent(fs: Federates, e: Event): TsoMessage
    requires IsSend(e) && e.time.Some?
  {
    TsoMessage(e.time.value, Body(e.h, e.TimedUpdateCall? && e.h in fs && fs[e.h].regulating, e.payload))
  }

  lemma SendAt(add: Addition, fs: Federates, gs: Federates, e: Event)
    requires IsSend(e) && Dispatch(add, fs, e).Done? && gs == Step(add, fs, e)
    ensures e.time.Some? && gs == Route(fs, e.to - {e.h}, MessageSent(fs, e))
  {
  }

  /** Every constrained federate is at or below time `t`. */
  ghost predicate NoneBeyond(fs: Federates, t: Stamp) {
    forall c :: c in fs && fs[c].constrained ==> Leq(At(fs[c].now), t)
  }

  /** The time that counts when a federate starts regulating with lookahead `l`: that of its pending
      advance if nothing but other regulators can hold that back, else its present time. */
  function Upcoming(add: Addition, f: Federate, l: Interval): real {
    if f.pending.Some? && (!f.constrained || Leq(At(f.pending.value), add(f.now, l))) then f.pending.value else f.now
  }

  /** The exact condition, in the state before, under which handling `e` keeps a safe federation safe. */
  ghost predicate KeepsSafe(add: Addition, fs: Federates, e: Event) {
    Dispatch(add, fs, e).Done? ==>
      match e
      case EnableRegulationCall(h, l) => NoneBeyond(fs, add(Upcoming(add, fs[h], l.value.t), l.value.t))
      case EnableConstrainedCall(h) => Leq(At(fs[h].now), Lbts(add, fs))
      case ModifyLookaheadCall(h, l) => NoneBeyond(fs, add(fs[h].now, l.value.t))
      case _ => true
  }

  /** With the new regulator's final time as a given. */
  lemma RegulatorSafe(add: Addition, fs: Federates, h: Handle, l: Interval)
    requires AllWellTimed(fs) && Safe(add, fs)
    requires h in fs && !fs[h].regulating
    ensures var end := Cascade(add, Regulating(fs, h, l));
      Safe(add, end) <==> NoneBeyond(fs, add(end[h].now, l))
  {
    var gs := Regulating(fs, h, l);
    LbtsWithout(add, fs, h);
    assert gs - {h} == fs - {h};
    CascadeSafeBut(add, gs, h);
    assert forall c :: c in fs ==> gs[c].now == fs[c].now && gs[c].constrained == fs[c].constrained;
  }

  /** A regulator that is constrained too is never granted beyond its own contribution. */
  lemma {:induction false} GrantedWithinOwn(add: Addition, gs: Federates, h: Handle)
    requires h in gs && gs[h].regulating && gs[h].constrained && h in GrantedBy(add, gs)
    ensures Leq(At(gs[h].pending.value), Contribution(add, gs[h]))
    decreases |Pending(gs)|
  {
    var b := Lbts(add, gs);
    var ready := Ready(b, gs);
    if h in ready {
      assert Leq(b, Contribution(add, gs[h]));
    } else {
      PendingFalls(gs, ready);
      ReadyArePending(b, gs);
      GrantedWithinOwn(add, GrantAll(gs, ready), h);
    }
  }

  lemma HeldBackByRest(add: Addition, gs: Federates, h: Handle)
    requires AllWellTimed(gs) && h in gs && gs[h].regulating && gs[h].constrained && gs[h].pending.Some?
    requires Leq(At(gs[h].pending.value), Contribution(add, gs[h])) && h !in GrantedBy(add, gs)
    ensures !Leq(At(gs[h].pending.value), Lbts(add, Cascade(add, gs) - {h}))
  {
    var end := Cascade(add, gs);
    CascadeSettles(add, gs);
    CascadeAt(add, gs, h);
    assert h !in Ready(Lbts(add, end), end);
    LbtsSplit(add, end, h, gs[h].pending.value);
  }

  /** A regulator left waiting within its own contribution waits for another regulator, which is
      beyond every constrained federate already. */
  lemma WaitsForAnother(add: Addition, fs: Federates, h: Handle, l: Interval)
    requires AllWellTimed(fs) && Safe(add, fs)
    requires h in fs && !fs[h].regulating && fs[h].constrained && fs[h].pending.Some?
    requires Leq(At(fs[h].pending.value), add(fs[h].now, l))
    requires h !in GrantedBy(add, Regulating(fs, h, l))
    ensures NoneBeyond(fs, At(fs[h].pending.value))
  {
    var gs := Regulating(fs, h, l);
    HeldBackByRest(add, gs, h);
    RestNotLower(add, fs, gs, h);
    SafeBelow(add, fs, Lbts(add, Cascade(add, gs) - {h}), fs[h].pending.value);
  }

  lemma RestNotLower(add: Addition, fs: Federates, gs: Federates, h: Handle)
    requires h in fs && !fs[h].regulating && h in gs && gs - {h} == fs - {h} && AllWellTimed(gs)
    ensures Leq(Lbts(add, fs), Lbts(add, Cascade(add, gs) - {h}))
  {
    CascadeRaisesRest(add, gs, h);
    LbtsWithout(add, fs, h);
  }

  lemma SafeBelow(add: Addition, fs: Federates, b: Stamp, t: real)
    requires Safe(add, fs) && Leq(Lbts(add, fs), b) && !Leq(At(t), b)
    ensures NoneBeyond(fs, At(t))
  {
  }

  /** The exact condition for enabling regulation, read off the state before the call. */
  lemma EnableRegulationSafe(add: Addition, fs: Federates, h: Handle, l: Interval)
    requires AllWellTimed(fs) && Safe(add, fs)
    requires h in fs && !fs[h].regulating
    ensures Safe(add, Cascade(add, Regulating(fs, h, l))) <==> NoneBeyond(fs, add(Upcoming(add, fs[h], l), l))
  {
    var gs, f := Regulating(fs, h, l), fs[h];
    RegulatorSafe(add, fs, h, l);
    CascadeAt(add, gs, h);
    CascadeGrants(add, gs);
    assert f.pending.Some? && !f.constrained ==> h in Ready(Lbts(add, gs), gs);
    if h in GrantedBy(add, gs) {
      if f.constrained {
        GrantedWithinOwn(add, gs, h);
      }
    } else if f.pending.Some? && f.constrained && Leq(At(f.pending.value), add(f.now, l)) {
      WaitsForAnother(add, fs, h, l);
      assert Monotone(add, f.now, f.pending.value, l, l);
    }
  }

  lemma ModifyLookaheadSafe(add: Addition, fs: Federates, h: Handle, l: Interval)
    requires Safe(add, fs)
    requires h in fs && fs[h].regulating
    ensures Safe(add, fs[h := fs[h].(lookahead := l)]) <==> NoneBeyond(fs, add(fs[h].now, l))
  {
    var gs := fs[h := fs[h].(lookahead := l)];
    assert gs - {h} == fs - {h};
    forall c | c in fs && fs[c].constrained
      ensures gs[c].now == fs[c].now && gs[c].constrained
      ensures Leq(At(gs[c].now), Lbts(add, gs)) <==> Leq(At(fs[c].now), add(fs[h].now, l))
    {
      LbtsSplit(add, fs, h, fs[c].now);
      LbtsSplit(add, gs, h, fs[c].now);
    }
    assert forall c :: c in gs && gs[c].constrained ==> c in fs && fs[c].constrained;
  }

  lemma EnableConstrainedSafe(add: Addition, fs: Federates, h: Handle)
    requires Safe(add, fs)
    requires EnableConstrained(fs, h).Done?
    ensures Safe(add, EnableConstrained(fs, h).fs) <==> Leq(At(fs[h].now), Lbts(add, fs))
  {
    var gs := EnableConstrained(fs, h).fs;
    LbtsSame(add, fs, gs);
    assert gs[h].constrained && gs[h].now == fs[h].now;
  }

  lemma AdvanceRequestSafe(add: Addition, fs: Federates, h: Handle, t: real)
    requires AllWellTimed(fs) && Safe(add, fs)
    requires h in fs && fs[h].now <= t
    ensures Safe(add, DrainAndCascade(add, fs[h := Requested(fs[h], t)]))
  {
    var gs := fs[h := Requested(fs[h], t)];
    forall k | k in fs
      ensures Leq(Contribution(add, fs[k]), Contribution(add, gs[k]))
    {
      ContributionRises(add, fs[k], gs[k]);
    }
    LbtsRises(add, fs, gs);
    assert AllWellTimed(gs) && Safe(add, gs);
    var ready := Ready(Lbts(add, gs), gs);
    DrainKeeps(add, gs, ready);
    CascadeSafe(add, DrainAll(gs, ready));
  }

  lemma DisableRegulationSafe(add: Addition, fs: Federates, h: Handle)
    requires AllWellTimed(fs) && Safe(add, fs)
    requires h in fs
    ensures Safe(add, Cascade(add, fs[h := fs[h].(regulating := false)]))
  {
    var gs := fs[h := fs[h].(regulating := false)];
    LbtsRises(add, fs, gs);
    CascadeSafe(add, gs);
  }

  lemma RouteSafe(add: Addition, fs: Federates, to: set<Handle>, m: TsoMessage)
    requires Safe(add, fs)
    ensures Safe(add, Route(fs, to, m))
  {
    LbtsSame(add, fs, Route(fs, to, m));
  }

  lemma MembershipSafe(add: Addition, fs: Federates, h: Handle)
    requires Safe(add, fs)
    ensures h !in fs ==> Safe(add, fs[h := JOINING])
    ensures Safe(add, fs - {h})
    ensures h in fs ==> Safe(add, fs[h := fs[h].(constrained := false)])
  {
    LbtsRises(add, fs, fs - {h});
    if h !in fs {
      LbtsRises(add, fs, fs[h := JOINING]);
    } else {
      LbtsRises(add, fs, fs[h := fs[h].(constrained := false)]);
    }
  }

  /** Every handler: a safe federation is safe afterwards if and only if `KeepsSafe` held before.
      Joining, resigning, advancing, giving up a role and sending never endanger it. */
  lemma StepSafe(add: Addition, fs: Federates, e: Event)
    requires AllWellTimed(fs) && Safe(add, fs)
    ensures Safe(add, Step(add, fs, e)) <==> KeepsSafe(add, fs, e)
  {
    if Dispatch(add, fs, e).Done? {
      match e
      case Join(h) => MembershipSafe(add, fs, h);
      case Resign(h) => MembershipSafe(add, fs, h);
      case EnableRegulationCall(h, l) => EnableRegulationSafe(add, fs, h, l.value.t);
      case DisableRegulationCall(h) => DisableRegulationSafe(add, fs, h);
      case EnableConstrainedCall(h) => EnableConstrainedSafe(add, fs, h);
      case DisableConstrainedCall(h) => MembershipSafe(add, fs, h);
      case ModifyLookaheadCall(h, l) => ModifyLookaheadSafe(add, fs, h, l.value.t);
      case AdvanceRequestCall(h, t) => AdvanceRequestSafe(add, fs, h, t.value.t);
      case TimedUpdateCall(h, to, t, p) =>
        RouteSafe(add, fs, to - {h}, TsoMessage(t.value, Body(h, h in fs && fs[h].regulating, p)));
      case TimedSendCall(h, to, t, p) =>
        RouteSafe(add, fs, to - {h}, TsoMessage(t.value, Body(h, false, p)));
    }
  }

  /** Raising a lookahead never endangers safety. */
  lemma RaisedLookaheadSafe(add: Addition, fs: Federates, h: Handle, l: Interval)
    requires Safe(add, fs)
    requires h in fs && fs[h].regulating && fs[h].lookahead <= l
    ensures NoneBeyond(fs, add(fs[h].now, l))
  {
    ContributionRises(add, fs[h], fs[h].(lookahead := l));
  }

  lemma {:induction false} RunWellTimed(add: Addition, fs: Federates, es: seq<Event>)
    requires AllWellTimed(fs)
    ensures AllWellTimed(Run(add, fs, es))
  {
    if es == [] {
    } else {
      RunWellTimed(add, fs, es[..|es| - 1]);
      StepWellTimed(add, Run(add, fs, es[..|es| - 1]), es[|es| - 1]);
    }
  }

  /** Safe now and after every event of the run. */
  ghost predicate AlwaysSafe(add: Addition, fs: Federates, es: seq<Event>) {
    Safe(add, Run(add, fs, es)) && (es == [] || AlwaysSafe(add, fs, es[..|es| - 1]))
  }

  /** Every event of the run met its safety condition in the state it was handled in. */
  ghost predicate AlwaysKeepsSafe(add: Addition, fs: Federates, es: seq<Event>) {
    es == [] ||
    (var before := es[..|es| - 1];
     KeepsSafe(add, Run(add, fs, before), es[|es| - 1]) && AlwaysKeepsSafe(add, fs, before))
  }

  /** Whole runs: all states are safe if and only if every event met its condition when it came. */
  lemma {:induction false} RunSafe(add: Addition, fs: Federates, es: seq<Event>)
    requires AllWellTimed(fs) && Safe(add, fs)
    ensures AlwaysSafe(add, fs, es) <==> AlwaysKeepsSafe(add, fs, es)
  {
    if es == [] {
    } else {
      var before := es[..|es| - 1];
      RunSafe(add, fs, before);
      RunWellTimed(add, fs, before);
      if AlwaysSafe(add, fs, before) {
        StepSafe(add, Run(add, fs, before), es[|es| - 1]);
      }
    }
  }
}
