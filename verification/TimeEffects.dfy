/**
 What the time services achieve, told by their effects: who gets a timed message and how, what an
 advance request ends in, what roles and clocks are after any run, and what a resignation frees.
 */
module TimeEffects {
  import opened Options
  import opened LogicalTime
  import opened TimeModel
  import opened Cascades
  import opened Safety
  import opened History
  import opened TsoOrder
  import opened LastWords

  // ---------------------------------------------------------------- timed messages reach their recipients

  /** The event is an accepted timed service, addressed to `c` by another federate. */
  ghost predicate Reaches(add: Addition, fs: Federates, e: Event, c: Handle) {
    IsSend(e) && Dispatch(add, fs, e).Done? && e.time.Some? && c in e.to && c != e.h
  }

  /** A recipient that is constrained and behind the stamp has the message queued and is told nothing;
      any other recipient is told at once and its queue stays.  Nobody else notices. */
  lemma MessageReaches(add: Addition, fs: Federates, gs: Federates, e: Event, c: Handle)
    requires IsSend(e) && Dispatch(add, fs, e).Done? && gs == Step(add, fs, e)
    requires c in fs && Sorted(fs[c].queue)
    ensures e.time.Some? && gs.Keys == fs.Keys
    ensures !Reaches(add, fs, e, c) ==> gs[c] == fs[c]
    ensures Reaches(add, fs, e, c) ==>
      var m, f, g := MessageSent(fs, e), fs[c], gs[c];
      && g.routed == f.routed + [m]
      && (g.now, g.pending, g.asked) == (f.now, f.pending, f.asked)
      && if f.constrained && Less(At(f.now), m.stamp) then
           g.sent == f.sent && multiset(g.queue) == multiset(f.queue) + multiset{m}
         else g.sent == f.sent + [Timed(m)] && g.queue == f.queue
  {
    SendAt(add, fs, gs, e);
    if Reaches(add, fs, e, c) && Holds(fs[c], MessageSent(fs, e).stamp) {
      InsertSorted(fs[c].queue, MessageSent(fs, e));
    }
  }

  function NewMessages(reaches: bool, fs: Federates, e: Event): seq<TsoMessage>
    requires reaches ==> IsSend(e) && e.time.Some?
  {
    if reaches then [MessageSent(fs, e)] else []
  }

  lemma CascadeRouted(add: Addition, fs: Federates, c: Handle)
    requires c in fs
    ensures Cascade(add, fs)[c].routed == fs[c].routed
  {
    CascadeGrants(add, fs);
  }

  lemma AdvanceRouted(add: Addition, fs: Federates, h: Handle, t: real, c: Handle)
    requires h in fs && c in fs
    ensures var end := DrainAndCascade(add, fs[h := Requested(fs[h], t)]); c in end && end[c].routed == fs[c].routed
  {
    var gs := fs[h := Requested(fs[h], t)];
    assert gs[c].routed == fs[c].routed;
    CascadeRouted(add, DrainAll(gs, Ready(Lbts(add, gs), gs)), c);
  }

  lemma StepRouted(add: Addition, fs: Federates, gs: Federates, e: Event, c: Handle)
    requires gs == Step(add, fs, e) && c in fs && c in gs
    ensures gs[c].routed == fs[c].routed + NewMessages(Reaches(add, fs, e, c), fs, e)
  {
    if IsPlain(e) {
      PlainAt(add, fs, gs, e, c);
    } else if Dispatch(add, fs, e).Done? {
      match e
      case EnableRegulationCall(h, l) => CascadeRouted(add, Regulating(fs, h, l.value.t), c);
      case DisableRegulationCall(h) => CascadeRouted(add, fs[h := fs[h].(regulating := false)], c);
      case AdvanceRequestCall(h, t) => AdvanceRouted(add, fs, h, t.value.t, c);
      case _ => SendAt(add, fs, gs, e);
    }
  }

  /** The timed messages addressed to `c` by accepted calls since it joined, read off the events. */
  ghost function Addressed(add: Addition, es: seq<Event>, c: Handle): seq<TsoMessage> {
    if es == [] then []
    else
      var before, e := es[..|es| - 1], es[|es| - 1];
      var fs := Run(add, map[], before);
      if c !in fs || e == Resign(c) then []
      else Addressed(add, before, c) + NewMessages(Reaches(add, fs, e, c), fs, e)
  }

  lemma JoinsFresh(add: Addition, fs: Federates, gs: Federates, e: Event, c: Handle)
    requires gs == Step(add, fs, e) && c !in fs && c in gs
    ensures gs[c] == JOINING
  {
    if IsPlain(e) {
      PlainAt(add, fs, gs, e, c);
    } else if Dispatch(add, fs, e).Done? && IsSend(e) {
      SendAt(add, fs, gs, e);
    }
  }

  lemma {:induction false} RunRouted(add: Addition, es: seq<Event>, c: Handle)
    requires c in Run(add, map[], es)
    ensures Run(add, map[], es)[c].routed == Addressed(add, es, c)
  {
    if es == [] {
    } else {
      var before, e := es[..|es| - 1], es[|es| - 1];
      var fs := Run(add, map[], before);
      if c in fs {
        RunRouted(add, before, c);
        StepRouted(add, fs, Step(add, fs, e), e, c);
      } else {
        JoinsFresh(add, fs, Step(add, fs, e), e, c);
      }
    }
  }

  /** Over every run: the messages addressed to a joined federate are, as a multiset, those delivered to
      it and those waiting in its queue.  None is lost, none is invented, none is delivered twice. */
  lemma RunDelivers(add: Addition, es: seq<Event>, c: Handle)
    requires c in Run(add, map[], es)
    ensures var f := Run(add, map[], es)[c];
      multiset(Addressed(add, es, c)) == multiset(Messages(f.sent)) + multiset(f.queue)
  {
    RunRouted(add, es, c);
    RunKept(add, map[], es);
  }

  // ---------------------------------------------------------------- advance requests

  /** A request is accepted exactly if it is a time, not in the past, of a member all of whose earlier
      requests have been granted. */
  lemma AdvanceAccepted(add: Addition, fs: Federates, h: Handle, time: Option<Stamp>)
    requires AllKept(fs)
    ensures AdvanceRequest(add, fs, h, time).Done? <==>
      && time.Some? && time.value.At?
      && h in fs && fs[h].asked == Grants(fs[h].sent) && fs[h].now <= time.value.t
  {
    if h in fs && fs[h].pending.Some? {
      assert |fs[h].asked| == |Grants(fs[h].sent)| + 1;
    }
  }

  /** The federate was told of the grant, last of all. */
  ghost predicate ToldGrant(f: Federate, t: real) {
    f.sent != [] && f.sent[|f.sent| - 1] == TimeAdvanceGrant(t, |f.routed|)
  }

  /** What an accepted request ends in, by the bound the call leaves behind: granted if the caller is
      unconstrained or the bound has reached the time, and otherwise waiting, with nothing told. */
  lemma AdvanceOutcome(add: Addition, fs: Federates, end: Federates, h: Handle, t: real)
    requires AllWellTimed(fs) && AdvanceRequest(add, fs, h, Some(At(t))) == Done(end)
    ensures h in end && end[h].asked == fs[h].asked + [t]
    ensures
      if !fs[h].constrained || Leq(At(t), Lbts(add, end)) then
        end[h].now == t && end[h].pending.None? && ToldGrant(end[h], t)
      else
        end[h].now == fs[h].now && end[h].pending == Some(t) && end[h].sent == fs[h].sent
  {
    var gs := fs[h := Requested(fs[h], t)];
    DrainAndCascadeAt(add, gs, h);
    if fs[h].constrained {
      ConstrainedOutcome(add, gs, end, h);
    }
  }

  lemma ConstrainedOutcome(add: Addition, gs: Federates, end: Federates, h: Handle)
    requires AllWellTimed(gs) && h in gs && gs[h].constrained && gs[h].pending.Some?
    requires end == DrainAndCascade(add, gs)
    ensures h in end && (end[h].pending.None? <==> Leq(At(gs[h].pending.value), Lbts(add, end)))
  {
    var ready := Ready(Lbts(add, gs), gs);
    var ds := DrainAll(gs, ready);
    DrainKeeps(add, gs, ready);
    CascadeSettles(add, ds);
    CascadeAt(add, ds, h);
    if h in GrantedBy(add, ds) {
      CascadeWithinBound(add, ds, h);
    } else {
      assert h !in Ready(Lbts(add, end), end);
    }
  }

  /** An unconstrained caller is granted on the spot, after everything in its queue up to the time and
      nothing beyond it has been delivered, in queue order. */
  lemma SpotGrant(add: Addition, fs: Federates, end: Federates, h: Handle, t: real)
    requires AllKept(fs) && h in fs && !fs[h].constrained && AdvanceRequest(add, fs, h, Some(At(t))) == Done(end)
    ensures h in end && ToldGrant(end[h], t) && end[h].now == t
    ensures Messages(end[h].sent) + end[h].queue == Messages(fs[h].sent) + fs[h].queue
    ensures forall m :: m in end[h].queue ==> !Leq(m.stamp, At(t))
    ensures var n := |Messages(fs[h].sent)|;
      n <= |Messages(end[h].sent)| && forall m :: m in Messages(end[h].sent)[n..] ==> Leq(m.stamp, At(t))
  {
    var gs := fs[h := Requested(fs[h], t)];
    DrainAndCascadeAt(add, gs, h);
    SpotDrained(fs[h].(pending := Some(t), asked := fs[h].asked + [t]), gs[h]);
  }

  lemma SpotDrained(f: Federate, g: Federate)
    requires Sorted(f.queue) && f.pending.Some? && g == Granted(Drained(f, f.pending.value))
    ensures Messages(g.sent) + g.queue == Messages(f.sent) + f.queue
    ensures forall m :: m in g.queue ==> !Leq(m.stamp, At(f.pending.value))
    ensures var n := |Messages(f.sent)|;
      n <= |Messages(g.sent)| && forall m :: m in Messages(g.sent)[n..] ==> Leq(m.stamp, At(f.pending.value))
  {
    var t := f.pending.value;
    var cut := PartitionPoint(f.queue, At(t));
    CutIsExact(f.queue, At(t));
    DrainGrantMessages(f);
    DrainedSends(f, t);
    OneMoreCallback(Drained(f, t).sent, TimeAdvanceGrant(t, |f.routed|));
    assert Messages(g.sent)[|Messages(f.sent)|..] == f.queue[..cut];
  }

  // ---------------------------------------------------------------- what is accepted

  /** A lookahead on the wire that is a finite number, not negative. */
  ghost predicate IsInterval(v: Option<Stamp>) {
    exists l: real :: 0.0 <= l && v == Some(At(l))
  }

  /** When exactly the other services are accepted.  For its stamp an update is refused only to a regulator below
      its own time plus lookahead; the other timed services look at no stamp. */
  lemma ServicesAccepted(add: Addition, fs: Federates, e: Event)
    requires !e.AdvanceRequestCall?
    ensures Dispatch(add, fs, e).Done? <==>
      match e
      case Join(_) => true
      case Resign(h) => h in fs
      case EnableRegulationCall(h, l) => h in fs && !fs[h].regulating && IsInterval(l)
      case DisableRegulationCall(h) => h in fs && fs[h].regulating
      case EnableConstrainedCall(h) => h in fs && !fs[h].constrained
      case DisableConstrainedCall(h) => h in fs && fs[h].constrained
      case ModifyLookaheadCall(h, l) => h in fs && fs[h].regulating && IsInterval(l)
      case TimedUpdateCall(h, _, t, _) =>
        t.Some? && (h in fs && fs[h].regulating ==> !Less(t.value, add(fs[h].now, fs[h].lookahead)))
      case TimedSendCall(_, _, t, _) => t.Some?
      case AdvanceRequestCall(_, _) => false
  {
    if e.EnableRegulationCall? || e.ModifyLookaheadCall? {
      IntervalsAccepted(e.lookahead);
    }
  }

  lemma IntervalsAccepted(v: Option<Stamp>)
    ensures FiniteInterval(v).Some? <==> IsInterval(v)
  {
    if FiniteInterval(v).Some? {
      assert 0.0 <= v.value.t && v == Some(At(v.value.t));
    }
  }

  // ---------------------------------------------------------------- roles

  /** The call was one of `c`'s own and was accepted. */
  ghost predicate OwnAccepted(add: Addition, fs: Federates, e: Event, c: Handle) {
    Dispatch(add, fs, e).Done? && !e.Join? && e.h == c
  }

  lemma CascadeRoles(add: Addition, fs: Federates, c: Handle)
    requires c in fs
    ensures var g := Cascade(add, fs)[c];
      (g.regulating, g.constrained, g.lookahead) == (fs[c].regulating, fs[c].constrained, fs[c].lookahead)
  {
    CascadeGrants(add, fs);
  }

  lemma AdvanceRoles(add: Addition, fs: Federates, h: Handle, t: real, c: Handle)
    requires h in fs && c in fs
    ensures var end := DrainAndCascade(add, fs[h := Requested(fs[h], t)]);
      && c in end
      && (end[c].regulating, end[c].constrained, end[c].lookahead) ==
           (fs[c].regulating, fs[c].constrained, fs[c].lookahead)
  {
    var gs := fs[h := Requested(fs[h], t)];
    CascadeRoles(add, DrainAll(gs, Ready(Lbts(add, gs), gs)), c);
  }

  /** Roles and lookahead change by their own services, and by nothing else. */
  lemma StepRoles(add: Addition, fs: Federates, gs: Federates, e: Event, c: Handle)
    requires gs == Step(add, fs, e) && c in fs && c in gs
    ensures var own := OwnAccepted(add, fs, e, c);
      && gs[c].regulating ==
           ((fs[c].regulating && !(own && e.DisableRegulationCall?)) || (own && e.EnableRegulationCall?))
      && gs[c].constrained ==
           ((fs[c].constrained && !(own && e.DisableConstrainedCall?)) || (own && e.EnableConstrainedCall?))
      && (own && (e.EnableRegulationCall? || e.ModifyLookaheadCall?) ==> e.lookahead == Some(At(gs[c].lookahead)))
      && (!(own && (e.EnableRegulationCall? || e.ModifyLookaheadCall?)) ==> gs[c].lookahead == fs[c].lookahead)
  {
    if Dispatch(add, fs, e).Done? {
      match e
      case Join(h) =>
      case Resign(h) =>
      case EnableConstrainedCall(h) =>
      case DisableConstrainedCall(h) =>
      case ModifyLookaheadCall(h, l) =>
      case EnableRegulationCall(h, l) => CascadeRoles(add, Regulating(fs, h, l.value.t), c);
      case DisableRegulationCall(h) => CascadeRoles(add, fs[h := fs[h].(regulating := false)], c);
      case AdvanceRequestCall(h, t) => AdvanceRoles(add, fs, h, t.value.t, c);
      case _ => SendAt(add, fs, gs, e);
    }
  }

  /** What an event says about `c`'s regulation: an accepted enabling, a disabling or a resignation. */
  ghost function OnRegulation(add: Addition, fs: Federates, e: Event, c: Handle): Word {
    if e.EnableRegulationCall? && OwnAccepted(add, fs, e, c) then On
    else if e == DisableRegulationCall(c) || e == Resign(c) then Off
    else Silent
  }

  ghost function OnConstrained(add: Addition, fs: Federates, e: Event, c: Handle): Word {
    if e.EnableConstrainedCall? && OwnAccepted(add, fs, e, c) then On
    else if e == DisableConstrainedCall(c) || e == Resign(c) then Off
    else Silent
  }

  /** What the events of a run say about the two roles of `c`, event by event. */
  ghost function RoleWords(add: Addition, es: seq<Event>, c: Handle): (ws: (seq<Word>, seq<Word>))
    ensures |ws.0| == |ws.1| == |es|
  {
    if es == [] then ([], [])
    else
      var before, e := es[..|es| - 1], es[|es| - 1];
      var fs, ws := Run(add, map[], before), RoleWords(add, before, c);
      (ws.0 + [OnRegulation(add, fs, e, c)], ws.1 + [OnConstrained(add, fs, e, c)])
  }

  /** Who is not joined has neither role. */
  lemma StepWords(add: Addition, fs: Federates, gs: Federates, e: Event, c: Handle)
    requires gs == Step(add, fs, e)
    ensures var was, is_ := c in fs && fs[c].regulating, c in gs && gs[c].regulating;
      is_ <==> OnRegulation(add, fs, e, c) == On || (was && OnRegulation(add, fs, e, c) == Silent)
    ensures var was, is_ := c in fs && fs[c].constrained, c in gs && gs[c].constrained;
      is_ <==> OnConstrained(add, fs, e, c) == On || (was && OnConstrained(add, fs, e, c) == Silent)
  {
    if c in fs && c in gs {
      StepRoles(add, fs, gs, e, c);
      DisablingAccepted(add, fs, c);
    } else if c in gs {
      JoinsFresh(add, fs, gs, e, c);
    } else if c in fs {
      LeavesByResigning(add, fs, e, c);
    }
  }

  lemma DisablingAccepted(add: Addition, fs: Federates, c: Handle)
    requires c in fs
    ensures fs[c].regulating ==> Dispatch(add, fs, DisableRegulationCall(c)).Done?
    ensures fs[c].constrained ==> Dispatch(add, fs, DisableConstrainedCall(c)).Done?
    ensures c !in Step(add, fs, Resign(c))
  {
  }

  lemma LeavesByResigning(add: Addition, fs: Federates, e: Event, c: Handle)
    requires c in fs && c !in Step(add, fs, e)
    ensures e == Resign(c)
  {
    if e != Resign(c) {
      StayJoined(add, fs, e, c);
    }
  }

  /** Over every run: a federate is regulating, or constrained, if and only if the last word on that,
      resignation counted as giving it up, was an accepted enabling. */
  lemma {:induction false} RunRoles(add: Addition, es: seq<Event>, c: Handle)
    ensures var fs, ws := Run(add, map[], es), RoleWords(add, es, c);
      && (LastlyOn(ws.0) <==> c in fs && fs[c].regulating)
      && (LastlyOn(ws.1) <==> c in fs && fs[c].constrained)
  {
    if es == [] {
    } else {
      var before, e := es[..|es| - 1], es[|es| - 1];
      var fs, ws := Run(add, map[], before), RoleWords(add, before, c);
      RunRoles(add, before, c);
      StepWords(add, fs, Step(add, fs, e), e, c);
      OneMoreWord(ws.0, OnRegulation(add, fs, e, c));
      OneMoreWord(ws.1, OnConstrained(add, fs, e, c));
    }
  }

  /** Giving up the constrained role counts at once: the next request is granted on the spot, wherever
      the bound is. */
  lemma FreedAdvances(add: Addition, fs: Federates, gs: Federates, end: Federates, h: Handle, t: real)
    requires AllKept(fs) && h in fs && fs[h].constrained && fs[h].pending.None? && fs[h].now <= t
    requires gs == Step(add, fs, DisableConstrainedCall(h)) && end == Step(add, gs, AdvanceRequestCall(h, Some(At(t))))
    ensures h in end && end[h].now == t && ToldGrant(end[h], t)
  {
    FreedAt(add, fs, gs, h);
    AdvanceDone(add, gs, end, h, t);
    AdvanceOutcome(add, gs, end, h, t);
  }

  lemma AdvanceDone(add: Addition, gs: Federates, end: Federates, h: Handle, t: real)
    requires h in gs && gs[h].pending.None? && gs[h].now <= t
    requires end == Step(add, gs, AdvanceRequestCall(h, Some(At(t))))
    ensures AdvanceRequest(add, gs, h, Some(At(t))) == Done(end)
  {
  }

  lemma FreedAt(add: Addition, fs: Federates, gs: Federates, h: Handle)
    requires AllKept(fs) && h in fs && fs[h].constrained && gs == Step(add, fs, DisableConstrainedCall(h))
    ensures AllWellTimed(gs) && h in gs && !gs[h].constrained
    ensures gs[h].pending == fs[h].pending && gs[h].now == fs[h].now
  {
    StepRoles(add, fs, gs, DisableConstrainedCall(h), h);
    StepWellTimed(add, fs, DisableConstrainedCall(h));
  }

  /** A request left waiting by that is granted with the next request of anyone. */
  lemma FreedWaiterGranted(add: Addition, fs: Federates, end: Federates, h: Handle, k: Handle, t: real)
    requires AllWellTimed(fs) && h in fs && !fs[h].constrained && fs[h].pending.Some? && k != h
    requires AdvanceRequest(add, fs, k, Some(At(t))) == Done(end)
    ensures h in end && end[h].now == fs[h].pending.value && end[h].pending.None?
  {
    var gs := fs[k := Requested(fs[k], t)];
    assert h in Ready(Lbts(add, gs), gs);
    DrainAndCascadeAt(add, gs, h);
  }

  /** Who resigns is gone, nobody else notices, and the bound is that of the regulators who stay. */
  lemma ResignedUnbinds(add: Addition, fs: Federates, gs: Federates, h: Handle)
    requires h in fs && gs == Step(add, fs, Resign(h))
    ensures gs.Keys == fs.Keys - {h} && forall k :: k in gs ==> gs[k] == fs[k]
    ensures var b := Lbts(add, gs);
      || (b.PosInf? && forall k :: k in fs && k != h && fs[k].regulating ==> Contribution(add, fs[k]).PosInf?)
      || (&& (exists k :: k in fs && k != h && fs[k].regulating && b == Contribution(add, fs[k]))
          && (forall k :: k in fs && k != h && fs[k].regulating ==> Leq(b, Contribution(add, fs[k]))))
  {
    assert gs == fs - {h};
    var b := Lbts(add, gs);
    if !b.PosInf? {
      var k :| k in gs && gs[k].regulating && b == Contribution(add, gs[k]);
      assert k in fs && k != h && b == Contribution(add, fs[k]);
    }
    assert forall k :: k in fs && k != h ==> k in gs && gs[k] == fs[k];
  }

  // ---------------------------------------------------------------- clocks and announcements

  /** A federate's time is what it was granted last, or zero before its first grant. */
  ghost predicate Clocked(f: Federate) {
    f.now == var ts := Grants(f.sent); if ts == [] then 0.0 else ts[|ts| - 1]
  }

  ghost predicate AllClocked(fs: Federates) {
    forall h :: h in fs ==> Clocked(fs[h])
  }

  lemma GrantedClocked(f: Federate)
    requires f.pending.Some?
    ensures Clocked(Granted(f))
  {
    OneMoreCallback(f.sent, TimeAdvanceGrant(f.pending.value, |f.routed|));
  }

  lemma DrainedClocked(f: Federate, t: real)
    requires Clocked(f)
    ensures Clocked(Drained(f, t))
  {
    DrainedSends(f, t);
  }

  lemma ToldClocked(f: Federate, c: Callback)
    requires Clocked(f) && !c.TimeAdvanceGrant?
    ensures Clocked(f.(sent := f.sent + [c]))
  {
    OneMoreCallback(f.sent, c);
  }

  lemma CascadeClocked(add: Addition, fs: Federates)
    requires AllClocked(fs)
    ensures AllClocked(Cascade(add, fs))
  {
    CascadeGrants(add, fs);
    forall h | h in fs && fs[h].pending.Some?
      ensures Clocked(Granted(fs[h]))
    {
      GrantedClocked(fs[h]);
    }
  }

  lemma RequestedClocked(f: Federate, t: real)
    requires Clocked(f)
    ensures Clocked(Requested(f, t))
  {
    if !f.constrained {
      GrantedClocked(Drained(f.(pending := Some(t), asked := f.asked + [t]), t));
    }
  }

  lemma AdvanceClocked(add: Addition, fs: Federates, h: Handle, t: real)
    requires AllClocked(fs) && h in fs
    ensures AllClocked(DrainAndCascade(add, fs[h := Requested(fs[h], t)]))
  {
    var gs := fs[h := Requested(fs[h], t)];
    RequestedClocked(fs[h], t);
    var ready := Ready(Lbts(add, gs), gs);
    forall k | k in gs && gs[k].pending.Some?
      ensures Clocked(Drained(gs[k], gs[k].pending.value))
    {
      DrainedClocked(gs[k], gs[k].pending.value);
    }
    CascadeClocked(add, DrainAll(gs, ready));
  }

  lemma PlainClocked(add: Addition, fs: Federates, gs: Federates, e: Event)
    requires AllClocked(fs) && IsPlain(e) && gs == Step(add, fs, e)
    ensures AllClocked(gs)
  {
    forall c | c in gs
      ensures Clocked(gs[c])
    {
      PlainAt(add, fs, gs, e, c);
      if c in fs {
        ToldClocked(fs[c], TimeConstrainedEnabled(fs[c].now));
      }
    }
  }

  lemma SendClocked(add: Addition, fs: Federates, gs: Federates, e: Event)
    requires AllClocked(fs) && IsSend(e) && Dispatch(add, fs, e).Done? && gs == Step(add, fs, e)
    ensures AllClocked(gs)
  {
    SendAt(add, fs, gs, e);
    forall c | c in fs
      ensures Clocked(Received(fs[c], MessageSent(fs, e)))
    {
      ToldClocked(fs[c], Timed(MessageSent(fs, e)));
    }
  }

  lemma RegulatingClocked(fs: Federates, h: Handle, l: Interval)
    requires AllClocked(fs) && h in fs
    ensures AllClocked(Regulating(fs, h, l))
  {
    ToldClocked(fs[h].(regulating := true, lookahead := l), TimeRegulationEnabled(fs[h].now));
  }

  lemma StepClocked(add: Addition, fs: Federates, e: Event)
    requires AllClocked(fs)
    ensures AllClocked(Step(add, fs, e))
  {
    if IsPlain(e) {
      PlainClocked(add, fs, Step(add, fs, e), e);
    } else if Dispatch(add, fs, e).Done? {
      match e
      case EnableRegulationCall(h, l) =>
        RegulatingClocked(fs, h, l.value.t);
        CascadeClocked(add, Regulating(fs, h, l.value.t));
      case DisableRegulationCall(h) => CascadeClocked(add, fs[h := fs[h].(regulating := false)]);
      case AdvanceRequestCall(h, t) => AdvanceClocked(add, fs, h, t.value.t);
      case _ => SendClocked(add, fs, Step(add, fs, e), e);
    }
  }

  /** Over every run: everyone's time is what was granted last. */
  lemma {:induction false} RunClocked(add: Addition, es: seq<Event>)
    ensures AllClocked(Run(add, map[], es))
  {
    if es == [] {
    } else {
      RunClocked(add, es[..|es| - 1]);
      StepClocked(add, Run(add, map[], es[..|es| - 1]), es[|es| - 1]);
    }
  }

  /** Taking a role is announced to the caller with its time, ahead of any grant that follows. */
  lemma RoleAnnounced(add: Addition, fs: Federates, gs: Federates, e: Event)
    requires AllWellTimed(fs) && (e.EnableRegulationCall? || e.EnableConstrainedCall?)
    requires Dispatch(add, fs, e) == Done(gs)
    ensures e.h in fs && e.h in gs
    ensures var f, n := fs[e.h], |fs[e.h].sent|;
      && n < |gs[e.h].sent| && gs[e.h].sent[..n] == f.sent
      && gs[e.h].sent[n] ==
           if e.EnableRegulationCall? then TimeRegulationEnabled(f.now) else TimeConstrainedEnabled(f.now)
  {
    if e.EnableRegulationCall? {
      CascadeAt(add, Regulating(fs, e.h, e.lookahead.value.t), e.h);
    }
  }
}
