/**
 What every run keeps, whatever the federates do: requests are answered in order and once, time
 never runs backwards, queues stay sorted, and no timed message is lost or duplicated.
 */
module History {
  import opened Options
  import opened LogicalTime
  import opened TimeModel
  import opened Cascades
  import opened Safety

  /** The elements of `xs` that `p` picks out, in order. */
  function Project<S, T>(p: S -> Option<T>, xs: seq<S>): seq<T> {
    if xs == [] then []
    else
      var last := p(xs[|xs| - 1]);
      Project(p, xs[..|xs| - 1]) + (if last.Some? then [last.value] else [])
  }

  lemma {:induction false} ProjectAppend<S, T>(p: S -> Option<T>, xs: seq<S>, ys: seq<S>)
    ensures Project(p, xs + ys) == Project(p, xs) + Project(p, ys)
  {
    if ys == [] {
      assert xs + ys == xs;
    } else {
      var init := ys[..|ys| - 1];
      ProjectAppend(p, xs, init);
      assert (xs + ys)[..|xs + ys| - 1] == xs + init;
    }
  }

  function GrantOf(c: Callback): Option<real> {
    if c.TimeAdvanceGrant? then Some(c.at) else None
  }

  function MessageOf(c: Callback): Option<TsoMessage> {
    if c.Timed? then Some(c.message) else None
  }

  function Grants(cs: seq<Callback>): seq<real> {
    Project(GrantOf, cs)
  }

  function Messages(cs: seq<Callback>): seq<TsoMessage> {
    Project(MessageOf, cs)
  }

  lemma {:induction false} DeliveriesProject(ms: seq<TsoMessage>)
    ensures Grants(Deliveries(ms)) == []
    ensures Messages(Deliveries(ms)) == ms
  {
    if ms == [] {
    } else {
      var init := ms[..|ms| - 1];
      DeliveriesProject(init);
      assert Deliveries(ms)[..|ms| - 1] == Deliveries(init);
    }
  }

  // ---------------------------------------------------------------- queues

  ghost predicate Sorted(q: seq<TsoMessage>) {
    && (forall i :: 0 <= i < |q| ==> !q[i].stamp.NaN?)
    && (forall i, j :: 0 <= i < j < |q| ==> Leq(q[i].stamp, q[j].stamp))
  }

  /** In a sorted queue the cut falls exactly between the messages due by `b` and the rest. */
  lemma CutIsExact(q: seq<TsoMessage>, b: Stamp)
    requires Sorted(q) && !b.NaN?
    ensures forall i :: 0 <= i < |q| ==> (i < PartitionPoint(q, b) <==> Leq(q[i].stamp, b))
  {
    var n := PartitionPoint(q, b);
    if n < |q| {
      assert forall i :: n < i < |q| ==> Leq(q[n].stamp, q[i].stamp);
    }
  }

  lemma InsertSorted(q: seq<TsoMessage>, m: TsoMessage)
    requires Sorted(q) && !m.stamp.NaN?
    ensures Sorted(Insert(q, m))
    ensures multiset(Insert(q, m)) == multiset(q) + multiset{m}
  {
    CutIsExact(q, m.stamp);
    var n := PartitionPoint(q, m.stamp);
    SortedAround(q[..n], m, q[n..]);
    assert q == q[..n] + q[n..];
  }

  lemma SortedAround(before: seq<TsoMessage>, m: TsoMessage, after: seq<TsoMessage>)
    requires Sorted(before) && Sorted(after) && !m.stamp.NaN?
    requires forall i :: 0 <= i < |before| ==> Leq(before[i].stamp, m.stamp)
    requires forall i :: 0 <= i < |after| ==> Leq(m.stamp, after[i].stamp)
    ensures Sorted(before + [m] + after)
  {
    var q := before + [m] + after;
    forall i, j | 0 <= i < j < |q|
      ensures Leq(q[i].stamp, q[j].stamp)
    {
      if i < |before| {
        assert Leq(q[i].stamp, m.stamp);
      }
      if j > |before| {
        assert q[j] == after[j - |before| - 1];
      }
    }
  }

  // ---------------------------------------------------------------- per-federate invariant

  /** Grants never go back, and the last one is the current time or earlier. */
  ghost predicate RisingTo(ts: seq<real>, now: real) {
    && (forall i, j :: 0 <= i < j < |ts| ==> ts[i] <= ts[j])
    && (forall i :: 0 <= i < |ts| ==> ts[i] <= now)
  }

  function Outstanding(p: Option<real>): seq<real> {
    if p.Some? then [p.value] else []
  }

  /** Requests are grants followed by at most one pending request, and grants rise. */
  ghost predicate Answered(f: Federate) {
    && WellTimed(f)
    && f.asked == Grants(f.sent) + Outstanding(f.pending)
    && RisingTo(Grants(f.sent), f.now)
  }

  /** What was routed is what was delivered plus what is queued, and the queue is sorted. */
  ghost predicate Conserved(f: Federate) {
    && Sorted(f.queue)
    && multiset(f.routed) == multiset(Messages(f.sent)) + multiset(f.queue)
  }

  ghost predicate Kept(f: Federate) {
    Answered(f) && Conserved(f)
  }

  ghost predicate AllKept(fs: Federates) {
    forall h :: h in fs ==> Kept(fs[h])
  }

  lemma OneMoreCallback(cs: seq<Callback>, c: Callback)
    ensures c.TimeAdvanceGrant? ==> Grants(cs + [c]) == Grants(cs) + [c.at]
    ensures !c.TimeAdvanceGrant? ==> Grants(cs + [c]) == Grants(cs)
    ensures c.Timed? ==> Messages(cs + [c]) == Messages(cs) + [c.message]
    ensures !c.Timed? ==> Messages(cs + [c]) == Messages(cs)
  {
    assert (cs + [c])[..|cs|] == cs;
  }

  lemma GrantedKept(f: Federate)
    requires Kept(f) && f.pending.Some?
    ensures Kept(Granted(f))
  {
    OneMoreCallback(f.sent, TimeAdvanceGrant(f.pending.value, |f.routed|));
    RisingOneMore(Grants(f.sent), f.now, f.pending.value);
  }

  lemma RisingOneMore(ts: seq<real>, now: real, t: real)
    requires RisingTo(ts, now) && now <= t
    ensures RisingTo(ts + [t], t)
  {
  }

  lemma DrainedSends(f: Federate, t: real)
    ensures Grants(Drained(f, t).sent) == Grants(f.sent)
    ensures Messages(Drained(f, t).sent) == Messages(f.sent) + f.queue[..PartitionPoint(f.queue, At(t))]
  {
    var due := f.queue[..PartitionPoint(f.queue, At(t))];
    ProjectAppend(GrantOf, f.sent, Deliveries(due));
    ProjectAppend(MessageOf, f.sent, Deliveries(due));
    DeliveriesProject(due);
  }

  lemma DrainedKept(f: Federate, t: real)
    requires Kept(f)
    ensures Kept(Drained(f, t))
  {
    DrainedSends(f, t);
    var n := PartitionPoint(f.queue, At(t));
    assert f.queue == f.queue[..n] + f.queue[n..];
  }

  lemma ReceivedKept(f: Federate, m: TsoMessage)
    requires Kept(f)
    ensures Kept(Received(f, m))
  {
    OneMoreCallback(f.sent, Timed(m));
    if Holds(f, m.stamp) {
      InsertSorted(f.queue, m);
    }
  }

  lemma AnnounceKept(f: Federate, c: Callback)
    requires Kept(f) && !c.TimeAdvanceGrant? && !c.Timed?
    ensures Kept(Announce(f, c))
  {
    OneMoreCallback(f.sent, c);
  }

  lemma RequestedKept(f: Federate, t: real)
    requires Kept(f) && f.pending.None? && f.now <= t
    ensures Kept(Requested(f, t))
  {
    var g := f.(pending := Some(t), asked := f.asked + [t]);
    assert Kept(g);
    DrainedKept(g, t);
    GrantedKept(Drained(g, t));
  }

  // ---------------------------------------------------------------- every handler, every run

  lemma CascadeKept(add: Addition, fs: Federates)
    requires AllKept(fs)
    ensures AllKept(Cascade(add, fs))
  {
    forall h | h in fs
      ensures Kept(Cascade(add, fs)[h])
    {
      CascadeAt(add, fs, h);
      if h in GrantedBy(add, fs) {
        GrantedKept(fs[h]);
      }
    }
  }

  lemma DrainAllKept(fs: Federates, hs: set<Handle>)
    requires AllKept(fs)
    ensures AllKept(DrainAll(fs, hs))
  {
    forall h | h in fs && fs[h].pending.Some?
      ensures Kept(Drained(fs[h], fs[h].pending.value))
    {
      DrainedKept(fs[h], fs[h].pending.value);
    }
  }

  lemma RouteKept(fs: Federates, to: set<Handle>, m: TsoMessage)
    requires AllKept(fs)
    ensures AllKept(Route(fs, to, m))
  {
    forall h | h in fs
      ensures Kept(Received(fs[h], m))
    {
      ReceivedKept(fs[h], m);
    }
  }

  lemma UpdateKept(fs: Federates, h: Handle, f: Federate)
    requires AllKept(fs) && Kept(f)
    ensures AllKept(fs[h := f])
  {
  }

  lemma RolesKept(f: Federate, l: Interval, regulating: bool, constrained: bool)
    requires Kept(f)
    ensures Kept(f.(lookahead := l, regulating := regulating, constrained := constrained))
  {
  }

  lemma RegulatingKept(add: Addition, fs: Federates, h: Handle, l: Interval)
    requires AllKept(fs) && h in fs
    ensures AllKept(Cascade(add, Regulating(fs, h, l)))
  {
    var f := fs[h].(regulating := true, lookahead := l);
    RolesKept(fs[h], l, true, fs[h].constrained);
    AnnounceKept(f, TimeRegulationEnabled(f.now));
    UpdateKept(fs, h, Announce(f, TimeRegulationEnabled(f.now)));
    CascadeKept(add, Regulating(fs, h, l));
  }

  lemma NotRegulatingKept(add: Addition, fs: Federates, h: Handle)
    requires AllKept(fs) && h in fs
    ensures AllKept(Cascade(add, fs[h := fs[h].(regulating := false)]))
  {
    var f := fs[h].(regulating := false);
    RolesKept(fs[h], f.lookahead, false, f.constrained);
    UpdateKept(fs, h, f);
    CascadeKept(add, fs[h := f]);
  }

  lemma ConstrainedKept(fs: Federates, h: Handle)
    requires AllKept(fs)
    ensures EnableConstrained(fs, h).Done? ==> AllKept(EnableConstrained(fs, h).fs)
    ensures DisableConstrained(fs, h).Done? ==> AllKept(DisableConstrained(fs, h).fs)
  {
    if h in fs {
      var f := fs[h].(constrained := true);
      RolesKept(fs[h], f.lookahead, f.regulating, true);
      AnnounceKept(f, TimeConstrainedEnabled(f.now));
      UpdateKept(fs, h, Announce(f, TimeConstrainedEnabled(f.now)));
      RolesKept(fs[h], fs[h].lookahead, fs[h].regulating, false);
      UpdateKept(fs, h, fs[h].(constrained := false));
    }
  }

  lemma LookaheadKept(fs: Federates, h: Handle, l: Interval)
    requires AllKept(fs) && h in fs
    ensures AllKept(fs[h := fs[h].(lookahead := l)])
  {
    RolesKept(fs[h], l, fs[h].regulating, fs[h].constrained);
    UpdateKept(fs, h, fs[h].(lookahead := l));
  }

  lemma AdvanceKept(add: Addition, fs: Federates, h: Handle, t: real)
    requires AllKept(fs) && h in fs && fs[h].pending.None? && fs[h].now <= t
    ensures AllKept(DrainAndCascade(add, fs[h := Requested(fs[h], t)]))
  {
    RequestedKept(fs[h], t);
    var gs := fs[h := Requested(fs[h], t)];
    UpdateKept(fs, h, gs[h]);
    DrainAllKept(gs, Ready(Lbts(add, gs), gs));
    CascadeKept(add, DrainAll(gs, Ready(Lbts(add, gs), gs)));
  }

  /** Every handler keeps the invariant. */
  lemma StepKept(add: Addition, fs: Federates, e: Event)
    requires AllKept(fs)
    ensures AllKept(Step(add, fs, e))
  {
    if Dispatch(add, fs, e).Done? {
      match e
      case Join(h) => UpdateKept(fs, h, JOINING);
      case Resign(h) =>
      case EnableRegulationCall(h, l) => RegulatingKept(add, fs, h, l.value.t);
      case DisableRegulationCall(h) => NotRegulatingKept(add, fs, h);
      case EnableConstrainedCall(h) => ConstrainedKept(fs, h);
      case DisableConstrainedCall(h) => ConstrainedKept(fs, h);
      case ModifyLookaheadCall(h, l) => LookaheadKept(fs, h, l.value.t);
      case AdvanceRequestCall(h, t) => AdvanceKept(add, fs, h, t.value.t);
      case TimedUpdateCall(h, to, t, p) =>
        RouteKept(fs, to - {h}, TsoMessage(t.value, Body(h, h in fs && fs[h].regulating, p)));
      case TimedSendCall(h, to, t, p) =>
        RouteKept(fs, to - {h}, TsoMessage(t.value, Body(h, false, p)));
    }
  }

  /** No handler takes a federate back in time. */
  lemma StepForward(add: Addition, fs: Federates, e: Event, h: Handle)
    requires AllWellTimed(fs)
    requires h in fs && h in Step(add, fs, e)
    ensures fs[h].now <= Step(add, fs, e)[h].now
  {
    if IsPlain(e) {
      PlainAt(add, fs, Step(add, fs, e), e, h);
    } else if Dispatch(add, fs, e).Done? {
      match e
      case EnableRegulationCall(k, l) => CascadeAt(add, Regulating(fs, k, l.value.t), h);
      case DisableRegulationCall(k) => CascadeAt(add, fs[k := fs[k].(regulating := false)], h);
      case AdvanceRequestCall(k, t) => AdvanceForward(add, fs, k, t.value.t, h);
      case _ => SendAt(add, fs, Step(add, fs, e), e);
    }
  }

  lemma AdvanceForward(add: Addition, fs: Federates, k: Handle, t: real, h: Handle)
    requires AllWellTimed(fs) && h in fs && k in fs && fs[k].now <= t
    ensures var gs := DrainAndCascade(add, fs[k := Requested(fs[k], t)]); h in gs && fs[h].now <= gs[h].now
  {
    var gs := fs[k := Requested(fs[k], t)];
    assert AllWellTimed(gs) && fs[h].now <= gs[h].now;
    DrainKeeps(add, gs, Ready(Lbts(add, gs), gs));
    CascadeAt(add, DrainAll(gs, Ready(Lbts(add, gs), gs)), h);
  }

  /** Every run keeps the invariant; in particular every run from the empty federation does. */
  lemma {:induction false} RunKept(add: Addition, fs: Federates, es: seq<Event>)
    requires AllKept(fs)
    ensures AllKept(Run(add, fs, es))
  {
    if es == [] {
    } else {
      RunKept(add, fs, es[..|es| - 1]);
      StepKept(add, Run(add, fs, es[..|es| - 1]), es[|es| - 1]);
    }
  }
}
