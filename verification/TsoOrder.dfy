/**
 Timestamp order at a constrained federate: over whole runs its grants and the checked messages
 delivered to it come in time order, each grant comes after every message routed so far that is due
 by it, and messages with equal stamps keep their order of arrival.
 */
module TsoOrder {
  import opened Options
  import opened LogicalTime
  import opened TimeModel
  import opened Cascades
  import opened Safety
  import opened History
  import opened Arrivals

  /** The time a callback speaks of, for grants and for messages that passed the lookahead test. */
  function TimeOf(c: Callback): Option<Stamp> {
    if c.TimeAdvanceGrant? then Some(At(c.at))
    else if c.Timed? && c.message.body.checked then Some(c.message.stamp)
    else None
  }

  function Times(cs: seq<Callback>): seq<Stamp> {
    Project(TimeOf, cs)
  }

  /** No entry lies before an earlier one, and none lies beyond `now`. */
  ghost predicate InOrderUpTo(ts: seq<Stamp>, now: real) {
    && (forall i, j :: 0 <= i < j < |ts| ==> !Less(ts[j], ts[i]))
    && (forall i :: 0 <= i < |ts| ==> !Less(At(now), ts[i]))
  }

  /** Nothing in the queue is due: every queued message lies strictly ahead. */
  ghost predicate NoneOverdue(f: Federate) {
    forall i :: 0 <= i < |f.queue| ==> Less(At(f.now), f.queue[i].stamp)
  }

  /** Among messages of equal stamp, delivery (and then the queue) follows arrival. */
  ghost predicate ArrivalOrder(f: Federate) {
    forall s :: WithStamp(Messages(f.sent) + f.queue, s) == WithStamp(f.routed, s)
  }

  ghost predicate Ordered(f: Federate) {
    && InOrderUpTo(Times(f.sent), f.now)
    && NoneOverdue(f)
    && ArrivalOrder(f)
    && GrantsAfterDue(f.sent, f.routed)
  }

  // ---------------------------------------------------------------- receiving

  lemma ReceivedOverdue(f: Federate, m: TsoMessage)
    requires NoneOverdue(f)
    ensures NoneOverdue(Received(f, m))
  {
    var q := Insert(f.queue, m);
    var n := PartitionPoint(f.queue, m.stamp);
    if Holds(f, m.stamp) {
      assert q == f.queue[..n] + [m] + f.queue[n..];
      forall i | 0 <= i < |q|
        ensures q[i] == m || q[i] in f.queue
      {
        if i > n {
          assert q[i] == f.queue[i - 1];
        }
      }
    }
  }

  lemma HeldOrdered(f: Federate, m: TsoMessage)
    requires Kept(f) && Ordered(f) && Holds(f, m.stamp)
    ensures Ordered(Received(f, m))
  {
    ReceivedOverdue(f, m);
    forall s
      ensures WithStamp(Messages(f.sent) + Insert(f.queue, m), s) == WithStamp(f.routed + [m], s)
    {
      InsertArrival(f.queue, m, s);
      HeldArrival(Messages(f.sent), f.queue, Insert(f.queue, m), f.routed, m, s);
    }
    MoreRouted(f.sent, f.routed, m);
  }

  lemma TimesOne(cs: seq<Callback>, c: Callback)
    ensures TimeOf(c).Some? ==> Times(cs + [c]) == Times(cs) + [TimeOf(c).value]
    ensures TimeOf(c).None? ==> Times(cs + [c]) == Times(cs)
  {
    assert (cs + [c])[..|cs|] == cs;
  }

  lemma ImmediateArrival(f: Federate, m: TsoMessage)
    requires NoneOverdue(f) && ArrivalOrder(f) && !Less(At(f.now), m.stamp)
    ensures ArrivalOrder(f.(sent := f.sent + [Timed(m)], routed := f.routed + [m]))
  {
    OneMoreCallback(f.sent, Timed(m));
    forall s
      ensures WithStamp(Messages(f.sent) + [m] + f.queue, s) == WithStamp(f.routed + [m], s)
    {
      OvertakesOthersOnly(Messages(f.sent), f.queue, f.routed, m, s);
    }
  }

  lemma ImmediateOrdered(f: Federate, m: TsoMessage)
    requires Ordered(f) && f.constrained && !Holds(f, m.stamp)
    requires m.body.checked ==> !Less(m.stamp, At(f.now))
    ensures Ordered(Received(f, m))
  {
    TimesOne(f.sent, Timed(m));
    ImmediateArrival(f, m);
    MoreRouted(f.sent, f.routed, m);
    OneMoreSent(f.sent, f.routed + [m], Timed(m));
  }

  // ---------------------------------------------------------------- draining and granting

  /** The pending advance would not pass a queued message. */
  ghost predicate NothingDue(f: Federate)
    requires f.pending.Some?
  {
    PartitionPoint(f.queue, At(f.pending.value)) == 0
  }

  /** A grant without a drain leaves nothing overdue exactly when nothing was due. */
  lemma UndrainedGrant(f: Federate)
    requires Sorted(f.queue) && f.pending.Some?
    ensures NoneOverdue(Granted(f)) <==> NothingDue(f)
    ensures NothingDue(f) ==> Drained(f, f.pending.value) == f
  {
    CutIsExact(f.queue, At(f.pending.value));
  }

  lemma InOrderSnoc(ts: seq<Stamp>, x: Stamp, hi: real)
    requires InOrderUpTo(ts, hi) && !Less(At(hi), x)
    requires forall i :: 0 <= i < |ts| ==> !Less(x, ts[i])
    ensures InOrderUpTo(ts + [x], hi)
  {
  }

  /** All entries lie from `lo` to `hi`. */
  ghost predicate Between(ts: seq<Stamp>, lo: Stamp, hi: Stamp) {
    forall i :: 0 <= i < |ts| ==> !Less(ts[i], lo) && !Less(hi, ts[i])
  }

  lemma {:induction false} TimesBetween(ms: seq<TsoMessage>, lo: Stamp, hi: Stamp)
    requires !lo.NaN? && !hi.NaN?
    requires forall i :: 0 <= i < |ms| ==> Leq(lo, ms[i].stamp) && Leq(ms[i].stamp, hi)
    ensures Between(Times(Deliveries(ms)), lo, hi)
  {
    if ms == [] {
    } else {
      var init, m := ms[..|ms| - 1], ms[|ms| - 1];
      TimesBetween(init, lo, hi);
      assert Deliveries(ms) == Deliveries(init) + [Timed(m)];
      TimesOne(Deliveries(init), Timed(m));
    }
  }

  lemma {:induction false} TimesOfDeliveries(ms: seq<TsoMessage>, hi: real)
    requires Sorted(ms)
    requires forall i :: 0 <= i < |ms| ==> Leq(ms[i].stamp, At(hi))
    ensures InOrderUpTo(Times(Deliveries(ms)), hi)
  {
    if ms == [] {
    } else {
      var init, m := ms[..|ms| - 1], ms[|ms| - 1];
      TimesOfDeliveries(init, hi);
      assert Deliveries(ms) == Deliveries(init) + [Timed(m)];
      TimesOne(Deliveries(init), Timed(m));
      assert forall i :: 0 <= i < |init| ==> Leq(NegInf, init[i].stamp) && Leq(init[i].stamp, m.stamp);
      TimesBetween(init, NegInf, m.stamp);
      InOrderSnoc(Times(Deliveries(init)), m.stamp, hi);
    }
  }

  lemma InOrderConcat(old_: seq<Stamp>, new_: seq<Stamp>, lo: real, hi: real)
    requires lo <= hi && InOrderUpTo(old_, lo) && InOrderUpTo(new_, hi)
    requires forall i :: 0 <= i < |new_| ==> !Less(new_[i], At(lo))
    ensures InOrderUpTo(old_ + new_ + [At(hi)], hi)
  {
  }

  lemma DrainGrantTimes(f: Federate)
    requires Kept(f) && InOrderUpTo(Times(f.sent), f.now) && NoneOverdue(f) && f.pending.Some?
    ensures InOrderUpTo(Times(Granted(Drained(f, f.pending.value)).sent), f.pending.value)
  {
    var t := f.pending.value;
    var due := f.queue[..PartitionPoint(f.queue, At(t))];
    TimesOfDeliveries(due, t);
    TimesBetween(due, At(f.now), At(t));
    ProjectAppend(TimeOf, f.sent, Deliveries(due));
    TimesOne(f.sent + Deliveries(due), TimeAdvanceGrant(t, |f.routed|));
    InOrderConcat(Times(f.sent), Times(Deliveries(due)), f.now, t);
  }

  lemma DrainGrantMessages(f: Federate)
    requires f.pending.Some?
    ensures var g := Granted(Drained(f, f.pending.value));
      Messages(g.sent) + g.queue == Messages(f.sent) + f.queue
  {
    var t := f.pending.value;
    var n := PartitionPoint(f.queue, At(t));
    DrainedSends(f, t);
    OneMoreCallback(Drained(f, t).sent, TimeAdvanceGrant(t, |f.routed|));
    Rejoined(Messages(f.sent), f.queue, n);
  }

  lemma Rejoined(a: seq<TsoMessage>, q: seq<TsoMessage>, n: nat)
    requires n <= |q|
    ensures (a + q[..n]) + q[n..] == a + q
  {
  }

  /** Drain, then grant: everything due goes out first, in order, and nothing is left overdue. */
  lemma DrainGrantOrdered(f: Federate)
    requires Kept(f) && Ordered(f) && f.pending.Some?
    ensures Ordered(Granted(Drained(f, f.pending.value)))
  {
    DrainGrantTimes(f);
    DrainGrantMessages(f);
    CutIsExact(f.queue, At(f.pending.value));
    DrainGrantAfterDue(f);
  }

  /** After the drain, what was routed with a stamp up to the grant's time has been delivered. */
  lemma DrainedDelivered(f: Federate, t: real, s: Stamp)
    requires Sorted(f.queue) && ArrivalOrder(f) && Leq(s, At(t))
    ensures WithStamp(Messages(Drained(f, t).sent), s) == WithStamp(f.routed, s)
  {
    var n := PartitionPoint(f.queue, At(t));
    CutIsExact(f.queue, At(t));
    DrainedSends(f, t);
    Rejoined(Messages(f.sent), f.queue, n);
    WithStampAppend(Messages(f.sent) + f.queue[..n], f.queue[n..], s);
    forall i | 0 <= i < |f.queue[n..]|
      ensures f.queue[n..][i].stamp != s
    {
      assert !Leq(f.queue[n + i].stamp, At(t));
    }
    WithStampNone(f.queue[n..], s);
  }

  lemma DrainGrantAfterDue(f: Federate)
    requires Sorted(f.queue) && ArrivalOrder(f) && GrantsAfterDue(f.sent, f.routed) && f.pending.Some?
    ensures GrantsAfterDue(Granted(Drained(f, f.pending.value)).sent, f.routed)
  {
    var t := f.pending.value;
    MoreDelivered(f.sent, f.routed, f.queue[..PartitionPoint(f.queue, At(t))]);
    forall s | Leq(s, At(t))
      ensures WithStamp(Messages(Drained(f, t).sent), s) == WithStamp(f.routed[..|f.routed|], s)
    {
      DrainedDelivered(f, t, s);
      assert f.routed[..|f.routed|] == f.routed;
    }
    OneMoreSent(Drained(f, t).sent, f.routed, TimeAdvanceGrant(t, |f.routed|));
  }

  lemma UndrainedGrantOrdered(f: Federate)
    requires Kept(f) && Ordered(f) && f.pending.Some? && NothingDue(f)
    ensures Ordered(Granted(f))
  {
    UndrainedGrant(f);
    DrainGrantOrdered(f);
  }

  lemma AnnounceOrdered(f: Federate, c: Callback)
    requires Ordered(f) && !c.TimeAdvanceGrant? && !c.Timed?
    ensures Ordered(Announce(f, c))
  {
    TimesOne(f.sent, c);
    OneMoreCallback(f.sent, c);
    OneMoreSent(f.sent, f.routed, c);
  }

  // ---------------------------------------------------------------- every handler

  /** The federates granted in a later round of the cascade, for which nothing was drained. */
  ghost function LateGrants(add: Addition, fs: Federates): set<Handle> {
    var ready := Ready(Lbts(add, fs), fs);
    GrantedBy(add, DrainAll(fs, ready)) - ready
  }

  /** The exact condition under which handling `e` leaves `c` with nothing overdue: a grant that
      no drain precedes must not pass a queued message. */
  ghost predicate KeepsOrder(add: Addition, fs: Federates, e: Event, c: Handle)
    requires c in fs
  {
    Dispatch(add, fs, e).Done? ==>
      match e
      case EnableRegulationCall(h, l) =>
        c in GrantedBy(add, Regulating(fs, h, l.value.t)) ==> NothingDue(fs[c])
      case DisableRegulationCall(h) =>
        c in GrantedBy(add, fs[h := fs[h].(regulating := false)]) ==> NothingDue(fs[c])
      case AdvanceRequestCall(h, t) =>
        var gs := fs[h := Requested(fs[h], t.value.t)];
        c in LateGrants(add, gs) ==> NothingDue(gs[c])
      case _ => true
  }

  /** What the grant wrapper does to one federate. */
  lemma DrainAndCascadeAt(add: Addition, gs: Federates, c: Handle)
    requires AllWellTimed(gs) && c in gs
    ensures DrainAndCascade(add, gs)[c] ==
      if c in Ready(Lbts(add, gs), gs) then Granted(Drained(gs[c], gs[c].pending.value))
      else if c in LateGrants(add, gs) then Granted(gs[c])
      else gs[c]
  {
    var ready := Ready(Lbts(add, gs), gs);
    var ds := DrainAll(gs, ready);
    DrainKeeps(add, gs, ready);
    CascadeAt(add, ds, c);
    CascadeGrants(add, ds);
    if c in ready {
      assert c in Ready(Lbts(add, ds), ds);
    }
  }

  /** Order depends only on the clock, the queue and the histories. */
  lemma SameOrder(f: Federate, g: Federate)
    requires f.now == g.now && f.queue == g.queue && f.sent == g.sent && f.routed == g.routed
    ensures Ordered(f) <==> Ordered(g)
    ensures NoneOverdue(f) <==> NoneOverdue(g)
  {
  }

  lemma DrainAndCascadeOverdue(add: Addition, gs: Federates, c: Handle)
    requires AllWellTimed(gs) && c in gs && Sorted(gs[c].queue) && NoneOverdue(gs[c])
    ensures NoneOverdue(DrainAndCascade(add, gs)[c]) <==> (c in LateGrants(add, gs) ==> NothingDue(gs[c]))
  {
    DrainAndCascadeAt(add, gs, c);
    if c in Ready(Lbts(add, gs), gs) {
      CutIsExact(gs[c].queue, At(gs[c].pending.value));
    } else if c in LateGrants(add, gs) {
      UndrainedGrant(gs[c]);
    }
  }

  lemma DrainAndCascadeOrdered(add: Addition, gs: Federates, c: Handle)
    requires AllWellTimed(gs) && c in gs && Kept(gs[c]) && Ordered(gs[c])
    requires c in LateGrants(add, gs) ==> NothingDue(gs[c])
    ensures Ordered(DrainAndCascade(add, gs)[c])
  {
    DrainAndCascadeAt(add, gs, c);
    if c in Ready(Lbts(add, gs), gs) {
      DrainGrantOrdered(gs[c]);
    } else if c in LateGrants(add, gs) {
      UndrainedGrantOrdered(gs[c]);
    }
  }

  /** Recording the request alone disturbs no constrained federate's order. */
  lemma RequestRecorded(fs: Federates, h: Handle, t: real, c: Handle)
    requires AllKept(fs) && h in fs && fs[h].pending.None? && fs[h].now <= t
    requires c in fs && fs[c].constrained
    ensures var gs := fs[h := Requested(fs[h], t)];
      && AllWellTimed(gs) && Kept(gs[c]) && Sorted(gs[c].queue)
      && (Ordered(fs[c]) <==> Ordered(gs[c]))
      && (NoneOverdue(fs[c]) <==> NoneOverdue(gs[c]))
  {
    var gs := fs[h := Requested(fs[h], t)];
    RequestedKept(fs[h], t);
    SameOrder(fs[c], gs[c]);
  }

  lemma AdvanceOverdue(add: Addition, fs: Federates, h: Handle, t: real, c: Handle)
    requires AllKept(fs) && h in fs && fs[h].pending.None? && fs[h].now <= t
    requires c in fs && fs[c].constrained && NoneOverdue(fs[c])
    ensures var gs := fs[h := Requested(fs[h], t)];
      NoneOverdue(DrainAndCascade(add, gs)[c]) <==> (c in LateGrants(add, gs) ==> NothingDue(gs[c]))
  {
    RequestRecorded(fs, h, t, c);
    DrainAndCascadeOverdue(add, fs[h := Requested(fs[h], t)], c);
  }

  lemma AdvanceOrdered(add: Addition, fs: Federates, h: Handle, t: real, c: Handle)
    requires AllKept(fs) && h in fs && fs[h].pending.None? && fs[h].now <= t
    requires c in fs && fs[c].constrained && Ordered(fs[c])
    requires var gs := fs[h := Requested(fs[h], t)]; c in LateGrants(add, gs) ==> NothingDue(gs[c])
    ensures Ordered(DrainAndCascade(add, fs[h := Requested(fs[h], t)])[c])
  {
    RequestRecorded(fs, h, t, c);
    DrainAndCascadeOrdered(add, fs[h := Requested(fs[h], t)], c);
  }

  lemma CascadeOrdered(add: Addition, fs: Federates, c: Handle)
    requires AllWellTimed(fs) && c in fs && Kept(fs[c]) && NoneOverdue(fs[c])
    ensures NoneOverdue(Cascade(add, fs)[c]) <==> (c in GrantedBy(add, fs) ==> NothingDue(fs[c]))
    ensures Ordered(fs[c]) && (c in GrantedBy(add, fs) ==> NothingDue(fs[c])) ==> Ordered(Cascade(add, fs)[c])
  {
    CascadeAt(add, fs, c);
    if c in GrantedBy(add, fs) {
      UndrainedGrant(fs[c]);
      if Ordered(fs[c]) && NothingDue(fs[c]) {
        UndrainedGrantOrdered(fs[c]);
      }
    }
  }

  lemma EnableRegulationOrdered(add: Addition, fs: Federates, h: Handle, l: Interval, c: Handle)
    requires AllKept(fs) && h in fs && c in fs && NoneOverdue(fs[c])
    ensures var gs := Regulating(fs, h, l);
      && (NoneOverdue(Cascade(add, gs)[c]) <==> (c in GrantedBy(add, gs) ==> NothingDue(fs[c])))
      && (Ordered(fs[c]) && (c in GrantedBy(add, gs) ==> NothingDue(fs[c])) ==> Ordered(Cascade(add, gs)[c]))
  {
    RegulatingAt(fs, h, l, c);
    CascadeOrdered(add, Regulating(fs, h, l), c);
  }

  lemma RegulatedFederate(f: Federate, l: Interval)
    requires Kept(f)
    ensures var g := Announce(f.(regulating := true, lookahead := l), TimeRegulationEnabled(f.now));
      Kept(g) && (Ordered(f) ==> Ordered(g))
  {
    var g := f.(regulating := true, lookahead := l);
    RolesKept(f, l, true, f.constrained);
    AnnounceKept(g, TimeRegulationEnabled(f.now));
    if Ordered(f) {
      SameOrder(f, g);
      AnnounceOrdered(g, TimeRegulationEnabled(f.now));
    }
  }

  /** Switching regulation on disturbs nobody's queue, clock or order. */
  lemma RegulatingAt(fs: Federates, h: Handle, l: Interval, c: Handle)
    requires AllKept(fs) && h in fs && c in fs
    ensures var gs := Regulating(fs, h, l);
      && AllWellTimed(gs) && Kept(gs[c])
      && gs[c].now == fs[c].now && gs[c].queue == fs[c].queue && gs[c].pending == fs[c].pending
      && (Ordered(fs[c]) ==> Ordered(gs[c]))
  {
    RegulatedFederate(fs[h], l);
  }

  lemma RouteOverdue(fs: Federates, to: set<Handle>, m: TsoMessage, c: Handle)
    requires AllKept(fs) && c in fs && fs[c].constrained && NoneOverdue(fs[c])
    ensures NoneOverdue(Route(fs, to, m)[c])
  {
    ReceivedOverdue(fs[c], m);
  }

  lemma RouteOrdered(fs: Federates, to: set<Handle>, m: TsoMessage, c: Handle)
    requires AllKept(fs) && c in fs && fs[c].constrained && Ordered(fs[c])
    requires m.body.checked ==> !Less(m.stamp, At(fs[c].now))
    ensures Ordered(Route(fs, to, m)[c])
  {
    if Holds(fs[c], m.stamp) {
      HeldOrdered(fs[c], m);
    } else {
      ImmediateOrdered(fs[c], m);
    }
  }

  /** In a safe federation no accepted update that passed the lookahead test is late. */
  lemma SendOrdered(add: Addition, fs: Federates, gs: Federates, e: Event, c: Handle)
    requires AllKept(fs) && Safe(add, fs)
    requires c in fs && fs[c].constrained && Ordered(fs[c])
    requires IsSend(e) && Dispatch(add, fs, e).Done? && gs == Step(add, fs, e)
    ensures c in gs && Ordered(gs[c])
  {
    SendAt(add, fs, gs, e);
    RouteOrdered(fs, e.to - {e.h}, MessageSent(fs, e), c);
  }

  /** Every handler: a constrained federate that had nothing overdue has nothing overdue
      afterwards if and only if `KeepsOrder` held before. */
  lemma StepOverdue(add: Addition, fs: Federates, e: Event, c: Handle)
    requires AllKept(fs)
    requires c in fs && fs[c].constrained && NoneOverdue(fs[c])
    requires c in Step(add, fs, e)
    ensures NoneOverdue(Step(add, fs, e)[c]) <==> KeepsOrder(add, fs, e, c)
  {
    if IsPlain(e) {
      PlainAt(add, fs, Step(add, fs, e), e, c);
    } else if Dispatch(add, fs, e).Done? {
      if IsSend(e) {
        SendAt(add, fs, Step(add, fs, e), e);
        RouteOverdue(fs, e.to - {e.h}, MessageSent(fs, e), c);
      } else {
        match e
        case EnableRegulationCall(h, l) => EnableRegulationOrdered(add, fs, h, l.value.t, c);
        case DisableRegulationCall(h) => CascadeOrdered(add, fs[h := fs[h].(regulating := false)], c);
        case AdvanceRequestCall(h, t) => AdvanceOverdue(add, fs, h, t.value.t, c);
      }
    }
  }

  /** In a safe federation, a handler that leaves nothing overdue keeps timestamp order. */
  lemma StepOrdered(add: Addition, fs: Federates, e: Event, c: Handle)
    requires AllKept(fs) && Safe(add, fs)
    requires c in fs && fs[c].constrained && Ordered(fs[c])
    requires c in Step(add, fs, e) && KeepsOrder(add, fs, e, c)
    ensures Ordered(Step(add, fs, e)[c])
  {
    if IsPlain(e) {
      PlainAt(add, fs, Step(add, fs, e), e, c);
      SameOrder(fs[c], Step(add, fs, e)[c]);
    } else if Dispatch(add, fs, e).Done? {
      if IsSend(e) {
        SendOrdered(add, fs, Step(add, fs, e), e, c);
      } else {
        match e
        case EnableRegulationCall(h, l) => EnableRegulationOrdered(add, fs, h, l.value.t, c);
        case DisableRegulationCall(h) => DisableRegulationOrdered(add, fs, h, c);
        case AdvanceRequestCall(h, t) => AdvanceOrdered(add, fs, h, t.value.t, c);
      }
    }
  }

  lemma DisableRegulationOrdered(add: Addition, fs: Federates, h: Handle, c: Handle)
    requires AllKept(fs) && h in fs && c in fs && Ordered(fs[c])
    requires c in GrantedBy(add, fs[h := fs[h].(regulating := false)]) ==> NothingDue(fs[c])
    ensures Ordered(Cascade(add, fs[h := fs[h].(regulating := false)])[c])
  {
    var gs := fs[h := fs[h].(regulating := false)];
    SameOrder(fs[c], gs[c]);
    CascadeOrdered(add, gs, c);
  }

  // ---------------------------------------------------------------- every run

  /** `c` is joined and constrained throughout the run, and every event met the two conditions,
      for safety and for order at `c`, in the state it was handled in. */
  ghost predicate OrderlyRun(add: Addition, fs: Federates, es: seq<Event>, c: Handle) {
    && c in Run(add, fs, es)
    && Run(add, fs, es)[c].constrained
    && (es == [] ||
        (var before, e := es[..|es| - 1], es[|es| - 1];
         && OrderlyRun(add, fs, before, c)
         && KeepsSafe(add, Run(add, fs, before), e)
         && KeepsOrder(add, Run(add, fs, before), e, c)))
  }

  /** At every point of the run `c` is joined and constrained, the federation is safe and `c` has
      been served in order. */
  ghost predicate AlwaysOrdered(add: Addition, fs: Federates, es: seq<Event>, c: Handle) {
    && c in Run(add, fs, es)
    && Run(add, fs, es)[c].constrained
    && Safe(add, Run(add, fs, es))
    && Ordered(Run(add, fs, es)[c])
    && (es == [] || AlwaysOrdered(add, fs, es[..|es| - 1], c))
  }

  /** Whole runs: grants and checked messages reach `c` in time order, nothing stays queued past
      its time, and equal stamps keep their order of arrival, in a federation that stays safe, if
      and only if every event met its two conditions when it came. */
  lemma {:induction false} RunOrdered(add: Addition, fs: Federates, es: seq<Event>, c: Handle)
    requires AllKept(fs) && Safe(add, fs)
    requires c in fs && Ordered(fs[c])
    ensures AlwaysOrdered(add, fs, es, c) <==> OrderlyRun(add, fs, es, c)
  {
    if es == [] {
    } else {
      var before := es[..|es| - 1];
      RunOrdered(add, fs, before, c);
      if OrderlyRun(add, fs, before, c) && c in Run(add, fs, es) {
        RunKept(add, fs, before);
        OneMoreEvent(add, Run(add, fs, before), es[|es| - 1], c);
      }
    }
  }

  lemma OneMoreEvent(add: Addition, fs: Federates, e: Event, c: Handle)
    requires AllKept(fs) && Safe(add, fs)
    requires c in fs && fs[c].constrained && Ordered(fs[c])
    requires c in Step(add, fs, e)
    ensures Safe(add, Step(add, fs, e)) && Ordered(Step(add, fs, e)[c]) <==>
      KeepsSafe(add, fs, e) && KeepsOrder(add, fs, e, c)
  {
    StepSafe(add, fs, e);
    StepOverdue(add, fs, e, c);
    if KeepsOrder(add, fs, e, c) {
      StepOrdered(add, fs, e, c);
    }
  }

  // ---------------------------------------------------------------- fixed, disjoint roles

  /** Nobody is both regulating and constrained, and only constrained federates wait. */
  ghost predicate DisjointRoles(fs: Federates) {
    forall h :: h in fs ==>
      !(fs[h].regulating && fs[h].constrained) && (fs[h].pending.Some? ==> fs[h].constrained)
  }

  /** An event that changes no role and lowers no lookahead. */
  ghost predicate Disciplined(fs: Federates, e: Event) {
    match e
    case Join(_) => true
    case Resign(_) => true
    case AdvanceRequestCall(_, _) => true
    case TimedUpdateCall(_, _, _, _) => true
    case TimedSendCall(_, _, _, _) => true
    case ModifyLookaheadCall(h, l) => h in fs && l.Some? && l.value.At? ==> fs[h].lookahead <= l.value.t
    case _ => false
  }

  /** With disjoint roles a round of grants does not move the bound, so there is no second round. */
  lemma DisjointOneRound(add: Addition, ds: Federates)
    requires DisjointRoles(ds)
    ensures Cascade(add, ds) == GrantAll(ds, Ready(Lbts(add, ds), ds))
    ensures DisjointRoles(Cascade(add, ds))
  {
    var ready := Ready(Lbts(add, ds), ds);
    LbtsSame(add, ds, GrantAll(ds, ready));
    GrantNone(ds);
  }

  lemma DisjointNoLateGrants(add: Addition, gs: Federates)
    requires AllWellTimed(gs) && DisjointRoles(gs)
    ensures LateGrants(add, gs) == {}
    ensures DisjointRoles(DrainAndCascade(add, gs))
  {
    var ready := Ready(Lbts(add, gs), gs);
    var ds := DrainAll(gs, ready);
    DrainKeeps(add, gs, ready);
    DisjointOneRound(add, ds);
    GrantsTell(ds, Ready(Lbts(add, ds), ds));
  }

  lemma DisciplinedStep(add: Addition, fs: Federates, e: Event, c: Handle)
    requires AllWellTimed(fs) && Safe(add, fs) && DisjointRoles(fs) && Disciplined(fs, e)
    requires c in fs
    ensures DisjointRoles(Step(add, fs, e))
    ensures KeepsSafe(add, fs, e)
    ensures KeepsOrder(add, fs, e, c)
    ensures c in Step(add, fs, e) ==> Step(add, fs, e)[c].constrained == fs[c].constrained
  {
    if Dispatch(add, fs, e).Done? {
      match e
      case AdvanceRequestCall(h, t) =>
        var gs := fs[h := Requested(fs[h], t.value.t)];
        DisjointNoLateGrants(add, gs);
        DrainAndCascadeAt(add, gs, c);
      case ModifyLookaheadCall(h, l) => RaisedLookaheadSafe(add, fs, h, l.value.t);
      case _ =>
    }
  }

  ghost predicate DisciplinedRun(add: Addition, fs: Federates, es: seq<Event>) {
    es == [] ||
    (var before := es[..|es| - 1];
     DisciplinedRun(add, fs, before) && Disciplined(Run(add, fs, before), es[|es| - 1]))
  }

  lemma {:induction false} DisciplinedIsOrderly(add: Addition, fs: Federates, es: seq<Event>, c: Handle)
    requires AllKept(fs) && Safe(add, fs) && DisjointRoles(fs)
    requires c in fs && fs[c].constrained && Ordered(fs[c])
    requires DisciplinedRun(add, fs, es) && Resign(c) !in es
    ensures OrderlyRun(add, fs, es, c)
    ensures DisjointRoles(Run(add, fs, es))
  {
    if es == [] {
    } else {
      var before, e := es[..|es| - 1], es[|es| - 1];
      DisciplinedIsOrderly(add, fs, before, c);
      RunOrdered(add, fs, before, c);
      RunKept(add, fs, before);
      StayJoined(add, Run(add, fs, before), e, c);
      DisciplinedStep(add, Run(add, fs, before), e, c);
    }
  }

  /** Fixed, disjoint roles and no lowered lookahead are enough for timestamp order. */
  lemma DisciplinedRunOrdered(add: Addition, fs: Federates, es: seq<Event>, c: Handle)
    requires AllKept(fs) && Safe(add, fs) && DisjointRoles(fs)
    requires c in fs && fs[c].constrained && Ordered(fs[c])
    requires DisciplinedRun(add, fs, es) && Resign(c) !in es
    ensures c in Run(add, fs, es) && Ordered(Run(add, fs, es)[c])
  {
    DisciplinedIsOrderly(add, fs, es, c);
    RunOrdered(add, fs, es, c);
  }

  lemma StayJoined(add: Addition, fs: Federates, e: Event, c: Handle)
    requires c in fs && e != Resign(c)
    ensures c in Step(add, fs, e)
  {
  }

  // ---------------------------------------------------------------- why the condition matters

  lemma {:induction false} DeliveredTimes(ms: seq<TsoMessage>, i: nat)
    requires i < |ms| && ms[i].body.checked
    ensures ms[i].stamp in Times(Deliveries(ms))
  {
    var init, m := ms[..|ms| - 1], ms[|ms| - 1];
    assert Deliveries(ms) == Deliveries(init) + [Timed(m)];
    TimesOne(Deliveries(init), Timed(m));
    if i < |init| {
      DeliveredTimes(init, i);
    }
  }

  /** Once a grant has passed a queued checked message, delivering it breaks time order for good. */
  lemma OverdueBreaksOrder(f: Federate, i: nat, t: real)
    requires Sorted(f.queue) && f.now <= t
    requires i < |f.queue| && f.queue[i].body.checked && Less(f.queue[i].stamp, At(f.now))
    requires At(f.now) in Times(f.sent)
    ensures !InOrderUpTo(Times(Drained(f, t).sent), t)
  {
    var due := f.queue[..PartitionPoint(f.queue, At(t))];
    CutIsExact(f.queue, At(t));
    assert due[i] == f.queue[i];
    DeliveredTimes(due, i);
    ProjectAppend(TimeOf, f.sent, Deliveries(due));
    var a, b := Times(f.sent), Times(Deliveries(due));
    var j :| 0 <= j < |a| && a[j] == At(f.now);
    var k :| 0 <= k < |b| && b[k] == due[i].stamp;
    assert Less((a + b)[|a| + k], (a + b)[j]);
  }
}
