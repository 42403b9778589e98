/**
 Messages by stamp: the order in which messages of one stamp arrive, and what a grant finds already
 delivered.
 */
module Arrivals {
  import opened Options
  import opened LogicalTime
  import opened TimeModel
  import opened Cascades
  import opened Safety
  import opened History
  import opened Sequences

  function Stamped(s: Stamp): TsoMessage -> Option<TsoMessage> {
    (m: TsoMessage) => if m.stamp == s then Some(m) else None
  }

  function WithStamp(ms: seq<TsoMessage>, s: Stamp): seq<TsoMessage> {
    Project(Stamped(s), ms)
  }

  lemma WithStampAppend(a: seq<TsoMessage>, b: seq<TsoMessage>, s: Stamp)
    ensures WithStamp(a + b, s) == WithStamp(a, s) + WithStamp(b, s)
  {
    ProjectAppend(Stamped(s), a, b);
  }

  lemma WithStampOne(m: TsoMessage, s: Stamp)
    ensures WithStamp([m], s) == if m.stamp == s then [m] else []
  {
    assert Project(Stamped(s), [m][..0]) == [];
    assert Stamped(s)(m) == if m.stamp == s then Some(m) else None;
  }

  lemma {:induction false} WithStampNone(ms: seq<TsoMessage>, s: Stamp)
    requires forall i :: 0 <= i < |ms| ==> ms[i].stamp != s
    ensures WithStamp(ms, s) == []
  {
    if ms == [] {
    } else {
      WithStampNone(ms[..|ms| - 1], s);
    }
  }

  /** A message that goes ahead of messages with other stamps only keeps arrival order. */
  lemma OvertakesOthersOnly(delivered: seq<TsoMessage>, queue: seq<TsoMessage>, routed: seq<TsoMessage>,
          m: TsoMessage, s: Stamp)
    requires WithStamp(delivered + queue, s) == WithStamp(routed, s)
    requires forall i :: 0 <= i < |queue| ==> queue[i].stamp != m.stamp
    ensures WithStamp(delivered + [m] + queue, s) == WithStamp(routed + [m], s)
  {
    WithStampAppend(delivered + [m], queue, s);
    WithStampAppend(delivered, [m], s);
    WithStampAppend(delivered, queue, s);
    WithStampAppend(routed, [m], s);
    WithStampOne(m, s);
    if m.stamp == s {
      WithStampNone(queue, s);
    }
  }

  /** Behind the cut there is nothing of that stamp. */
  lemma NoneAfterCut(q: seq<TsoMessage>, s: Stamp)
    requires Sorted(q) && !s.NaN?
    ensures var rest := q[PartitionPoint(q, s)..]; forall i :: 0 <= i < |rest| ==> rest[i].stamp != s
  {
    CutIsExact(q, s);
  }

  /** Inserting into a sorted queue puts a message after all those of its stamp. */
  lemma InsertArrival(q: seq<TsoMessage>, m: TsoMessage, s: Stamp)
    requires Sorted(q) && !m.stamp.NaN?
    ensures WithStamp(Insert(q, m), s) == WithStamp(q + [m], s)
  {
    var n := PartitionPoint(q, m.stamp);
    NoneAfterCut(q, m.stamp);
    assert q == q[..n] + q[n..];
    OvertakesOthersOnly(q[..n], q[n..], q, m, s);
  }

  lemma HeldArrival(delivered: seq<TsoMessage>, q: seq<TsoMessage>, q': seq<TsoMessage>, routed: seq<TsoMessage>,
          m: TsoMessage, s: Stamp)
    requires WithStamp(q', s) == WithStamp(q + [m], s)
    requires WithStamp(delivered + q, s) == WithStamp(routed, s)
    ensures WithStamp(delivered + q', s) == WithStamp(routed + [m], s)
  {
    WithStampAppend(delivered, q', s);
    WithStampAppend(delivered, q, s);
    WithStampAppend(q, [m], s);
    WithStampAppend(routed, [m], s);
    Regrouped(WithStamp(delivered, s), WithStamp(q, s), WithStamp([m], s));
  }

  // ---------------------------------------------------------------- grants after what is due

  /** Every message of `arrived` with a stamp up to `t` has been delivered, in order of arrival per
      stamp and as often as it arrived. */
  ghost predicate DueDelivered(delivered: seq<TsoMessage>, arrived: seq<TsoMessage>, t: real) {
    forall s :: Leq(s, At(t)) ==> WithStamp(delivered, s) == WithStamp(arrived, s)
  }

  /** At each grant, what had been routed until then and was due by it had been delivered before it. */
  ghost predicate GrantsAfterDue(sent: seq<Callback>, routed: seq<TsoMessage>) {
    sent == [] ||
    (var before, c := sent[..|sent| - 1], sent[|sent| - 1];
     && GrantsAfterDue(before, routed)
     && (c.TimeAdvanceGrant? ==> c.after <= |routed| && DueDelivered(Messages(before), routed[..c.after], c.at)))
  }

  lemma OneMoreSent(sent: seq<Callback>, routed: seq<TsoMessage>, c: Callback)
    requires GrantsAfterDue(sent, routed)
    requires c.TimeAdvanceGrant? ==> c.after <= |routed| && DueDelivered(Messages(sent), routed[..c.after], c.at)
    ensures GrantsAfterDue(sent + [c], routed)
  {
    assert (sent + [c])[..|sent|] == sent;
  }

  lemma {:induction false} MoreDelivered(sent: seq<Callback>, routed: seq<TsoMessage>, ms: seq<TsoMessage>)
    requires GrantsAfterDue(sent, routed)
    ensures GrantsAfterDue(sent + Deliveries(ms), routed)
  {
    if ms == [] {
      assert sent + Deliveries(ms) == sent;
    } else {
      var init, m := ms[..|ms| - 1], ms[|ms| - 1];
      MoreDelivered(sent, routed, init);
      OneMoreSent(sent + Deliveries(init), routed, Timed(m));
      assert sent + Deliveries(ms) == sent + Deliveries(init) + [Timed(m)];
    }
  }

  lemma {:induction false} MoreRouted(sent: seq<Callback>, routed: seq<TsoMessage>, m: TsoMessage)
    requires GrantsAfterDue(sent, routed)
    ensures GrantsAfterDue(sent, routed + [m])
  {
    if sent == [] {
    } else {
      var c := sent[|sent| - 1];
      MoreRouted(sent[..|sent| - 1], routed, m);
      if c.TimeAdvanceGrant? {
        assert (routed + [m])[..c.after] == routed[..c.after];
      }
    }
  }

  lemma {:induction false} WithStampHas(ms: seq<TsoMessage>, m: TsoMessage)
    ensures m in WithStamp(ms, m.stamp) <==> m in ms
  {
    if ms == [] {
    } else {
      WithStampHas(ms[..|ms| - 1], m);
      assert ms == ms[..|ms| - 1] + [ms[|ms| - 1]];
    }
  }

  /** Read at one grant: a message routed before it and stamped at most its time, the time itself
      included, is among the deliveries that precede it. */
  lemma {:induction false} DueComesFirst(sent: seq<Callback>, routed: seq<TsoMessage>, i: nat, m: TsoMessage)
    requires GrantsAfterDue(sent, routed)
    requires i < |sent| && sent[i].TimeAdvanceGrant?
    ensures sent[i].after <= |routed|
    ensures m in routed[..sent[i].after] && Leq(m.stamp, At(sent[i].at)) ==> m in Messages(sent[..i])
  {
    var n := |sent| - 1;
    if i < n {
      assert sent[..n][..i] == sent[..i];
      DueComesFirst(sent[..n], routed, i, m);
    } else {
      WithStampHas(routed[..sent[i].after], m);
      WithStampHas(Messages(sent[..i]), m);
    }
  }

  // ---------------------------------------------------------------- queues, in every run

  /** Messages of one stamp wait in the order they came, whatever else has happened. */
  ghost predicate Fifo(f: Federate) {
    forall s :: Subsequence(WithStamp(f.queue, s), WithStamp(f.routed, s))
  }

  lemma FifoDrained(f: Federate, t: real)
    requires Fifo(f)
    ensures Fifo(Drained(f, t))
  {
    var n := PartitionPoint(f.queue, At(t));
    forall s
      ensures Subsequence(WithStamp(f.queue[n..], s), WithStamp(f.routed, s))
    {
      assert f.queue == f.queue[..n] + f.queue[n..];
      WithStampAppend(f.queue[..n], f.queue[n..], s);
      SubsequenceSuffix(WithStamp(f.queue[..n], s), WithStamp(f.queue[n..], s), WithStamp(f.routed, s));
    }
  }

  lemma FifoReceived(f: Federate, m: TsoMessage)
    requires Fifo(f) && Sorted(f.queue)
    ensures Fifo(Received(f, m))
  {
    forall s
      ensures Subsequence(WithStamp(Received(f, m).queue, s), WithStamp(f.routed + [m], s))
    {
      var q, r := WithStamp(f.queue, s), WithStamp(f.routed, s);
      WithStampAppend(f.routed, [m], s);
      WithStampOne(m, s);
      SubsequenceOneMore(q, r, m);
      assert q + [] == q && r + [] == r;
      if Holds(f, m.stamp) {
        InsertArrival(f.queue, m, s);
        WithStampAppend(f.queue, [m], s);
      }
    }
  }

  ghost predicate AllFifo(fs: Federates) {
    forall h :: h in fs ==> Fifo(fs[h])
  }

  lemma FifoDrainAll(fs: Federates, hs: set<Handle>)
    requires AllFifo(fs)
    ensures AllFifo(DrainAll(fs, hs))
  {
    forall h | h in fs && fs[h].pending.Some?
      ensures Fifo(Drained(fs[h], fs[h].pending.value))
    {
      FifoDrained(fs[h], fs[h].pending.value);
    }
  }

  lemma FifoCascade(add: Addition, fs: Federates)
    requires AllFifo(fs)
    ensures AllFifo(Cascade(add, fs))
  {
    CascadeGrants(add, fs);
    forall h | h in fs
      ensures Fifo(Cascade(add, fs)[h])
    {
      assert Cascade(add, fs)[h].queue == fs[h].queue && Cascade(add, fs)[h].routed == fs[h].routed;
    }
  }

  lemma FifoAdvance(add: Addition, fs: Federates, h: Handle, t: real)
    requires AllFifo(fs) && h in fs
    ensures AllFifo(DrainAndCascade(add, fs[h := Requested(fs[h], t)]))
  {
    var g := fs[h].(pending := Some(t), asked := fs[h].asked + [t]);
    assert Fifo(g);
    FifoDrained(g, t);
    var gs := fs[h := Requested(fs[h], t)];
    assert Fifo(gs[h]);
    FifoDrainAll(gs, Ready(Lbts(add, gs), gs));
    FifoCascade(add, DrainAll(gs, Ready(Lbts(add, gs), gs)));
  }

  lemma FifoRoute(fs: Federates, to: set<Handle>, m: TsoMessage)
    requires AllFifo(fs) && AllKept(fs)
    ensures AllFifo(Route(fs, to, m))
  {
    forall h | h in fs
      ensures Fifo(Received(fs[h], m))
    {
      FifoReceived(fs[h], m);
    }
  }

  lemma FifoPlain(add: Addition, fs: Federates, gs: Federates, e: Event)
    requires AllFifo(fs) && IsPlain(e) && gs == Step(add, fs, e)
    ensures AllFifo(gs)
  {
    forall h | h in gs
      ensures Fifo(gs[h])
    {
      PlainAt(add, fs, gs, e, h);
      WithNothing(JOINING);
    }
  }

  lemma FifoStep(add: Addition, fs: Federates, e: Event)
    requires AllFifo(fs) && AllKept(fs)
    ensures AllFifo(Step(add, fs, e))
  {
    if IsPlain(e) {
      FifoPlain(add, fs, Step(add, fs, e), e);
    } else if Dispatch(add, fs, e).Done? {
      if IsSend(e) {
        SendAt(add, fs, Step(add, fs, e), e);
        FifoRoute(fs, e.to - {e.h}, MessageSent(fs, e));
      } else {
        match e
        case EnableRegulationCall(h, l) => FifoCascade(add, Regulating(fs, h, l.value.t));
        case DisableRegulationCall(h) => FifoCascade(add, fs[h := fs[h].(regulating := false)]);
        case AdvanceRequestCall(h, t) => FifoAdvance(add, fs, h, t.value.t);
      }
    }
  }

  lemma WithNothing(f: Federate)
    requires f.queue == []
    ensures Fifo(f)
  {
    forall s
      ensures WithStamp(f.queue, s) == []
    {
      WithStampNone(f.queue, s);
    }
  }

  /** Every run, with no condition on it: messages of equal stamp wait in order of arrival. */
  lemma {:induction false} RunFifo(add: Addition, fs: Federates, es: seq<Event>)
    requires AllKept(fs) && AllFifo(fs)
    ensures AllFifo(Run(add, fs, es))
  {
    if es == [] {
    } else {
      var before := es[..|es| - 1];
      RunFifo(add, fs, before);
      RunKept(add, fs, before);
      FifoStep(add, Run(add, fs, before), es[|es| - 1]);
    }
  }
}
