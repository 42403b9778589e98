/**
 The time manager as the server runs it: a table of federates updated in place, with loops over
 hash maps in whatever order they come.  Each method is proved to compute the step of `TimeModel`
 with the same name.
 */
module TimeManagers {
  import opened Options
  import opened LogicalTime
  import opened TimeModel
  import opened Cascades
  import opened Safety
  import opened History

  class TimeManager {
    const add: Addition
    var federates: Federates

    constructor (add: Addition)
      ensures federates == map[] && this.add == add
    {
      this.add := add;
      federates := map[];
    }

    /** A fold with `min` from +infinity, in any order. */
    method ComputeLbts() returns (b: Stamp)
      ensures b == Lbts(add, federates)
    {
      b := PosInf;
      var todo := federates.Keys;
      assert federates - todo == map[];
      while todo != {}
        invariant todo <= federates.Keys
        invariant IsLbts(add, federates - todo, b)
      {
        var h :| h in todo;
        ghost var seen := federates - todo;
        ghost var b0 := b;
        if federates[h].regulating && Leq(Contribution(add, federates[h]), b) {
          b := Contribution(add, federates[h]);
        }
        todo := todo - {h};
        OneMoreRegulator(add, seen, federates - todo, h, b0, b);
      }
      assert federates - {} == federates;
      LbtsUnique(add, federates, b, Lbts(add, federates));
    }

    /** Whose pending advance the bound allows, and at what time (read pass, no mutation). */
    method Eligible(bound: Stamp) returns (toGrant: map<Handle, real>)
      ensures toGrant.Keys == Ready(bound, federates)
      ensures forall h :: h in toGrant ==> federates[h].pending == Some(toGrant[h])
    {
      toGrant := map h | h in federates && Grantable(bound, federates[h]) :: federates[h].pending.value;
    }

    /** The write pass: grant whoever still waits for the time that was read. */
    method ApplyGrants(toGrant: map<Handle, real>)
      requires forall h :: h in toGrant ==> h in federates && federates[h].pending == Some(toGrant[h])
      modifies this
      ensures federates == GrantAll(old(federates), toGrant.Keys)
    {
      var todo := toGrant.Keys;
      GrantNone(federates);
      while todo != {}
        invariant todo <= toGrant.Keys
        invariant federates == GrantAll(old(federates), toGrant.Keys - todo)
      {
        var h :| h in todo;
        if h in federates && federates[h].pending == Some(toGrant[h]) {
          federates := federates[h := Granted(federates[h])];
        }
        todo := todo - {h};
      }
      assert toGrant.Keys - {} == toGrant.Keys;
    }

    /** Two passes and a recursive call while the bound rises. */
    method TryGrantPendingAdvances()
      modifies this
      ensures federates == Cascade(add, old(federates))
      decreases |Pending(federates)|
    {
      var bound := ComputeLbts();
      var toGrant := Eligible(bound);
      if toGrant.Keys == {} {
        return;
      }
      ApplyGrants(toGrant);
      ReadyArePending(bound, old(federates));
      PendingFalls(old(federates), toGrant.Keys);
      var newBound := ComputeLbts();
      if Less(bound, newBound) {
        TryGrantPendingAdvances();
      }
    }

    method DrainTsoUpTo(h: Handle, upTo: real)
      modifies this
      ensures federates == DrainOne(old(federates), h, upTo)
    {
      if h !in federates {
        return;
      }
      var f := federates[h];
      var cut := PartitionPoint(f.queue, At(upTo));
      var drained := f.queue[..cut];
      var sent := f.sent;
      var i := 0;
      while i < |drained|
        invariant 0 <= i <= |drained|
        invariant sent == f.sent + Deliveries(drained[..i])
      {
        sent := sent + [Timed(drained[i])];
        assert Deliveries(drained[..i + 1]) == Deliveries(drained[..i]) + [Timed(drained[i])];
        i := i + 1;
      }
      assert drained[..i] == drained;
      federates := federates[h := f.(queue := f.queue[cut..], sent := sent)];
    }

    method DrainEach(toGrant: map<Handle, real>)
      requires forall h :: h in toGrant ==> h in federates && federates[h].pending == Some(toGrant[h])
      modifies this
      ensures federates == DrainAll(old(federates), toGrant.Keys)
    {
      ghost var before := federates;
      var todo := toGrant.Keys;
      ghost var done: set<Handle> := {};
      assert federates == DrainAll(before, done);
      while todo != {}
        invariant done !! todo && done + todo == toGrant.Keys
        invariant federates == DrainAll(before, done)
        decreases todo
      {
        var h :| h in todo;
        DrainOneMore(before, done, h);
        DrainTsoUpTo(h, toGrant[h]);
        todo, done := todo - {h}, done + {h};
      }
    }

    /** Drain for everyone grantable under the present bound, then run the grant machinery. */
    method TryGrantPendingAdvancesWithTso()
      modifies this
      ensures federates == DrainAndCascade(add, old(federates))
    {
      var bound := ComputeLbts();
      var toGrant := Eligible(bound);
      DrainEach(toGrant);
      TryGrantPendingAdvances();
    }

    /** Sort the recipients into those served at once and those who must wait, then do both. */
    method RouteTsoOrImmediate(subscribers: set<Handle>, m: TsoMessage)
      modifies this
      ensures federates == Route(old(federates), subscribers, m)
    {
      var immediate, queued := {}, {};
      var todo := subscribers;
      while todo != {}
        invariant todo <= subscribers
        invariant immediate == set h | h in subscribers - todo && h in federates && !Holds(federates[h], m.stamp)
        invariant queued == set h | h in subscribers - todo && h in federates && Holds(federates[h], m.stamp)
      {
        var h :| h in todo;
        if h in federates {
          if Holds(federates[h], m.stamp) {
            queued := queued + {h};
          } else {
            immediate := immediate + {h};
          }
        }
        todo := todo - {h};
      }
      ghost var before := federates;
      Deliver(immediate, m);
      ghost var middle := federates;
      while queued != {}
        invariant queued <= old(federates).Keys
        invariant federates == map h | h in middle ::
                    if h in subscribers && Holds(before[h], m.stamp) &&
                      h !in queued then Received(before[h], m) else middle[h]
        decreases queued
      {
        var h :| h in queued;
        var f := federates[h];
        federates := federates[h := f.(queue := Insert(f.queue, m), routed := f.routed + [m])];
        queued := queued - {h};
      }
    }

    method Deliver(targets: set<Handle>, m: TsoMessage)
      requires targets <= federates.Keys
      modifies this
      ensures federates == map h | h in old(federates) ::
                if h in targets then old(federates)[h].(sent := old(federates)[h].sent + [Timed(m)],
                  routed := old(federates)[h].routed + [m])
                else old(federates)[h]
    {
      var todo := targets;
      while todo != {}
        invariant todo <= targets
        invariant federates == map h | h in old(federates) ::
                    if h in targets - todo then old(federates)[h].(sent := old(federates)[h].sent + [Timed(m)],
                      routed := old(federates)[h].routed + [m])
                    else old(federates)[h]
      {
        var h :| h in todo;
        var f := federates[h];
        federates := federates[h := f.(sent := f.sent + [Timed(m)], routed := f.routed + [m])];
        todo := todo - {h};
      }
    }

    // -------------------------------------------------------------- dispatch handlers

    method EnableTimeRegulation(h: Handle, lookahead: Option<Stamp>) returns (raised: Option<Exception>)
      modifies this
      ensures Answers(raised, old(federates), federates, EnableRegulation(add, old(federates), h, lookahead))
    {
      var l := FiniteInterval(lookahead);
      if l.None? {
        return Some(InvalidLookahead);
      }
      if h !in federates {
        return Some(FederateNotExecutionMember);
      }
      var f := federates[h];
      if f.regulating {
        return Some(TimeRegulationAlreadyEnabled);
      }
      f := f.(regulating := true, lookahead := l.value);
      federates := federates[h := Announce(f, TimeRegulationEnabled(f.now))];
      TryGrantPendingAdvances();
      return None;
    }

    method DisableTimeRegulation(h: Handle) returns (raised: Option<Exception>)
      modifies this
      ensures Answers(raised, old(federates), federates, DisableRegulation(add, old(federates), h))
    {
      if h !in federates {
        return Some(FederateNotExecutionMember);
      }
      if !federates[h].regulating {
        return Some(TimeRegulationIsNotEnabled);
      }
      federates := federates[h := federates[h].(regulating := false)];
      TryGrantPendingAdvances();
      return None;
    }

    method EnableTimeConstrained(h: Handle) returns (raised: Option<Exception>)
      modifies this
      ensures Answers(raised, old(federates), federates, EnableConstrained(old(federates), h))
      ensures AllKept(old(federates)) ==> AllKept(federates)
      ensures Safe(add, old(federates)) && raised.None? && h in old(federates) ==>
        (Safe(add, federates) <==> Leq(At(old(federates)[h].now), Lbts(add, old(federates))))
    {
      if Safe(add, federates) && EnableConstrained(federates, h).Done? {
        EnableConstrainedSafe(add, federates, h);
      }
      if AllKept(federates) {
        ConstrainedKept(federates, h);
      }
      if h !in federates {
        return Some(FederateNotExecutionMember);
      }
      if federates[h].constrained {
        return Some(TimeConstrainedAlreadyEnabled);
      }
      var f := federates[h].(constrained := true);
      federates := federates[h := Announce(f, TimeConstrainedEnabled(f.now))];
      return None;
    }

    method DisableTimeConstrained(h: Handle) returns (raised: Option<Exception>)
      modifies this
      ensures Answers(raised, old(federates), federates, DisableConstrained(old(federates), h))
      ensures AllKept(old(federates)) ==> AllKept(federates)
      ensures Safe(add, old(federates)) ==> Safe(add, federates)
      ensures Pending(federates) == Pending(old(federates))
    {
      if Safe(add, federates) {
        MembershipSafe(add, federates, h);
      }
      if AllKept(federates) {
        ConstrainedKept(federates, h);
      }
      if h !in federates {
        return Some(FederateNotExecutionMember);
      }
      if !federates[h].constrained {
        return Some(TimeConstrainedIsNotEnabled);
      }
      federates := federates[h := federates[h].(constrained := false)];
      return None;
    }

    method ChangeLookahead(h: Handle, lookahead: Option<Stamp>) returns (raised: Option<Exception>)
      modifies this
      ensures Answers(raised, old(federates), federates, ModifyLookahead(old(federates), h, lookahead))
      ensures AllKept(old(federates)) ==> AllKept(federates)
      ensures Safe(add, old(federates)) && raised.None? && h in old(federates) && FiniteInterval(lookahead).Some? ==>
        (Safe(add, federates) <==> NoneBeyond(old(federates), add(old(federates)[h].now,
          FiniteInterval(lookahead).value)))
      ensures Pending(federates) == Pending(old(federates))
    {
      var l := FiniteInterval(lookahead);
      if l.None? {
        return Some(InvalidLookahead);
      }
      if h !in federates {
        return Some(FederateNotExecutionMember);
      }
      if !federates[h].regulating {
        return Some(TimeRegulationIsNotEnabled);
      }
      LookaheadChanged(add, federates, h, l.value);
      federates := federates[h := federates[h].(lookahead := l.value)];
      return None;
    }

    /** Record the request; an unconstrained federate is granted at once, after a drain. */
    method TimeAdvanceRequest(h: Handle, time: Option<Stamp>) returns (raised: Option<Exception>)
      modifies this
      ensures Answers(raised, old(federates), federates, AdvanceRequest(add, old(federates), h, time))
    {
      if time.None? {
        return Some(InvalidLogicalTime);
      }
      if !time.value.At? {
        return Some(LogicalTimeAlreadyPassed);
      }
      if h !in federates {
        return Some(FederateNotExecutionMember);
      }
      var requested := time.value.t;
      var f := federates[h];
      if f.pending.Some? {
        return Some(InTimeAdvancingState);
      }
      if requested < f.now {
        return Some(LogicalTimeAlreadyPassed);
      }
      federates := federates[h := f.(pending := Some(requested), asked := f.asked + [requested])];
      if !f.constrained {
        federates := federates[h := federates[h].(now := requested, pending := None)];
        DrainTsoUpTo(h, requested);
        federates := federates[h := Announce(federates[h], TimeAdvanceGrant(requested, |f.routed|))];
      }
      assert federates == old(federates)[h := Requested(f, requested)];
      TryGrantPendingAdvancesWithTso();
      return None;
    }

    /** A regulating producer must not send below its own time plus lookahead. */
    method UpdateAttributeValuesWithTime(h: Handle, subscribers: set<Handle>, time: Option<Stamp>, payload: seq<int>)
        returns (raised: Option<Exception>)
      modifies this
      ensures Answers(raised, old(federates), federates, TimedUpdate(add, old(federates), h, subscribers, time,
        payload))
    {
      if time.None? {
        return Some(InvalidLogicalTime);
      }
      var checked := h in federates && federates[h].regulating;
      if checked && Less(time.value, Contribution(add, federates[h])) {
        return Some(InvalidLogicalTime);
      }
      RouteTsoOrImmediate(subscribers - {h}, TsoMessage(time.value, Body(h, checked, payload)));
      return None;
    }
  }

  /** The response and the new table are what the step prescribes; a refusal changes nothing. */
  ghost predicate Answers(raised: Option<Exception>, before: Federates, after: Federates, o: Outcome) {
    match o
    case Done(fs) => raised.None? && after == fs
    case Raised(x) => raised == Some(x) && after == before
  }

  lemma LookaheadChanged(add: Addition, fs: Federates, h: Handle, l: Interval)
    requires h in fs && fs[h].regulating
    ensures var gs := fs[h := fs[h].(lookahead := l)];
      && (AllKept(fs) ==> AllKept(gs))
      && (Safe(add, fs) ==> (Safe(add, gs) <==> NoneBeyond(fs, add(fs[h].now, l))))
      && Pending(gs) == Pending(fs)
  {
    if Safe(add, fs) {
      ModifyLookaheadSafe(add, fs, h, l);
    }
    if AllKept(fs) {
      LookaheadKept(fs, h, l);
    }
  }

  lemma DrainOneMore(fs: Federates, hs: set<Handle>, h: Handle)
    requires h in fs && h !in hs && fs[h].pending.Some?
    ensures DrainOne(DrainAll(fs, hs), h, fs[h].pending.value) == DrainAll(fs, hs + {h})
  {
  }

  lemma OneMoreRegulator(add: Addition, seen: Federates, more: Federates, h: Handle, b0: Stamp, b: Stamp)
    requires IsLbts(add, seen, b0)
    requires h in more && more.Keys == seen.Keys + {h} && h !in seen
    requires forall k :: k in seen ==> more[k] == seen[k]
    requires b == if more[h].regulating && Leq(Contribution(add, more[h]), b0) then Contribution(add, more[h]) else b0
    ensures IsLbts(add, more, b)
  {
    assert Leq(At(more[h].now), Contribution(add, more[h]));
  }
}
