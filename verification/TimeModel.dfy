/**
 The time-management state of a federation and what each dispatch handler does to it, one atomic
 step per handler.  Callbacks are recorded per addressee, so the unspecified iteration order of
 the server's hash maps cannot be observed.
 */
module TimeModel {
  import opened Options
  import opened LogicalTime

  type Handle = nat

  datatype Exception =
    | FederateNotExecutionMember
    | InvalidLookahead
    | InvalidLogicalTime
    | LogicalTimeAlreadyPassed
    | InTimeAdvancingState
    | TimeRegulationAlreadyEnabled
    | TimeRegulationIsNotEnabled
    | TimeConstrainedAlreadyEnabled
    | TimeConstrainedIsNotEnabled

  /** What a timed message carries.  `checked` is set on an update whose producer was regulating
      when it was sent: only those have passed the lookahead test. */
  datatype Body = Body(producer: Handle, checked: bool, payload: seq<int>)

  datatype TsoMessage = TsoMessage(stamp: Stamp, body: Body)

  /** `after` is history: how many timed messages had been routed to the federate at its grant. */
  datatype Callback =
    | TimeRegulationEnabled(at: real)
    | TimeConstrainedEnabled(at: real)
    | TimeAdvanceGrant(at: real, after: nat)
    | Timed(message: TsoMessage)

  /** `sent`, `asked` and `routed` are history: the callbacks addressed to the federate, its
      accepted advance requests, and the timed messages routed to it, each in order. */
  datatype Federate = Federate(
    regulating: bool,
    constrained: bool,
    now: real,
    lookahead: Interval,
    pending: Option<real>,
    queue: seq<TsoMessage>,
    sent: seq<Callback>,
    asked: seq<real>,
    routed: seq<TsoMessage>)

  type Federates = map<Handle, Federate>

  const JOINING := Federate(false, false, 0.0, 0.0, None, [], [], [], [])

  // ---------------------------------------------------------------- LBTS

  function Contribution(add: Addition, f: Federate): Stamp {
    add(f.now, f.lookahead)
  }

  /** `b` is the minimum contribution of a regulating federate, or +infinity without one. */
  ghost predicate IsLbts(add: Addition, fs: Federates, b: Stamp) {
    && !b.NaN?
    && (forall h :: h in fs && fs[h].regulating ==> Leq(b, Contribution(add, fs[h])))
    && (b.PosInf? || exists h :: h in fs && fs[h].regulating && b == Contribution(add, fs[h]))
  }

  lemma LbtsUnique(add: Addition, fs: Federates, a: Stamp, b: Stamp)
    requires IsLbts(add, fs, a) && IsLbts(add, fs, b)
    ensures a == b
  {
  }

  lemma {:induction false} LbtsExists(add: Addition, fs: Federates)
    ensures exists b :: IsLbts(add, fs, b)
    decreases |fs|
  {
    if fs == map[] {
      assert IsLbts(add, fs, PosInf);
    } else {
      var h :| h in fs;
      var rest := fs - {h};
      LbtsExists(add, rest);
      var b :| IsLbts(add, rest, b);
      var c := Contribution(add, fs[h]);
      assert Leq(At(fs[h].now), c);
      var m := if fs[h].regulating && Leq(c, b) then c else b;
      assert forall k :: k in fs && k != h ==> k in rest && rest[k] == fs[k];
      assert forall k :: k in rest ==> k in fs && fs[k] == rest[k];
      assert IsLbts(add, fs, m);
    }
  }

  ghost function Lbts(add: Addition, fs: Federates): (b: Stamp)
    ensures IsLbts(add, fs, b)
  {
    LbtsExists(add, fs);
    var b :| IsLbts(add, fs, b);
    b
  }

  // ---------------------------------------------------------------- grants

  predicate Grantable(b: Stamp, f: Federate) {
    f.pending.Some? && (!f.constrained || Leq(At(f.pending.value), b))
  }

  function Granted(f: Federate): Federate
    requires f.pending.Some?
  {
    f.(now := f.pending.value,
       pending := None,
       sent := f.sent + [TimeAdvanceGrant(f.pending.value, |f.routed|)])
  }

  function Pending(fs: Federates): set<Handle> {
    set h | h in fs && fs[h].pending.Some?
  }

  function Ready(b: Stamp, fs: Federates): set<Handle> {
    set h | h in fs && Grantable(b, fs[h])
  }

  /** Every member of `hs` that has a pending advance is granted it. */
  function GrantAll(fs: Federates, hs: set<Handle>): Federates {
    map h | h in fs :: if h in hs && fs[h].pending.Some? then Granted(fs[h]) else fs[h]
  }

  /** The recursive grant cascade: grant what the bound allows, and go on while the bound rises. */
  ghost function Cascade(add: Addition, fs: Federates): (end: Federates)
    ensures end.Keys == fs.Keys
    decreases |Pending(fs)|
  {
    var b := Lbts(add, fs);
    var ready := Ready(b, fs);
    if ready == {} then
      fs
    else
      var fs' := GrantAll(fs, ready);
      PendingFalls(fs, ready);
      if Less(b, Lbts(add, fs')) then Cascade(add, fs') else fs'
  }

  lemma PendingFalls(fs: Federates, hs: set<Handle>)
    ensures Pending(GrantAll(fs, hs)) == Pending(fs) - hs
    ensures hs * Pending(fs) != {} ==> |Pending(GrantAll(fs, hs))| < |Pending(fs)|
  {
    var after := Pending(GrantAll(fs, hs));
    assert after == Pending(fs) - hs;
    if hs * Pending(fs) != {} {
      assert |Pending(fs)| == |Pending(fs) - hs| + |Pending(fs) * hs|;
    }
  }

  // ---------------------------------------------------------------- timestamp-order queues

  /** Number of leading messages stamped at most `b`. */
  function PartitionPoint(q: seq<TsoMessage>, b: Stamp): (n: nat)
    ensures n <= |q|
    ensures forall i :: 0 <= i < n ==> Leq(q[i].stamp, b)
    ensures n < |q| ==> !Leq(q[n].stamp, b)
  {
    if q != [] && Leq(q[0].stamp, b) then 1 + PartitionPoint(q[1..], b) else 0
  }

  function Insert(q: seq<TsoMessage>, m: TsoMessage): seq<TsoMessage> {
    var pos := PartitionPoint(q, m.stamp);
    q[..pos] + [m] + q[pos..]
  }

  function Deliveries(ms: seq<TsoMessage>): (r: seq<Callback>)
    ensures |r| == |ms|
  {
    seq(|ms|, i requires 0 <= i < |ms| => Timed(ms[i]))
  }

  /** Everything queued up to `t` is sent, in queue order. */
  function Drained(f: Federate, t: real): Federate {
    var cut := PartitionPoint(f.queue, At(t));
    f.(queue := f.queue[cut..], sent := f.sent + Deliveries(f.queue[..cut]))
  }

  function DrainOne(fs: Federates, h: Handle, t: real): Federates {
    if h in fs then fs[h := Drained(fs[h], t)] else fs
  }

  function DrainAll(fs: Federates, hs: set<Handle>): Federates {
    map h | h in fs ::
      if h in hs && fs[h].pending.Some? then Drained(fs[h], fs[h].pending.value) else fs[h]
  }

  /** The grant wrapper: drain for the federates grantable under the first bound, then cascade. */
  ghost function DrainAndCascade(add: Addition, fs: Federates): Federates {
    Cascade(add, DrainAll(fs, Ready(Lbts(add, fs), fs)))
  }

  predicate Holds(f: Federate, stamp: Stamp) {
    f.constrained && Less(At(f.now), stamp)
  }

  /** One recipient's share of a timed message: queued if it must wait, else sent at once. */
  function Received(f: Federate, m: TsoMessage): Federate {
    if Holds(f, m.stamp) then
      f.(queue := Insert(f.queue, m), routed := f.routed + [m])
    else
      f.(sent := f.sent + [Timed(m)], routed := f.routed + [m])
  }

  function Route(fs: Federates, to: set<Handle>, m: TsoMessage): Federates {
    map h | h in fs :: if h in to then Received(fs[h], m) else fs[h]
  }

  // ---------------------------------------------------------------- handlers

  datatype Outcome = Done(fs: Federates) | Raised(exception: Exception)

  function FiniteInterval(v: Option<Stamp>): (r: Option<Interval>) {
    if v.Some? && v.value.At? && 0.0 <= v.value.t then Some(v.value.t) else None
  }

  function Announce(f: Federate, c: Callback): Federate {
    f.(sent := f.sent + [c])
  }

  /** Regulation switched on and acknowledged, before pending advances are looked at again. */
  function Regulating(fs: Federates, h: Handle, l: Interval): Federates
    requires h in fs
  {
    fs[h := Announce(fs[h].(regulating := true, lookahead := l), TimeRegulationEnabled(fs[h].now))]
  }

  ghost function EnableRegulation(add: Addition, fs: Federates, h: Handle, lookahead: Option<Stamp>): Outcome {
    var l := FiniteInterval(lookahead);
    if l.None? then Raised(InvalidLookahead)
    else if h !in fs then Raised(FederateNotExecutionMember)
    else if fs[h].regulating then Raised(TimeRegulationAlreadyEnabled)
    else Done(Cascade(add, Regulating(fs, h, l.value)))
  }

  ghost function DisableRegulation(add: Addition, fs: Federates, h: Handle): Outcome {
    if h !in fs then Raised(FederateNotExecutionMember)
    else if !fs[h].regulating then Raised(TimeRegulationIsNotEnabled)
    else Done(Cascade(add, fs[h := fs[h].(regulating := false)]))
  }

  function EnableConstrained(fs: Federates, h: Handle): Outcome {
    if h !in fs then Raised(FederateNotExecutionMember)
    else if fs[h].constrained then Raised(TimeConstrainedAlreadyEnabled)
    else Done(fs[h := Announce(fs[h].(constrained := true), TimeConstrainedEnabled(fs[h].now))])
  }

  function DisableConstrained(fs: Federates, h: Handle): Outcome {
    if h !in fs then Raised(FederateNotExecutionMember)
    else if !fs[h].constrained then Raised(TimeConstrainedIsNotEnabled)
    else Done(fs[h := fs[h].(constrained := false)])
  }

  function ModifyLookahead(fs: Federates, h: Handle, lookahead: Option<Stamp>): Outcome {
    var l := FiniteInterval(lookahead);
    if l.None? then Raised(InvalidLookahead)
    else if h !in fs then Raised(FederateNotExecutionMember)
    else if !fs[h].regulating then Raised(TimeRegulationIsNotEnabled)
    else Done(fs[h := fs[h].(lookahead := l.value)])
  }

  /** What an accepted request leaves for the grant wrapper: an unconstrained requester is granted
      (after a drain) on the spot, a constrained one is left pending. */
  function Requested(f: Federate, t: real): Federate {
    var g := f.(pending := Some(t), asked := f.asked + [t]);
    if f.constrained then g else Granted(Drained(g, t))
  }

  ghost function AdvanceRequest(add: Addition, fs: Federates, h: Handle, time: Option<Stamp>): Outcome {
    if time.None? then Raised(InvalidLogicalTime)
    else if !time.value.At? then Raised(LogicalTimeAlreadyPassed)
    else if h !in fs then Raised(FederateNotExecutionMember)
    else if fs[h].pending.Some? then Raised(InTimeAdvancingState)
    else if time.value.t < fs[h].now then Raised(LogicalTimeAlreadyPassed)
    else Done(DrainAndCascade(add, fs[h := Requested(fs[h], time.value.t)]))
  }

  /** A timed attribute update; the only timed service that looks at the producer's lookahead. */
  function TimedUpdate(add: Addition, fs: Federates, h: Handle, to: set<Handle>, time: Option<Stamp>,
          payload: seq<int>): Outcome {
    if time.None? then Raised(InvalidLogicalTime)
    else
      var checked := h in fs && fs[h].regulating;
      if checked && Less(time.value, Contribution(add, fs[h])) then Raised(InvalidLogicalTime)
      else Done(Route(fs, to - {h}, TsoMessage(time.value, Body(h, checked, payload))))
  }

  /** A timed interaction or a timed delete: routed with whatever stamp it bears. */
  function TimedSend(fs: Federates, h: Handle, to: set<Handle>, time: Option<Stamp>, payload: seq<int>): Outcome {
    if time.None? then Raised(InvalidLogicalTime)
    else Done(Route(fs, to - {h}, TsoMessage(time.value, Body(h, false, payload))))
  }

  // ---------------------------------------------------------------- runs

  datatype Event =
    | Join(h: Handle)
    | Resign(h: Handle)
    | EnableRegulationCall(h: Handle, lookahead: Option<Stamp>)
    | DisableRegulationCall(h: Handle)
    | EnableConstrainedCall(h: Handle)
    | DisableConstrainedCall(h: Handle)
    | ModifyLookaheadCall(h: Handle, lookahead: Option<Stamp>)
    | AdvanceRequestCall(h: Handle, time: Option<Stamp>)
    | TimedUpdateCall(h: Handle, to: set<Handle>, time: Option<Stamp>, payload: seq<int>)
    | TimedSendCall(h: Handle, to: set<Handle>, time: Option<Stamp>, payload: seq<int>)

  ghost function Dispatch(add: Addition, fs: Federates, e: Event): Outcome {
    match e
    case Join(h) => Done(if h in fs then fs else fs[h := JOINING])
    case Resign(h) => if h in fs then Done(fs - {h}) else Raised(FederateNotExecutionMember)
    case EnableRegulationCall(h, l) => EnableRegulation(add, fs, h, l)
    case DisableRegulationCall(h) => DisableRegulation(add, fs, h)
    case EnableConstrainedCall(h) => EnableConstrained(fs, h)
    case DisableConstrainedCall(h) => DisableConstrained(fs, h)
    case ModifyLookaheadCall(h, l) => ModifyLookahead(fs, h, l)
    case AdvanceRequestCall(h, t) => AdvanceRequest(add, fs, h, t)
    case TimedUpdateCall(h, to, t, p) => TimedUpdate(add, fs, h, to, t, p)
    case TimedSendCall(h, to, t, p) => TimedSend(fs, h, to, t, p)
  }

  /** A refused call leaves the federation as it was. */
  ghost function Step(add: Addition, fs: Federates, e: Event): Federates {
    var r := Dispatch(add, fs, e);
    if r.Done? then r.fs else fs
  }

  ghost function Run(add: Addition, fs: Federates, es: seq<Event>): Federates {
    if es == [] then fs else Step(add, Run(add, fs, es[..|es| - 1]), es[|es| - 1])
  }
}
