/**
 The federation-wide barriers of save and restore, which end in a verdict once every participant has
 reported.

 A save is closed under one lock and its label is read back under another, so closing and
 persisting are two steps here and anything may happen between them.
 */
module Barriers {
  import opened Options
  import opened LastWords

  type Handle = nat

  // ---------------------------------------------------------------- save and restore

  /** Restore has no `Begun` and nothing to persist; otherwise the two orchestrations are the same. */
  datatype Status = Initiated | Begun | Complete | NotComplete

  datatype Operation = Operation(name: string, statuses: map<Handle, Status>)

  datatype Report = Report(f: Handle, ok: bool)

  datatype Ending = Aborted | Failed | Succeeded

  /** History of one accepted request: its label, who took part, what was reported, how it ended. */
  datatype Attempt = Attempt(name: string, participants: set<Handle>, reports: seq<Report>, endings: seq<Ending>)

  /** `current` and `lastLabel` are the source's fields; `attempts` and `saved` are history.
      `saved` lists which attempt was persisted under which label. */
  datatype Barrier = Barrier(
    joined: set<Handle>,
    current: Option<Operation>,
    lastLabel: Option<string>,
    attempts: seq<Attempt>,
    saved: seq<(nat, string)>)

  const IDLE := Barrier({}, None, None, [], [])

  datatype Event =
    | Join(f: Handle)
    | Resign(f: Handle)
    | Request(f: Handle, name: string)
    | SaveBegun(f: Handle)
    | Progressed(f: Handle, ok: bool)
    | Persist(attempt: nat)
    | Abort(f: Handle)

  predicate Done(s: Status) {
    s.Complete? || s.NotComplete?
  }

  predicate AllDone(statuses: map<Handle, Status>) {
    forall h :: h in statuses ==> Done(statuses[h])
  }

  predicate AnyFailed(statuses: map<Handle, Status>) {
    exists h :: h in statuses && statuses[h].NotComplete?
  }

  function Reported(o: Operation, f: Handle, ok: bool): Operation {
    o.(statuses := o.statuses[f := if ok then Complete else NotComplete])
  }

  /** Writes into the history of the newest attempt. */
  function Note(attempts: seq<Attempt>, rs: seq<Report>, es: seq<Ending>): seq<Attempt> {
    if attempts == [] then []
    else
      var n := |attempts| - 1;
      attempts[n := attempts[n].(reports := attempts[n].reports + rs, endings := attempts[n].endings + es)]
  }

  function Progress(b: Barrier, f: Handle, ok: bool): Barrier
    requires b.current.Some?
  {
    var o := Reported(b.current.value, f, ok);
    if AllDone(o.statuses) then
      b.(current := None,
         attempts := Note(b.attempts, [Report(f, ok)], [if AnyFailed(o.statuses) then Failed else Succeeded]))
    else
      b.(current := Some(o), attempts := Note(b.attempts, [Report(f, ok)], []))
  }

  function Step(b: Barrier, e: Event): Barrier {
    match e
    case Join(f) => b.(joined := b.joined + {f})
    case Resign(f) => b.(joined := b.joined - {f})
    case Request(f, name) =>
      if f !in b.joined || name == "" || b.current.Some? then b
      else
        b.(current := Some(Operation(name, map h | h in b.joined :: Initiated)),
           lastLabel := Some(name),
           attempts := b.attempts + [Attempt(name, b.joined, [], [])])
    case SaveBegun(f) =>
      if f !in b.joined || b.current.None? || f !in b.current.value.statuses then b
      else if !b.current.value.statuses[f].Initiated? then b
      else b.(current := Some(b.current.value.(statuses := b.current.value.statuses[f := Begun])))
    case Progressed(f, ok) => if f !in b.joined || b.current.None? then b else Progress(b, f, ok)
    case Persist(k) =>
      if k < |b.attempts| && Succeeded in b.attempts[k].endings && b.lastLabel.Some? then
        b.(saved := b.saved + [(k, b.lastLabel.value)])
      else b
    case Abort(f) =>
      if f !in b.joined || b.current.None? then b
      else b.(current := None, attempts := Note(b.attempts, [], [Aborted]))
  }

  function Run(es: seq<Event>): Barrier {
    if es == [] then IDLE else Step(Run(es[..|es| - 1]), es[|es| - 1])
  }

  /** What a federate reported last. */
  function Latest(reports: seq<Report>, f: Handle): Option<bool> {
    if reports == [] then None
    else if reports[|reports| - 1].f == f then Some(reports[|reports| - 1].ok)
    else Latest(reports[..|reports| - 1], f)
  }

  /** Every participant has reported. */
  ghost predicate AllReported(a: Attempt) {
    forall h :: h in a.participants ==> Latest(a.reports, h).Some?
  }

  /** Someone, participant or latecomer, reported failure last. */
  ghost predicate SomeFailure(a: Attempt) {
    exists h :: Latest(a.reports, h) == Some(false)
  }

  /** A verdict stands only on a complete set of reports, and is the one they call for. */
  ghost predicate Justified(a: Attempt) {
    && |a.endings| <= 1
    && (Failed in a.endings ==> AllReported(a) && SomeFailure(a))
    && (Succeeded in a.endings ==> AllReported(a) && !SomeFailure(a))
  }

  /** The status table holds the participants and whoever reported, with what they reported last. */
  ghost predicate Mirrors(o: Operation, a: Attempt) {
    && o.name == a.name
    && (forall h :: h in o.statuses <==> h in a.participants || Latest(a.reports, h).Some?)
    && (forall h :: h in o.statuses ==> (o.statuses[h].Complete? <==> Latest(a.reports, h) == Some(true)))
    && (forall h :: h in o.statuses ==> (o.statuses[h].NotComplete? <==> Latest(a.reports, h) == Some(false)))
  }

  /** While an operation is in progress the newest attempt is its history, not yet ended and not
      yet complete; with none in progress the newest attempt has ended. */
  ghost predicate Sound(b: Barrier) {
    && (forall p :: p in b.saved ==> p.0 < |b.attempts|)
    && (forall k :: 0 <= k < |b.attempts| ==> Justified(b.attempts[k]))
    && (forall k :: 0 <= k < |b.attempts| - 1 ==> |b.attempts[k].endings| == 1)
    && (b.attempts != [] ==> b.lastLabel == Some(b.attempts[|b.attempts| - 1].name))
    && (b.current.None? && b.attempts != [] ==> |b.attempts[|b.attempts| - 1].endings| == 1)
    && (b.current.Some? ==>
          && b.attempts != []
          && b.attempts[|b.attempts| - 1].endings == []
          && Mirrors(b.current.value, b.attempts[|b.attempts| - 1]))
  }

  lemma LatestAfter(reports: seq<Report>, r: Report, h: Handle)
    ensures Latest(reports + [r], h) == if r.f == h then Some(r.ok) else Latest(reports, h)
  {
    assert (reports + [r])[..|reports|] == reports;
  }

  lemma ReportMirrors(o: Operation, a: Attempt, f: Handle, ok: bool)
    requires Mirrors(o, a)
    ensures Mirrors(Reported(o, f, ok), a.(reports := a.reports + [Report(f, ok)]))
  {
    forall h
      ensures Latest(a.reports + [Report(f, ok)], h) == if f == h then Some(ok) else Latest(a.reports, h)
    {
      LatestAfter(a.reports, Report(f, ok), h);
    }
  }

  /** The two tests on the table are tests on the reports. */
  lemma TestsAreExact(o: Operation, a: Attempt)
    requires Mirrors(o, a)
    ensures AllDone(o.statuses) <==> AllReported(a)
    ensures AnyFailed(o.statuses) <==> SomeFailure(a)
  {
    if SomeFailure(a) {
      var h :| Latest(a.reports, h) == Some(false);
      assert h in o.statuses;
    }
    if AllReported(a) {
      forall h | h in o.statuses
        ensures Done(o.statuses[h])
      {
        var l := Latest(a.reports, h);
        assert l.Some? && l == Some(l.value);
        if l.value {
          assert l == Some(true);
        } else {
          assert l == Some(false);
        }
      }
    }
  }

  /** A report ends the operation exactly when it is the one with which every participant has
      reported, and then the verdict is failure exactly when someone's last report is a failure. */
  lemma ProgressMeaning(b: Barrier, f: Handle, ok: bool, a': Attempt)
    requires Sound(b) && b.current.Some?
    requires a' == b.attempts[|b.attempts| - 1].(reports := b.attempts[|b.attempts| - 1].reports + [Report(f, ok)])
    ensures Progress(b, f, ok).current.None? <==> AllReported(a')
    ensures Progress(b, f, ok).attempts == b.attempts[|b.attempts| - 1 :=
              a'.(endings := if !AllReported(a') then [] else if SomeFailure(a') then [Failed] else [Succeeded])]
  {
    ReportMirrors(b.current.value, b.attempts[|b.attempts| - 1], f, ok);
    TestsAreExact(Reported(b.current.value, f, ok), a');
    var a := b.attempts[|b.attempts| - 1];
    assert a.endings + [] == [] && a.endings + [Failed] == [Failed] && a.endings + [Succeeded] == [Succeeded];
  }

  lemma ProgressSound(b: Barrier, f: Handle, ok: bool)
    requires Sound(b) && b.current.Some?
    ensures Sound(Progress(b, f, ok))
  {
    var a := b.attempts[|b.attempts| - 1];
    var a' := a.(reports := a.reports + [Report(f, ok)]);
    ReportMirrors(b.current.value, a, f, ok);
    ProgressMeaning(b, f, ok, a');
    assert Justified(a'.(endings := if !AllReported(a') then [] else if SomeFailure(a') then [Failed] else
      [Succeeded]));
  }

  lemma RequestSound(b: Barrier, f: Handle, name: string)
    requires Sound(b) && f in b.joined && name != "" && b.current.None?
    ensures Sound(Step(b, Request(f, name)))
  {
  }

  lemma StepSound(b: Barrier, e: Event)
    requires Sound(b)
    ensures Sound(Step(b, e))
  {
    match e
    case Progressed(f, ok) =>
      if f in b.joined && b.current.Some? {
        ProgressSound(b, f, ok);
      }
    case Request(f, name) =>
      if f in b.joined && name != "" && b.current.None? {
        RequestSound(b, f, name);
      }
    case Abort(f) =>
      if f in b.joined && b.current.Some? {
        var a := b.attempts[|b.attempts| - 1];
        assert a.reports + [] == a.reports && a.endings + [Aborted] == [Aborted];
      }
    case _ =>
  }

  /** Whole runs: every accepted request ends at most once, and every verdict is the one its
      reports call for. */
  lemma {:induction false} RunSound(es: seq<Event>)
    ensures Sound(Run(es))
  {
    if es == [] {
    } else {
      RunSound(es[..|es| - 1]);
      StepSound(Run(es[..|es| - 1]), es[|es| - 1]);
    }
  }

  predicate IsAccepted(b: Barrier, e: Event) {
    e.Request? && e.f in b.joined && e.name != "" && b.current.None?
  }

  /** The labels of the requests accepted in a run, in order. */
  function Requests(es: seq<Event>): seq<string> {
    if es == [] then []
    else
      var n := |es| - 1;
      Requests(es[..n]) + if IsAccepted(Run(es[..n]), es[n]) then [es[n].name] else []
  }

  ghost predicate NamedBy(attempts: seq<Attempt>, names: seq<string>) {
    |attempts| == |names| && forall k :: 0 <= k < |names| ==> attempts[k].name == names[k]
  }

  lemma {:induction false} AttemptsAreRequests(es: seq<Event>)
    ensures NamedBy(Run(es).attempts, Requests(es))
  {
    if es == [] {
    } else {
      var n := |es| - 1;
      AttemptsAreRequests(es[..n]);
      LabelsStay(Run(es[..n]), es[n]);
    }
  }

  /** A save is persisted under the label of the last request accepted before that. */
  lemma PersistLabel(es: seq<Event>, b: Barrier, names: seq<string>, k: nat)
    requires b == Run(es) && names == Requests(es)
    requires k < |b.attempts| && Succeeded in b.attempts[k].endings
    ensures names != [] && Step(b, Persist(k)).saved == b.saved + [(k, names[|names| - 1])]
  {
    RunSound(es);
    AttemptsAreRequests(es);
    PersistNewest(b, k, names);
  }

  lemma PersistNewest(b: Barrier, k: nat, names: seq<string>)
    requires Sound(b) && k < |b.attempts| && Succeeded in b.attempts[k].endings && NamedBy(b.attempts, names)
    ensures names != [] && Step(b, Persist(k)).saved == b.saved + [(k, names[|names| - 1])]
  {
  }

  ghost predicate OwnLabels(b: Barrier) {
    forall p :: p in b.saved ==> p.0 < |b.attempts| && p.1 == b.attempts[p.0].name
  }

  /** Steps never relabel or drop an attempt. */
  lemma LabelsStay(b: Barrier, e: Event)
    ensures |b.attempts| <= |Step(b, e).attempts|
    ensures forall k :: 0 <= k < |b.attempts| ==> Step(b, e).attempts[k].name == b.attempts[k].name
  {
  }

  /** Own labels survive a step unless it persists an attempt whose label the newest request does
      not carry. */
  lemma StepOwnLabels(b: Barrier, e: Event)
    requires Sound(b) && OwnLabels(b)
    ensures OwnLabels(Step(b, e)) <==>
      (e.Persist? && e.attempt < |b.attempts| && Succeeded in b.attempts[e.attempt].endings ==>
        b.attempts[e.attempt].name == b.attempts[|b.attempts| - 1].name)
  {
    LabelsStay(b, e);
    if e.Persist? && e.attempt < |b.attempts| && Succeeded in b.attempts[e.attempt].endings {
      var p := (e.attempt, b.lastLabel.value);
      assert Step(b, e).saved == b.saved + [p];
      assert p in Step(b, e).saved;
    }
  }

  /** A wrong label is never repaired. */
  lemma MislabelStays(b: Barrier, e: Event)
    requires Sound(b) && !OwnLabels(b)
    ensures !OwnLabels(Step(b, e))
  {
    LabelsStay(b, e);
    var p :| p in b.saved && p.1 != b.attempts[p.0].name;
    assert p in Step(b, e).saved;
  }

  /** Whenever a save is persisted, the last request accepted until then carries its label. */
  ghost predicate Undisturbed(es: seq<Event>) {
    es == [] ||
    var n := |es| - 1;
    var b, names := Run(es[..n]), Requests(es[..n]);
    && Undisturbed(es[..n])
    && (es[n].Persist? && es[n].attempt < |names| && es[n].attempt < |b.attempts| &&
        Succeeded in b.attempts[es[n].attempt].endings ==>
          names[es[n].attempt] == names[|names| - 1])
  }

  /** Whole runs: every save is persisted under the label it was requested with, if and only if
      whenever one was persisted the last accepted request carried its label. */
  lemma {:induction false} RunOwnLabels(es: seq<Event>)
    ensures OwnLabels(Run(es)) <==> Undisturbed(es)
  {
    if es == [] {
    } else {
      var n := |es| - 1;
      RunOwnLabels(es[..n]);
      RunSound(es[..n]);
      AttemptsAreRequests(es[..n]);
      if OwnLabels(Run(es[..n])) {
        StepOwnLabels(Run(es[..n]), es[n]);
      } else {
        MislabelStays(Run(es[..n]), es[n]);
      }
    }
  }

  lemma RunSnoc(es: seq<Event>, e: Event)
    ensures Run(es + [e]) == Step(Run(es), e)
  {
    assert (es + [e])[..|es|] == es;
  }

  lemma {:induction false} MislabelForever(es: seq<Event>, later: seq<Event>)
    requires !OwnLabels(Run(es))
    ensures !OwnLabels(Run(es + later))
  {
    if later == [] {
      assert es + later == es;
    } else {
      var n := |later| - 1;
      MislabelForever(es, later[..n]);
      RunSound(es + later[..n]);
      assert es + later == (es + later[..n]) + [later[n]];
      RunSnoc(es + later[..n], later[n]);
      MislabelStays(Run(es + later[..n]), later[n]);
    }
  }

  /** In any run: a save persisted when the last accepted request carries another label is mislabelled,
      whatever happened between and whatever comes after. */
  lemma InterveningRequest(es: seq<Event>, k: nat, later: seq<Event>)
    requires k < |Run(es).attempts| && Succeeded in Run(es).attempts[k].endings
    requires k < |Requests(es)| && Requests(es)[k] != Requests(es)[|Requests(es)| - 1]
    ensures !OwnLabels(Run(es + [Persist(k)] + later))
  {
    RunSound(es);
    AttemptsAreRequests(es);
    RunSnoc(es, Persist(k));
    if OwnLabels(Run(es)) {
      StepOwnLabels(Run(es), Persist(k));
    } else {
      MislabelStays(Run(es), Persist(k));
    }
    MislabelForever(es + [Persist(k)], later);
  }

  lemma SaveRequested()
    ensures var b := Run([Join(1)] + [Request(1, "a")]);
      && b.joined == {1} && b.current.Some? && b.current.value.statuses.Keys == {1}
      && b.attempts == [Attempt("a", {1}, [], [])]
  {
    RunSnoc([], Join(1));
    assert [] + [Join(1)] == [Join(1)];
    var b := Run([Join(1)]);
    assert b.joined == {1} && b.current.None? && b.attempts == [];
    RunSnoc([Join(1)], Request(1, "a"));
    assert Step(b, Request(1, "a")).current.value.statuses.Keys == {1};
  }

  lemma SaveCloses()
    ensures var b := Run([Join(1)] + [Request(1, "a")] + [Progressed(1, true)]);
      && |b.attempts| == 1 && b.attempts[0].endings == [Succeeded] && b.attempts[0].name == "a"
      && b.current.None? && b.joined == {1}
  {
    SaveRequested();
    var b := Run([Join(1)] + [Request(1, "a")]);
    RunSnoc([Join(1)] + [Request(1, "a")], Progressed(1, true));
    var statuses := Reported(b.current.value, 1, true).statuses;
    assert statuses.Keys == {1} && statuses[1] == Complete;
    assert AllDone(statuses) && !AnyFailed(statuses);
  }

  /** Such a run exists. */
  lemma MislabelledSave()
    ensures !OwnLabels(Run([Join(1)] + [Request(1, "a")] + [Progressed(1, true)] + [Request(1, "b")] + [Persist(0)]))
  {
    SaveCloses();
    var es := [Join(1)] + [Request(1, "a")] + [Progressed(1, true)];
    RunSnoc(es, Request(1, "b"));
    RunSnoc(es + [Request(1, "b")], Persist(0));
    var b' := Step(Run(es), Request(1, "b"));
    assert b'.attempts[0] == Run(es).attempts[0];
    assert (0, "b") in Step(b', Persist(0)).saved;
  }

  // ---------------------------------------------------------------- participants that leave

  /** An operation waits for a report of `h`, who has resigned. */
  ghost predicate Stuck(b: Barrier, h: Handle) {
    b.current.Some? && h in b.current.value.statuses && !Done(b.current.value.statuses[h]) && h !in b.joined
  }

  lemma StepStuck(b: Barrier, e: Event, h: Handle)
    requires Stuck(b, h) && e != Join(h) && !e.Abort?
    ensures Stuck(Step(b, e), h) && |Step(b, e).attempts| == |b.attempts|
  {
    match e
    case Progressed(f, ok) =>
      if f in b.joined {
        var statuses := Reported(b.current.value, f, ok).statuses;
        assert h in statuses && !Done(statuses[h]);
      }
    case _ =>
  }

  /** Resigning leaves the status entry behind, and handles are not given out twice: in any run, an
      operation whose unreported participant has resigned goes on, and no other begins, until someone
      aborts it. */
  lemma {:induction false} StuckUntilAbort(es: seq<Event>, k: nat, h: Handle)
    requires k <= |es| && Stuck(Run(es[..k]), h)
    requires forall i :: k <= i < |es| ==> es[i] != Join(h) && !es[i].Abort?
    ensures Stuck(Run(es), h) && |Run(es).attempts| == |Run(es[..k]).attempts|
  {
    if k == |es| {
      assert es[..k] == es;
    } else {
      var n := |es| - 1;
      assert es[..n][..k] == es[..k];
      StuckUntilAbort(es[..n], k, h);
      StepStuck(Run(es[..n]), es[n], h);
    }
  }

  // ---------------------------------------------------------------- what begins and what ends

  /** An accepted request begins an operation of everyone joined, none of whom has reported. */
  lemma RequestBegins(b: Barrier, f: Handle, name: string)
    requires IsAccepted(b, Request(f, name))
    ensures var b' := Step(b, Request(f, name));
      && b'.attempts == b.attempts + [Attempt(name, b.joined, [], [])]
      && b'.current.Some? && b'.current.value.name == name
      && b'.current.value.statuses.Keys == b.joined
      && forall h :: h in b.joined ==> b'.current.value.statuses[h] == Initiated
  {
  }

  /** A report of any joined federate, participant or not, is added to the newest attempt. */
  lemma ReportTaken(es: seq<Event>, b: Barrier, f: Handle, ok: bool)
    requires b == Run(es) && f in b.joined && b.current.Some?
    ensures b.attempts != [] && |Step(b, Progressed(f, ok)).attempts| == |b.attempts|
    ensures var n := |b.attempts| - 1;
      Step(b, Progressed(f, ok)).attempts[n].reports == b.attempts[n].reports + [Report(f, ok)]
  {
    RunSound(es);
  }

  /** Who is not joined changes nothing but by joining. */
  lemma OutsidersIgnored(b: Barrier, e: Event)
    requires !e.Join? && !e.Resign? && !e.Persist? && e.f !in b.joined
    ensures Step(b, e) == b
  {
  }

  /** A report that the save has begun is taken once from each participant, and only before its verdict. */
  lemma BegunOnce(b: Barrier, f: Handle)
    requires f in b.joined && b.current.Some? && f in b.current.value.statuses
    ensures var b' := Step(b, SaveBegun(f));
      && b'.current.Some? && b'.current.value.statuses.Keys == b.current.value.statuses.Keys
      && (b.current.value.statuses[f] == Initiated ==> b'.current.value.statuses[f] == Begun)
      && (b.current.value.statuses[f] != Initiated ==> b' == b)
      && (forall h :: h in b.current.value.statuses && h != f ==>
            b'.current.value.statuses[h] == b.current.value.statuses[h])
      && Step(b', SaveBegun(f)) == b'
  {
  }

  /** An accepted abort leaves nothing in progress, and the attempt ends in that with its reports as
      they were. */
  lemma AbortEnds(es: seq<Event>, b: Barrier, f: Handle)
    requires b == Run(es) && f in b.joined && b.current.Some?
    ensures b.attempts != []
    ensures var b', n := Step(b, Abort(f)), |b.attempts| - 1;
      b'.current.None? && b'.attempts == b.attempts[n := b.attempts[n].(endings := [Aborted])]
  {
    RunSound(es);
    var a := b.attempts[|b.attempts| - 1];
    assert a.reports + [] == a.reports && a.endings + [Aborted] == [Aborted];
  }

  /** With nothing in progress, nothing begins but by a request. */
  lemma {:induction false} IdleUntilRequest(es: seq<Event>, later: seq<Event>)
    requires Run(es).current.None?
    requires forall i :: 0 <= i < |later| ==> !later[i].Request?
    ensures Run(es + later).current.None? && |Run(es + later).attempts| == |Run(es).attempts|
  {
    if later == [] {
      assert es + later == es;
    } else {
      var n := |later| - 1;
      IdleUntilRequest(es, later[..n]);
      assert es + later == (es + later[..n]) + [later[n]];
      RunSnoc(es + later[..n], later[n]);
    }
  }

  /** In any run: once an operation has been aborted, the next request of a joined federate with a label
      is accepted, whatever came between. */
  lemma AbortFrees(es: seq<Event>, f: Handle, later: seq<Event>, g: Handle, name: string)
    requires f in Run(es).joined && Run(es).current.Some?
    requires forall i :: 0 <= i < |later| ==> !later[i].Request?
    requires g in Run(es + [Abort(f)] + later).joined && name != ""
    ensures var b := Run(es + [Abort(f)] + later);
      && Run(es + [Abort(f)] + later + [Request(g, name)]).attempts == b.attempts + [Attempt(name, b.joined, [], [])]
      && |b.attempts| == |Run(es).attempts|
  {
    AbortEnds(es, Run(es), f);
    RunSnoc(es, Abort(f));
    IdleUntilRequest(es + [Abort(f)], later);
    RunSnoc(es + [Abort(f)] + later, Request(g, name));
    RequestBegins(Run(es + [Abort(f)] + later), g, name);
  }

  function OnMembership(e: Event, h: Handle): Word {
    if e == Join(h) then On else if e == Resign(h) then Off else Silent
  }

  function MembershipWords(es: seq<Event>, h: Handle): seq<Word> {
    if es == [] then [] else MembershipWords(es[..|es| - 1], h) + [OnMembership(es[|es| - 1], h)]
  }

  lemma StepJoined(b: Barrier, e: Event, h: Handle)
    ensures h in Step(b, e).joined <==> OnMembership(e, h) == On || (h in b.joined && OnMembership(e, h) == Silent)
  {
  }

  /** Over every run: those joined are those who joined and have not resigned since. */
  lemma {:induction false} RunJoined(es: seq<Event>, h: Handle)
    ensures h in Run(es).joined <==> LastlyOn(MembershipWords(es, h))
  {
    if es == [] {
    } else {
      var n := |es| - 1;
      RunJoined(es[..n], h);
      StepJoined(Run(es[..n]), es[n], h);
      OneMoreWord(MembershipWords(es[..n], h), OnMembership(es[n], h));
    }
  }

  // ---------------------------------------------------------------- the handlers, as they run

  datatype Reply = Accepted | NotMember | InvalidLabel | InProgress | NotInProgress | NotInitiated | NotInSet

  /** The handlers of save and restore; the history fields are ghost. */
  class Orchestrator {
    var joined: set<Handle>
    var current: Option<Operation>
    var lastLabel: Option<string>
    ghost var attempts: seq<Attempt>
    ghost var saved: seq<(nat, string)>

    constructor ()
      ensures State() == Run([])
    {
      joined, current, lastLabel := {}, None, None;
      attempts, saved := [], [];
    }

    ghost function State(): Barrier
      reads this
    {
      Barrier(joined, current, lastLabel, attempts, saved)
    }

    method RequestOperation(f: Handle, name: string) returns (reply: Reply)
      modifies this
      ensures State() == Step(old(State()), Request(f, name))
      ensures reply == if f !in joined then NotMember else if name == "" then InvalidLabel
                       else if old(current).Some? then InProgress else Accepted
    {
      if f !in joined {
        return NotMember;
      }
      if name == "" {
        return InvalidLabel;
      }
      if current.Some? {
        return InProgress;
      }
      current := Some(Operation(name, map h | h in joined :: Initiated));
      lastLabel := Some(name);
      attempts := attempts + [Attempt(name, joined, [], [])];
      return Accepted;
    }

    method FederateSaveBegun(f: Handle) returns (reply: Reply)
      modifies this
      ensures State() == Step(old(State()), SaveBegun(f))
      ensures reply == Accepted <==>
        f in joined && old(current).Some? && f in old(current).value.statuses &&
          old(current).value.statuses[f] == Initiated
    {
      if f !in joined {
        return NotMember;
      }
      if current.None? {
        return NotInProgress;
      }
      if f !in current.value.statuses {
        return NotInSet;
      }
      if !current.value.statuses[f].Initiated? {
        return NotInitiated;
      }
      current := Some(current.value.(statuses := current.value.statuses[f := Begun]));
      return Accepted;
    }

    /** `verdict` is what is announced to every federate, if anything is. */
    method FederateProgressed(f: Handle, ok: bool) returns (reply: Reply, verdict: Option<bool>)
      modifies this
      ensures State() == Step(old(State()), Progressed(f, ok))
      ensures reply == if f !in joined then NotMember else if old(current).None? then NotInProgress else Accepted
      ensures verdict.Some? <==> reply == Accepted && current.None?
      ensures verdict.Some? && old(attempts) != [] ==>
        attempts[|attempts| - 1].endings == old(attempts)[|attempts| - 1].endings + [if verdict.value then
          Succeeded else Failed]
    {
      if f !in joined {
        return NotMember, None;
      }
      if current.None? {
        return NotInProgress, None;
      }
      var o := Reported(current.value, f, ok);
      var allDone, anyFailed := Tally(o.statuses);
      if allDone {
        current := None;
        attempts := Note(attempts, [Report(f, ok)], [if anyFailed then Failed else Succeeded]);
        return Accepted, Some(!anyFailed);
      }
      current := Some(o);
      attempts := Note(attempts, [Report(f, ok)], []);
      return Accepted, None;
    }

    /** Reads the label back; `k` is the attempt whose closing led here. */
    method PersistOnSuccess(ghost k: nat) returns (name: Option<string>)
      requires k < |attempts| && Succeeded in attempts[k].endings
      modifies this`saved
      ensures State() == Step(old(State()), Persist(k)) && name == lastLabel
    {
      name := lastLabel;
      if name.Some? {
        saved := saved + [(k, name.value)];
      }
    }

    /** An accepted abort leaves nothing in progress and no report changed. */
    method AbortOperation(f: Handle) returns (reply: Reply)
      modifies this
      ensures State() == Step(old(State()), Abort(f))
      ensures reply == if f !in joined then NotMember else if old(current).None? then NotInProgress else Accepted
      ensures reply == Accepted ==> current.None?
      ensures reply == Accepted && old(attempts) != [] ==>
        var n := |old(attempts)| - 1;
        |attempts| == n + 1 && attempts[n].reports == old(attempts)[n].reports &&
        attempts[n].endings == old(attempts)[n].endings + [Aborted]
    {
      if f !in joined {
        return NotMember;
      }
      if current.None? {
        return NotInProgress;
      }
      current := None;
      attempts := Note(attempts, [], [Aborted]);
      return Accepted;
    }
  }

  /** One pass over the statuses, in any order. */
  method Tally(statuses: map<Handle, Status>) returns (allDone: bool, anyFailed: bool)
    ensures allDone <==> AllDone(statuses)
    ensures anyFailed <==> AnyFailed(statuses)
  {
    allDone, anyFailed := true, false;
    var rest := statuses.Keys;
    while rest != {}
      invariant rest <= statuses.Keys
      invariant allDone <==> forall h :: h in statuses && h !in rest ==> Done(statuses[h])
      invariant anyFailed <==> exists h :: h in statuses && h !in rest && statuses[h].NotComplete?
      decreases |rest|
    {
      var h :| h in rest;
      rest := rest - {h};
      allDone := allDone && Done(statuses[h]);
      anyFailed := anyFailed || statuses[h].NotComplete?;
    }
  }
}
