/**
 Synchronization points: a label, a set of participants, and completion when everyone of them has
 reported.
 */
module SyncPoints {
  import opened Options

  type Handle = nat

  datatype Report = Report(f: Handle, ok: bool)

  /** `reports` is history: who called `achieved`, and with what success flag. */
  datatype SyncPoint = SyncPoint(participants: set<Handle>, achieved: set<Handle>, failed: set<Handle>,
    reports: seq<Report>)

  datatype Outcome = NotAnnounced | NotInGroup | Waiting(sp: SyncPoint) | Synchronized(sp: SyncPoint)

  /** An absent or empty subset stands for everyone joined. */
  function Opened(joined: set<Handle>, subset: Option<set<Handle>>): SyncPoint {
    SyncPoint(if subset.Some? && subset.value != {} then subset.value else joined, {}, {}, [])
  }

  /** One federate reports; the point completes by comparing two sizes. */
  function Achieve(sp: SyncPoint, f: Handle, ok: bool): Outcome {
    if f !in sp.participants then NotInGroup
    else
      var sp' := SyncPoint(sp.participants, sp.achieved + {f}, if ok then sp.failed else
        sp.failed + {f}, sp.reports + [Report(f, ok)]);
      if |sp'.achieved| == |sp'.participants| then Synchronized(sp') else Waiting(sp')
  }

  /** An open point: `achieved` is who reported and `failed` who ever reported failure. */
  ghost predicate Kept(sp: SyncPoint) {
    && sp.achieved <= sp.participants
    && (forall f :: f in sp.achieved <==> exists r :: r in sp.reports && r.f == f)
    && (forall f :: f in sp.failed <==> Report(f, false) in sp.reports)
  }

  lemma SameSize<T>(a: set<T>, b: set<T>)
    requires a <= b && |a| == |b|
    ensures a == b
  {
    assert b == a + (b - a);
    assert |b| == |a| + |b - a|;
  }

  /** The size test is exact: a point completes at precisely the report with which everyone has
      reported, and names precisely those who ever reported failure. */
  lemma AchieveMeaning(sp: SyncPoint, f: Handle, ok: bool)
    requires Kept(sp)
    ensures Achieve(sp, f, ok).NotInGroup? <==> f !in sp.participants
    ensures Achieve(sp, f, ok).Waiting? ==> Kept(Achieve(sp, f, ok).sp)
    ensures Achieve(sp, f, ok).Synchronized? <==> f in sp.participants && sp.achieved + {f} == sp.participants
    ensures Achieve(sp, f, ok).Synchronized? ==>
      forall h :: h in Achieve(sp, f, ok).sp.failed <==> Report(h, false) in sp.reports + [Report(f, ok)]
  {
    if f in sp.participants {
      var achieved := sp.achieved + {f};
      if |achieved| == |sp.participants| {
        SameSize(achieved, sp.participants);
      }
    }
  }

  type SyncPoints = map<string, SyncPoint>

  datatype SyncEvent =
    | RegisterPoint(name: string, joined: set<Handle>, subset: Option<set<Handle>>)
    | Achieved(name: string, f: Handle, ok: bool)

  function SyncStep(points: SyncPoints, e: SyncEvent): SyncPoints {
    match e
    case RegisterPoint(name, joined, subset) =>
      if name == "" || name in points then points else points[name := Opened(joined, subset)]
    case Achieved(name, f, ok) =>
      if name !in points then points
      else
        match Achieve(points[name], f, ok)
        case Waiting(sp) => points[name := sp]
        case Synchronized(_) => points - {name}
        case _ => points
  }

  function SyncRun(es: seq<SyncEvent>): SyncPoints {
    if es == [] then map[] else SyncStep(SyncRun(es[..|es| - 1]), es[|es| - 1])
  }

  /** In every run, every open point records its reports, so the size test stays exact. */
  lemma {:induction false} SyncRunKept(es: seq<SyncEvent>)
    ensures forall l :: l in SyncRun(es) ==> Kept(SyncRun(es)[l])
  {
    if es == [] {
    } else {
      SyncRunKept(es[..|es| - 1]);
      match es[|es| - 1]
      case Achieved(name, f, ok) =>
        if name in SyncRun(es[..|es| - 1]) {
          AchieveMeaning(SyncRun(es[..|es| - 1])[name], f, ok);
        }
      case _ =>
    }
  }

  // ---------------------------------------------------------------- an open point, from its registration on

  /** Who a registration is for: a subset that was named, or else everyone joined. */
  ghost predicate Invites(e: SyncEvent, who: set<Handle>) {
    && e.RegisterPoint?
    && (e.subset.Some? && e.subset.value != {} ==> who == e.subset.value)
    && (e.subset.None? || e.subset == Some({}) ==> who == e.joined)
  }

  /** The reports of `who` on a label among the events, in order. */
  function ReportsFor(es: seq<SyncEvent>, name: string, who: set<Handle>): seq<Report> {
    if es == [] then []
    else
      var e := es[|es| - 1];
      ReportsFor(es[..|es| - 1], name, who) +
      if e.Achieved? && e.name == name && e.f in who then [Report(e.f, e.ok)] else []
  }

  /** The point opened at position `k` of the run is the one that is open under `name` at its end. */
  ghost predicate OpenSince(es: seq<SyncEvent>, k: nat, name: string, sp: SyncPoint) {
    && k < |es|
    && es[k].RegisterPoint? && es[k].name == name && name != "" && name !in SyncRun(es[..k])
    && Invites(es[k], sp.participants)
    && sp.reports == ReportsFor(es[k + 1..], name, sp.participants)
    && (sp.reports != [] ==> sp.achieved != sp.participants)
  }

  lemma StepPoint(points: SyncPoints, e: SyncEvent, name: string)
    requires name in points && name in SyncStep(points, e) && Kept(points[name])
    ensures var sp, sp' := points[name], SyncStep(points, e)[name];
      && sp'.participants == sp.participants
      && sp'.reports == sp.reports + ReportsFor([e], name, sp.participants)
      && (sp'.reports != sp.reports ==> sp'.achieved != sp'.participants)
      && (sp'.reports == sp.reports ==> sp' == sp)
  {
    var sp := points[name];
    assert [e][..0] == [];
    assert ReportsFor([e][..0], name, sp.participants) == [];
    if e.Achieved? && e.name == name {
      AchieveMeaning(sp, e.f, e.ok);
    }
  }

  lemma ReportsOneMore(es: seq<SyncEvent>, e: SyncEvent, name: string, who: set<Handle>)
    ensures ReportsFor(es + [e], name, who) == ReportsFor(es, name, who) + ReportsFor([e], name, who)
  {
    assert (es + [e])[..|es|] == es && [e][..0] == [];
    assert ReportsFor([e][..0], name, who) == [];
  }

  lemma StaysOpen(es: seq<SyncEvent>, e: SyncEvent, k: nat, name: string)
    requires name in SyncRun(es) && OpenSince(es, k, name, SyncRun(es)[name])
    requires name in SyncStep(SyncRun(es), e)
    ensures OpenSince(es + [e], k, name, SyncStep(SyncRun(es), e)[name])
  {
    SyncRunKept(es);
    StepPoint(SyncRun(es), e, name);
    assert (es + [e])[..k] == es[..k] && (es + [e])[k + 1..] == es[k + 1..] + [e];
    ReportsOneMore(es[k + 1..], e, name, SyncRun(es)[name].participants);
  }

  lemma Opens(es: seq<SyncEvent>, e: SyncEvent, name: string)
    requires name !in SyncRun(es) && name in SyncStep(SyncRun(es), e)
    ensures OpenSince(es + [e], |es|, name, SyncStep(SyncRun(es), e)[name])
  {
    assert (es + [e])[..|es|] == es && (es + [e])[|es| + 1..] == [];
  }

  /** Over every run: an open point goes back to a registration of its label that found it free; its
      participants are the subset named there, or everyone joined; it holds their reports since, in
      order, and not all of them have reported. */
  lemma {:induction false} RunPoint(es: seq<SyncEvent>, name: string) returns (k: nat)
    requires name in SyncRun(es)
    ensures OpenSince(es, k, name, SyncRun(es)[name])
  {
    var before, e := es[..|es| - 1], es[|es| - 1];
    assert es == before + [e];
    if name in SyncRun(before) {
      k := RunPoint(before, name);
      StaysOpen(before, e, k, name);
    } else {
      k := |before|;
      Opens(before, e, name);
    }
  }

  /** A registration with a label opens a point exactly if none is open under it, and touches no other. */
  lemma RegistrationOpens(points: SyncPoints, e: SyncEvent, name: string)
    requires e.RegisterPoint?
    ensures name in SyncStep(points, e) <==> name in points || (name == e.name && name != "")
    ensures name in points ==> SyncStep(points, e)[name] == points[name]
  {
  }

  /** A point leaves the table exactly with the report of a participant after which all have reported. */
  lemma RunCloses(es: seq<SyncEvent>, e: SyncEvent, name: string, sp: SyncPoint)
    requires name in SyncRun(es) && sp == SyncRun(es)[name]
    ensures name !in SyncStep(SyncRun(es), e) <==>
      && e.Achieved? && e.name == name && e.f in sp.participants
      && forall h :: h in sp.participants ==> h == e.f || exists r :: r in sp.reports && r.f == h
  {
    SyncRunKept(es);
    StepCloses(SyncRun(es), e, name);
    if e.Achieved? {
      AllButOne(sp, e.f);
    }
  }

  lemma StepCloses(points: SyncPoints, e: SyncEvent, name: string)
    requires name in points && Kept(points[name])
    ensures name !in SyncStep(points, e) <==>
      e.Achieved? && e.name == name && e.f in points[name].participants &&
      points[name].achieved + {e.f} == points[name].participants
  {
    if e.Achieved? && e.name == name {
      AchieveMeaning(points[name], e.f, e.ok);
    }
  }

  lemma AllButOne(sp: SyncPoint, f: Handle)
    requires Kept(sp)
    ensures f in sp.participants ==>
      (sp.achieved + {f} == sp.participants <==>
       forall h :: h in sp.participants ==> h == f || exists r :: r in sp.reports && r.f == h)
  {
  }

  // ---------------------------------------------------------------- the handlers, as they run

  class SyncManager {
    var points: SyncPoints

    constructor ()
      ensures points == SyncRun([])
    {
      points := map[];
    }

    method RegisterSynchronizationPoint(name: string, joined: set<Handle>, subset: Option<set<Handle>>)
      returns (inserted: bool)
      modifies this
      ensures points == SyncStep(old(points), RegisterPoint(name, joined, subset))
      ensures inserted <==> name != "" && name !in old(points)
    {
      if name == "" || name in points {
        return false;
      }
      points := points[name := Opened(joined, subset)];
      return true;
    }

    method SynchronizationPointAchieved(name: string, f: Handle, ok: bool) returns (r: Outcome)
      modifies this
      ensures points == SyncStep(old(points), Achieved(name, f, ok))
      ensures r == if name !in old(points) then NotAnnounced else Achieve(old(points)[name], f, ok)
    {
      if name !in points {
        return NotAnnounced;
      }
      var sp := points[name];
      if f !in sp.participants {
        return NotInGroup;
      }
      sp := sp.(achieved := sp.achieved + {f}, reports := sp.reports + [Report(f, ok)]);
      if !ok {
        sp := sp.(failed := sp.failed + {f});
      }
      if |sp.achieved| == |sp.participants| {
        points := points - {name};
        return Synchronized(sp);
      }
      points := points[name := sp];
      return Waiting(sp);
    }
  }
}
