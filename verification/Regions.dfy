/**
 Data distribution management (clause 9 of IEEE 1516.1): regions with staged and committed bounds,
 and region overlap.
 */
module Regions {
  type Handle = nat
  type Dim = nat
  type RegionId = nat

  /** Inclusive bounds of a range. */
  datatype Range = Range(lower: nat, upper: nat)

  type Bounds = map<Dim, Range>

  const FULL := Range(0, 0xFFFF_FFFF)

  datatype Region = Region(owner: Handle, committed: Bounds, staged: Bounds)

  datatype RegionTable = RegionTable(next: RegionId, regions: map<RegionId, Region>)

  // ---------------------------------------------------------------- overlap

  predicate WellBounded(b: Bounds) {
    forall d :: d in b ==> b[d].lower <= b[d].upper
  }

  /** On every dimension both regions bound, the ranges meet. */
  predicate Overlap(p: Bounds, s: Bounds) {
    forall d :: d in p && d in s ==> p[d].lower <= s[d].upper && s[d].lower <= p[d].upper
  }

  /** A point of the routing space, given by its coordinates, lies in a region; an absent dimension
      does not restrict it. */
  ghost predicate Contains(b: Bounds, point: map<Dim, nat>) {
    forall d :: d in b ==> d in point && b[d].lower <= point[d] <= b[d].upper
  }

  ghost function CommonPoint(p: Bounds, s: Bounds): map<Dim, nat> {
    map d | d in p.Keys + s.Keys ::
      if d in p && (d in s ==> s[d].lower <= p[d].lower) then p[d].lower else s[d].lower
  }

  /** Two regions are judged to overlap exactly when some point lies in both. */
  lemma OverlapMeaning(p: Bounds, s: Bounds)
    requires WellBounded(p) && WellBounded(s)
    ensures Overlap(p, s) <==> exists point :: Contains(p, point) && Contains(s, point)
  {
    if Overlap(p, s) {
      assert Contains(p, CommonPoint(p, s)) && Contains(s, CommonPoint(p, s));
    }
  }

  /** Some pair overlaps; without regions on one side there is no restriction.  Deleted regions
      match nothing. */
  predicate OverlapAny(regions: map<RegionId, Region>, pubs: set<RegionId>, subs: set<RegionId>) {
    || pubs == {}
    || subs == {}
    || exists p, s :: p in pubs && s in subs && p in regions && s in regions &&
                      Overlap(regions[p].committed, regions[s].committed)
  }

  // ---------------------------------------------------------------- lifecycle

  datatype Event =
    | Create(f: Handle, dims: set<Dim>)
    | SetBounds(f: Handle, r: RegionId, d: Dim, bounds: Range)
    | Commit(f: Handle, rs: seq<RegionId>)
    | Delete(f: Handle, r: RegionId)

  /** Regions are committed in turn; the first one of another owner stops the call, and what was
      committed before it stays. */
  function CommitAll(regions: map<RegionId, Region>, f: Handle, rs: seq<RegionId>): map<RegionId, Region>
    decreases |rs|
  {
    if rs == [] then regions
    else
      var r := rs[0];
      if r !in regions then CommitAll(regions, f, rs[1..])
      else if regions[r].owner != f then regions
      else CommitAll(regions[r := regions[r].(committed := regions[r].staged)], f, rs[1..])
  }

  function Step(t: RegionTable, e: Event): RegionTable {
    match e
    case Create(f, dims) =>
      var b: Bounds := map d | d in dims :: FULL;
      t.(next := t.next + 1, regions := t.regions[t.next := Region(f, b, b)])
    case SetBounds(f, r, d, bounds) =>
      if bounds.lower > bounds.upper || r !in t.regions || t.regions[r].owner != f then t
      else t.(regions := t.regions[r := t.regions[r].(staged := t.regions[r].staged[d := bounds])])
    case Commit(f, rs) => t.(regions := CommitAll(t.regions, f, rs))
    case Delete(f, r) =>
      if r !in t.regions || t.regions[r].owner != f then t else t.(regions := t.regions - {r})
  }

  function Run(es: seq<Event>): RegionTable {
    if es == [] then RegionTable(1, map[]) else Step(Run(es[..|es| - 1]), es[|es| - 1])
  }

  ghost predicate AllBounded(regions: map<RegionId, Region>) {
    forall r :: r in regions ==> WellBounded(regions[r].committed) && WellBounded(regions[r].staged)
  }

  lemma {:induction false} CommitBounded(regions: map<RegionId, Region>, f: Handle, rs: seq<RegionId>)
    requires AllBounded(regions)
    ensures AllBounded(CommitAll(regions, f, rs))
    decreases |rs|
  {
    if rs == [] {
    } else {
      var r := rs[0];
      if r !in regions {
        CommitBounded(regions, f, rs[1..]);
      } else if regions[r].owner == f {
        CommitBounded(regions[r := regions[r].(committed := regions[r].staged)], f, rs[1..]);
      }
    }
  }

  /** In every run, every committed and staged range has its lower bound at or below its upper. */
  lemma {:induction false} RunBounded(es: seq<Event>)
    ensures AllBounded(Run(es).regions)
  {
    if es == [] {
    } else {
      RunBounded(es[..|es| - 1]);
      match es[|es| - 1]
      case Commit(f, rs) => CommitBounded(Run(es[..|es| - 1]).regions, f, rs);
      case _ =>
    }
  }

  /** Staging bounds changes no match until they are committed. */
  lemma StagedInvisible(t: RegionTable, f: Handle, r: RegionId, d: Dim, bounds: Range, pubs: set<RegionId>,
          subs: set<RegionId>)
    ensures OverlapAny(Step(t, SetBounds(f, r, d, bounds)).regions, pubs, subs) == OverlapAny(t.regions, pubs, subs)
  {
    var t' := Step(t, SetBounds(f, r, d, bounds));
    assert t'.regions.Keys == t.regions.Keys;
    assert forall k :: k in t.regions ==> t'.regions[k].committed == t.regions[k].committed;
  }

  /** Where a commit stops: the first region listed that exists and is another's. */
  function FirstForeign(regions: map<RegionId, Region>, f: Handle, rs: seq<RegionId>): (k: nat)
    ensures k <= |rs|
    ensures forall i :: 0 <= i < k && rs[i] in regions ==> regions[rs[i]].owner == f
    ensures k < |rs| ==> rs[k] in regions && regions[rs[k]].owner != f
  {
    if rs == [] || (rs[0] in regions && regions[rs[0]].owner != f) then 0 else 1 + FirstForeign(regions, f, rs[1..])
  }

  lemma {:induction false} ForeignByOwner(regions: map<RegionId, Region>, regions': map<RegionId, Region>, f: Handle,
          rs: seq<RegionId>)
    requires regions.Keys == regions'.Keys
    requires forall r :: r in regions ==> regions[r].owner == regions'[r].owner
    ensures FirstForeign(regions, f, rs) == FirstForeign(regions', f, rs)
  {
    if rs == [] {
    } else {
      ForeignByOwner(regions, regions', f, rs[1..]);
    }
  }

  /** A commit, refused or not, puts the staged bounds in force of exactly the regions listed before
      the first one that is another's, and touches nothing else. */
  lemma {:induction false} CommitMeaning(regions: map<RegionId, Region>, f: Handle, rs: seq<RegionId>, r: RegionId)
    ensures CommitAll(regions, f, rs).Keys == regions.Keys
    ensures r in regions && r in rs[..FirstForeign(regions, f, rs)] ==>
      CommitAll(regions, f, rs)[r] == regions[r].(committed := regions[r].staged)
    ensures r in regions && r !in rs[..FirstForeign(regions, f, rs)] ==> CommitAll(regions, f, rs)[r] == regions[r]
    decreases |rs|
  {
    if rs == [] {
    } else if rs[0] in regions && regions[rs[0]].owner != f {
    } else {
      var k := rs[0];
      var regions' := if k in regions then regions[k := regions[k].(committed := regions[k].staged)] else regions;
      CommitMeaning(regions', f, rs[1..], r);
      ForeignByOwner(regions, regions', f, rs[1..]);
      var n := FirstForeign(regions, f, rs[1..]);
      assert rs[..n + 1] == [k] + rs[1..][..n];
    }
  }

  // ---------------------------------------------------------------- what the calls achieve

  /** A new region has an id nobody had, belongs to the caller, and holds every point whose coordinates on
      its dimensions are 32-bit numbers. */
  lemma CreateMeaning(es: seq<Event>, t: RegionTable, f: Handle, dims: set<Dim>, point: map<Dim, nat>)
    requires t == Run(es)
    ensures var t' := Step(t, Create(f, dims));
      && t.next !in t.regions && t'.regions.Keys == t.regions.Keys + {t.next}
      && (forall r :: r in t.regions ==> t'.regions[r] == t.regions[r])
      && t'.regions[t.next].owner == f && t'.regions[t.next].staged == t'.regions[t.next].committed
      && (Contains(t'.regions[t.next].committed, point) <==>
            forall d :: d in dims ==> d in point && point[d] <= 0xFFFF_FFFF)
  {
    RunFresh(es);
    var b := Step(t, Create(f, dims)).regions[t.next].committed;
    assert b.Keys == dims;
  }

  lemma {:induction false} CommitKeys(regions: map<RegionId, Region>, f: Handle, rs: seq<RegionId>)
    ensures CommitAll(regions, f, rs).Keys == regions.Keys
  {
    if rs == [] {
    } else {
      CommitMeaning(regions, f, rs, rs[0]);
    }
  }

  lemma {:induction false} RunFresh(es: seq<Event>)
    ensures forall r :: r in Run(es).regions ==> r < Run(es).next
  {
    if es == [] {
    } else {
      RunFresh(es[..|es| - 1]);
      match es[|es| - 1]
      case Commit(f, rs) => CommitKeys(Run(es[..|es| - 1]).regions, f, rs);
      case _ =>
    }
  }

  predicate IsOwn(t: RegionTable, f: Handle, r: RegionId) {
    r in t.regions && t.regions[r].owner == f
  }

  /** Bounds given by the owner are staged, on that dimension only and without effect on what is in force;
      bounds the wrong way round, or given by another, change nothing. */
  lemma SetBoundsMeaning(t: RegionTable, f: Handle, r: RegionId, d: Dim, bounds: Range)
    ensures var t' := Step(t, SetBounds(f, r, d, bounds));
      if IsOwn(t, f, r) && bounds.lower <= bounds.upper then
        && t'.next == t.next && t'.regions.Keys == t.regions.Keys
        && (forall k :: k in t.regions && k != r ==> t'.regions[k] == t.regions[k])
        && t'.regions[r].owner == f && t'.regions[r].committed == t.regions[r].committed
        && t'.regions[r].staged.Keys == t.regions[r].staged.Keys + {d} && t'.regions[r].staged[d] == bounds
        && forall k :: k in t.regions[r].staged && k != d ==> t'.regions[r].staged[k] == t.regions[r].staged[k]
      else t' == t
  {
  }

  /** The staged bound of `r` on `d` is `bounds`, and `f` owns `r`. */
  ghost predicate IsStaged(t: RegionTable, f: Handle, r: RegionId, d: Dim, bounds: Range) {
    IsOwn(t, f, r) && d in t.regions[r].staged && t.regions[r].staged[d] == bounds
  }

  lemma StagedStep(t: RegionTable, e: Event, f: Handle, r: RegionId, d: Dim, bounds: Range)
    requires IsStaged(t, f, r, d, bounds) && r < t.next
    requires !(e.SetBounds? && e.r == r && e.d == d) && !(e.Delete? && e.r == r)
    ensures IsStaged(Step(t, e), f, r, d, bounds)
  {
    match e
    case Commit(g, rs) => CommitMeaning(t.regions, g, rs, r);
    case _ =>
  }

  lemma {:induction false} StagedWaits(es: seq<Event>, later: seq<Event>, f: Handle, r: RegionId, d: Dim, bounds: Range)
    requires IsStaged(Run(es), f, r, d, bounds)
    requires forall i :: 0 <= i < |later| ==>
      !(later[i].SetBounds? && later[i].r == r && later[i].d == d) && !(later[i].Delete? && later[i].r == r)
    ensures IsStaged(Run(es + later), f, r, d, bounds)
  {
    if later == [] {
      assert es + later == es;
    } else {
      var n := |later| - 1;
      StagedWaits(es, later[..n], f, r, d, bounds);
      assert es + later == (es + later[..n]) + [later[n]];
      assert ((es + later[..n]) + [later[n]])[..|es| + n] == es + later[..n];
      RunFresh(es + later[..n]);
      StagedStep(Run(es + later[..n]), later[n], f, r, d, bounds);
    }
  }

  /** In any run: bounds an owner sets come into force with the next commit that gets as far as the
      region, whatever is done between other than setting them anew or deleting the region. */
  lemma BoundsTakeEffect(es: seq<Event>, later: seq<Event>, f: Handle, r: RegionId, d: Dim, bounds: Range,
                         g: Handle, rs: seq<RegionId>)
    requires IsOwn(Run(es), f, r) && bounds.lower <= bounds.upper
    requires forall i :: 0 <= i < |later| ==>
      !(later[i].SetBounds? && later[i].r == r && later[i].d == d) && !(later[i].Delete? && later[i].r == r)
    requires var t := Run(es + [SetBounds(f, r, d, bounds)] + later); r in rs[..FirstForeign(t.regions, g, rs)]
    ensures var t := Step(Run(es + [SetBounds(f, r, d, bounds)] + later), Commit(g, rs));
      r in t.regions && d in t.regions[r].committed && t.regions[r].committed[d] == bounds
  {
    var set_ := es + [SetBounds(f, r, d, bounds)];
    assert set_[..|es|] == es;
    SetBoundsMeaning(Run(es), f, r, d, bounds);
    StagedWaits(set_, later, f, r, d, bounds);
    CommitMeaning(Run(set_ + later).regions, g, rs, r);
  }

  /** A region its owner deletes is gone, and matches nothing unless the other side names no regions. */
  lemma DeletedIsGone(t: RegionTable, f: Handle, r: RegionId, subs: set<RegionId>)
    requires IsOwn(t, f, r)
    ensures var t' := Step(t, Delete(f, r));
      && t'.regions.Keys == t.regions.Keys - {r} && (forall k :: k in t'.regions ==> t'.regions[k] == t.regions[k])
      && (OverlapAny(t'.regions, {r}, subs) <==> subs == {}) && (OverlapAny(t'.regions, subs, {r}) <==> subs == {})
  {
  }

  // ---------------------------------------------------------------- the lifecycle, as it runs

  class RegionManager {
    var next: RegionId
    var regions: map<RegionId, Region>

    constructor ()
      ensures State() == Run([])
    {
      next, regions := 1, map[];
    }

    function State(): RegionTable
      reads this
    {
      RegionTable(next, regions)
    }

    method CreateRegion(f: Handle, dims: set<Dim>) returns (r: RegionId)
      modifies this
      ensures State() == Step(old(State()), Create(f, dims)) && r == old(next)
    {
      var b: Bounds := map d | d in dims :: FULL;
      r := next;
      next := next + 1;
      regions := regions[r := Region(f, b, b)];
    }

    method SetRangeBounds(f: Handle, r: RegionId, d: Dim, bounds: Range) returns (ok: bool)
      modifies this
      ensures State() == Step(old(State()), SetBounds(f, r, d, bounds))
      ensures ok <==> bounds.lower <= bounds.upper && r in old(regions) && old(regions)[r].owner == f
    {
      if bounds.lower > bounds.upper || r !in regions || regions[r].owner != f {
        return false;
      }
      regions := regions[r := regions[r].(staged := regions[r].staged[d := bounds])];
      return true;
    }

    method CommitRegionModifications(f: Handle, rs: seq<RegionId>) returns (ok: bool)
      modifies this
      ensures State() == Step(old(State()), Commit(f, rs))
      ensures ok <==> FirstForeign(old(regions), f, rs) == |rs|
    {
      var k := 0;
      assert rs[0..] == rs;
      while k < |rs|
        invariant 0 <= k <= |rs| && next == old(next)
        invariant CommitAll(regions, f, rs[k..]) == CommitAll(old(regions), f, rs)
        invariant regions.Keys == old(regions).Keys
        invariant forall r :: r in regions ==> regions[r].owner == old(regions)[r].owner
        invariant forall i :: 0 <= i < k && rs[i] in old(regions) ==> old(regions)[rs[i]].owner == f
      {
        var r := rs[k];
        assert rs[k..][1..] == rs[k + 1..];
        if r in regions {
          if regions[r].owner != f {
            return false;
          }
          regions := regions[r := regions[r].(committed := regions[r].staged)];
        }
        k := k + 1;
      }
      return true;
    }

    method DeleteRegion(f: Handle, r: RegionId) returns (ok: bool)
      modifies this
      ensures State() == Step(old(State()), Delete(f, r))
      ensures ok <==> r in old(regions) && old(regions)[r].owner == f
    {
      if r !in regions || regions[r].owner != f {
        return false;
      }
      regions := regions - {r};
      return true;
    }
  }
}
