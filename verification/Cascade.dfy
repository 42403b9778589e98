/**
 The grant cascade: it ends, the bound only rises, it stops with nothing left to grant, and it
 reaches the one state that granting federates one at a time, in any order, also reaches.
 */
module Cascades {
  import opened Options
  import opened LogicalTime
  import opened TimeModel

  ghost predicate WellTimed(f: Federate) {
    f.pending.Some? ==> f.now <= f.pending.value
  }

  ghost predicate AllWellTimed(fs: Federates) {
    forall h :: h in fs ==> WellTimed(fs[h])
  }

  /** No pending advance can be granted under the current bound. */
  ghost predicate Settled(add: Addition, fs: Federates) {
    Ready(Lbts(add, fs), fs) == {}
  }

  /** If every regulator of `gs` is a regulator of `fs` that has not fallen back, the bound has
      not fallen. */
  lemma LbtsRises(add: Addition, fs: Federates, gs: Federates)
    requires forall h :: h in gs && gs[h].regulating ==>
      h in fs && fs[h].regulating && Leq(Contribution(add, fs[h]), Contribution(add, gs[h]))
    ensures Leq(Lbts(add, fs), Lbts(add, gs))
  {
    var a, b := Lbts(add, fs), Lbts(add, gs);
    if !b.PosInf? {
      var h :| h in gs && gs[h].regulating && b == Contribution(add, gs[h]);
      assert Leq(a, Contribution(add, fs[h]));
    }
  }

  lemma ContributionRises(add: Addition, f: Federate, g: Federate)
    requires f.now <= g.now && f.lookahead <= g.lookahead
    ensures Leq(Contribution(add, f), Contribution(add, g))
  {
    assert Monotone(add, f.now, g.now, f.lookahead, g.lookahead);
  }

  lemma GrantsRaiseLbts(add: Addition, fs: Federates, hs: set<Handle>, ks: set<Handle>)
    requires AllWellTimed(fs)
    requires hs <= ks
    ensures Leq(Lbts(add, GrantAll(fs, hs)), Lbts(add, GrantAll(fs, ks)))
  {
    var as_, bs := GrantAll(fs, hs), GrantAll(fs, ks);
    forall h | h in bs
      ensures Leq(Contribution(add, as_[h]), Contribution(add, bs[h]))
    {
      ContributionRises(add, as_[h], bs[h]);
    }
    LbtsRises(add, as_, bs);
  }

  lemma GrantNone(fs: Federates)
    ensures GrantAll(fs, {}) == fs
  {
  }

  lemma GrantTwice(fs: Federates, hs: set<Handle>, ks: set<Handle>)
    ensures GrantAll(GrantAll(fs, hs), ks) == GrantAll(fs, hs + ks)
  {
  }

  lemma GrantsWellTimed(fs: Federates, hs: set<Handle>)
    requires AllWellTimed(fs)
    ensures AllWellTimed(GrantAll(fs, hs))
  {
  }

  // ---------------------------------------------------------------- the cascade as a set of grants

  /** The federates whose pending advance the cascade grants. */
  ghost function GrantedBy(add: Addition, fs: Federates): set<Handle> {
    Pending(fs) - Pending(Cascade(add, fs))
  }

  lemma ReadyArePending(b: Stamp, fs: Federates)
    ensures Ready(b, fs) <= Pending(fs)
  {
  }

  lemma GrantsTell(fs: Federates, hs: set<Handle>)
    requires hs <= Pending(fs)
    ensures Pending(fs) - Pending(GrantAll(fs, hs)) == hs
  {
    PendingFalls(fs, hs);
  }

  lemma CascadeGrants(add: Addition, fs: Federates)
    ensures Cascade(add, fs) == GrantAll(fs, GrantedBy(add, fs))
    ensures Ready(Lbts(add, fs), fs) <= GrantedBy(add, fs)
  {
    var hs := CascadeAsSet(add, fs);
    GrantsTell(fs, hs);
  }

  lemma {:induction false} CascadeAsSet(add: Addition, fs: Federates) returns (hs: set<Handle>)
    ensures Cascade(add, fs) == GrantAll(fs, hs)
    ensures Ready(Lbts(add, fs), fs) <= hs <= Pending(fs)
    decreases |Pending(fs)|
  {
    var b := Lbts(add, fs);
    hs := Ready(b, fs);
    ReadyArePending(b, fs);
    if hs == {} {
      GrantNone(fs);
    } else {
      var fs' := GrantAll(fs, hs);
      PendingFalls(fs, hs);
      if Less(b, Lbts(add, fs')) {
        var rest := CascadeAsSet(add, fs');
        GrantTwice(fs, hs, rest);
        hs := hs + rest;
      }
    }
  }

  /** The bound never falls during the cascade, and it ends with nothing left to grant. */
  lemma {:induction false} CascadeSettles(add: Addition, fs: Federates)
    requires AllWellTimed(fs)
    ensures AllWellTimed(Cascade(add, fs))
    ensures Leq(Lbts(add, fs), Lbts(add, Cascade(add, fs)))
    ensures Settled(add, Cascade(add, fs))
    decreases |Pending(fs)|
  {
    var b := Lbts(add, fs);
    var ready := Ready(b, fs);
    if ready != {} {
      var fs' := GrantAll(fs, ready);
      PendingFalls(fs, ready);
      GrantNone(fs);
      GrantsRaiseLbts(add, fs, {}, ready);
      if Less(b, Lbts(add, fs')) {
        CascadeSettles(add, fs');
      } else {
        assert Lbts(add, fs') == b;
        assert Ready(b, fs') <= Pending(fs') * Ready(b, fs);
      }
    }
  }

  /** What is ready now is granted in every settled outcome. */
  lemma ReadyInEverySettled(add: Addition, fs: Federates, hs: set<Handle>)
    requires AllWellTimed(fs)
    requires Settled(add, GrantAll(fs, hs))
    ensures Ready(Lbts(add, fs), fs) <= hs
  {
    GrantNone(fs);
    GrantsRaiseLbts(add, fs, {}, hs);
    StaysReady(add, fs, hs);
  }

  lemma StaysReady(add: Addition, fs: Federates, hs: set<Handle>)
    requires Leq(Lbts(add, fs), Lbts(add, GrantAll(fs, hs)))
    ensures Ready(Lbts(add, fs), fs) - hs <= Ready(Lbts(add, GrantAll(fs, hs)), GrantAll(fs, hs))
  {
    var end := GrantAll(fs, hs);
    forall h | h in Ready(Lbts(add, fs), fs) - hs
      ensures h in Ready(Lbts(add, end), end)
    {
      assert end[h] == fs[h];
    }
  }

  /** The cascade grants no more than any settled outcome does. */
  lemma {:induction false} CascadeIsLeast(add: Addition, fs: Federates, hs: set<Handle>)
    requires AllWellTimed(fs)
    requires Settled(add, GrantAll(fs, hs))
    ensures GrantedBy(add, fs) <= hs
    decreases |Pending(fs)|
  {
    var b := Lbts(add, fs);
    var ready := Ready(b, fs);
    ReadyInEverySettled(add, fs, hs);
    ReadyArePending(b, fs);
    if ready != {} {
      var fs' := GrantAll(fs, ready);
      PendingFalls(fs, ready);
      if Less(b, Lbts(add, fs')) {
        GrantTwice(fs, ready, hs);
        assert ready + hs == hs;
        GrantsWellTimed(fs, ready);
        CascadeIsLeast(add, fs', hs);
      }
    }
  }

  // ---------------------------------------------------------------- one grant at a time

  ghost function Elements(hs: seq<Handle>): set<Handle> {
    set h | h in hs
  }

  /** Each federate of `hs` is grantable when its turn comes. */
  ghost predicate OneByOne(add: Addition, fs: Federates, hs: seq<Handle>) {
    hs == [] ||
    (var before, h := hs[..|hs| - 1], hs[|hs| - 1];
     var mid := GrantAll(fs, Elements(before));
     OneByOne(add, fs, before) && h in Ready(Lbts(add, mid), mid))
  }

  lemma {:induction false} OneByOneWithin(add: Addition, fs: Federates, hs: seq<Handle>, ks: set<Handle>)
    requires AllWellTimed(fs)
    requires OneByOne(add, fs, hs)
    requires Settled(add, GrantAll(fs, ks))
    ensures Elements(hs) <= ks
  {
    if hs == [] {
    } else {
      var before, h := hs[..|hs| - 1], hs[|hs| - 1];
      OneByOneWithin(add, fs, before, ks);
      assert hs == before + [h];
      var mid := GrantAll(fs, Elements(before));
      GrantTwice(fs, Elements(before), ks);
      assert Elements(before) + ks == ks;
      GrantsWellTimed(fs, Elements(before));
      ReadyInEverySettled(add, mid, ks);
    }
  }

  /** Confluence: whatever the order of single grants, once nothing is left to grant the
      federation is exactly where the cascade leaves it. */
  lemma OrderDoesNotMatter(add: Addition, fs: Federates, hs: seq<Handle>)
    requires AllWellTimed(fs)
    requires OneByOne(add, fs, hs)
    requires Settled(add, GrantAll(fs, Elements(hs)))
    ensures GrantAll(fs, Elements(hs)) == Cascade(add, fs)
  {
    CascadeGrants(add, fs);
    CascadeSettles(add, fs);
    OneByOneWithin(add, fs, hs, GrantedBy(add, fs));
    CascadeIsLeast(add, fs, Elements(hs));
  }

  lemma OneMore(add: Addition, fs: Federates, hs: seq<Handle>, h: Handle)
    requires OneByOne(add, fs, hs)
    requires h in Ready(Lbts(add, GrantAll(fs, Elements(hs))), GrantAll(fs, Elements(hs)))
    ensures OneByOne(add, fs, hs + [h])
    ensures |Pending(GrantAll(fs, Elements(hs + [h])))| < |Pending(GrantAll(fs, Elements(hs)))|
  {
    var mid, longer := GrantAll(fs, Elements(hs)), hs + [h];
    assert longer[..|longer| - 1] == hs;
    ReadyArePending(Lbts(add, mid), mid);
    assert h in {h} * Pending(mid);
    PendingFalls(mid, {h});
    GrantTwice(fs, Elements(hs), {h});
    assert Elements(longer) == Elements(hs) + {h};
  }

  lemma {:induction false} Completed(add: Addition, fs: Federates, hs: seq<Handle>, mid: Federates)
      returns (ks: seq<Handle>)
    requires OneByOne(add, fs, hs) && mid == GrantAll(fs, Elements(hs))
    ensures hs <= ks && OneByOne(add, fs, ks) && Settled(add, GrantAll(fs, Elements(ks)))
    decreases |Pending(mid)|
  {
    if Settled(add, mid) {
      ks := hs;
    } else {
      var more := NextGrant(add, fs, hs, mid);
      ks := Completed(add, fs, more, GrantAll(fs, Elements(more)));
    }
  }

  lemma NextGrant(add: Addition, fs: Federates, hs: seq<Handle>, mid: Federates) returns (more: seq<Handle>)
    requires OneByOne(add, fs, hs) && mid == GrantAll(fs, Elements(hs)) && !Settled(add, mid)
    ensures hs <= more && OneByOne(add, fs, more)
    ensures |Pending(GrantAll(fs, Elements(more)))| < |Pending(mid)|
  {
    var h :| h in Ready(Lbts(add, mid), mid);
    OneMore(add, fs, hs, h);
    more := hs + [h];
  }

  /** And no choice is a dead end: any run of single grants extends to the cascade's outcome. */
  lemma EveryOrderCompletes(add: Addition, fs: Federates, hs: seq<Handle>)
    requires AllWellTimed(fs)
    requires OneByOne(add, fs, hs)
    ensures exists ks ::
      hs <= ks && OneByOne(add, fs, ks) && GrantAll(fs, Elements(ks)) == Cascade(add, fs)
  {
    var ks := Completed(add, fs, hs, GrantAll(fs, Elements(hs)));
    OrderDoesNotMatter(add, fs, ks);
  }
}
