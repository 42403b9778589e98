/**
 The subscription matrix with its reverse index, kept in step with each federate's own list of
 subscriptions, and the recipients computed from it.
 */
module Subscriptions {

  type Handle = nat
  type Class = nat
  type Attr = nat

  /** Federate `f` is subscribed to attribute `attr` at class `class`. */
  datatype Sub = Sub(class_: Class, attr: Attr, f: Handle)

  type ByAttribute = map<(Class, Attr), set<Handle>>

  ghost function View(tab: ByAttribute): set<Sub> {
    set k, f | k in tab && f in tab[k] :: Sub(k.0, k.1, f)
  }

  /** The attributes of a class that a federate is subscribed to. */
  ghost function AttrsOf(subs: set<Sub>, c: Class, f: Handle): set<Attr> {
    set s | s in subs && s.class_ == c && s.f == f :: s.attr
  }

  lemma InView(tab: ByAttribute, s: Sub)
    ensures s in View(tab) <==> (s.class_, s.attr) in tab && s.f in tab[(s.class_, s.attr)]
  {
    if (s.class_, s.attr) in tab && s.f in tab[(s.class_, s.attr)] {
      assert Sub((s.class_, s.attr).0, (s.class_, s.attr).1, s.f) == s;
    }
  }

  // ---------------------------------------------------------------- the reverse index

  type Index = map<Class, map<Handle, nat>>

  /** How often the index counts `f` at class `c`. */
  function CountIn(idx: Index, c: Class, f: Handle): nat {
    if c in idx && f in idx[c] then idx[c][f] else 0
  }

  /** No zero counts and no empty entries. */
  ghost predicate Tidy(idx: Index) {
    && (forall c :: c in idx ==> idx[c].Keys != {})
    && (forall c, f :: c in idx && f in idx[c] ==> idx[c][f] > 0)
  }

  function Bump(idx: Index, c: Class, f: Handle): Index {
    var counts: map<Handle, nat> := if c in idx then idx[c] else map[];
    idx[c := counts[f := (if f in counts then counts[f] else 0) + 1]]
  }

  function Drop(idx: Index, c: Class, f: Handle): Index
    requires CountIn(idx, c, f) > 0
  {
    var counts: map<Handle, nat> := idx[c];
    var n := counts[f] - 1;
    if n > 0 then idx[c := counts[f := n]]
    else if counts.Keys == {f} then idx - {c}
    else idx[c := counts - {f}]
  }

  lemma BumpMeaning(idx: Index, c: Class, f: Handle)
    requires Tidy(idx)
    ensures Tidy(Bump(idx, c, f))
    ensures forall d: Class, g: Handle ::
      CountIn(Bump(idx, c, f), d, g) == CountIn(idx, d, g) + if d == c && g == f then 1 else 0
  {
  }

  lemma DropMeaning(idx: Index, c: Class, f: Handle)
    requires Tidy(idx) && CountIn(idx, c, f) > 0
    ensures Tidy(Drop(idx, c, f))
    ensures forall d: Class, g: Handle ::
      CountIn(Drop(idx, c, f), d, g) == CountIn(idx, d, g) - if d == c && g == f then 1 else 0
  {
    if idx[c][f] == 1 && idx[c].Keys != {f} {
      var g :| g in idx[c].Keys && g != f;
      assert g in (idx[c] - {f}).Keys;
    }
  }

  /** Every count is the true number of subscribed attributes. */
  ghost predicate Counts(idx: Index, subs: set<Sub>) {
    forall c: Class, f: Handle :: CountIn(idx, c, f) == |AttrsOf(subs, c, f)|
  }

  lemma BumpCounts(idx: Index, subs: set<Sub>, c: Class, a: Attr, f: Handle)
    requires Tidy(idx) && Counts(idx, subs) && Sub(c, a, f) !in subs
    ensures Tidy(Bump(idx, c, f)) && Counts(Bump(idx, c, f), subs + {Sub(c, a, f)})
    ensures CountIn(Bump(idx, c, f), c, f) == |AttrsOf(subs, c, f)| + 1
  {
    BumpMeaning(idx, c, f);
    forall d: Class, g: Handle
      ensures CountIn(Bump(idx, c, f), d, g) == |AttrsOf(subs + {Sub(c, a, f)}, d, g)|
    {
      AttrsAdd(subs, c, a, f, d, g);
    }
  }

  lemma DropCounts(idx: Index, subs: set<Sub>, c: Class, a: Attr, f: Handle)
    requires Tidy(idx) && Counts(idx, subs) && Sub(c, a, f) in subs
    ensures CountIn(idx, c, f) > 0
    ensures Tidy(Drop(idx, c, f)) && Counts(Drop(idx, c, f), subs - {Sub(c, a, f)})
  {
    AttrsRemove(subs, c, a, f, c, f);
    assert a in AttrsOf(subs, c, f);
    DropMeaning(idx, c, f);
    forall d: Class, g: Handle
      ensures CountIn(Drop(idx, c, f), d, g) == |AttrsOf(subs - {Sub(c, a, f)}, d, g)|
    {
      AttrsRemove(subs, c, a, f, d, g);
    }
  }

  lemma AttrsAdd(subs: set<Sub>, c: Class, a: Attr, f: Handle, d: Class, g: Handle)
    ensures AttrsOf(subs + {Sub(c, a, f)}, d, g) == AttrsOf(subs, d, g) + if d == c && g == f then {a} else {}
    ensures a in AttrsOf(subs, c, f) <==> Sub(c, a, f) in subs
  {
    assert Sub(c, a, f) in subs + {Sub(c, a, f)};
  }

  lemma AttrsRemove(subs: set<Sub>, c: Class, a: Attr, f: Handle, d: Class, g: Handle)
    ensures AttrsOf(subs - {Sub(c, a, f)}, d, g) == AttrsOf(subs, d, g) - if d == c && g == f then {a} else {}
    ensures a in AttrsOf(subs, c, f) <==> Sub(c, a, f) in subs
  {
  }

  lemma SubsAdd(tab: ByAttribute, c: Class, a: Attr, f: Handle)
    ensures View(tab[(c, a) := (if (c, a) in tab then tab[(c, a)] else {}) + {f}]) == View(tab) + {Sub(c, a, f)}
  {
    var tab' := tab[(c, a) := (if (c, a) in tab then tab[(c, a)] else {}) + {f}];
    forall s
      ensures s in View(tab') <==> s in View(tab) || s == Sub(c, a, f)
    {
      InView(tab, s);
      InView(tab', s);
    }
  }

  lemma SubsRemove(tab: ByAttribute, c: Class, a: Attr, f: Handle)
    requires (c, a) in tab
    ensures View(tab - {(c, a)}) == View(tab) - (set g | g in tab[(c, a)] :: Sub(c, a, g))
    ensures View(tab[(c, a) := tab[(c, a)] - {f}]) == View(tab) - {Sub(c, a, f)}
  {
    forall s
      ensures s in View(tab - {(c, a)}) <==> s in View(tab) && !(s.class_ == c && s.attr == a)
      ensures s in View(tab[(c, a) := tab[(c, a)] - {f}]) <==> s in View(tab) && s != Sub(c, a, f)
    {
      InView(tab, s);
      InView(tab - {(c, a)}, s);
      InView(tab[(c, a) := tab[(c, a)] - {f}], s);
    }
  }

  lemma SubscribeCounts(tab: ByAttribute, idx: Index, c: Class, a: Attr, f: Handle, there: set<Handle>)
    requires Tidy(idx) && Counts(idx, View(tab))
    requires there == if (c, a) in tab then tab[(c, a)] else {}
    ensures View(tab[(c, a) := there + {f}]) == View(tab) + {Sub(c, a, f)}
    ensures f in there ==> Counts(idx, View(tab) + {Sub(c, a, f)}) && AttrsOf(View(tab), c, f) != {}
    ensures f !in there ==> Tidy(Bump(idx, c, f)) && Counts(Bump(idx, c, f), View(tab) + {Sub(c, a, f)})
    ensures f !in there ==> (CountIn(Bump(idx, c, f), c, f) == 1 <==> AttrsOf(View(tab), c, f) == {})
  {
    InView(tab, Sub(c, a, f));
    SubsAdd(tab, c, a, f);
    AttrsAdd(View(tab), c, a, f, c, f);
    if f in there {
      assert View(tab) + {Sub(c, a, f)} == View(tab);
    } else {
      BumpCounts(idx, View(tab), c, a, f);
    }
  }

  // ---------------------------------------------------------------- the matrix

  class SubscriptionMatrix {
    var byAttribute: ByAttribute
    var classSubscribers: Index

    ghost function Subs(): set<Sub>
      reads this
    {
      View(byAttribute)
    }

    ghost predicate Valid()
      reads this
    {
      && (forall k :: k in byAttribute ==> byAttribute[k] != {})
      && Tidy(classSubscribers)
      && Counts(classSubscribers, Subs())
    }

    constructor ()
      ensures Valid() && Subs() == {}
    {
      byAttribute, classSubscribers := map[], map[];
    }

    /** Tells whether this is the federate's first subscription at the class. */
    method SubscribeAttribute(c: Class, a: Attr, f: Handle) returns (first: bool)
      requires Valid()
      modifies this
      ensures Valid() && Subs() == old(Subs()) + {Sub(c, a, f)}
      ensures first <==> AttrsOf(old(Subs()), c, f) == {}
    {
      var there := if (c, a) in byAttribute then byAttribute[(c, a)] else {};
      SubscribeCounts(byAttribute, classSubscribers, c, a, f, there);
      byAttribute := byAttribute[(c, a) := there + {f}];
      if f in there {
        return false;
      }
      classSubscribers := Bump(classSubscribers, c, f);
      return CountIn(classSubscribers, c, f) == 1;
    }

    /** Tells whether this took away the federate's last subscription at the class. */
    method UnsubscribeAttribute(c: Class, a: Attr, f: Handle) returns (last: bool)
      requires Valid()
      modifies this
      ensures Valid() && Subs() == old(Subs()) - {Sub(c, a, f)}
      ensures last <==> Sub(c, a, f) in old(Subs()) && AttrsOf(Subs(), c, f) == {}
    {
      InView(byAttribute, Sub(c, a, f));
      if (c, a) !in byAttribute || f !in byAttribute[(c, a)] {
        return false;
      }
      SubsRemove(byAttribute, c, a, f);
      DropCounts(classSubscribers, Subs(), c, a, f);
      if byAttribute[(c, a)] == {f} {
        byAttribute := byAttribute - {(c, a)};
      } else {
        byAttribute := byAttribute[(c, a) := byAttribute[(c, a)] - {f}];
      }
      assert Subs() == old(Subs()) - {Sub(c, a, f)};
      classSubscribers := Drop(classSubscribers, c, f);
      assert CountIn(classSubscribers, c, f) == |AttrsOf(Subs(), c, f)|;
      return CountIn(classSubscribers, c, f) == 0;
    }

    method RemoveClass(c: Class)
      requires Valid()
      modifies this
      ensures Valid() && Subs() == set s | s in old(Subs()) && s.class_ != c
    {
      byAttribute := map k | k in byAttribute && k.0 != c :: byAttribute[k];
      classSubscribers := classSubscribers - {c};
      forall s
        ensures s in Subs() <==> s in old(Subs()) && s.class_ != c
      {
        InView(byAttribute, s);
        InView(old(byAttribute), s);
      }
      forall d: Class, f: Handle
        ensures CountIn(classSubscribers, d, f) == |AttrsOf(Subs(), d, f)|
      {
        assert AttrsOf(Subs(), d, f) == if d == c then {} else AttrsOf(old(Subs()), d, f);
        assert CountIn(old(classSubscribers), d, f) == |AttrsOf(old(Subs()), d, f)|;
      }
    }

    /** The fast test is the full scan. */
    method ClassHasSubscribers(c: Class) returns (b: bool)
      requires Valid()
      ensures b <==> exists s :: s in Subs() && s.class_ == c
    {
      b := c in classSubscribers;
      ClassScan(classSubscribers, Subs(), c);
    }

    /** The reverse index answers what a scan of the whole matrix would. */
    method SubscribersOfClass(c: Class) returns (fs: set<Handle>)
      requires Valid()
      ensures fs == set s | s in Subs() && s.class_ == c :: s.f
    {
      fs := if c in classSubscribers then classSubscribers[c].Keys else {};
      Scan(classSubscribers, Subs(), c);
      assert forall f :: f in fs <==> CountIn(classSubscribers, c, f) > 0;
    }
  }

  /** A federate is counted at a class exactly when some subscription there is its own. */
  lemma Scan(idx: Index, subs: set<Sub>, c: Class)
    requires Counts(idx, subs)
    ensures forall f: Handle :: CountIn(idx, c, f) > 0 <==> exists s :: s in subs && s.class_ == c && s.f == f
  {
    forall f: Handle
      ensures CountIn(idx, c, f) > 0 <==> exists s :: s in subs && s.class_ == c && s.f == f
    {
      assert CountIn(idx, c, f) == |AttrsOf(subs, c, f)|;
      if CountIn(idx, c, f) > 0 {
        var a :| a in AttrsOf(subs, c, f);
      }
      if s :| s in subs && s.class_ == c && s.f == f {
        assert s.attr in AttrsOf(subs, c, f);
      }
    }
  }

  lemma ClassScan(idx: Index, subs: set<Sub>, c: Class)
    requires Tidy(idx) && Counts(idx, subs)
    ensures c in idx <==> exists s :: s in subs && s.class_ == c
  {
    Scan(idx, subs, c);
    if c in idx {
      var f :| f in idx[c].Keys;
      assert CountIn(idx, c, f) > 0;
    }
    if s :| s in subs && s.class_ == c {
      assert CountIn(idx, c, s.f) > 0;
    }
  }
}
