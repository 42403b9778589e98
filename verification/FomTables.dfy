/**
 The tables of a merged FOM: class handles and member handles, both counted from 1 along the walk.
 */
module FomTables {
  import opened Options
  import opened FomMerge
  import opened FomHandles

  datatype Tables = Tables(
    nextClass: nat,
    nextMember: nat,
    classes: map<nat, ClassDef>,
    handles: map<string, nat>,
    members: map<(nat, string), nat>)

  const BLANK := Tables(1, 1, map[], map[], map[])

  /** Consecutive handles for the members of one class; a repeated name keeps the last. */
  function NumberMembers(table: map<(nat, string), nat>, h: nat, ms: seq<Member>, next: nat): map<(nat, string), nat> {
    if ms == [] then table
    else
      var n := |ms| - 1;
      NumberMembers(table, h, ms[..n], next)[(h, ms[n].name) := next + n]
  }

  function AssignOne(t: Tables, d: ClassDef): Tables {
    Tables(
      t.nextClass + 1,
      t.nextMember + |d.members|,
      t.classes[t.nextClass := d],
      t.handles[d.name := t.nextClass],
      NumberMembers(t.members, t.nextClass, d.members, t.nextMember))
  }

  ghost function AssignList(t: Tables, classes: Classes, cs: seq<string>): Tables
    requires forall c :: c in cs ==> c in classes
  {
    if cs == [] then t
    else AssignOne(AssignList(t, classes, cs[..|cs| - 1]), classes[cs[|cs| - 1]])
  }

  lemma {:induction false} AssignAppend(t: Tables, classes: Classes, a: seq<string>, b: seq<string>)
    requires forall c :: c in a + b ==> c in classes
    ensures forall c :: c in a ==> c in classes
    ensures forall c :: c in b ==> c in classes
    ensures AssignList(t, classes, a + b) == AssignList(AssignList(t, classes, a), classes, b)
  {
    assert forall c :: c in a || c in b ==> c in a + b;
    if b == [] {
      assert a + b == a;
    } else {
      assert (a + b)[..|a + b| - 1] == a + b[..|b| - 1];
      assert forall c :: c in a + b[..|b| - 1] ==> c in a + b;
      AssignAppend(t, classes, a, b[..|b| - 1]);
    }
  }

  // ---------------------------------------------------------------- soundness of the tables

  /** Handles count the classes from 1, and the two class tables are inverse to each other. */
  ghost predicate ClassesSound(t: Tables) {
    && t.nextClass >= 1
    && (forall h :: h in t.classes <==> 1 <= h < t.nextClass)
    && (forall c :: c in t.handles ==> t.handles[c] in t.classes && t.classes[t.handles[c]].name == c)
    && (forall h :: h in t.classes ==> t.classes[h].name in t.handles && t.handles[t.classes[h].name] == h)
  }

  ghost predicate Listing(classes: map<nat, ClassDef>, k: (nat, string)) {
    k.0 in classes && exists m :: m in classes[k.0].members && m.name == k.1
  }

  /** Every listed member has a handle, nothing else has, and no handle is given twice. */
  ghost predicate MembersSound(t: Tables) {
    && t.nextMember >= 1
    && (forall k :: k in t.members <==> Listing(t.classes, k))
    && (forall k :: k in t.members ==> 1 <= t.members[k] < t.nextMember)
    && (forall k, l :: k in t.members && l in t.members && t.members[k] == t.members[l] ==> k == l)
  }

  lemma {:induction false} NumberMembersMeaning(table: map<(nat, string), nat>, h: nat, ms: seq<Member>, next: nat)
    requires forall k :: k in table ==> k.0 != h && table[k] < next
    requires forall k, l :: k in table && l in table && table[k] == table[l] ==> k == l
    ensures var r := NumberMembers(table, h, ms, next);
      && (forall k :: k in r <==> k in table || (k.0 == h && exists m :: m in ms && m.name == k.1))
      && (forall k :: k in table ==> r[k] == table[k])
      && (forall k :: k in r && k !in table ==> next <= r[k] < next + |ms|)
      && (forall k, l :: k in r && l in r && r[k] == r[l] ==> k == l)
  {
    if ms == [] {
    } else {
      var n := |ms| - 1;
      assert ms == ms[..n] + [ms[n]];
      NumberMembersMeaning(table, h, ms[..n], next);
    }
  }

  lemma AssignOneSound(t: Tables, d: ClassDef)
    requires ClassesSound(t) && MembersSound(t) && d.name !in t.handles
    ensures ClassesSound(AssignOne(t, d)) && MembersSound(AssignOne(t, d))
  {
    AssignOneMembers(t, d);
  }

  lemma AssignOneMembers(t: Tables, d: ClassDef)
    requires ClassesSound(t) && MembersSound(t)
    ensures MembersSound(AssignOne(t, d))
  {
    var t' := AssignOne(t, d);
    var h := t.nextClass;
    forall k | k in t.members
      ensures k.0 != h
    {
      assert Listing(t.classes, k);
    }
    NumberMembersMeaning(t.members, h, d.members, t.nextMember);
    forall k
      ensures k in t'.members <==> Listing(t'.classes, k)
    {
      if k.0 == h {
        assert t'.classes[k.0] == d;
        assert k !in t.members;
      } else {
        assert k in t.members <==> Listing(t.classes, k);
        assert Listing(t.classes, k) <==> Listing(t'.classes, k);
      }
    }
  }

  /** What assigning along a list of distinct names yields. */
  lemma {:induction false} AssignListMeaning(classes: Classes, cs: seq<string>)
    requires forall c :: c in cs ==> c in classes && classes[c].name == c
    requires Distinct(cs)
    ensures var t := AssignList(BLANK, classes, cs);
      && ClassesSound(t) && MembersSound(t)
      && t.nextClass == |cs| + 1
      && (forall c :: c in t.handles <==> c in cs)
      && (forall i :: 0 <= i < |cs| ==> t.handles[cs[i]] == i + 1)
      && (forall c :: c in cs ==> t.classes[t.handles[c]] == classes[c])
  {
    if cs == [] {
    } else {
      var init, c := cs[..|cs| - 1], cs[|cs| - 1];
      assert cs == init + [c];
      AssignListMeaning(classes, init);
      AssignOneMore(AssignList(BLANK, classes, init), classes, init, c);
    }
  }

  lemma AssignOneMore(t: Tables, classes: Classes, init: seq<string>, c: string)
    requires c in classes && classes[c].name == c && c !in init
    requires forall x :: x in init ==> x in classes
    requires ClassesSound(t) && MembersSound(t)
    requires t.nextClass == |init| + 1
    requires forall x :: x in t.handles <==> x in init
    requires forall i :: 0 <= i < |init| ==> t.handles[init[i]] == i + 1
    requires forall x :: x in init ==> t.classes[t.handles[x]] == classes[x]
    ensures var u, cs := AssignOne(t, classes[c]), init + [c];
      && ClassesSound(u) && MembersSound(u)
      && u.nextClass == |cs| + 1
      && (forall x :: x in u.handles <==> x in cs)
      && (forall i :: 0 <= i < |cs| ==> u.handles[cs[i]] == i + 1)
      && (forall x :: x in cs ==> u.classes[u.handles[x]] == classes[x])
  {
    AssignOneSound(t, classes[c]);
    assert forall i :: 0 <= i < |init| ==> init[i] in init;
  }

  // ---------------------------------------------------------------- the merged FOM

  lemma WalkWithin(st: Merged)
    requires Proper(st)
    ensures forall c :: c in Walk(st) ==> c in st.classes
  {
    WalkInOrder(st);
    forall c | c in Walk(st)
      ensures c in st.classes
    {
      var i :| 0 <= i < |Walk(st)| && Walk(st)[i] == c;
      assert ComesAfter(st.classes, Walk(st), i, None);
    }
  }

  ghost function Assign(st: Merged): Tables
    requires Proper(st)
  {
    WalkWithin(st);
    AssignList(BLANK, st.classes, Walk(st))
  }

  /** A class's parent, if it has one, has a lower handle. */
  ghost predicate ParentsLower(t: Tables) {
    forall h :: h in t.classes && t.classes[h].parent.Some? ==>
      t.classes[h].parent.value in t.handles && t.handles[t.classes[h].parent.value] < h
  }

  /** The tables: handles 1 to n go one-to-one to exactly the classes whose parent chain reaches a
      root, each with its merged definition and above its parent's handle. */
  lemma AssignMeaning(st: Merged)
    requires Proper(st)
    ensures var t := Assign(st);
      && ClassesSound(t) && MembersSound(t) && ParentsLower(t)
      && (forall c :: c in t.handles <==> Rooted(st.classes, c))
      && (forall c :: c in t.handles ==> c in st.classes && t.classes[t.handles[c]] == st.classes[c])
  {
    var walk, t := Walk(st), Assign(st);
    WalkWithin(st);
    WalkInOrder(st);
    AssignListMeaning(st.classes, walk);
    forall c
      ensures c in t.handles <==> Rooted(st.classes, c)
    {
      WalkVisits(st, c);
    }
    forall h | h in t.classes && t.classes[h].parent.Some?
      ensures t.classes[h].parent.value in t.handles && t.handles[t.classes[h].parent.value] < h
    {
      assert ComesAfter(st.classes, walk, h - 1, None);
      var c := t.classes[h].name;
      assert walk[h - 1] == c by {
        var i :| 0 <= i < |walk| && walk[i] == c;
      }
      var p := t.classes[h].parent.value;
      var j :| 0 <= j < h - 1 && walk[j] == p;
    }
  }

  // ---------------------------------------------------------------- the assignment, as it runs

  /** The adjacency map: each parent's children in order of first appearance, no empty entries. */
  ghost predicate Adjacency(st: Merged, order: seq<string>, children: map<Option<string>, seq<string>>)
    requires forall c :: c in order ==> c in st.classes
  {
    forall p :: (p in children ==> children[p] == ChildrenIn(order, st.classes, p)) &&
                (p !in children ==> ChildrenIn(order, st.classes, p) == [])
  }

  method BuildChildren(st: Merged) returns (children: map<Option<string>, seq<string>>)
    requires Proper(st)
    ensures Adjacency(st, st.order, children)
  {
    children := map[];
    var i := 0;
    while i < |st.order|
      invariant 0 <= i <= |st.order|
      invariant Adjacency(st, st.order[..i], children)
    {
      var c := st.order[i];
      var p := st.classes[c].parent;
      assert st.order[..i + 1][..i] == st.order[..i];
      children := children[p := (if p in children then children[p] else []) + [c]];
      i := i + 1;
    }
    assert st.order[..i] == st.order;
  }

  method NumberMembersOf(h: nat, d: ClassDef, table: map<(nat, string), nat>, next: nat)
      returns (table': map<(nat, string), nat>, next': nat)
    ensures table' == NumberMembers(table, h, d.members, next)
    ensures next' == next + |d.members|
  {
    table', next' := table, next;
    var i := 0;
    while i < |d.members|
      invariant 0 <= i <= |d.members|
      invariant table' == NumberMembers(table, h, d.members[..i], next) && next' == next + i
    {
      assert d.members[..i + 1][..i] == d.members[..i];
      table' := table'[(h, d.members[i].name) := next'];
      next' := next' + 1;
      i := i + 1;
    }
    assert d.members[..i] == d.members;
  }

  lemma PreorderWithin(st: Merged, c: string, path: seq<string>)
    requires Proper(st) && Linked(st.classes, path + [c])
    ensures forall x :: x in Preorder(st, c, path) ==> x in st.classes
  {
    PreorderParents(st, c, path);
    var s := Preorder(st, c, path);
    forall x | x in s
      ensures x in st.classes
    {
      var i :| 0 <= i < |s| && s[i] == x;
      assert ComesAfter(st.classes, s, i, Last(path));
    }
  }

  lemma PreorderAllWithin(st: Merged, cs: seq<string>, path: seq<string>)
    requires Proper(st)
    requires forall c :: c in cs ==> Linked(st.classes, path + [c])
    ensures forall x :: x in PreorderAll(st, cs, path) ==> x in st.classes
  {
    PreorderAllParents(st, cs, path);
    var s := PreorderAll(st, cs, path);
    forall x | x in s
      ensures x in st.classes
    {
      var i :| 0 <= i < |s| && s[i] == x;
      assert ComesAfter(st.classes, s, i, Last(path));
    }
  }

  ghost function NumberBelow(t: Tables, st: Merged, c: string, path: seq<string>): Tables
    requires Proper(st) && Linked(st.classes, path + [c])
  {
    PreorderWithin(st, c, path);
    AssignList(t, st.classes, Preorder(st, c, path))
  }

  ghost function NumberEach(t: Tables, st: Merged, cs: seq<string>, path: seq<string>): Tables
    requires Proper(st)
    requires forall c :: c in cs ==> Linked(st.classes, path + [c])
  {
    PreorderAllWithin(st, cs, path);
    AssignList(t, st.classes, PreorderAll(st, cs, path))
  }

  lemma NumberBelowStep(t: Tables, st: Merged, c: string, path: seq<string>)
    requires Proper(st) && Linked(st.classes, path + [c])
    ensures c in st.classes
    ensures forall k :: k in Children(st, Some(c)) ==> Linked(st.classes, path + [c] + [k])
    ensures NumberBelow(t, st, c, path) ==
      NumberEach(AssignOne(t, st.classes[c]), st, Children(st, Some(c)), path + [c])
  {
    Descend(st, c, path);
    LinkedSnoc(st.classes, path, c);
    PreorderWithin(st, c, path);
    AssignAppend(t, st.classes, [c], PreorderAll(st, Children(st, Some(c)), path + [c]));
    assert AssignList(t, st.classes, [c][..0]) == t;
  }

  lemma NumberEachStep(t: Tables, st: Merged, cs: seq<string>, path: seq<string>)
    requires Proper(st) && cs != []
    requires forall c :: c in cs ==> Linked(st.classes, path + [c])
    ensures NumberEach(t, st, cs, path) == NumberEach(NumberBelow(t, st, cs[0], path), st, cs[1..], path)
  {
    PreorderAllWithin(st, cs, path);
    AssignAppend(t, st.classes, Preorder(st, cs[0], path), PreorderAll(st, cs[1..], path));
  }

  /** The adjacency map after the roots have been taken out. */
  ghost predicate BelowRoots(st: Merged, children: map<Option<string>, seq<string>>)
    requires Proper(st)
  {
    forall p: string ::
      Children(st, Some(p)) == if Some(p) in children then children[Some(p)] else []
  }

  method AssignHere(d: ClassDef, t: Tables) returns (t': Tables)
    ensures t' == AssignOne(t, d)
  {
    var handle := t.nextClass;
    var members, next := NumberMembersOf(handle, d, t.members, t.nextMember);
    t' := Tables(t.nextClass + 1, next, t.classes[handle := d], t.handles[d.name := handle], members);
  }

  /** The recursive numbering of a class and everything below it. */
  method AssignBelow(c: string, st: Merged, children: map<Option<string>, seq<string>>, t: Tables,
          ghost path: seq<string>)
      returns (t': Tables)
    requires Proper(st) && Linked(st.classes, path + [c]) && BelowRoots(st, children)
    ensures t' == NumberBelow(t, st, c, path)
    decreases |Unvisited(st.classes, path)|, 0
  {
    NumberBelowStep(t, st, c, path);
    UnvisitedFalls(st.classes, path, c);
    t' := AssignHere(st.classes[c], t);
    var cs := if Some(c) in children then children[Some(c)] else [];
    assert cs == Children(st, Some(c));
    t' := AssignEach(cs, st, children, t', path + [c]);
  }

  method AssignEach(cs: seq<string>, st: Merged, children: map<Option<string>, seq<string>>, t: Tables,
          ghost path: seq<string>)
      returns (t': Tables)
    requires Proper(st) && BelowRoots(st, children)
    requires forall c :: c in cs ==> Linked(st.classes, path + [c])
    ensures t' == NumberEach(t, st, cs, path)
    decreases |Unvisited(st.classes, path)|, 1
  {
    t' := t;
    var i := 0;
    assert cs[0..] == cs;
    while i < |cs|
      invariant 0 <= i <= |cs|
      invariant NumberEach(t', st, cs[i..], path) == NumberEach(t, st, cs, path)
    {
      NumberEachStep(t', st, cs[i..], path);
      assert cs[i..][1..] == cs[i + 1..];
      t' := AssignBelow(cs[i], st, children, t', path);
      i := i + 1;
    }
  }

  /** Merge all modules, then number the classes from the roots down. */
  method MergeAndAssign(modules: seq<seq<ClassDef>>) returns (r: Result<Tables>)
    ensures r.Success? <==> Merge(Concat(modules)).Success?
    ensures r.Success? ==> Proper(Merge(Concat(modules)).value) && r.value == Assign(Merge(Concat(modules)).value)
  {
    var merged := MergeModules(modules);
    if merged.MergeConflict? {
      return MergeConflict;
    }
    var st := merged.value;
    MergeIsProper(Concat(modules));
    var children := BuildChildren(st);
    var roots := if None in children then children[None] else [];
    ChildrenLinked(st, []);
    var t := AssignEach(roots, st, children - {None}, BLANK, []);
    return Success(t);
  }
}
