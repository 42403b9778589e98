/**
 Handle assignment: a depth-first walk of the merged inheritance forest from its roots.  It ends
 whatever parents the definitions name, and numbers exactly the classes that hang from a root.
 */
module FomHandles {
  import opened Options
  import opened FomMerge

  type Classes = map<string, ClassDef>

  ghost predicate Distinct<T>(s: seq<T>) {
    forall i, j :: 0 <= i < j < |s| ==> s[i] != s[j]
  }

  /** What `Merge` delivers, as far as handle assignment depends on it. */
  ghost predicate Proper(st: Merged) {
    && Distinct(st.order)
    && (forall c :: c in st.order <==> c in st.classes)
    && (forall c :: c in st.classes ==> st.classes[c].name == c)
  }

  lemma MergeIsProper(defs: seq<ClassDef>)
    requires Merge(defs).Success?
    ensures Proper(Merge(defs).value)
  {
    MergeMeaning(defs);
  }

  // ---------------------------------------------------------------- parent chains

  ghost function Last(path: seq<string>): Option<string> {
    if path == [] then None else Some(path[|path| - 1])
  }

  /** A chain from a root downwards, each class the parent of the next. */
  ghost predicate Linked(classes: Classes, path: seq<string>) {
    path == [] ||
    (var init, c := path[..|path| - 1], path[|path| - 1];
     Linked(classes, init) && c in classes && classes[c].parent == Last(init))
  }

  ghost predicate LeadsTo(classes: Classes, path: seq<string>, c: string) {
    path != [] && Linked(classes, path) && path[|path| - 1] == c
  }

  /** The parent chain of `c` reaches a root. */
  ghost predicate Rooted(classes: Classes, c: string) {
    exists path :: LeadsTo(classes, path, c)
  }

  lemma {:induction false} LinkedPrefix(classes: Classes, path: seq<string>, n: nat)
    requires Linked(classes, path) && n <= |path|
    ensures Linked(classes, path[..n])
  {
    if n < |path| {
      assert path[..|path| - 1][..n] == path[..n];
      LinkedPrefix(classes, path[..|path| - 1], n);
    } else {
      assert path[..n] == path;
    }
  }

  lemma LinkedAt(classes: Classes, path: seq<string>, i: nat)
    requires Linked(classes, path) && i < |path|
    ensures path[i] in classes && classes[path[i]].parent == Last(path[..i])
  {
    LinkedPrefix(classes, path, i + 1);
    assert path[..i + 1][..i] == path[..i];
  }

  lemma {:induction false} LinkedDistinct(classes: Classes, path: seq<string>, i: nat, j: nat)
    requires Linked(classes, path) && i < j < |path|
    ensures path[i] != path[j]
  {
    LinkedAt(classes, path, i);
    LinkedAt(classes, path, j);
    if i > 0 {
      LinkedDistinct(classes, path, i - 1, j - 1);
    }
  }

  /** A class has one chain only. */
  lemma {:induction false} OneChain(classes: Classes, p: seq<string>, q: seq<string>, c: string)
    requires LeadsTo(classes, p, c) && LeadsTo(classes, q, c)
    ensures p == q
  {
    var p', q' := p[..|p| - 1], q[..|q| - 1];
    assert p == p' + [c] && q == q' + [c];
    if p' != [] && q' != [] {
      OneChain(classes, p', q', p'[|p'| - 1]);
    }
  }

  lemma LinkedSnoc(classes: Classes, path: seq<string>, c: string)
    ensures Linked(classes, path + [c]) <==>
      Linked(classes, path) && c in classes && classes[c].parent == Last(path)
  {
    assert (path + [c])[..|path|] == path;
  }

  // ---------------------------------------------------------------- the walk

  function ChildrenIn(order: seq<string>, classes: Classes, p: Option<string>): (r: seq<string>)
    requires forall c :: c in order ==> c in classes
    ensures forall c :: c in r <==> c in order && classes[c].parent == p
  {
    if order == [] then []
    else
      var init, c := order[..|order| - 1], order[|order| - 1];
      assert order == init + [c];
      ChildrenIn(init, classes, p) + (if classes[c].parent == p then [c] else [])
  }

  /** The classes with parent `p`, in order of first appearance; the roots for `None`. */
  function Children(st: Merged, p: Option<string>): seq<string>
    requires Proper(st)
  {
    ChildrenIn(st.order, st.classes, p)
  }

  ghost function Unvisited(classes: Classes, path: seq<string>): set<string> {
    classes.Keys - (set c | c in path)
  }

  lemma UnvisitedFalls(classes: Classes, path: seq<string>, c: string)
    requires Linked(classes, path + [c])
    ensures |Unvisited(classes, path + [c])| < |Unvisited(classes, path)|
  {
    var longer := path + [c];
    LinkedSnoc(classes, path, c);
    forall i | 0 <= i < |path|
      ensures path[i] != c
    {
      LinkedDistinct(classes, longer, i, |path|);
    }
    assert Unvisited(classes, longer) == Unvisited(classes, path) - {c};
    assert c in Unvisited(classes, path);
  }

  lemma ChildrenLinked(st: Merged, path: seq<string>)
    requires Proper(st) && Linked(st.classes, path)
    ensures forall c :: c in Children(st, Last(path)) ==> Linked(st.classes, path + [c])
  {
    forall c | c in Children(st, Last(path))
      ensures Linked(st.classes, path + [c])
    {
      LinkedSnoc(st.classes, path, c);
    }
  }

  /** What a step of the walk needs: fewer classes left, and children that continue the path. */
  lemma Descend(st: Merged, c: string, path: seq<string>)
    requires Proper(st) && Linked(st.classes, path + [c])
    ensures |Unvisited(st.classes, path + [c])| < |Unvisited(st.classes, path)|
    ensures forall k :: k in Children(st, Some(c)) ==> Linked(st.classes, path + [c] + [k])
  {
    UnvisitedFalls(st.classes, path, c);
    ChildrenLinked(st, path + [c]);
  }

  /** Depth first: the class, then everything below it.  `path` leads from a root to its parent. */
  ghost function Preorder(st: Merged, c: string, path: seq<string>): seq<string>
    requires Proper(st) && Linked(st.classes, path + [c])
    decreases |Unvisited(st.classes, path)|, 0
  {
    Descend(st, c, path);
    [c] + PreorderAll(st, Children(st, Some(c)), path + [c])
  }

  ghost function PreorderAll(st: Merged, cs: seq<string>, path: seq<string>): seq<string>
    requires Proper(st)
    requires forall c :: c in cs ==> Linked(st.classes, path + [c])
    decreases |Unvisited(st.classes, path)|, |cs|
  {
    if cs == [] then [] else Preorder(st, cs[0], path) + PreorderAll(st, cs[1..], path)
  }

  ghost function Walk(st: Merged): seq<string>
    requires Proper(st)
  {
    ChildrenLinked(st, []);
    PreorderAll(st, Children(st, None), [])
  }

  // ---------------------------------------------------------------- what the walk visits

  /** `p` runs along `path`, continues with `first` and ends in `c`. */
  ghost predicate Via(classes: Classes, p: seq<string>, path: seq<string>, first: string, c: string) {
    LeadsTo(classes, p, c) && path + [first] <= p
  }

  ghost predicate Passes(classes: Classes, path: seq<string>, first: string, c: string) {
    exists p :: Via(classes, p, path, first, c)
  }

  lemma PassesInto(st: Merged, path: seq<string>, c: string, x: string) returns (k: string)
    requires Proper(st) && Passes(st.classes, path, c, x) && x != c
    ensures k in Children(st, Some(c)) && Passes(st.classes, path + [c], k, x)
  {
    var here := path + [c];
    var p :| Via(st.classes, p, path, c, x);
    assert |here| < |p| && p[..|here|] == here;
    k := p[|here|];
    LinkedAt(st.classes, p, |here|);
    assert p[..|here| + 1] == here + [k];
    assert Via(st.classes, p, here, k, x);
  }

  lemma PassesThrough(classes: Classes, path: seq<string>, c: string, k: string, x: string)
    requires Passes(classes, path + [c], k, x)
    ensures Passes(classes, path, c, x)
  {
    var here := path + [c];
    var p :| Via(classes, p, here, k, x);
    assert p[..|here| + 1] == here + [k];
    assert p[..|here|] == (here + [k])[..|here|] == here;
    assert Via(classes, p, path, c, x);
  }

  /** Passing through `c` means ending there or passing through one of its children. */
  lemma PassesOn(st: Merged, path: seq<string>, c: string, x: string)
    requires Proper(st) && Linked(st.classes, path + [c])
    ensures Passes(st.classes, path, c, x) <==>
      x == c || exists k :: k in Children(st, Some(c)) && Passes(st.classes, path + [c], k, x)
  {
    if x == c {
      assert Via(st.classes, path + [c], path, c, c);
    } else if Passes(st.classes, path, c, x) {
      var k := PassesInto(st, path, c, x);
    }
    forall k | k in Children(st, Some(c)) && Passes(st.classes, path + [c], k, x)
      ensures Passes(st.classes, path, c, x)
    {
      PassesThrough(st.classes, path, c, k, x);
    }
  }

  lemma {:induction false} PreorderVisits(st: Merged, c: string, path: seq<string>, x: string)
    requires Proper(st) && Linked(st.classes, path + [c])
    ensures x in Preorder(st, c, path) <==> Passes(st.classes, path, c, x)
    decreases |Unvisited(st.classes, path)|, 0
  {
    Descend(st, c, path);
    PreorderAllVisits(st, Children(st, Some(c)), path + [c], x);
    PassesOn(st, path, c, x);
  }

  lemma {:induction false} PreorderAllVisits(st: Merged, cs: seq<string>, path: seq<string>, x: string)
    requires Proper(st)
    requires forall c :: c in cs ==> Linked(st.classes, path + [c])
    ensures x in PreorderAll(st, cs, path) <==> exists c :: c in cs && Passes(st.classes, path, c, x)
    decreases |Unvisited(st.classes, path)|, |cs|
  {
    if cs == [] {
    } else {
      PreorderVisits(st, cs[0], path, x);
      PreorderAllVisits(st, cs[1..], path, x);
      assert cs == [cs[0]] + cs[1..];
    }
  }

  /** The walk visits exactly the classes whose parent chain reaches a root. */
  lemma WalkVisits(st: Merged, c: string)
    requires Proper(st)
    ensures c in Walk(st) <==> Rooted(st.classes, c)
  {
    ChildrenLinked(st, []);
    PreorderAllVisits(st, Children(st, None), [], c);
    if Rooted(st.classes, c) {
      var p :| LeadsTo(st.classes, p, c);
      LinkedAt(st.classes, p, 0);
      assert [] + [p[0]] <= p;
      assert Via(st.classes, p, [], p[0], c);
    }
  }

  // ---------------------------------------------------------------- visited once

  lemma {:induction false} ChildrenDistinct(order: seq<string>, classes: Classes, p: Option<string>)
    requires forall c :: c in order ==> c in classes
    requires Distinct(order)
    ensures Distinct(ChildrenIn(order, classes, p))
  {
    if order == [] {
    } else {
      var init, c := order[..|order| - 1], order[|order| - 1];
      assert order == init + [c];
      ChildrenDistinct(init, classes, p);
      assert c !in init;
    }
  }

  lemma DistinctConcat<T>(a: seq<T>, b: seq<T>)
    requires Distinct(a) && Distinct(b) && forall x :: x in a ==> x !in b
    ensures Distinct(a + b)
  {
    forall i, j | 0 <= i < j < |a + b|
      ensures (a + b)[i] != (a + b)[j]
    {
      assert i < |a| ==> a[i] in a;
      assert j >= |a| ==> b[j - |a|] in b;
    }
  }

  /** Nothing below a class is the class itself. */
  lemma NotBelowItself(st: Merged, c: string, path: seq<string>)
    requires Proper(st) && Linked(st.classes, path + [c])
    requires forall k :: k in Children(st, Some(c)) ==> Linked(st.classes, path + [c] + [k])
    ensures c !in PreorderAll(st, Children(st, Some(c)), path + [c])
  {
    var here := path + [c];
    PreorderAllVisits(st, Children(st, Some(c)), here, c);
    if k :| Passes(st.classes, here, k, c) {
      var p :| Via(st.classes, p, here, k, c);
      OneChain(st.classes, p, here, c);
    }
  }

  lemma {:induction false} PreorderDistinct(st: Merged, c: string, path: seq<string>)
    requires Proper(st) && Linked(st.classes, path + [c])
    ensures Distinct(Preorder(st, c, path))
    decreases |Unvisited(st.classes, path)|, 0
  {
    Descend(st, c, path);
    ChildrenDistinct(st.order, st.classes, Some(c));
    PreorderAllDistinct(st, Children(st, Some(c)), path + [c]);
    NotBelowItself(st, c, path);
    DistinctConcat([c], PreorderAll(st, Children(st, Some(c)), path + [c]));
  }

  lemma {:induction false} PreorderAllDistinct(st: Merged, cs: seq<string>, path: seq<string>)
    requires Proper(st) && Distinct(cs)
    requires forall c :: c in cs ==> Linked(st.classes, path + [c])
    ensures Distinct(PreorderAll(st, cs, path))
    decreases |Unvisited(st.classes, path)|, |cs|
  {
    if cs == [] {
    } else {
      var a, b := Preorder(st, cs[0], path), PreorderAll(st, cs[1..], path);
      PreorderDistinct(st, cs[0], path);
      PreorderAllDistinct(st, cs[1..], path);
      forall x | x in a
        ensures x !in b
      {
        PreorderVisits(st, cs[0], path, x);
        PreorderAllVisits(st, cs[1..], path, x);
        if other :| other in cs[1..] && Passes(st.classes, path, other, x) {
          var p :| Via(st.classes, p, path, cs[0], x);
          var q :| Via(st.classes, q, path, other, x);
          assert p[|path|] == cs[0] && q[|path|] == other;
          OneChain(st.classes, p, q, x);
        }
      }
      DistinctConcat(a, b);
    }
  }

  // ---------------------------------------------------------------- parents first

  /** Each class comes after its parent, unless its parent is `top`. */
  ghost predicate ComesAfter(classes: Classes, s: seq<string>, i: nat, top: Option<string>)
    requires i < |s|
  {
    && s[i] in classes
    && (var p := classes[s[i]].parent;
        p == top || (p.Some? && p.value in s[..i]))
  }

  ghost predicate ParentsFirst(classes: Classes, s: seq<string>, top: Option<string>) {
    forall i :: 0 <= i < |s| ==> ComesAfter(classes, s, i, top)
  }

  lemma ParentsFirstConcat(classes: Classes, a: seq<string>, b: seq<string>, top: Option<string>)
    requires ParentsFirst(classes, a, top) && ParentsFirst(classes, b, top)
    ensures ParentsFirst(classes, a + b, top)
  {
    var s := a + b;
    forall i | 0 <= i < |s|
      ensures ComesAfter(classes, s, i, top)
    {
      if i < |a| {
        assert ComesAfter(classes, a, i, top);
        assert s[..i] == a[..i];
      } else {
        assert ComesAfter(classes, b, i - |a|, top);
        assert s[..i] == a + b[..i - |a|];
      }
    }
  }

  lemma ParentsFirstCons(classes: Classes, c: string, b: seq<string>)
    requires c in classes && ParentsFirst(classes, b, Some(c))
    ensures ParentsFirst(classes, [c] + b, classes[c].parent)
  {
    var s := [c] + b;
    forall i | 0 <= i < |s|
      ensures ComesAfter(classes, s, i, classes[c].parent)
    {
      if i > 0 {
        assert ComesAfter(classes, b, i - 1, Some(c));
        assert s[..i] == [c] + b[..i - 1];
      }
    }
  }

  lemma {:induction false} PreorderParents(st: Merged, c: string, path: seq<string>)
    requires Proper(st) && Linked(st.classes, path + [c])
    ensures ParentsFirst(st.classes, Preorder(st, c, path), Last(path))
    decreases |Unvisited(st.classes, path)|, 0
  {
    Descend(st, c, path);
    PreorderAllParents(st, Children(st, Some(c)), path + [c]);
    LinkedSnoc(st.classes, path, c);
    ParentsFirstCons(st.classes, c, PreorderAll(st, Children(st, Some(c)), path + [c]));
  }

  lemma {:induction false} PreorderAllParents(st: Merged, cs: seq<string>, path: seq<string>)
    requires Proper(st)
    requires forall c :: c in cs ==> Linked(st.classes, path + [c])
    ensures ParentsFirst(st.classes, PreorderAll(st, cs, path), Last(path))
    decreases |Unvisited(st.classes, path)|, |cs|
  {
    if cs == [] {
    } else {
      PreorderParents(st, cs[0], path);
      PreorderAllParents(st, cs[1..], path);
      ParentsFirstConcat(st.classes, Preorder(st, cs[0], path), PreorderAll(st, cs[1..], path), Last(path));
    }
  }

  lemma WalkInOrder(st: Merged)
    requires Proper(st)
    ensures Distinct(Walk(st)) && ParentsFirst(st.classes, Walk(st), None)
  {
    ChildrenLinked(st, []);
    ChildrenDistinct(st.order, st.classes, None);
    PreorderAllDistinct(st, Children(st, None), []);
    PreorderAllParents(st, Children(st, None), []);
  }
}
