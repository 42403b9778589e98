/**
 Class trees as they stand in a module, and the flat list made of them: every class of the tree once,
 in preorder, under its fully qualified name.
 */
module FomTrees {
  import opened Options
  import opened FomMerge
  import opened FomHandles
  import opened FomTables
  import opened FomInheritance

  datatype ClassTree = ClassTree(
    name: string,
    members: seq<Member>,
    semantics: Option<string>,
    carriage: seq<string>,
    children: seq<ClassTree>)

  function Fqn(parent: Option<string>, leaf: string): string {
    if parent.Some? then parent.value + "." + leaf else leaf
  }

  function FlatDef(node: ClassTree, parent: Option<string>): ClassDef {
    ClassDef(Fqn(parent, node.name), parent, node.members, node.semantics, node.carriage)
  }

  /** The class, then its subtrees, each entry under its fully qualified name. */
  function Flatten(node: ClassTree, parent: Option<string>): seq<ClassDef>
    decreases node, 0
  {
    [FlatDef(node, parent)] + FlattenAll(node.children, Some(Fqn(parent, node.name)))
  }

  function FlattenAll(nodes: seq<ClassTree>, parent: Option<string>): seq<ClassDef>
    decreases nodes, 1
  {
    if nodes == [] then [] else Flatten(nodes[0], parent) + FlattenAll(nodes[1..], parent)
  }

  /** A definition whose parent, if not `top`, is the shorter name of another definition. */
  ghost predicate Hangs(defs: seq<ClassDef>, d: ClassDef, top: Option<string>) {
    d.parent == top || (d.parent.Some? && d.parent.value in Names(defs) && |d.parent.value| < |d.name|)
  }

  lemma {:induction false} FlattenHangs(node: ClassTree, parent: Option<string>)
    ensures forall d :: d in Flatten(node, parent) ==> Hangs(Flatten(node, parent), d, parent)
    ensures forall d :: d in Flatten(node, parent) && d.parent.Some? ==> |d.parent.value| < |d.name|
    decreases node, 0
  {
    var me := FlatDef(node, parent);
    FlattenAllHangs(node.children, Some(me.name));
    var all := Flatten(node, parent);
    assert me in all;
    forall d | d in all
      ensures Hangs(all, d, parent)
    {
      if d != me {
        assert d in FlattenAll(node.children, Some(me.name));
        assert forall e :: e in FlattenAll(node.children, Some(me.name)) ==> e in all;
      }
    }
  }

  lemma {:induction false} FlattenAllHangs(nodes: seq<ClassTree>, parent: Option<string>)
    ensures forall d :: d in FlattenAll(nodes, parent) ==> Hangs(FlattenAll(nodes, parent), d, parent)
    ensures forall d :: d in FlattenAll(nodes, parent) && d.parent.Some? ==> |d.parent.value| < |d.name|
    decreases nodes, 1
  {
    if nodes == [] {
    } else {
      var a, b := Flatten(nodes[0], parent), FlattenAll(nodes[1..], parent);
      FlattenHangs(nodes[0], parent);
      FlattenAllHangs(nodes[1..], parent);
      assert forall d :: d in a + b <==> d in a || d in b;
      assert forall n :: n in Names(a + b) <==> n in Names(a) || n in Names(b);
    }
  }

  method FlattenInto(node: ClassTree, parent: Option<string>, out: seq<ClassDef>) returns (out': seq<ClassDef>)
    ensures out' == out + Flatten(node, parent)
    decreases node
  {
    var me := FlatDef(node, parent);
    out' := out + [me];
    var i := 0;
    assert node.children[0..] == node.children;
    while i < |node.children|
      invariant 0 <= i <= |node.children|
      invariant out' + FlattenAll(node.children[i..], Some(me.name)) == out + Flatten(node, parent)
    {
      assert node.children[i..][1..] == node.children[i + 1..];
      out' := FlattenInto(node.children[i], Some(me.name), out');
      i := i + 1;
    }
  }

  // ---------------------------------------------------------------- places in a tree

  /** `path` leads from the roots, by child indices, to a class. */
  predicate IsPlace(nodes: seq<ClassTree>, path: seq<nat>)
    decreases path
  {
    path != [] && path[0] < |nodes| && (|path| == 1 || IsPlace(nodes[path[0]].children, path[1..]))
  }

  function NodeAt(nodes: seq<ClassTree>, path: seq<nat>): ClassTree
    requires IsPlace(nodes, path)
    decreases path
  {
    if |path| == 1 then nodes[path[0]] else NodeAt(nodes[path[0]].children, path[1..])
  }

  /** The names met on the way, the class's own name last. */
  function NamesOn(nodes: seq<ClassTree>, path: seq<nat>): (names: seq<string>)
    requires IsPlace(nodes, path)
    ensures |names| == |path|
    decreases path
  {
    [nodes[path[0]].name] + if |path| == 1 then [] else NamesOn(nodes[path[0]].children, path[1..])
  }

  function Dotted(names: seq<string>): string
    requires names != []
  {
    if |names| == 1 then names[0] else Dotted(names[..|names| - 1]) + "." + names[|names| - 1]
  }

  function Size(node: ClassTree): nat
    decreases node, 0
  {
    1 + SizeAll(node.children)
  }

  function SizeAll(nodes: seq<ClassTree>): nat
    decreases nodes, 1
  {
    if nodes == [] then 0 else Size(nodes[0]) + SizeAll(nodes[1..])
  }

  /** How many classes come before a place in preorder: all of the trees further left, and on the way
      down the ancestors and what is left of them. */
  function Position(nodes: seq<ClassTree>, path: seq<nat>): nat
    requires IsPlace(nodes, path)
    decreases path
  {
    SizeAll(nodes[..path[0]]) + if |path| == 1 then 0 else 1 + Position(nodes[path[0]].children, path[1..])
  }

  lemma {:induction false} SizeSplit(nodes: seq<ClassTree>, i: nat)
    requires i < |nodes|
    ensures SizeAll(nodes) == SizeAll(nodes[..i]) + Size(nodes[i]) + SizeAll(nodes[i + 1..])
  {
    if i == 0 {
      assert nodes[..0] == [];
    } else {
      SizeSplit(nodes[1..], i - 1);
      assert nodes[..i][1..] == nodes[1..][..i - 1] && nodes[1..][i..] == nodes[i + 1..];
    }
  }

  lemma {:induction false} PositionWithin(nodes: seq<ClassTree>, path: seq<nat>)
    requires IsPlace(nodes, path)
    ensures SizeAll(nodes[..path[0]]) <= Position(nodes, path) < SizeAll(nodes[..path[0]]) + Size(nodes[path[0]])
    ensures Position(nodes, path) < SizeAll(nodes)
    decreases path
  {
    SizeSplit(nodes, path[0]);
    if |path| == 1 {
    } else {
      PositionWithin(nodes[path[0]].children, path[1..]);
    }
  }

  lemma SizePrefix(nodes: seq<ClassTree>, i: nat, j: nat)
    requires i < j <= |nodes|
    ensures SizeAll(nodes[..i]) + Size(nodes[i]) <= SizeAll(nodes[..j])
  {
    SizeSplit(nodes[..j], i);
    assert nodes[..j][..i] == nodes[..i];
  }

  /** Different places have different positions. */
  lemma {:induction false} PositionsDiffer(nodes: seq<ClassTree>, p: seq<nat>, q: seq<nat>)
    requires IsPlace(nodes, p) && IsPlace(nodes, q) && Position(nodes, p) == Position(nodes, q)
    ensures p == q
    decreases p
  {
    PositionWithin(nodes, p);
    PositionWithin(nodes, q);
    if p[0] < q[0] {
      SizePrefix(nodes, p[0], q[0]);
    } else if q[0] < p[0] {
      SizePrefix(nodes, q[0], p[0]);
    } else if |p| > 1 && |q| > 1 {
      PositionsDiffer(nodes[p[0]].children, p[1..], q[1..]);
      assert p == [p[0]] + p[1..] && q == [q[0]] + q[1..];
    } else {
      assert p == [p[0]] && q == [q[0]];
    }
  }

  /** Every position below the size is that of a place. */
  lemma {:induction false} PlaceOf(nodes: seq<ClassTree>, k: nat) returns (path: seq<nat>)
    requires k < SizeAll(nodes)
    ensures IsPlace(nodes, path) && Position(nodes, path) == k
    decreases nodes
  {
    if k == 0 {
      path := [0];
      assert nodes[..0] == [];
    } else if k < Size(nodes[0]) {
      var below := PlaceOf(nodes[0].children, k - 1);
      path := [0] + below;
      assert nodes[..0] == [] && path[1..] == below;
    } else {
      var right := PlaceOf(nodes[1..], k - Size(nodes[0]));
      path := [right[0] + 1] + right[1..];
      assert path[1..] == right[1..];
      assert nodes[..path[0]][1..] == nodes[1..][..right[0]];
      if |right| > 1 {
        assert nodes[path[0]] == nodes[1..][right[0]];
      }
    }
  }

  // ---------------------------------------------------------------- the list, place by place

  lemma {:induction false} FlattenSize(node: ClassTree, parent: Option<string>)
    ensures |Flatten(node, parent)| == Size(node)
    decreases node, 0
  {
    FlattenAllSize(node.children, Some(Fqn(parent, node.name)));
  }

  lemma {:induction false} FlattenAllSize(nodes: seq<ClassTree>, parent: Option<string>)
    ensures |FlattenAll(nodes, parent)| == SizeAll(nodes)
    decreases nodes, 1
  {
    if nodes == [] {
    } else {
      FlattenSize(nodes[0], parent);
      FlattenAllSize(nodes[1..], parent);
    }
  }

  lemma {:induction false} FlattenAllSplit(nodes: seq<ClassTree>, parent: Option<string>, i: nat)
    requires i < |nodes|
    ensures FlattenAll(nodes, parent) ==
      FlattenAll(nodes[..i], parent) + Flatten(nodes[i], parent) + FlattenAll(nodes[i + 1..], parent)
  {
    if i == 0 {
      assert nodes[..0] == [];
    } else {
      FlattenAllSplit(nodes[1..], parent, i - 1);
      assert nodes[..i][1..] == nodes[1..][..i - 1] && nodes[1..][i..] == nodes[i + 1..];
    }
  }

  lemma {:induction false} DottedDown(first: string, names: seq<string>)
    requires names != []
    ensures Dotted([first] + names) == first + "." + Dotted(names)
  {
    var all := [first] + names;
    if |names| == 1 {
      assert all[..1] == [first] && Dotted([first]) == first;
    } else {
      DottedDown(first, names[..|names| - 1]);
      assert all[..|all| - 1] == [first] + names[..|names| - 1];
    }
  }

  /** The definition a class gets: its fully qualified name is the dotted names on the way to it, below
      `top` if there is one, and its parent's is the same without its own name. */
  function DefinitionAt(nodes: seq<ClassTree>, top: Option<string>, path: seq<nat>): ClassDef
    requires IsPlace(nodes, path)
  {
    var names, node := NamesOn(nodes, path), NodeAt(nodes, path);
    var parent := if |names| == 1 then top else Some(Fqn(top, Dotted(names[..|names| - 1])));
    ClassDef(Fqn(top, Dotted(names)), parent, node.members, node.semantics, node.carriage)
  }

  lemma FqnDown(top: Option<string>, first: string, rest: string)
    ensures Fqn(Some(Fqn(top, first)), rest) == Fqn(top, first + "." + rest)
  {
    if top.Some? {
      assert top.value + "." + first + "." + rest == top.value + "." + (first + "." + rest);
    }
  }

  lemma NamesBelow(top: Option<string>, first: string, rest: seq<string>)
    requires rest != []
    ensures Fqn(top, Dotted([first] + rest)) == Fqn(Some(Fqn(top, first)), Dotted(rest))
  {
    DottedDown(first, rest);
    FqnDown(top, first, Dotted(rest));
  }

  lemma DefinitionBelow(nodes: seq<ClassTree>, top: Option<string>, path: seq<nat>)
    requires IsPlace(nodes, path) && |path| > 1
    ensures DefinitionAt(nodes, top, path) ==
      DefinitionAt(nodes[path[0]].children, Some(Fqn(top, nodes[path[0]].name)), path[1..])
  {
    var first, rest := nodes[path[0]].name, NamesOn(nodes[path[0]].children, path[1..]);
    NamesBelow(top, first, rest);
    if |rest| == 1 {
      assert ([first] + rest)[..1] == [first] && Dotted([first]) == first;
    } else {
      NamesBelow(top, first, rest[..|rest| - 1]);
      assert ([first] + rest)[..|rest|] == [first] + rest[..|rest| - 1];
    }
  }

  lemma InMiddle<T>(a: seq<T>, b: seq<T>, c: seq<T>, k: nat)
    requires k < |b|
    ensures |a| + k < |a + b + c| && (a + b + c)[|a| + k] == b[k]
  {
  }

  /** An entry of one tree's list, found in the list of all. */
  lemma WithinAll(nodes: seq<ClassTree>, top: Option<string>, i: nat, k: nat)
    requires i < |nodes| && k < |Flatten(nodes[i], top)|
    ensures SizeAll(nodes[..i]) + k < |FlattenAll(nodes, top)|
    ensures FlattenAll(nodes, top)[SizeAll(nodes[..i]) + k] == Flatten(nodes[i], top)[k]
  {
    FlattenAllSplit(nodes, top, i);
    FlattenAllSize(nodes[..i], top);
    InMiddle(FlattenAll(nodes[..i], top), Flatten(nodes[i], top), FlattenAll(nodes[i + 1..], top), k);
  }

  lemma {:induction false} ListedAt(nodes: seq<ClassTree>, top: Option<string>, path: seq<nat>)
    requires IsPlace(nodes, path)
    ensures Position(nodes, path) < |FlattenAll(nodes, top)|
    ensures FlattenAll(nodes, top)[Position(nodes, path)] == DefinitionAt(nodes, top, path)
    decreases path
  {
    var node := nodes[path[0]];
    if |path| == 1 {
      assert Dotted([node.name]) == node.name;
      WithinAll(nodes, top, path[0], 0);
    } else {
      ListedAt(node.children, Some(Fqn(top, node.name)), path[1..]);
      WithinAll(nodes, top, path[0], 1 + Position(node.children, path[1..]));
      DefinitionBelow(nodes, top, path);
    }
  }

  /** The list of a module's trees has one entry per class, the class at each place at its preorder
      position, named by the dotted names on the way to it, with the way without it as its parent. */
  lemma FlattenMeaning(trees: seq<ClassTree>, path: seq<nat>)
    requires IsPlace(trees, path)
    ensures |FlattenAll(trees, None)| == SizeAll(trees)
    ensures Position(trees, path) < SizeAll(trees)
    ensures var d, names := FlattenAll(trees, None)[Position(trees, path)], NamesOn(trees, path);
      && d.name == Dotted(names)
      && d.parent == (if |names| == 1 then None else Some(Dotted(names[..|names| - 1])))
      && d.members == NodeAt(trees, path).members
      && d.semantics == NodeAt(trees, path).semantics && d.carriage == NodeAt(trees, path).carriage
  {
    FlattenAllSize(trees, None);
    ListedAt(trees, None, path);
  }

  // ---------------------------------------------------------------- every class gets a handle

  /** The modules as the reader of class trees hands them on. */
  function FromTrees(modules: seq<seq<ClassTree>>): seq<seq<ClassDef>> {
    seq(|modules|, i requires 0 <= i < |modules| => FlattenAll(modules[i], None))
  }

  lemma {:induction false} ConcatHas<T>(modules: seq<seq<T>>, x: T)
    ensures x in Concat(modules) <==> exists i :: 0 <= i < |modules| && x in modules[i]
  {
    if modules == [] {
    } else {
      ConcatHas(modules[..|modules| - 1], x);
    }
  }

  lemma TreesHang(modules: seq<seq<ClassTree>>, defs: seq<ClassDef>, d: ClassDef)
    requires defs == Concat(FromTrees(modules)) && d in defs
    ensures Hangs(defs, d, None)
  {
    var flat := FromTrees(modules);
    ConcatHas(flat, d);
    var i :| 0 <= i < |flat| && d in flat[i];
    FlattenAllHangs(modules[i], None);
    if d.parent.Some? {
      var e: ClassDef :| e in flat[i] && e.name == d.parent.value;
      ConcatHas(flat, e);
    }
  }

  /** Every parent chain ends at a root. */
  lemma {:induction false} TreesAreRooted(modules: seq<seq<ClassTree>>, defs: seq<ClassDef>,
                                          classes: map<string, ClassDef>, c: string)
    requires defs == Concat(FromTrees(modules)) && Merge(defs).Success? && classes == Merge(defs).value.classes
    requires c in classes
    ensures Rooted(classes, c)
    decreases |c|
  {
    MergeMeaning(defs);
    var d :| d in defs && d.name == c;
    TreesHang(modules, defs, d);
    if d.parent.None? {
      LinkedSnoc(classes, [], c);
      assert LeadsTo(classes, [] + [c], c);
    } else {
      TreesAreRooted(modules, defs, classes, d.parent.value);
      RootedBelow(classes, c);
    }
  }

  lemma RootedBelow(classes: map<string, ClassDef>, c: string)
    requires c in classes && classes[c].parent.Some? && Rooted(classes, classes[c].parent.value)
    ensures Rooted(classes, c)
  {
    var path :| LeadsTo(classes, path, classes[c].parent.value);
    LinkedSnoc(classes, path, c);
    assert LeadsTo(classes, path + [c], c);
  }

  lemma ListsAllNumbered(modules: seq<seq<ClassTree>>, defs: seq<ClassDef>, st: Merged)
    requires defs == Concat(FromTrees(modules)) && Merge(defs) == Success(st)
    ensures Proper(st) && Assign(st).handles.Keys == Names(defs)
  {
    MergeMeaning(defs);
    MergeIsProper(defs);
    AssignMeaning(st);
    forall c | c in st.classes
      ensures Rooted(st.classes, c)
    {
      TreesAreRooted(modules, defs, st.classes, c);
    }
  }

  /** `c` is the fully qualified name of a class in one of the trees. */
  ghost predicate NamedIn(modules: seq<seq<ClassTree>>, c: string) {
    exists i, path :: 0 <= i < |modules| && IsPlace(modules[i], path) && Dotted(NamesOn(modules[i], path)) == c
  }

  lemma NamedIffListed(modules: seq<seq<ClassTree>>, defs: seq<ClassDef>, c: string)
    requires defs == Concat(FromTrees(modules))
    ensures NamedIn(modules, c) <==> c in Names(defs)
  {
    var flat := FromTrees(modules);
    if NamedIn(modules, c) {
      var i, path :| 0 <= i < |modules| && IsPlace(modules[i], path) && Dotted(NamesOn(modules[i], path)) == c;
      FlattenMeaning(modules[i], path);
      var d := flat[i][Position(modules[i], path)];
      assert d in flat[i];
      ConcatHas(flat, d);
    }
    if c in Names(defs) {
      var d :| d in defs && d.name == c;
      ConcatHas(flat, d);
      var i :| 0 <= i < |flat| && d in flat[i];
      var k :| 0 <= k < |flat[i]| && flat[i][k] == d;
      FlattenAllSize(modules[i], None);
      var path := PlaceOf(modules[i], k);
      FlattenMeaning(modules[i], path);
    }
  }

  /** On modules made of class trees, if they merge at all, a name has a handle if and only if it is
      that of a class somewhere in the trees. */
  lemma TreesAllNumbered(modules: seq<seq<ClassTree>>, st: Merged, c: string)
    requires Merge(Concat(FromTrees(modules))) == Success(st)
    ensures Proper(st)
    ensures c in Assign(st).handles <==> NamedIn(modules, c)
  {
    var defs := Concat(FromTrees(modules));
    ListsAllNumbered(modules, defs, st);
    NamedIffListed(modules, defs, c);
  }
}
