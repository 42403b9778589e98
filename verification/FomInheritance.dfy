/**
 Walking a merged FOM towards the root.
 */
module FomInheritance {
  import opened Options
  import opened FomMerge
  import opened FomHandles
  import opened FomTables

  function ParentHandle(t: Tables, h: nat): Option<nat>
    requires h in t.classes
  {
    var p := t.classes[h].parent;
    if p.Some? && p.value in t.handles then Some(t.handles[p.value]) else None
  }

  /** A class and its ancestors, nearest first; nothing for an unknown handle. */
  ghost function Chain(t: Tables, h: nat): seq<nat>
    requires ParentsLower(t)
    decreases h
  {
    if h !in t.classes then []
    else [h] + if ParentHandle(t, h).Some? then Chain(t, ParentHandle(t, h).value) else []
  }

  /** The iterator: yields `next` and moves it to the parent. */
  class InheritanceIter {
    const fom: Tables
    var next: Option<nat>

    constructor (fom: Tables, start: nat)
      ensures this.fom == fom && next == Some(start)
    {
      this.fom := fom;
      next := Some(start);
    }

    ghost function Remaining(): seq<nat>
      requires ParentsLower(fom)
      reads this
    {
      if next.Some? then Chain(fom, next.value) else []
    }

    method Next() returns (r: Option<nat>)
      requires ParentsLower(fom)
      modifies this
      ensures old(Remaining()) == [] ==> r.None? && Remaining() == []
      ensures old(Remaining()) != [] ==> r == Some(old(Remaining())[0]) && Remaining() == old(Remaining())[1..]
    {
      if next.None? || next.value !in fom.classes {
        return None;
      }
      r := next;
      next := ParentHandle(fom, next.value);
    }
  }

  /** Collecting the iterator ends, and gives the chain. */
  method InheritanceChain(fom: Tables, h: nat) returns (s: seq<nat>)
    requires ParentsLower(fom)
    ensures s == Chain(fom, h)
  {
    var iter := new InheritanceIter(fom, h);
    s := [];
    ghost var rest := iter.Remaining();
    ghost var chain := rest;
    var r := iter.Next();
    while r.Some?
      invariant iter.fom == fom
      invariant r.Some? ==> rest != [] && r == Some(rest[0]) && iter.Remaining() == rest[1..]
      invariant r.None? ==> rest == []
      invariant s + rest == chain
      decreases |rest|
    {
      s := s + [r.value];
      rest := rest[1..];
      r := iter.Next();
    }
  }

  // ---------------------------------------------------------------- what the chain is

  /** The handles along a parent chain, read upwards. */
  ghost function Upwards(handles: map<string, nat>, path: seq<string>): seq<nat> {
    if path == [] then []
    else
      var c := path[|path| - 1];
      [if c in handles then handles[c] else 0] + Upwards(handles, path[..|path| - 1])
  }

  /** On a merged FOM the chain is the parent chain read upwards, all the way to the root. */
  lemma {:induction false} ChainIsParentChain(st: Merged, path: seq<string>, c: string)
    requires Proper(st) && LeadsTo(st.classes, path, c)
    ensures ParentsLower(Assign(st)) && c in Assign(st).handles
    ensures Chain(Assign(st), Assign(st).handles[c]) == Upwards(Assign(st).handles, path)
  {
    var t := Assign(st);
    AssignMeaning(st);
    assert Rooted(st.classes, c);
    var init := path[..|path| - 1];
    if init != [] {
      ChainIsParentChain(st, init, init[|init| - 1]);
    }
  }

  lemma {:induction false} UpwardsHas(handles: map<string, nat>, path: seq<string>, a: nat)
    requires forall c :: c in path ==> c in handles
    ensures a in Upwards(handles, path) <==> exists c :: c in path && handles[c] == a
  {
    if path == [] {
    } else {
      assert path == path[..|path| - 1] + [path[|path| - 1]];
      UpwardsHas(handles, path[..|path| - 1], a);
    }
  }

  /** Ancestry by name: `a` lies on the parent chain of `c`. */
  ghost predicate AncestorOrSelf(classes: Classes, a: string, c: string) {
    exists path :: LeadsTo(classes, path, c) && a in path
  }

  /** A handle is on the chain exactly when its class is the start or one of its ancestors. */
  lemma ChainMeaning(st: Merged, h: nat, a: nat)
    requires Proper(st) && h in Assign(st).classes && a in Assign(st).classes
    ensures ParentsLower(Assign(st))
    ensures a in Chain(Assign(st), h) <==>
      AncestorOrSelf(st.classes, Assign(st).classes[a].name, Assign(st).classes[h].name)
  {
    var t := Assign(st);
    AssignMeaning(st);
    var c, n := t.classes[h].name, t.classes[a].name;
    assert c in t.handles && n in t.handles;
    var path :| LeadsTo(st.classes, path, c);
    forall i | 0 <= i < |path|
      ensures path[i] in t.handles
    {
      LinkedPrefix(st.classes, path, i + 1);
      assert LeadsTo(st.classes, path[..i + 1], path[i]);
    }
    ChainIsParentChain(st, path, c);
    UpwardsHas(t.handles, path, a);
    if AncestorOrSelf(st.classes, n, c) {
      var q :| LeadsTo(st.classes, q, c) && n in q;
      OneChain(st.classes, path, q, c);
    }
  }
}
