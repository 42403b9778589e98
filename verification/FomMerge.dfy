/**
 Modular FOM merge (IEEE 1516.2): definitions of a class from several modules are united by fully
 qualified name.  Object classes with attributes and interaction classes with parameters go
 through the same algorithm and are modelled once.
 */
module FomMerge {
  import opened Options

  /** An attribute or a parameter; `fields` stands for everything but the name. */
  datatype Member = Member(name: string, fields: seq<string>)

  /** `carriage` is the order and transportation type of an interaction class; object classes have
      none.  A merge keeps the carriage of the first definition and compares no other. */
  datatype ClassDef = ClassDef(
    name: string,
    parent: Option<string>,
    members: seq<Member>,
    semantics: Option<string>,
    carriage: seq<string>)

  datatype Result<T> = Success(value: T) | MergeConflict

  /** The accumulators: merged definitions by name, and names in order of first appearance. */
  datatype Merged = Merged(classes: map<string, ClassDef>, order: seq<string>)

  const NOTHING := Merged(map[], [])

  // ---------------------------------------------------------------- the merge, as functions

  /** The first member of the given name. */
  function Find(ms: seq<Member>, name: string): (r: Option<Member>)
    ensures r.Some? ==> r.value in ms && r.value.name == name
    ensures r.None? ==> forall m :: m in ms ==> m.name != name
  {
    if ms == [] then None
    else if ms[0].name == name then Some(ms[0])
    else Find(ms[1..], name)
  }

  function MergeMember(target: seq<Member>, m: Member): Result<seq<Member>> {
    var existing := Find(target, m.name);
    if existing.None? then Success(target + [m])
    else if existing.value != m then MergeConflict
    else Success(target)
  }

  function MergeMembers(target: seq<Member>, ms: seq<Member>): Result<seq<Member>> {
    if ms == [] then Success(target)
    else
      var r := MergeMembers(target, ms[..|ms| - 1]);
      if r.MergeConflict? then r else MergeMember(r.value, ms[|ms| - 1])
  }

  function MergeClass(st: Merged, d: ClassDef): Result<Merged> {
    if d.name !in st.classes then
      Success(Merged(st.classes[d.name := d], st.order + [d.name]))
    else
      var existing := st.classes[d.name];
      if existing.parent != d.parent then MergeConflict
      else
        var r := MergeMembers(existing.members, d.members);
        if r.MergeConflict? then MergeConflict
        else
          var semantics := if existing.semantics.None? then d.semantics else existing.semantics;
          Success(st.(classes := st.classes[d.name := existing.(members := r.value, semantics := semantics)]))
  }

  function Merge(defs: seq<ClassDef>): Result<Merged> {
    if defs == [] then Success(NOTHING)
    else
      var r := Merge(defs[..|defs| - 1]);
      if r.MergeConflict? then r else MergeClass(r.value, defs[|defs| - 1])
  }

  // ---------------------------------------------------------------- what acceptance means

  /** All members listed for class `c`, definition after definition. */
  function Listed(defs: seq<ClassDef>, c: string): seq<Member> {
    if defs == [] then []
    else
      var d := defs[|defs| - 1];
      Listed(defs[..|defs| - 1], c) + (if d.name == c then d.members else [])
  }

  function Names(defs: seq<ClassDef>): set<string> {
    set d | d in defs :: d.name
  }

  /** Every member equals the first one listed under its name. */
  ghost predicate Fits(all: seq<Member>, ms: seq<Member>) {
    forall m :: m in ms ==> Find(all, m.name) == Some(m)
  }

  /** The exact acceptance condition: a later definition of a class has the parent of the earlier
      ones, and each of its members equals the first member listed under that name. */
  ghost predicate Accepted(defs: seq<ClassDef>) {
    forall i, j :: 0 <= i < j < |defs| && defs[i].name == defs[j].name ==>
      defs[i].parent == defs[j].parent && Fits(Listed(defs, defs[j].name), defs[j].members)
  }

  // ---------------------------------------------------------------- members

  lemma {:induction false} FindInPrefix(a: seq<Member>, b: seq<Member>, name: string)
    ensures Find(a + b, name) == if Find(a, name).Some? then Find(a, name) else Find(b, name)
  {
    if a == [] {
      assert a + b == b;
    } else {
      assert (a + b)[1..] == a[1..] + b;
      FindInPrefix(a[1..], b, name);
    }
  }

  ghost predicate SameMembers(a: seq<Member>, b: seq<Member>) {
    && (forall m :: m in a <==> m in b)
    && (forall n :: Find(a, n) == Find(b, n))
  }

  lemma FindAppend(a: seq<Member>, m: Member, n: string)
    ensures Find(a + [m], n) == if Find(a, n).Some? then Find(a, n) else if m.name == n then Some(m) else None
  {
    FindInPrefix(a, [m], n);
    assert [m][1..] == [];
  }

  lemma FitsAppend(all: seq<Member>, init: seq<Member>, m: Member)
    requires forall x :: x in init ==> x in all
    ensures Fits(all + [m], init + [m]) <==>
      Fits(all, init) && (Find(all, m.name) == None || Find(all, m.name) == Some(m))
  {
    FindAppend(all, m, m.name);
    forall x | x in init
      ensures Find(all + [m], x.name) == Find(all, x.name)
    {
      FindAppend(all, m, x.name);
    }
    assert m in init + [m];
    assert forall x :: x in init ==> x in init + [m];
  }

  lemma MergeMemberMeaning(r: seq<Member>, all: seq<Member>, m: Member)
    requires SameMembers(r, all)
    ensures MergeMember(r, m).Success? <==> (Find(all, m.name) == None || Find(all, m.name) == Some(m))
    ensures MergeMember(r, m).Success? ==> SameMembers(MergeMember(r, m).value, all + [m])
  {
    assert Find(r, m.name) == Find(all, m.name);
    if MergeMember(r, m).Success? {
      var r' := MergeMember(r, m).value;
      forall n
        ensures Find(r', n) == Find(all + [m], n)
      {
        assert Find(r, n) == Find(all, n);
        FindAppend(r, m, n);
        FindAppend(all, m, n);
      }
    }
  }

  /** Folding members in succeeds exactly when they fit, and then loses and invents nothing. */
  lemma {:induction false} MergeMembersMeaning(target: seq<Member>, ms: seq<Member>)
    ensures MergeMembers(target, ms).Success? <==> Fits(target + ms, ms)
    ensures MergeMembers(target, ms).Success? ==> SameMembers(MergeMembers(target, ms).value, target + ms)
  {
    if ms == [] {
      assert target + ms == target;
    } else {
      var init, m := ms[..|ms| - 1], ms[|ms| - 1];
      assert ms == init + [m] && target + ms == (target + init) + [m];
      MergeMembersMeaning(target, init);
      FitsAppend(target + init, init, m);
      var r := MergeMembers(target, init);
      if r.Success? {
        MergeMemberMeaning(r.value, target + init, m);
      }
    }
  }

  // ---------------------------------------------------------------- definitions

  lemma NamesSnoc(defs: seq<ClassDef>, d: ClassDef)
    ensures Names(defs + [d]) == Names(defs) + {d.name}
    ensures forall x :: x in defs + [d] <==> x in defs || x == d
  {
    assert forall x :: x in defs + [d] <==> x in defs || x == d;
  }

  /** The first definition of class `c`. */
  function FirstDef(defs: seq<ClassDef>, c: string): Option<ClassDef> {
    if defs == [] then None
    else
      var before, d := FirstDef(defs[..|defs| - 1], c), defs[|defs| - 1];
      if before.Some? then before else if d.name == c then Some(d) else None
  }

  /** The first semantics text that a definition of class `c` gives. */
  function FirstText(defs: seq<ClassDef>, c: string): Option<string> {
    if defs == [] then None
    else
      var before, d := FirstText(defs[..|defs| - 1], c), defs[|defs| - 1];
      if before.Some? then before else if d.name == c then d.semantics else None
  }

  lemma FirstSnoc(defs: seq<ClassDef>, d: ClassDef, c: string)
    ensures FirstDef(defs + [d], c) ==
      if FirstDef(defs, c).Some? then FirstDef(defs, c) else if d.name == c then Some(d) else None
    ensures FirstText(defs + [d], c) ==
      if FirstText(defs, c).Some? then FirstText(defs, c) else if d.name == c then d.semantics else None
  {
    assert (defs + [d])[..|defs|] == defs;
  }

  lemma {:induction false} FirstIsListed(defs: seq<ClassDef>, c: string)
    ensures FirstDef(defs, c).Some? <==> c in Names(defs)
    ensures FirstDef(defs, c).Some? ==> FirstDef(defs, c).value in defs && FirstDef(defs, c).value.name == c
    ensures FirstText(defs, c).Some? ==> exists d :: d in defs && d.name == c && d.semantics == FirstText(defs, c)
    ensures FirstText(defs, c).None? ==> forall d :: d in defs && d.name == c ==> d.semantics.None?
  {
    if defs == [] {
    } else {
      var init, d := defs[..|defs| - 1], defs[|defs| - 1];
      assert defs == init + [d];
      FirstIsListed(init, c);
      NamesSnoc(init, d);
    }
  }

  lemma {:induction false} FirstInFront(x: ClassDef, defs: seq<ClassDef>)
    ensures FirstDef([x] + defs, x.name) == Some(x)
    ensures x.semantics.Some? ==> FirstText([x] + defs, x.name) == x.semantics
  {
    if defs == [] {
      FirstSnoc([], x, x.name);
      assert [x] + defs == [] + [x];
    } else {
      var init, d := defs[..|defs| - 1], defs[|defs| - 1];
      FirstInFront(x, init);
      FirstSnoc([x] + init, d, x.name);
      assert [x] + defs == ([x] + init) + [d];
    }
  }

  /** What the accumulators hold after merging `defs`. */
  ghost predicate IsMergeOf(defs: seq<ClassDef>, st: Merged) {
    && st.classes.Keys == Names(defs)
    && (forall c :: c in st.classes ==>
          && st.classes[c].name == c
          && SameMembers(st.classes[c].members, Listed(defs, c)))
    && (forall d :: d in defs ==> st.classes[d.name].parent == d.parent)
    && (forall c :: c in st.classes ==>
          && st.classes[c].semantics == FirstText(defs, c)
          && FirstDef(defs, c).Some? && st.classes[c].carriage == FirstDef(defs, c).value.carriage)
    && (forall c :: c in st.order <==> c in st.classes)
    && (forall i, j :: 0 <= i < j < |st.order| ==> st.order[i] != st.order[j])
  }

  lemma {:induction false} ListedHas(defs: seq<ClassDef>, c: string, m: Member)
    ensures m in Listed(defs, c) <==> exists d :: d in defs && d.name == c && m in d.members
  {
    if defs == [] {
    } else {
      var init, d := defs[..|defs| - 1], defs[|defs| - 1];
      ListedHas(init, c, m);
      assert defs == init + [d];
      assert forall x :: x in defs <==> x in init || x == d;
    }
  }

  lemma ListedSnoc(defs: seq<ClassDef>, d: ClassDef, c: string)
    ensures d.name == c ==> Listed(defs + [d], c) == Listed(defs, c) + d.members
    ensures d.name != c ==> Listed(defs + [d], c) == Listed(defs, c)
  {
    assert (defs + [d])[..|defs|] == defs;
  }

  lemma {:induction false} ListedNothing(defs: seq<ClassDef>, c: string)
    requires c !in Names(defs)
    ensures Listed(defs, c) == []
  {
    if defs == [] {
    } else {
      assert forall x :: x in defs[..|defs| - 1] ==> x in defs;
      ListedNothing(defs[..|defs| - 1], c);
    }
  }

  lemma FitsPrefix(a: seq<Member>, b: seq<Member>, ms: seq<Member>)
    requires forall m :: m in ms ==> m in a
    ensures Fits(a + b, ms) <==> Fits(a, ms)
  {
    forall m | m in ms
      ensures Find(a + b, m.name) == Find(a, m.name)
    {
      FindInPrefix(a, b, m.name);
    }
  }

  lemma FitsSame(a: seq<Member>, a': seq<Member>, b: seq<Member>, ms: seq<Member>)
    requires SameMembers(a, a')
    ensures Fits(a + b, ms) <==> Fits(a' + b, ms)
    ensures SameMembers(a + b, a' + b)
  {
    forall n
      ensures Find(a + b, n) == Find(a' + b, n)
    {
      FindInPrefix(a, b, n);
      FindInPrefix(a', b, n);
      assert Find(a, n) == Find(a', n);
    }
  }

  /** One more definition agrees with those before it. */
  ghost predicate Joins(defs: seq<ClassDef>, d: ClassDef) {
    d.name in Names(defs) ==>
      (forall e :: e in defs && e.name == d.name ==> e.parent == d.parent) &&
      Fits(Listed(defs, d.name) + d.members, d.members)
  }

  lemma ListedKeeps(defs: seq<ClassDef>, d: ClassDef, j: nat)
    requires j < |defs|
    ensures Fits(Listed(defs + [d], defs[j].name), defs[j].members) <==>
            Fits(Listed(defs, defs[j].name), defs[j].members)
  {
    var n := defs[j].name;
    ListedSnoc(defs, d, n);
    forall m | m in defs[j].members
      ensures m in Listed(defs, n)
    {
      ListedHas(defs, n, m);
    }
    FitsPrefix(Listed(defs, n), d.members, defs[j].members);
  }

  lemma AcceptedSnoc(defs: seq<ClassDef>, d: ClassDef)
    ensures Accepted(defs + [d]) <==> Accepted(defs) && Joins(defs, d)
  {
    var all := defs + [d];
    forall j | 0 <= j < |defs|
      ensures Fits(Listed(all, all[j].name), all[j].members) <==>
              Fits(Listed(defs, defs[j].name), defs[j].members)
    {
      ListedKeeps(defs, d, j);
    }
    ListedSnoc(defs, d, d.name);
    if Accepted(all) {
      assert Accepted(defs) by {
        forall i, j | 0 <= i < j < |defs| && defs[i].name == defs[j].name
          ensures defs[i].parent == defs[j].parent && Fits(Listed(defs, defs[j].name), defs[j].members)
        {
          assert all[i] == defs[i] && all[j] == defs[j];
        }
      }
      if d.name in Names(defs) {
        var k :| 0 <= k < |defs| && defs[k].name == d.name;
        assert all[k] == defs[k] && all[|defs|] == d;
        forall e | e in defs && e.name == d.name
          ensures e.parent == d.parent
        {
          var i :| 0 <= i < |defs| && defs[i] == e;
          assert all[i] == e;
        }
      }
    }
    if Accepted(defs) && Joins(defs, d) {
      forall i, j | 0 <= i < j < |all| && all[i].name == all[j].name
        ensures all[i].parent == all[j].parent && Fits(Listed(all, all[j].name), all[j].members)
      {
        assert all[i] == defs[i] && defs[i] in defs;
        if j < |defs| {
          assert all[j] == defs[j];
        }
      }
    }
  }

  lemma MergeClassMeaning(defs: seq<ClassDef>, st: Merged, d: ClassDef)
    requires IsMergeOf(defs, st)
    ensures MergeClass(st, d).Success? <==> Joins(defs, d)
  {
    if d.name in st.classes {
      var e :| e in defs && e.name == d.name;
      var existing := st.classes[d.name];
      MergeMembersMeaning(existing.members, d.members);
      FitsSame(existing.members, Listed(defs, d.name), d.members, d.members);
    }
  }

  lemma MergeClassMembers(defs: seq<ClassDef>, st: Merged, d: ClassDef, c: string)
    requires IsMergeOf(defs, st) && MergeClass(st, d).Success? && c in MergeClass(st, d).value.classes
    ensures SameMembers(MergeClass(st, d).value.classes[c].members, Listed(defs + [d], c))
  {
    ListedSnoc(defs, d, c);
    if c == d.name {
      if c in st.classes {
        MergeMembersMeaning(st.classes[c].members, d.members);
        FitsSame(st.classes[c].members, Listed(defs, c), d.members, d.members);
      } else {
        ListedNothing(defs, c);
        assert [] + d.members == d.members;
      }
    }
  }

  lemma MergeClassOrder(st: Merged, d: ClassDef)
    requires forall c :: c in st.order <==> c in st.classes
    requires forall i, j :: 0 <= i < j < |st.order| ==> st.order[i] != st.order[j]
    requires MergeClass(st, d).Success?
    ensures var st' := MergeClass(st, d).value;
      && st'.classes.Keys == st.classes.Keys + {d.name}
      && (forall c :: c in st'.order <==> c in st'.classes)
      && (forall i, j :: 0 <= i < j < |st'.order| ==> st'.order[i] != st'.order[j])
  {
  }

  lemma MergeClassFields(st: Merged, d: ClassDef, c: string)
    requires MergeClass(st, d).Success? && c in MergeClass(st, d).value.classes
    requires c in st.classes ==> st.classes[c].name == c
    ensures var after := MergeClass(st, d).value.classes[c];
      && after.name == c
      && (c == d.name ==> after.parent == d.parent)
      && (c in st.classes ==> after.parent == st.classes[c].parent && after.carriage == st.classes[c].carriage)
      && (c !in st.classes ==> after == d)
      && (c in st.classes && (st.classes[c].semantics.Some? || c != d.name) ==>
        after.semantics == st.classes[c].semantics)
      && (c in st.classes && st.classes[c].semantics.None? && c == d.name ==> after.semantics == d.semantics)
  {
  }

  lemma MergeClassFirst(defs: seq<ClassDef>, st: Merged, d: ClassDef, c: string)
    requires IsMergeOf(defs, st) && MergeClass(st, d).Success? && c in MergeClass(st, d).value.classes
    ensures var after := MergeClass(st, d).value.classes[c];
      && after.semantics == FirstText(defs + [d], c)
      && FirstDef(defs + [d], c).Some? && after.carriage == FirstDef(defs + [d], c).value.carriage
  {
    MergeClassFields(st, d, c);
    FirstSnoc(defs, d, c);
    FirstIsListed(defs, c);
  }

  lemma MergeClassKeeps(defs: seq<ClassDef>, st: Merged, d: ClassDef)
    requires IsMergeOf(defs, st) && MergeClass(st, d).Success?
    ensures IsMergeOf(defs + [d], MergeClass(st, d).value)
  {
    NamesSnoc(defs, d);
    MergeClassOrder(st, d);
    var classes := MergeClass(st, d).value.classes;
    forall c | c in classes
      ensures classes[c].name == c && SameMembers(classes[c].members, Listed(defs + [d], c))
    {
      MergeClassFields(st, d, c);
      MergeClassMembers(defs, st, d, c);
    }
    forall e | e in defs + [d]
      ensures classes[e.name].parent == e.parent
    {
      MergeClassFields(st, d, e.name);
    }
    forall c | c in classes
      ensures classes[c].semantics == FirstText(defs + [d], c)
      ensures FirstDef(defs + [d], c).Some? && classes[c].carriage == FirstDef(defs + [d], c).value.carriage
    {
      MergeClassFirst(defs, st, d, c);
    }
  }

  /** The merge succeeds exactly when the definitions are `Accepted`, and then holds their union. */
  lemma {:induction false} MergeMeaning(defs: seq<ClassDef>)
    ensures Merge(defs).Success? <==> Accepted(defs)
    ensures Merge(defs).Success? ==> IsMergeOf(defs, Merge(defs).value)
  {
    if defs == [] {
    } else {
      var init, d := defs[..|defs| - 1], defs[|defs| - 1];
      assert defs == init + [d];
      MergeMeaning(init);
      AcceptedSnoc(init, d);
      if Merge(init).Success? {
        MergeClassMeaning(init, Merge(init).value, d);
        if Merge(defs).Success? {
          MergeClassKeeps(init, Merge(init).value, d);
        }
      }
    }
  }

  // ---------------------------------------------------------------- modules that list each name once

  ghost predicate ListsOnce(defs: seq<ClassDef>) {
    forall d, a, b :: d in defs && a in d.members && b in d.members && a.name == b.name ==> a == b
  }

  /** Any two definitions of a class agree on its parent and on every member they both list. */
  ghost predicate Agree(defs: seq<ClassDef>) {
    && (forall d, e :: d in defs && e in defs && d.name == e.name ==> d.parent == e.parent)
    && (forall d, e, a, b ::
          (d in defs && e in defs && d.name == e.name && a in d.members && b in e.members && a.name == b.name) ==>
          a == b)
  }

  lemma {:induction false} FindInFirst(defs: seq<ClassDef>, i: nat, m: Member)
    requires i < |defs| && m in defs[i].members && ListsOnce(defs)
    requires forall k :: 0 <= k < i ==> defs[k].name != defs[i].name
    ensures Find(Listed(defs, defs[i].name), m.name) == Some(m)
  {
    var init, d := defs[..|defs| - 1], defs[|defs| - 1];
    assert defs == init + [d];
    ListedSnoc(init, d, defs[i].name);
    if i == |init| {
      assert defs[i].name !in Names(init);
      ListedNothing(init, d.name);
      assert [] + d.members == d.members;
    } else {
      assert forall x :: x in init ==> x in defs;
      FindInFirst(init, i, m);
      FindInPrefix(Listed(init, defs[i].name), d.members, m.name);
    }
  }

  /** The first index at which a class is defined. */
  function FirstIndex(defs: seq<ClassDef>, c: string): (i: nat)
    requires c in Names(defs)
    ensures i < |defs| && defs[i].name == c && forall k :: 0 <= k < i ==> defs[k].name != c
  {
    if defs[0].name == c then 0
    else
      assert defs == [defs[0]] + defs[1..];
      1 + FirstIndex(defs[1..], c)
  }

  /** An accepted list shows, under each name, one member only. */
  lemma AcceptedFits(defs: seq<ClassDef>, d: ClassDef)
    requires ListsOnce(defs) && Accepted(defs) && d in defs
    ensures Fits(Listed(defs, d.name), d.members)
    ensures d.parent == defs[FirstIndex(defs, d.name)].parent
  {
    var j :| 0 <= j < |defs| && defs[j] == d;
    var i := FirstIndex(defs, d.name);
    if i == j {
      forall m | m in d.members
        ensures Find(Listed(defs, d.name), m.name) == Some(m)
      {
        FindInFirst(defs, i, m);
      }
    } else {
      assert i < j;
    }
  }

  lemma AgreeFits(defs: seq<ClassDef>, d: ClassDef)
    requires Agree(defs) && d in defs
    ensures Fits(Listed(defs, d.name), d.members)
  {
    forall m | m in d.members
      ensures Find(Listed(defs, d.name), m.name) == Some(m)
    {
      ListedHas(defs, d.name, m);
      var f := Find(Listed(defs, d.name), m.name);
      ListedHas(defs, d.name, f.value);
    }
  }

  /** For modules listing each member once per definition, merging succeeds if and only if all
      definitions of a class agree pairwise. */
  lemma AcceptedIffAgree(defs: seq<ClassDef>)
    requires ListsOnce(defs)
    ensures Merge(defs).Success? <==> Agree(defs)
  {
    MergeMeaning(defs);
    if Accepted(defs) {
      forall d | d in defs
        ensures Fits(Listed(defs, d.name), d.members)
        ensures d.parent == defs[FirstIndex(defs, d.name)].parent
      {
        AcceptedFits(defs, d);
      }
    }
    if Agree(defs) {
      forall d | d in defs
        ensures Fits(Listed(defs, d.name), d.members)
      {
        AgreeFits(defs, d);
      }
    }
  }

  /** Order does not matter: lists with the same definitions, in any order and however often
      repeated, are accepted alike and give the same classes, parents and members. */
  lemma MergeOrderIndependent(defs: seq<ClassDef>, other: seq<ClassDef>)
    requires ListsOnce(defs)
    requires forall d :: d in defs <==> d in other
    ensures Merge(defs).Success? <==> Merge(other).Success?
    ensures Merge(defs).Success? ==>
      var a, b := Merge(defs).value.classes, Merge(other).value.classes;
      && a.Keys == b.Keys
      && forall c :: c in a ==> a[c].parent == b[c].parent && forall m :: m in a[c].members <==> m in b[c].members
  {
    AcceptedIffAgree(defs);
    AcceptedIffAgree(other);
    if Merge(defs).Success? {
      MergeMeaning(defs);
      MergeMeaning(other);
      var a, b := Merge(defs).value.classes, Merge(other).value.classes;
      assert Names(defs) == Names(other);
      forall c | c in a
        ensures a[c].parent == b[c].parent
        ensures forall m :: m in a[c].members <==> m in b[c].members
      {
        var d :| d in defs && d.name == c;
        assert d in other;
        forall m
          ensures m in a[c].members <==> m in b[c].members
        {
          ListedHas(defs, c, m);
          ListedHas(other, c, m);
        }
      }
    }
  }

  // ---------------------------------------------------------------- merging twice

  lemma {:induction false} MergeMembersAgain(target: seq<Member>, ms: seq<Member>)
    requires Fits(target, ms)
    ensures MergeMembers(target, ms) == Success(target)
  {
    if ms == [] {
    } else {
      assert ms == ms[..|ms| - 1] + [ms[|ms| - 1]];
      MergeMembersAgain(target, ms[..|ms| - 1]);
    }
  }

  lemma MergeClassAgain(defs: seq<ClassDef>, st: Merged, d: ClassDef)
    requires IsMergeOf(defs, st) && d in defs && Fits(Listed(defs, d.name), d.members)
    ensures MergeClass(st, d) == Success(st)
  {
    var existing := st.classes[d.name];
    assert Fits(existing.members, d.members) by {
      forall m | m in d.members
        ensures Find(existing.members, m.name) == Some(m)
      {
        assert Find(Listed(defs, d.name), m.name) == Some(m);
      }
    }
    MergeMembersAgain(existing.members, d.members);
    FirstIsListed(defs, d.name);
    assert st.classes[d.name := existing] == st.classes;
  }

  lemma MergeSnoc(defs: seq<ClassDef>, d: ClassDef)
    ensures Merge(defs + [d]) == if Merge(defs).MergeConflict? then MergeConflict else MergeClass(Merge(defs).value, d)
  {
    assert (defs + [d])[..|defs|] == defs;
  }

  /** A definition already merged in changes nothing. */
  lemma MergeKnown(defs: seq<ClassDef>, d: ClassDef)
    requires ListsOnce(defs) && Merge(defs).Success? && d in defs
    ensures MergeClass(Merge(defs).value, d) == Merge(defs)
  {
    MergeMeaning(defs);
    AcceptedFits(defs, d);
    MergeClassAgain(defs, Merge(defs).value, d);
  }

  lemma {:induction false} MergeMore(defs: seq<ClassDef>, more: seq<ClassDef>)
    requires ListsOnce(defs) && Merge(defs).Success?
    requires forall d :: d in more ==> d in defs
    ensures Merge(defs + more) == Merge(defs)
  {
    if more == [] {
      assert defs + more == defs;
    } else {
      var init, d := more[..|more| - 1], more[|more| - 1];
      MergeMore(defs, init);
      assert defs + more == (defs + init) + [d];
      MergeSnoc(defs + init, d);
      MergeKnown(defs, d);
    }
  }

  /** Merging an accepted list with itself changes no table and no order. */
  lemma MergeTwice(defs: seq<ClassDef>)
    requires ListsOnce(defs) && Merge(defs).Success?
    ensures Merge(defs + defs) == Merge(defs)
  {
    MergeMore(defs, defs);
  }

  // ---------------------------------------------------------------- what the merge does not notice

  /** A single definition may list two different members under one name: they do not agree, yet
      the merge accepts them. */
  lemma LoneDuplicateAccepted()
    ensures exists d :: !Agree([d]) && Merge([d]).Success?
  {
    var a, b := Member("X", ["HLAinteger32BE"]), Member("X", ["HLAfloat64BE"]);
    var d := ClassDef("HLAobjectRoot", None, [a, b], None, []);
    MergeMeaning([d]);
    assert a in d.members && b in d.members && d in [d];
  }

  /** The same definitions, in any order and however often. */
  ghost predicate SameDefinitions(defs: seq<ClassDef>, other: seq<ClassDef>) {
    forall d :: d in defs <==> d in other
  }

  /** The carriage and the semantics text of a class in the merge, if there is one. */
  function CarriageOf(defs: seq<ClassDef>, c: string): Option<seq<string>> {
    var m := Merge(defs);
    if m.Success? && c in m.value.classes then Some(m.value.classes[c].carriage) else None
  }

  function SemanticsOf(defs: seq<ClassDef>, c: string): Option<string> {
    var m := Merge(defs);
    if m.Success? && c in m.value.classes then m.value.classes[c].semantics else None
  }

  /** In whatever order the definitions come, the first one counts. */
  lemma FirstCounts(defs: seq<ClassDef>, other: seq<ClassDef>, c: string)
    requires ListsOnce(defs) && Merge(defs).Success? && c in Names(defs) && SameDefinitions(defs, other)
    ensures FirstDef(other, c).Some? && FirstDef(other, c).value in defs && FirstDef(other, c).value.name == c
    ensures CarriageOf(other, c) == Some(FirstDef(other, c).value.carriage)
    ensures SemanticsOf(other, c) == FirstText(other, c)
  {
    MergeOrderIndependent(defs, other);
    MergeMeaning(other);
    FirstIsListed(other, c);
    var d :| d in defs && d.name == c;
    assert d in other;
  }

  lemma PutInFront(defs: seq<ClassDef>, x: ClassDef)
    requires ListsOnce(defs) && Merge(defs).Success? && x in defs
    ensures SameDefinitions(defs, [x] + defs)
    ensures CarriageOf([x] + defs, x.name) == Some(x.carriage)
    ensures x.semantics.Some? ==> SemanticsOf([x] + defs, x.name) == x.semantics
  {
    FirstCounts(defs, [x] + defs, x.name);
    FirstInFront(x, defs);
  }

  ghost predicate CarriagesAgree(defs: seq<ClassDef>, c: string) {
    forall d, e :: d in defs && e in defs && d.name == c && e.name == c ==> d.carriage == e.carriage
  }

  /** Order and transportation of an interaction class come from its first definition and are not
      compared: they do not depend on the order of modules if and only if all definitions of the
      class happen to agree on them. */
  lemma CarriageDependsOnOrder(defs: seq<ClassDef>, c: string)
    requires ListsOnce(defs) && Merge(defs).Success? && c in Names(defs)
    ensures CarriageOf(defs, c) == Some(defs[FirstIndex(defs, c)].carriage)
    ensures (forall other :: SameDefinitions(defs, other) ==> CarriageOf(other, c) == CarriageOf(defs, c)) <==>
      CarriagesAgree(defs, c)
  {
    FirstCounts(defs, defs, c);
    FirstDefIndex(defs, c);
    if CarriagesAgree(defs, c) {
      forall other | SameDefinitions(defs, other)
        ensures CarriageOf(other, c) == CarriageOf(defs, c)
      {
        SameCarriage(defs, other, c);
      }
    } else {
      var other := OtherCarriage(defs, c);
    }
  }

  lemma SameCarriage(defs: seq<ClassDef>, other: seq<ClassDef>, c: string)
    requires ListsOnce(defs) && Merge(defs).Success? && c in Names(defs)
    requires CarriagesAgree(defs, c) && SameDefinitions(defs, other)
    ensures CarriageOf(other, c) == CarriageOf(defs, c)
  {
    FirstCounts(defs, defs, c);
    FirstCounts(defs, other, c);
  }

  lemma OtherCarriage(defs: seq<ClassDef>, c: string) returns (other: seq<ClassDef>)
    requires ListsOnce(defs) && Merge(defs).Success? && !CarriagesAgree(defs, c)
    ensures SameDefinitions(defs, other) && CarriageOf(other, c) != CarriageOf(defs, c)
  {
    var d, e :| d in defs && e in defs && d.name == c && e.name == c && d.carriage != e.carriage;
    PutInFront(defs, d);
    PutInFront(defs, e);
    other := if CarriageOf(defs, c) == Some(d.carriage) then [e] + defs else [d] + defs;
  }

  lemma {:induction false} FirstDefIndex(defs: seq<ClassDef>, c: string)
    requires c in Names(defs)
    ensures FirstDef(defs, c) == Some(defs[FirstIndex(defs, c)])
  {
    var n, i := |defs| - 1, FirstIndex(defs, c);
    assert defs == defs[..n] + [defs[n]];
    FirstSnoc(defs[..n], defs[n], c);
    FirstIsListed(defs[..n], c);
    if i < n {
      assert defs[..n][i] == defs[i];
      FirstDefIndex(defs[..n], c);
      assert FirstIndex(defs[..n], c) == i;
    } else {
      assert c !in Names(defs[..n]);
    }
  }

  ghost predicate TextsAgree(defs: seq<ClassDef>, c: string) {
    forall d, e ::
      (d in defs && e in defs && d.name == c && e.name == c && d.semantics.Some? && e.semantics.Some?) ==>
      d.semantics == e.semantics
  }

  /** The semantics text is the first one given, so it does not depend on the order of modules if and
      only if all texts given for the class agree. */
  lemma SemanticsDependsOnOrder(defs: seq<ClassDef>, c: string)
    requires ListsOnce(defs) && Merge(defs).Success? && c in Names(defs)
    ensures SemanticsOf(defs, c) == FirstText(defs, c)
    ensures (forall other :: SameDefinitions(defs, other) ==> SemanticsOf(other, c) == SemanticsOf(defs, c)) <==>
      TextsAgree(defs, c)
  {
    FirstCounts(defs, defs, c);
    if TextsAgree(defs, c) {
      forall other | SameDefinitions(defs, other)
        ensures SemanticsOf(other, c) == SemanticsOf(defs, c)
      {
        SameText(defs, other, c);
      }
    } else {
      var other := OtherText(defs, c);
    }
  }

  lemma SameText(defs: seq<ClassDef>, other: seq<ClassDef>, c: string)
    requires ListsOnce(defs) && Merge(defs).Success? && c in Names(defs)
    requires TextsAgree(defs, c) && SameDefinitions(defs, other)
    ensures SemanticsOf(other, c) == SemanticsOf(defs, c)
  {
    FirstCounts(defs, defs, c);
    FirstCounts(defs, other, c);
    FirstIsListed(defs, c);
    FirstIsListed(other, c);
  }

  lemma OtherText(defs: seq<ClassDef>, c: string) returns (other: seq<ClassDef>)
    requires ListsOnce(defs) && Merge(defs).Success? && !TextsAgree(defs, c)
    ensures SameDefinitions(defs, other) && SemanticsOf(other, c) != SemanticsOf(defs, c)
  {
    var d, e :| d in defs && e in defs && d.name == c && e.name == c &&
                d.semantics.Some? && e.semantics.Some? && d.semantics != e.semantics;
    PutInFront(defs, d);
    PutInFront(defs, e);
    other := if SemanticsOf(defs, c) == d.semantics then [e] + defs else [d] + defs;
  }

  // ---------------------------------------------------------------- the merge, as it runs

  method MergeMemberInto(m: Member, target: seq<Member>) returns (r: Result<seq<Member>>)
    ensures r == MergeMember(target, m)
  {
    var i := 0;
    while i < |target| && target[i].name != m.name
      invariant 0 <= i <= |target|
      invariant Find(target[i..], m.name) == Find(target, m.name)
    {
      assert target[i..][1..] == target[i + 1..];
      i := i + 1;
    }
    if i == |target| {
      r := Success(target + [m]);
    } else if target[i] != m {
      r := MergeConflict;
    } else {
      r := Success(target);
    }
  }

  method MergeClassInto(d: ClassDef, st: Merged) returns (r: Result<Merged>)
    ensures r == MergeClass(st, d)
  {
    if d.name !in st.classes {
      return Success(Merged(st.classes[d.name := d], st.order + [d.name]));
    }
    var existing := st.classes[d.name];
    if existing.parent != d.parent {
      return MergeConflict;
    }
    var members := existing.members;
    var i := 0;
    while i < |d.members|
      invariant 0 <= i <= |d.members|
      invariant MergeMembers(existing.members, d.members[..i]) == Success(members)
    {
      assert d.members[..i + 1][..i] == d.members[..i];
      var one := MergeMemberInto(d.members[i], members);
      if one.MergeConflict? {
        ConflictStays(existing.members, d.members, i + 1);
        return MergeConflict;
      }
      members := one.value;
      i := i + 1;
    }
    assert d.members[..i] == d.members;
    var semantics := if existing.semantics.None? then d.semantics else existing.semantics;
    return Success(st.(classes := st.classes[d.name := existing.(members := members, semantics := semantics)]));
  }

  lemma {:induction false} ConflictStays(target: seq<Member>, ms: seq<Member>, i: nat)
    requires i <= |ms| && MergeMembers(target, ms[..i]).MergeConflict?
    ensures MergeMembers(target, ms).MergeConflict?
  {
    if i < |ms| {
      assert ms[..|ms| - 1][..i] == ms[..i];
      ConflictStays(target, ms[..|ms| - 1], i);
    } else {
      assert ms[..i] == ms;
    }
  }

  /** The class definitions of all modules, in module order. */
  function Concat<T>(modules: seq<seq<T>>): seq<T> {
    if modules == [] then [] else Concat(modules[..|modules| - 1]) + modules[|modules| - 1]
  }

  /** The definitions of one module, on top of what was merged before. */
  method MergeModuleInto(defs: seq<ClassDef>, st: Merged, ghost before: seq<ClassDef>) returns (r: Result<Merged>)
    requires Merge(before) == Success(st)
    ensures r == Merge(before + defs)
  {
    var now := st;
    var j := 0;
    assert before + defs[..0] == before;
    while j < |defs|
      invariant 0 <= j <= |defs|
      invariant Merge(before + defs[..j]) == Success(now)
    {
      assert defs[..j + 1] == defs[..j] + [defs[j]];
      assert before + defs[..j + 1] == (before + defs[..j]) + [defs[j]];
      MergeSnoc(before + defs[..j], defs[j]);
      var one := MergeClassInto(defs[j], now);
      if one.MergeConflict? {
        MergeConflictStays(before + defs[..j + 1], before + defs);
        return MergeConflict;
      }
      now := one.value;
      j := j + 1;
    }
    assert defs[..j] == defs;
    return Success(now);
  }

  /** Module by module, definition by definition, stopping at the first conflict. */
  method MergeModules(modules: seq<seq<ClassDef>>) returns (r: Result<Merged>)
    ensures r == Merge(Concat(modules))
  {
    var st := NOTHING;
    var i := 0;
    while i < |modules|
      invariant 0 <= i <= |modules|
      invariant Merge(Concat(modules[..i])) == Success(st)
    {
      assert modules[..i + 1][..i] == modules[..i];
      assert Concat(modules[..i + 1]) == Concat(modules[..i]) + modules[i];
      var one := MergeModuleInto(modules[i], st, Concat(modules[..i]));
      if one.MergeConflict? {
        ConcatPrefix(modules, i + 1);
        MergeConflictStays(Concat(modules[..i + 1]), Concat(modules));
        return MergeConflict;
      }
      st := one.value;
      i := i + 1;
    }
    assert modules[..i] == modules;
    return Success(st);
  }

  lemma {:induction false} ConcatPrefix<T>(modules: seq<seq<T>>, i: nat)
    requires i <= |modules|
    ensures Concat(modules[..i]) <= Concat(modules)
  {
    if i < |modules| {
      assert modules[..|modules| - 1][..i] == modules[..i];
      ConcatPrefix(modules[..|modules| - 1], i);
    } else {
      assert modules[..i] == modules;
    }
  }

  lemma {:induction false} MergeConflictStays(a: seq<ClassDef>, b: seq<ClassDef>)
    requires a <= b && Merge(a).MergeConflict?
    ensures Merge(b).MergeConflict?
  {
    if |a| < |b| {
      assert a <= b[..|b| - 1];
      MergeConflictStays(a, b[..|b| - 1]);
    } else {
      assert a == b;
    }
  }
}
