/**
 Object instances: the discover / reflect / remove protocol over whole runs, and snapshots that
 carry instances across a change of federate handles by federate name.
 */
module Objects {
  import opened Options

  type Handle = nat
  type Attr = nat
  type Id = nat

  datatype Instance = Instance(class_: nat, name: string, registrar: Handle, owners: map<Attr, Handle>)

  /** What a federate is told about an instance, or (`Forget`) what it does about it itself. */
  datatype Notice = Discover(i: Id) | Reflect(i: Id) | Remove(i: Id) | Forget(i: Id)

  /** `log` is history: the notices sent to the federate and its local deletes, in order. */
  datatype Federate = Federate(name: string, discovered: set<Id>, log: seq<Notice>)

  datatype ObjectState = ObjectState(nextId: Id, instances: map<Id, Instance>, federates: map<Handle, Federate>)

  const EMPTY := ObjectState(1, map[], map[])

  // ---------------------------------------------------------------- snapshots

  datatype SavedInstance = SavedInstance(
    handle: Id,
    class_: nat,
    name: string,
    registrarName: string,
    ownerNames: map<Attr, string>)

  const UNKNOWN := "<unknown>"

  function NameOf(federates: map<Handle, Federate>, h: Handle): string {
    if h in federates then federates[h].name else UNKNOWN
  }

  function Saved(federates: map<Handle, Federate>, i: Id, inst: Instance): SavedInstance {
    SavedInstance(i, inst.class_, inst.name, NameOf(federates, inst.registrar),
      map a | a in inst.owners && inst.owners[a] in federates :: federates[inst.owners[a]].name)
  }

  /** A snapshot lists every instance, in any order. */
  ghost predicate IsSnapshot(federates: map<Handle, Federate>, instances: map<Id, Instance>,
          saved: seq<SavedInstance>) {
    && (forall s :: s in saved ==> s.handle in instances && s == Saved(federates, s.handle, instances[s.handle]))
    && (forall i :: i in instances ==> Saved(federates, i, instances[i]) in saved)
  }

  /** A table from the names of the joined federates to their handles. */
  ghost predicate IsNameTable(federates: map<Handle, Federate>, table: map<string, Handle>) {
    && (forall n :: n in table ==> table[n] in federates && federates[table[n]].name == n)
    && (forall h :: h in federates ==> federates[h].name in table)
  }

  ghost predicate NamesUnique(federates: map<Handle, Federate>) {
    forall g, h :: g in federates && h in federates && federates[g].name == federates[h].name ==> g == h
  }

  function Restored(table: map<string, Handle>, s: SavedInstance): Instance
    requires s.registrarName in table
  {
    Instance(s.class_, s.name, table[s.registrarName],
      map a | a in s.ownerNames && s.ownerNames[a] in table :: table[s.ownerNames[a]])
  }

  /** Entries in turn; one whose registrar is not joined is skipped. */
  function ApplyAll(table: map<string, Handle>, saved: seq<SavedInstance>): map<Id, Instance> {
    if saved == [] then map[]
    else
      var before, s := ApplyAll(table, saved[..|saved| - 1]), saved[|saved| - 1];
      if s.registrarName in table then before[s.handle := Restored(table, s)] else before
  }

  /** The next id moves past every restored handle. */
  function NextAfter(next: Id, table: map<string, Handle>, saved: seq<SavedInstance>): (r: Id)
    ensures next <= r
  {
    if saved == [] then next
    else
      var before, s := NextAfter(next, table, saved[..|saved| - 1]), saved[|saved| - 1];
      if s.registrarName in table && before <= s.handle then s.handle + 1 else before
  }

  lemma {:induction false} ApplyHas(table: map<string, Handle>, saved: seq<SavedInstance>, i: Id)
    ensures i in ApplyAll(table, saved) <==> exists s :: s in saved && s.handle == i && s.registrarName in table
    ensures i in ApplyAll(table, saved) ==>
      exists s :: s in saved && s.handle == i && s.registrarName in table &&
        ApplyAll(table, saved)[i] == Restored(table, s)
  {
    if saved == [] {
    } else {
      assert saved == saved[..|saved| - 1] + [saved[|saved| - 1]];
      ApplyHas(table, saved[..|saved| - 1], i);
    }
  }

  lemma {:induction false} NextAfterAbove(next: Id, table: map<string, Handle>, saved: seq<SavedInstance>, i: Id)
    requires i in ApplyAll(table, saved)
    ensures i < NextAfter(next, table, saved)
  {
    if i in ApplyAll(table, saved[..|saved| - 1]) {
      NextAfterAbove(next, table, saved[..|saved| - 1], i);
    }
  }

  /** An instance of the saved federation, under the handles its federates' names have now. */
  ghost predicate Renames(old_: map<Handle, Federate>, now: map<Handle, Federate>, a: Instance, b: Instance) {
    && b.class_ == a.class_ && b.name == a.name
    && b.registrar in now && now[b.registrar].name == NameOf(old_, a.registrar)
    && (forall x :: x in b.owners <==>
          x in a.owners && a.owners[x] in old_ && exists h :: h in now && now[h].name == old_[a.owners[x]].name)
    && (forall x :: x in b.owners ==> b.owners[x] in now && now[b.owners[x]].name == old_[a.owners[x]].name)
  }

  lemma SavedRenames(old_: map<Handle, Federate>, now: map<Handle, Federate>, table: map<string, Handle>, i: Id,
          a: Instance)
    requires IsNameTable(now, table) && NameOf(old_, a.registrar) in table
    ensures Renames(old_, now, a, Restored(table, Saved(old_, i, a)))
  {
  }

  /** Restoring a snapshot yields exactly the saved instances whose registrar's name is joined,
      each renamed by name. */
  lemma RestoreMeaning(old_: map<Handle, Federate>, instances: map<Id, Instance>, saved: seq<SavedInstance>,
                       now: map<Handle, Federate>, table: map<string, Handle>, i: Id)
    requires IsSnapshot(old_, instances, saved) && IsNameTable(now, table)
    ensures i in ApplyAll(table, saved) <==>
      i in instances && exists h :: h in now && now[h].name == NameOf(old_, instances[i].registrar)
    ensures i in ApplyAll(table, saved) ==> Renames(old_, now, instances[i], ApplyAll(table, saved)[i])
  {
    ApplyHas(table, saved, i);
    if i in instances {
      assert Saved(old_, i, instances[i]) in saved;
    }
    if i in ApplyAll(table, saved) {
      var s :| s in saved && s.handle == i && s.registrarName in table &&
        ApplyAll(table, saved)[i] == Restored(table, s);
      SavedRenames(old_, now, table, i, instances[i]);
    }
  }

  /** An instance whose registrar had left is dropped, unless a joined federate bears the
      placeholder name. */
  lemma OrphansDropped(old_: map<Handle, Federate>, instances: map<Id, Instance>, saved: seq<SavedInstance>,
                       now: map<Handle, Federate>, table: map<string, Handle>, i: Id)
    requires IsSnapshot(old_, instances, saved) && IsNameTable(now, table)
    requires i in instances && instances[i].registrar !in old_
    ensures i !in ApplyAll(table, saved) <==> forall h :: h in now ==> now[h].name != UNKNOWN
  {
    RestoreMeaning(old_, instances, saved, now, table, i);
  }

  lemma RenamesSame(federates: map<Handle, Federate>, a: Instance, b: Instance)
    requires NamesUnique(federates) && Renames(federates, federates, a, b)
    requires a.registrar in federates
    requires forall x :: x in a.owners ==> a.owners[x] in federates
    ensures a == b
  {
    assert a.owners == b.owners;
  }

  /** With unchanged, uniquely named membership and nobody missing, restoring is the identity. */
  lemma RestoreIdentity(federates: map<Handle, Federate>, instances: map<Id, Instance>, saved: seq<SavedInstance>,
                        table: map<string, Handle>)
    requires NamesUnique(federates)
    requires IsSnapshot(federates, instances, saved) && IsNameTable(federates, table)
    requires forall i :: i in instances ==> instances[i].registrar in federates
    requires forall i, a :: i in instances && a in instances[i].owners ==> instances[i].owners[a] in federates
    ensures ApplyAll(table, saved) == instances
  {
    var r := ApplyAll(table, saved);
    forall i
      ensures i in r <==> i in instances
      ensures i in r ==> r[i] == instances[i]
    {
      RestoredAt(federates, instances, saved, table, i);
    }
  }

  lemma RestoredAt(federates: map<Handle, Federate>, instances: map<Id, Instance>, saved: seq<SavedInstance>,
                   table: map<string, Handle>, i: Id)
    requires NamesUnique(federates)
    requires IsSnapshot(federates, instances, saved) && IsNameTable(federates, table)
    requires i in instances ==>
      instances[i].registrar in federates &&
      forall a :: a in instances[i].owners ==> instances[i].owners[a] in federates
    ensures i in ApplyAll(table, saved) <==> i in instances
    ensures i in instances ==> ApplyAll(table, saved)[i] == instances[i]
  {
    RestoreMeaning(federates, instances, saved, federates, table, i);
    if i in instances {
      RenamesSame(federates, instances[i], ApplyAll(table, saved)[i]);
    }
  }

  method TakeSnapshot(federates: map<Handle, Federate>,
          instances: map<Id, Instance>) returns (saved: seq<SavedInstance>)
    ensures IsSnapshot(federates, instances, saved)
  {
    saved := [];
    var todo := instances.Keys;
    while todo != {}
      invariant todo <= instances.Keys
      invariant forall s :: s in saved ==> s.handle in instances && s == Saved(federates, s.handle, instances[s.handle])
      invariant forall i :: i in instances && i !in todo ==> Saved(federates, i, instances[i]) in saved
    {
      var i :| i in todo;
      saved := saved + [Saved(federates, i, instances[i])];
      todo := todo - {i};
    }
  }

  // ---------------------------------------------------------------- discovery

  /** The instances a federate knows of, replayed from its log. */
  function Known(log: seq<Notice>): set<Id> {
    if log == [] then {}
    else
      var before := Known(log[..|log| - 1]);
      match log[|log| - 1]
      case Discover(i) => before + {i}
      case Remove(i) => before - {i}
      case Forget(i) => before - {i}
      case Reflect(_) => before
  }

  /** No second discovery without a removal between, no reflection or removal of an unknown. */
  ghost predicate WellTold(log: seq<Notice>) {
    log == [] ||
    (var before := log[..|log| - 1];
     && WellTold(before)
     && match log[|log| - 1]
        case Discover(i) => i !in Known(before)
        case Reflect(i) => i in Known(before)
        case Remove(i) => i in Known(before)
        case Forget(_) => true)
  }

  ghost predicate About(n: Notice, i: Id) {
    n == Discover(i) || n == Remove(i) || n == Forget(i)
  }

  /** Known means: the last word about the instance was a discovery. */
  lemma {:induction false} KnownMeaning(log: seq<Notice>, i: Id)
    ensures i in Known(log) <==>
      exists k :: 0 <= k < |log| && log[k] == Discover(i) && forall j :: k < j < |log| ==> !About(log[j], i)
  {
    if log == [] {
    } else {
      var before, n := log[..|log| - 1], log[|log| - 1];
      KnownMeaning(before, i);
      if i in Known(before) && !About(n, i) {
        var k :| 0 <= k < |before| && before[k] == Discover(i) && forall j :: k < j < |before| ==> !About(before[j], i);
        assert log[k] == Discover(i) && forall j :: k < j < |log| ==> !About(log[j], i);
      }
      if n == Discover(i) {
        assert log[|log| - 1] == Discover(i);
      }
      if k :| 0 <= k < |log| && log[k] == Discover(i) && forall j :: k < j < |log| ==> !About(log[j], i) {
        if k < |before| {
          assert !About(log[|log| - 1], i);
          assert before[k] == Discover(i) && forall j :: k < j < |before| ==> !About(before[j], i);
        }
      }
    }
  }

  function Told(f: Federate, n: Notice): Federate {
    f.(log := f.log + [n])
  }

  function Noticed(f: Federate, i: Id): Federate {
    if i in f.discovered then f else Told(f.(discovered := f.discovered + {i}), Discover(i))
  }

  function NotifyAll(fs: map<Handle, Federate>, to: set<Handle>, i: Id): map<Handle, Federate> {
    map h | h in fs :: if h in to then Noticed(fs[h], i) else fs[h]
  }

  function ReflectAll(fs: map<Handle, Federate>, to: set<Handle>, i: Id): map<Handle, Federate> {
    map h | h in fs :: if h in to then Told(fs[h], Reflect(i)) else fs[h]
  }

  function RemoveAll(fs: map<Handle, Federate>, deleter: Handle, i: Id): map<Handle, Federate> {
    map h | h in fs ::
      if h != deleter && i in fs[h].discovered then Told(fs[h].(discovered := fs[h].discovered - {i}), Remove(i))
      else fs[h]
  }

  /** `to` is the set of subscribers found for the class or the attributes.  A requested name is
      checked against the live instances, a generated one is not. */
  datatype Event =
    | Join(h: Handle, name: string)
    | Resign(h: Handle)
    | Register(f: Handle, class_: nat, name: string, requested: bool, published: set<Attr>, to: set<Handle>)
    | Update(f: Handle, i: Id, attrs: set<Attr>, to: set<Handle>)
    | Delete(f: Handle, i: Id)
    | LocalDelete(f: Handle, i: Id)
    | Restore(saved: seq<SavedInstance>, table: map<string, Handle>)

  predicate NameTaken(instances: map<Id, Instance>, name: string) {
    exists i :: i in instances && instances[i].name == name
  }

  predicate OwnsAll(inst: Instance, f: Handle, attrs: set<Attr>) {
    forall a :: a in attrs ==> a in inst.owners && inst.owners[a] == f
  }

  ghost function Step(s: ObjectState, e: Event): ObjectState {
    match e
    case Join(h, name) =>
      if h in s.federates then s else s.(federates := s.federates[h := Federate(name, {}, [])])
    case Resign(h) =>
      s.(federates := s.federates - {h})
    case Register(f, class_, name, requested, published, to) =>
      if f !in s.federates then s
      else if requested && NameTaken(s.instances, name) then s.(nextId := s.nextId + 1)
      else
        var inst := Instance(class_, name, f, map a | a in published :: f);
        ObjectState(s.nextId + 1, s.instances[s.nextId := inst], NotifyAll(s.federates, to - {f}, s.nextId))
    case Update(f, i, attrs, to) =>
      if f !in s.federates || i !in s.instances || !OwnsAll(s.instances[i], f, attrs) then s
      else s.(federates := ReflectAll(NotifyAll(s.federates, to - {f}, i), to - {f}, i))
    case Delete(f, i) =>
      if f !in s.federates || i !in s.instances || s.instances[i].registrar != f then s
      else s.(instances := s.instances - {i}, federates := RemoveAll(s.federates, f, i))
    case LocalDelete(f, i) =>
      if f !in s.federates then s
      else s.(federates := s.federates[f := Told(s.federates[f].(discovered := s.federates[f].discovered - {i}),
        Forget(i))])
    case Restore(saved, table) =>
      if !IsNameTable(s.federates, table) then s
      else s.(instances := ApplyAll(table, saved), nextId := NextAfter(s.nextId, table, saved))
  }

  ghost function Run(es: seq<Event>): ObjectState {
    if es == [] then EMPTY else Step(Run(es[..|es| - 1]), es[|es| - 1])
  }

  /** The discovered set is what the federate was told, and it was told properly. */
  ghost predicate Tracked(f: Federate) {
    f.discovered == Known(f.log) && WellTold(f.log)
  }

  ghost predicate AllTracked(fs: map<Handle, Federate>) {
    forall h :: h in fs ==> Tracked(fs[h])
  }

  /** No instance exists, and no federate knows of one, with an id that has not been given out. */
  ghost predicate IdsBelow(s: ObjectState) {
    && (forall i :: i in s.instances ==> i < s.nextId)
    && (forall h, i :: h in s.federates && i in s.federates[h].discovered ==> i < s.nextId)
  }

  ghost predicate Sound(s: ObjectState) {
    AllTracked(s.federates) && IdsBelow(s)
  }

  lemma ToldTracked(f: Federate, n: Notice)
    requires Tracked(f)
    ensures n.Discover? && n.i !in f.discovered ==> Tracked(Told(f.(discovered := f.discovered + {n.i}), n))
    ensures n.Reflect? && n.i in f.discovered ==> Tracked(Told(f, n))
    ensures n.Remove? && n.i in f.discovered ==> Tracked(Told(f.(discovered := f.discovered - {n.i}), n))
    ensures n.Forget? ==> Tracked(Told(f.(discovered := f.discovered - {n.i}), n))
  {
    assert (f.log + [n])[..|f.log|] == f.log;
  }

  lemma NotifyTracked(fs: map<Handle, Federate>, to: set<Handle>, i: Id)
    requires AllTracked(fs)
    ensures AllTracked(NotifyAll(fs, to, i))
    ensures forall h :: h in fs && h in to ==> i in NotifyAll(fs, to, i)[h].discovered
  {
    forall h | h in fs
      ensures Tracked(Noticed(fs[h], i))
    {
      ToldTracked(fs[h], Discover(i));
    }
  }

  lemma UpdateTracked(fs: map<Handle, Federate>, to: set<Handle>, i: Id)
    requires AllTracked(fs)
    ensures AllTracked(ReflectAll(NotifyAll(fs, to, i), to, i))
  {
    NotifyTracked(fs, to, i);
    var ns := NotifyAll(fs, to, i);
    forall h | h in fs
      ensures Tracked(ReflectAll(ns, to, i)[h])
    {
      ToldTracked(ns[h], Reflect(i));
    }
  }

  lemma RemoveTracked(fs: map<Handle, Federate>, deleter: Handle, i: Id)
    requires AllTracked(fs)
    ensures AllTracked(RemoveAll(fs, deleter, i))
  {
    forall h | h in fs
      ensures Tracked(RemoveAll(fs, deleter, i)[h])
    {
      ToldTracked(fs[h], Remove(i));
    }
  }

  lemma StepTracked(s: ObjectState, e: Event)
    requires AllTracked(s.federates)
    ensures AllTracked(Step(s, e).federates)
  {
    match e
    case Register(f, class_, name, requested, published, to) => NotifyTracked(s.federates, to - {f}, s.nextId);
    case Update(f, i, attrs, to) => UpdateTracked(s.federates, to - {f}, i);
    case Delete(f, i) => RemoveTracked(s.federates, f, i);
    case LocalDelete(f, i) =>
      if f in s.federates {
        ToldTracked(s.federates[f], Forget(i));
      }
    case _ =>
  }

  lemma StepIds(s: ObjectState, e: Event)
    requires IdsBelow(s)
    ensures IdsBelow(Step(s, e))
  {
    match e
    case Restore(saved, table) =>
      forall i | i in ApplyAll(table, saved)
        ensures i < NextAfter(s.nextId, table, saved)
      {
        NextAfterAbove(s.nextId, table, saved, i);
      }
    case _ =>
  }

  /** Every handler keeps the protocol and the id counter sound. */
  lemma StepSound(s: ObjectState, e: Event)
    requires Sound(s)
    ensures Sound(Step(s, e))
  {
    StepTracked(s, e);
    StepIds(s, e);
  }

  /** Whole runs: each federate's discovered set is exactly what its notices say, every reflection
      is of a discovered instance, nothing is discovered twice without a removal or local delete
      between, and the next id lies above every live instance. */
  lemma {:induction false} RunSound(es: seq<Event>)
    ensures Sound(Run(es))
  {
    if es == [] {
    } else {
      RunSound(es[..|es| - 1]);
      StepSound(Run(es[..|es| - 1]), es[|es| - 1]);
    }
  }

  /** At any point of any run: an accepted registration is news to every joined federate it is meant
      for, so each of those is told of it, once, and nobody else is. */
  lemma RegistrationTold(es: seq<Event>, s: ObjectState, e: Event, h: Handle)
    requires s == Run(es) && e.Register? && e.f in s.federates && !(e.requested && NameTaken(s.instances, e.name))
    requires h in s.federates
    ensures s.nextId !in s.federates[h].discovered && h in Step(s, e).federates
    ensures Step(s, e).federates[h].log ==
      s.federates[h].log + if h in e.to && h != e.f then [Discover(s.nextId)] else []
  {
    RunSound(es);
  }

  /** At any point of any run: an instance is in a federate's discovered set exactly when the last
      word about it was a discovery, and the federate was told about it properly throughout. */
  lemma RunDiscovered(es: seq<Event>, h: Handle, i: Id)
    requires h in Run(es).federates
    ensures WellTold(Run(es).federates[h].log)
    ensures var log := Run(es).federates[h].log;
      i in Run(es).federates[h].discovered <==>
      exists k :: 0 <= k < |log| && log[k] == Discover(i) && forall j :: k < j < |log| ==> !About(log[j], i)
  {
    RunSound(es);
    KnownMeaning(Run(es).federates[h].log, i);
  }
}
