/**
 What the object services achieve, at any point of any run: who is told what, what becomes of the
 instance, and who is there to be told.
 */
module ObjectEffects {
  import opened Options
  import opened LastWords
  import opened Objects

  // ---------------------------------------------------------------- updates

  ghost predicate UpdateAccepted(s: ObjectState, e: Event) {
    e.Update? && e.f in s.federates && e.i in s.instances && OwnsAll(s.instances[e.i], e.f, e.attrs)
  }

  /** What a target hears of an update: a reflection, after a discovery if it did not know the instance. */
  function Reflection(log: seq<Notice>, i: Id): seq<Notice> {
    if i in Known(log) then [Reflect(i)] else [Discover(i), Reflect(i)]
  }

  lemma NotifiedAt(fs: map<Handle, Federate>, to: set<Handle>, i: Id, h: Handle)
    requires h in fs && Tracked(fs[h])
    ensures h in NotifyAll(fs, to, i)
    ensures NotifyAll(fs, to, i)[h].log == fs[h].log + if h in to && i !in Known(fs[h].log) then [Discover(i)] else []
  {
  }

  /** An accepted update is reflected to every joined target other than its producer, and nobody else
      hears of it; the instances stay as they are. */
  lemma UpdateTold(es: seq<Event>, s: ObjectState, e: Event, h: Handle)
    requires s == Run(es) && UpdateAccepted(s, e) && h in s.federates
    ensures Step(s, e).instances == s.instances && h in Step(s, e).federates
    ensures Step(s, e).federates[h].log ==
      s.federates[h].log + if h in e.to && h != e.f then Reflection(s.federates[h].log, e.i) else []
  {
    RunSound(es);
    NotifiedAt(s.federates, e.to - {e.f}, e.i, h);
    assert s.federates[h].log + [Discover(e.i)] + [Reflect(e.i)] == s.federates[h].log + [Discover(e.i), Reflect(e.i)];
  }

  // ---------------------------------------------------------------- deletions

  ghost predicate DeleteAccepted(s: ObjectState, e: Event) {
    e.Delete? && e.f in s.federates && e.i in s.instances && s.instances[e.i].registrar == e.f
  }

  /** An accepted deletion takes exactly the instance out of the table and tells exactly those who knew
      it, the deleter apart. */
  lemma DeletionTold(es: seq<Event>, s: ObjectState, e: Event, h: Handle)
    requires s == Run(es) && DeleteAccepted(s, e) && h in s.federates
    ensures e.i !in Step(s, e).instances && Step(s, e).instances.Keys == s.instances.Keys - {e.i}
    ensures forall k :: k in Step(s, e).instances ==> Step(s, e).instances[k] == s.instances[k]
    ensures h in Step(s, e).federates
    ensures Step(s, e).federates[h].log ==
      s.federates[h].log + if h != e.f && e.i in Known(s.federates[h].log) then [Remove(e.i)] else []
  {
    RunSound(es);
  }

  /** A local delete touches nobody else, and an update that comes later is news to the federate again. */
  lemma ForgottenRediscovered(es: seq<Event>, s: ObjectState, f: Handle, i: Id, e: Event)
    requires s == Run(es) && f in s.federates && UpdateAccepted(s, e) && e.i == i && f in e.to && f != e.f
    ensures var s' := Step(s, LocalDelete(f, i));
      && s'.instances == s.instances
      && (forall h :: h in s.federates && h != f ==> h in s'.federates && s'.federates[h] == s.federates[h])
      && f in Step(s', e).federates
      && Step(s', e).federates[f].log == s.federates[f].log + [Forget(i)] + [Discover(i), Reflect(i)]
  {
    var s' := Step(s, LocalDelete(f, i));
    assert (es + [LocalDelete(f, i)])[..|es|] == es;
    assert s' == Run(es + [LocalDelete(f, i)]);
    var log := s'.federates[f].log;
    assert log == s.federates[f].log + [Forget(i)] && log[..|log| - 1] == s.federates[f].log;
    assert i !in Known(log);
    UpdateTold(es + [LocalDelete(f, i)], s', e, f);
  }

  // ---------------------------------------------------------------- registrations

  ghost predicate RegisterAccepted(s: ObjectState, e: Event) {
    e.Register? && e.f in s.federates && !(e.requested && NameTaken(s.instances, e.name))
  }

  /** An accepted registration adds one instance under a new id, registered and owned by the caller for
      exactly the attributes it publishes. */
  lemma RegistrationStands(es: seq<Event>, s: ObjectState, e: Event)
    requires s == Run(es) && RegisterAccepted(s, e)
    ensures s.nextId !in s.instances && Step(s, e).nextId == s.nextId + 1
    ensures var s' := Step(s, e);
      && s'.instances.Keys == s.instances.Keys + {s.nextId}
      && (forall k :: k in s.instances ==> s'.instances[k] == s.instances[k])
      && var inst := s'.instances[s.nextId];
         (inst.class_, inst.name, inst.registrar) == (e.class_, e.name, e.f) &&
         inst.owners.Keys == e.published && forall a :: a in inst.owners ==> inst.owners[a] == e.f
  {
    RunSound(es);
  }

  /** So the registrar may update what it publishes, and is heard by every target. */
  lemma RegisteredIsHeard(es: seq<Event>, s: ObjectState, e: Event, attrs: set<Attr>, to: set<Handle>, h: Handle)
    requires s == Run(es) && RegisterAccepted(s, e) && attrs <= e.published
    requires h in s.federates && h in to && h != e.f
    ensures UpdateAccepted(Step(s, e), Update(e.f, s.nextId, attrs, to))
    ensures var s' := Step(Step(s, e), Update(e.f, s.nextId, attrs, to));
      h in s'.federates && s'.federates[h].log == s.federates[h].log + [Discover(s.nextId), Reflect(s.nextId)]
  {
    var s1 := Step(s, e);
    RegistrationStands(es, s, e);
    RegistrationTold(es, s, e, h);
    assert (es + [e])[..|es|] == es;
    var log, log1 := s.federates[h].log, s1.federates[h].log;
    RunSound(es);
    if h in e.to {
      assert log1[..|log1| - 1] == log;
      assert log + [Discover(s.nextId)] + [Reflect(s.nextId)] == log + [Discover(s.nextId), Reflect(s.nextId)];
    }
    UpdateTold(es + [e], s1, Update(e.f, s.nextId, attrs, to), h);
  }

  /** A refused call tells nobody anything and changes no instance; a registration refused for its name
      has used up an id. */
  lemma RefusedQuiet(s: ObjectState, e: Event)
    requires e.Update? || e.Delete? || e.Register? || (e.LocalDelete? && e.f !in s.federates)
    requires !UpdateAccepted(s, e) && !DeleteAccepted(s, e) && !RegisterAccepted(s, e)
    ensures Step(s, e).instances == s.instances && Step(s, e).federates == s.federates
    ensures Step(s, e).nextId == if e.Register? && e.f in s.federates then s.nextId + 1 else s.nextId
  {
  }

  // ---------------------------------------------------------------- saved at one point, restored at another

  /** The id counter moves no further than the restored instances make it. */
  lemma {:induction false} NextIsLeast(next: Id, table: map<string, Handle>, saved: seq<SavedInstance>)
    ensures var after := NextAfter(next, table, saved);
      after == next || (next < after && after - 1 in ApplyAll(table, saved))
  {
    if saved == [] {
    } else {
      NextIsLeast(next, table, saved[..|saved| - 1]);
    }
  }

  /** A snapshot taken in one state and restored in another, however the two are related: the table then
      holds exactly the instances saved whose registrar's name is joined, renamed by name, and
      nobody is told anything. */
  lemma RestoredLater(s: ObjectState, now: ObjectState, end: ObjectState,
                      saved: seq<SavedInstance>, table: map<string, Handle>, i: Id)
    requires IsSnapshot(s.federates, s.instances, saved)
    requires IsNameTable(now.federates, table) && end == Step(now, Restore(saved, table))
    ensures i in end.instances <==>
      i in s.instances &&
      exists h :: h in now.federates && now.federates[h].name == NameOf(s.federates, s.instances[i].registrar)
    ensures i in end.instances ==> Renames(s.federates, now.federates, s.instances[i], end.instances[i])
    ensures end.federates == now.federates
  {
    RestoreLeaves(now, end, saved, table);
    RestoreMeaning(s.federates, s.instances, saved, now.federates, table, i);
  }

  /** The next id is above everything restored, and no higher than that or its old value makes it. */
  lemma RestoredIds(now: ObjectState, end: ObjectState, saved: seq<SavedInstance>, table: map<string, Handle>, i: Id)
    requires IsNameTable(now.federates, table) && end == Step(now, Restore(saved, table))
    ensures i in end.instances ==> i < end.nextId
    ensures end.nextId == now.nextId || (now.nextId < end.nextId && end.nextId - 1 in end.instances)
  {
    RestoreLeaves(now, end, saved, table);
    NextIsLeast(now.nextId, table, saved);
    if i in end.instances {
      NextAfterAbove(now.nextId, table, saved, i);
    }
  }

  lemma RestoreLeaves(now: ObjectState, end: ObjectState, saved: seq<SavedInstance>, table: map<string, Handle>)
    requires IsNameTable(now.federates, table) && end == Step(now, Restore(saved, table))
    ensures end.instances == ApplyAll(table, saved) && end.federates == now.federates
    ensures end.nextId == NextAfter(now.nextId, table, saved)
  {
  }

  // ---------------------------------------------------------------- membership

  function OnMembership(e: Event, h: Handle): Word {
    if e.Join? && e.h == h then On else if e == Resign(h) then Off else Silent
  }

  function MembershipWords(es: seq<Event>, h: Handle): seq<Word> {
    if es == [] then [] else MembershipWords(es[..|es| - 1], h) + [OnMembership(es[|es| - 1], h)]
  }

  lemma NotifyKeys(fs: map<Handle, Federate>, to: set<Handle>, i: Id, h: Handle)
    ensures NotifyAll(fs, to, i).Keys == fs.Keys && ReflectAll(fs, to, i).Keys == fs.Keys
    ensures h in fs ==> NotifyAll(fs, to, i)[h].name == fs[h].name && ReflectAll(fs, to, i)[h].name == fs[h].name
  {
  }

  lemma StepMembers(s: ObjectState, s': ObjectState, e: Event, h: Handle)
    requires s' == Step(s, e)
    ensures h in s'.federates <==> OnMembership(e, h) == On || (h in s.federates && OnMembership(e, h) == Silent)
    ensures h in s'.federates && h in s.federates ==> s'.federates[h].name == s.federates[h].name
    ensures h in s'.federates && h !in s.federates ==> e.Join? && s'.federates[h] == Federate(e.name, {}, [])
  {
    match e
    case Register(f, class_, name, requested, published, to) => NotifyKeys(s.federates, to - {f}, s.nextId, h);
    case Update(f, i, attrs, to) =>
      NotifyKeys(s.federates, to - {f}, i, h);
      NotifyKeys(NotifyAll(s.federates, to - {f}, i), to - {f}, i, h);
    case _ =>
  }

  /** Over every run: a federate is there to be told if and only if it joined and has not resigned since. */
  lemma {:induction false} RunMembers(es: seq<Event>, h: Handle)
    ensures h in Run(es).federates <==> LastlyOn(MembershipWords(es, h))
  {
    if es == [] {
    } else {
      var n := |es| - 1;
      RunMembers(es[..n], h);
      StepMembers(Run(es[..n]), Step(Run(es[..n]), es[n]), es[n], h);
      OneMoreWord(MembershipWords(es[..n], h), OnMembership(es[n], h));
    }
  }
}
