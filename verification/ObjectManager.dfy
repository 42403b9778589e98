/**
 Object management as the server runs it: instance table, id counter and discovered sets updated
 in place.  Each method is proved to perform the step of `Objects` for its event.
 */
module ObjectManagers {
  import opened Options
  import opened Objects

  class ObjectManager {
    var nextId: Id
    var instances: map<Id, Instance>
    var federates: map<Handle, Federate>

    constructor ()
      ensures State() == EMPTY
    {
      nextId, instances, federates := 1, map[], map[];
    }

    function State(): ObjectState
      reads this
    {
      ObjectState(nextId, instances, federates)
    }

    /** Mark the instance discovered at each target that did not know it, and tell those. */
    method NotifySubscribers(to: set<Handle>, i: Id)
      modifies this`federates
      ensures federates == NotifyAll(old(federates), to, i)
    {
      var todo := to;
      assert federates == NotifyAll(federates, to - todo, i);
      while todo != {}
        invariant todo <= to
        invariant federates == NotifyAll(old(federates), to - todo, i)
      {
        var h :| h in todo;
        if h in federates && i !in federates[h].discovered {
          var f := federates[h];
          federates := federates[h := Told(f.(discovered := f.discovered + {i}), Discover(i))];
        }
        todo := todo - {h};
      }
      assert to - {} == to;
    }

    method FanOutReflect(to: set<Handle>, i: Id)
      modifies this`federates
      ensures federates == ReflectAll(old(federates), to, i)
    {
      var todo := to;
      assert federates == ReflectAll(federates, to - todo, i);
      while todo != {}
        invariant todo <= to
        invariant federates == ReflectAll(old(federates), to - todo, i)
      {
        var h :| h in todo;
        if h in federates {
          federates := federates[h := Told(federates[h], Reflect(i))];
        }
        todo := todo - {h};
      }
      assert to - {} == to;
    }

    method RegisterObjectInstance(f: Handle, class_: nat, name: string, requested: bool, published: set<Attr>,
            to: set<Handle>)
        returns (handle: Option<Id>)
      requires f in federates
      modifies this
      ensures State() == Step(old(State()), Register(f, class_, name, requested, published, to))
      ensures handle.Some? ==> handle.value == old(nextId) && handle.value in instances
      ensures handle.None? <==> requested && NameTaken(old(instances), name)
    {
      var id := nextId;
      nextId := nextId + 1;
      if requested && NameTaken(instances, name) {
        return None;
      }
      instances := instances[id := Instance(class_, name, f, map a | a in published :: f)];
      NotifySubscribers(to - {f}, id);
      return Some(id);
    }

    method UpdateAttributeValues(f: Handle, i: Id, attrs: set<Attr>, to: set<Handle>) returns (ok: bool)
      requires f in federates
      modifies this`federates
      ensures State() == Step(old(State()), Update(f, i, attrs, to))
      ensures ok <==> i in instances && OwnsAll(instances[i], f, attrs)
    {
      if i !in instances || !OwnsAll(instances[i], f, attrs) {
        return false;
      }
      NotifySubscribers(to - {f}, i);
      FanOutReflect(to - {f}, i);
      return true;
    }

    method DeleteObjectInstance(f: Handle, i: Id) returns (ok: bool)
      requires f in federates
      modifies this
      ensures State() == Step(old(State()), Delete(f, i))
      ensures ok <==> i in old(instances) && old(instances)[i].registrar == f
    {
      if i !in instances || instances[i].registrar != f {
        return false;
      }
      instances := instances - {i};
      RemoveEverywhere(f, i);
      return true;
    }

    method RemoveEverywhere(deleter: Handle, i: Id)
      modifies this`federates
      ensures federates == RemoveAll(old(federates), deleter, i)
    {
      var todo := federates.Keys;
      while todo != {}
        invariant todo <= old(federates).Keys == federates.Keys
        invariant forall h :: h in federates ==>
          federates[h] == if h in todo then old(federates)[h] else RemoveAll(old(federates), deleter, i)[h]
      {
        var h :| h in todo;
        var f := federates[h];
        if h != deleter && i in f.discovered {
          federates := federates[h := Told(f.(discovered := f.discovered - {i}), Remove(i))];
        }
        todo := todo - {h};
      }
    }

    /** Clear the instance table and refill it from the snapshot, moving the id counter along. */
    method ApplySnapshot(saved: seq<SavedInstance>, table: map<string, Handle>)
      requires IsNameTable(federates, table)
      modifies this`instances, this`nextId
      ensures State() == Step(old(State()), Restore(saved, table))
    {
      instances := map[];
      var k := 0;
      while k < |saved|
        invariant 0 <= k <= |saved|
        invariant instances == ApplyAll(table, saved[..k])
        invariant nextId == NextAfter(old(nextId), table, saved[..k])
      {
        assert saved[..k + 1][..k] == saved[..k];
        var s := saved[k];
        if s.registrarName in table {
          instances := instances[s.handle := Restored(table, s)];
          if nextId <= s.handle {
            nextId := s.handle + 1;
          }
        }
        k := k + 1;
      }
      assert saved[..k] == saved;
    }
  }
}
