/** What the session handlers achieve, step by step: who holds what, who is listed, who is reachable. */
module SessionEffects {
  import opened Options
  import opened AutoNames
  import opened Sessions
  import opened SessionTables

  /** The tables agree but for one key. */
  ghost predicate SameBut<K(!new), V>(a: map<K, V>, b: map<K, V>, key: K) {
    forall k :: k != key ==> (k in b <==> k in a) && (k in a ==> b[k] == a[k])
  }

  /** Everyone but `s` is live, suspended, on the move and reachable as before. */
  ghost predicate OthersUntouched(n: Node, n': Node, s: SessionId) {
    && SameBut(n.live, n'.live, s) && SameBut(n.suspended, n'.suspended, s) && SameBut(n.moving, n'.moving, s)
    && n'.connections - {s} == n.connections - {s}
  }

  /** The tables list the same federates, but for `m`. */
  ghost predicate ListedBut(n: Node, n': Node, m: Membership) {
    SameBut(n.members, n'.members, m)
  }

  /** A new session has an id nobody had, holds nothing and is reachable. */
  lemma ConnectGives(n: Node, n': Node)
    requires Sound(n) && n' == Step(n, Connect)
    ensures n.nextSession !in n.live && n.nextSession in n'.live && n'.live[n.nextSession] == None
    ensures n.nextSession in n'.connections && OthersUntouched(n, n', n.nextSession) && n'.members == n.members
  {
  }

  /** A federation is created exactly under a name that is free and not empty, and starts empty. */
  lemma CreateGives(n: Node, n': Node, name: string, fed: FederationId, other: string)
    requires Sound(n) && fed !in n.next && n' == Step(n, Create(name, fed))
    ensures other in n'.registry <==> other in n.registry || (other == name && name != "")
    ensures other in n.registry ==> n'.registry[other] == n.registry[other]
    ensures name != "" && name !in n.registry ==> n'.registry[name] == fed && Empty(n'.members, fed)
  {
  }

  lemma {:induction false} RunNamed(es: seq<Event>)
    ensures "" !in Run(es).registry
  {
    if es == [] {
    } else {
      var n := |es| - 1;
      RunNamed(es[..n]);
      NamedStep(Run(es[..n]), es[n]);
    }
  }

  lemma NamedStep(n: Node, e: Event)
    requires "" !in n.registry
    ensures "" !in Step(n, e).registry
  {
    RegistryUntouched(n, e);
  }

  /** A federation goes exactly if it is empty; no other goes with it. */
  lemma DestroyTakes(n: Node, n': Node, name: string)
    requires name in n.registry && n' == Step(n, Destroy(name))
    ensures n'.members == n.members
    ensures (exists m :: m in n.members && m.fed == n.registry[name]) ==> n'.registry == n.registry
    ensures (forall m :: m in n.members ==> m.fed != n.registry[name]) ==>
      name !in n'.registry && SameBut(n.registry, n'.registry, name)
  {
    DestroyLeaves(n, n', name);
  }

  lemma DestroyLeaves(n: Node, n': Node, name: string)
    requires name in n.registry && n' == Step(n, Destroy(name))
    ensures n' == if Empty(n.members, n.registry[name]) then n.(registry := n.registry - {name}) else n
  {
  }

  /** An idle session that looks up a registered federation and is not interrupted gets the next handle
      there, and is listed under the name it asked for or its automatic one, unless the name it asked
      for is in use; then it holds nothing and the handle is gone. */
  lemma JoinGives(n: Node, n': Node, s: SessionId, name: string, requested: Option<string>, m: Membership)
    requires Sound(n) && Idle(n, s) && n.live[s].None? && name in n.registry
    requires m.fed == n.registry[name] && m.fed in n.next && m.handle == n.next[m.fed]
    requires n' == Step(UpToCheck(n, s, name, requested), Insert(s))
    ensures m !in n.members && m.fed in n'.next && n'.next[m.fed] == m.handle + 1
    ensures requested.Some? && NameIn(n.members, m.fed, requested.value) ==>
      n'.members == n.members && n'.live == n.live
    ensures !(requested.Some? && NameIn(n.members, m.fed, requested.value)) ==>
      Listing(n, n', s, m, if requested.Some? then requested.value else AutoName(m.handle))
  {
    var n1 := Step(n, Find(s, name, requested));
    var n2 := Step(n1, Take(s));
    JoinSteps(n, n1, n2, Step(n2, Check(s)), s, name, requested, m);
    WholeJoinGives(n, n', s, requested, m, requested.Some? && NameIn(n.members, m.fed, requested.value),
                   ChosenName(requested, m.handle));
  }

  /** `s` has come to hold `m`, listed under `name`, and nothing else has changed. */
  ghost predicate Listing(n: Node, n': Node, s: SessionId, m: Membership, name: string) {
    && s in n'.live && n'.live[s] == Some(m) && m in n'.members && n'.members[m] == Member(s, name)
    && ListedBut(n, n', m) && OthersUntouched(n, n', s)
  }

  lemma WholeJoinGives(n: Node, n': Node, s: SessionId, requested: Option<string>, m: Membership, refused: bool,
                       name: string)
    requires n' == WholeJoin(n, s, m, requested) && name == ChosenName(requested, m.handle)
    requires refused == (requested.Some? && NameIn(n.members, m.fed, requested.value))
    ensures n'.next == n.next[m.fed := m.handle + 1]
    ensures refused ==> n'.members == n.members && n'.live == n.live
    ensures !refused ==> Listing(n, n', s, m, name)
  {
    if !refused {
      InsertedGives(n, n', s, m, Member(s, name));
    }
  }

  lemma InsertedGives(n: Node, n': Node, s: SessionId, m: Membership, x: Member)
    requires n'.members == n.members[m := x] && n'.live == n.live[s := Some(m)]
    requires n'.suspended == n.suspended && n'.moving == n.moving && n'.connections == n.connections
    ensures s in n'.live && n'.live[s] == Some(m) && m in n'.members && n'.members[m] == x
    ensures ListedBut(n, n', m) && OthersUntouched(n, n', s)
  {
  }

  /** Resigning takes the federate out of its table; the session stays, holds nothing and is reachable. */
  lemma ResignTakes(n: Node, n': Node, s: SessionId, m: Membership)
    requires Idle(n, s) && n.live[s] == Some(m) && n' == Step(n, Resign(s))
    ensures m !in n'.members && ListedBut(n, n', m)
    ensures s in n'.live && n'.live[s] == None && n'.connections == n.connections && OthersUntouched(n, n', s)
  {
  }

  /** A closed connection ends the session; what it held is kept for it if there is a window for resuming
      and leaves its table if there is none. */
  lemma CloseEnds(n: Node, n': Node, s: SessionId, window: bool)
    requires Sound(n) && Idle(n, s) && n' == Step(n, Close(s, window))
    ensures s !in n'.live && OthersUntouched(n, n', s) && ClosingOf(n', s) == ClosingOf(n, s) + 1
    ensures n.live[s].None? ==> n'.members == n.members && s !in n'.suspended
    ensures n.live[s].Some? && window ==> n'.members == n.members && Holds(n', s, n.live[s].value)
    ensures n.live[s].Some? && !window ==>
      n.live[s].value !in n'.members && ListedBut(n, n', n.live[s].value) && s !in n'.suspended
  {
  }

  /** The last lock of a closing connection takes its entry, and only that, out of the connection table. */
  lemma DisconnectTakes(n: Node, n': Node, s: SessionId)
    requires ClosingOf(n, s) > 0 && n' == Step(n, Disconnect(s))
    ensures n'.connections == n.connections - {s} && ClosingOf(n', s) == ClosingOf(n, s) - 1
    ensures n'.members == n.members && n'.live == n.live && n'.suspended == n.suspended
  {
  }

  /** A resume in time that is delivered brings the session back with what it held, reachable. */
  lemma ResumeGives(n: Node, n': Node, n'': Node, s: SessionId)
    requires Sound(n) && s in n.suspended && n' == Step(n, TakeOut(s, false)) && n'' == Step(n', Attach(s))
    ensures s in n''.live && n''.live[s] == Some(n.suspended[s]) && s in n''.connections && s !in n''.suspended
    ensures n''.members == n.members && OthersUntouched(n, n'', s)
  {
    ResumeSteps(n, n', s, false, true);
  }

  /** The janitor ends a suspended session and takes its federate out of the table. */
  lemma ExpiryEnds(n: Node, n': Node, n'': Node, s: SessionId)
    requires Sound(n) && s in n.suspended && n' == Step(n, Reap(s)) && n'' == Step(n', Remove(s))
    ensures s !in n''.suspended && s !in n''.live && s !in n''.moving
    ensures n.suspended[s] !in n''.members && ListedBut(n, n'', n.suspended[s]) && OthersUntouched(n, n'', s)
  {
    ExpirySteps(n, n', s);
  }
}
