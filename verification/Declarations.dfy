/**
 Subscribe and unsubscribe handlers: each federate's own list and the shared matrix, the
 registration advisories, and who receives an update or an interaction.
 */
module Declarations {
  import opened Options
  import opened LastWords
  import opened FomMerge
  import opened FomHandles
  import opened FomTables
  import opened FomInheritance
  import opened Subscriptions

  // ---------------------------------------------------------------- own lists and matrix

  /** Joined federates with their own subscriptions, beside the matrix.  Resigning removes a
      federate but leaves its matrix entries; `next` is the handle the next joiner gets. */
  datatype Decl = Decl(next: Handle, subs: set<Sub>, own: map<Handle, set<(Class, Attr)>>)

  const FRESH := Decl(1, {}, map[])

  datatype Event =
    | Join
    | Resign(f: Handle)
    | Subscribe(f: Handle, c: Class, attrs: set<Attr>)
    | Unsubscribe(f: Handle, c: Class, attrs: set<Attr>)
    | UnsubscribeClass(f: Handle, c: Class)

  function SubsFor(f: Handle, c: Class, attrs: set<Attr>): set<Sub> {
    set a | a in attrs :: Sub(c, a, f)
  }

  function PairsFor(c: Class, attrs: set<Attr>): set<(Class, Attr)> {
    set a | a in attrs :: (c, a)
  }

  function Step(d: Decl, e: Event): Decl {
    match e
    case Join => d.(next := d.next + 1, own := d.own[d.next := {}])
    case Resign(f) => d.(own := d.own - {f})
    case Subscribe(f, c, attrs) =>
      if f !in d.own then d
      else d.(subs := d.subs + SubsFor(f, c, attrs), own := d.own[f := d.own[f] + PairsFor(c, attrs)])
    case Unsubscribe(f, c, attrs) =>
      if f !in d.own then d
      else d.(subs := d.subs - SubsFor(f, c, attrs), own := d.own[f := d.own[f] - PairsFor(c, attrs)])
    case UnsubscribeClass(f, c) =>
      if f !in d.own then d
      else d.(subs := (set s | s in d.subs && s.class_ != c),
              own := d.own[f := (set p | p in d.own[f] && p.0 != c)])
  }

  /** Every joined federate's own list is its share of the matrix. */
  ghost predicate InStep(d: Decl) {
    forall f: Handle, c: Class, a: Attr :: f in d.own ==> ((c, a) in d.own[f] <==> Sub(c, a, f) in d.subs)
  }

  /** Nobody, joined or in the matrix, has a handle that has not been given out. */
  ghost predicate HandlesUsed(d: Decl) {
    (forall f :: f in d.own ==> f < d.next) && (forall s :: s in d.subs ==> s.f < d.next)
  }

  /** A class-wide unsubscription takes every federate's entries, so it must find no others. */
  ghost predicate TakesOnlyItsOwn(d: Decl, e: Event) {
    e.UnsubscribeClass? && e.f in d.own ==>
      forall g, a :: g in d.own && g != e.f ==> (e.c, a) !in d.own[g]
  }

  lemma StepUsed(d: Decl, e: Event)
    requires HandlesUsed(d)
    ensures HandlesUsed(Step(d, e))
  {
  }

  /** Every handler keeps own lists and matrix in step, except exactly a class-wide unsubscription
      while another joined federate is subscribed at the class. */
  lemma StepInStep(d: Decl, e: Event)
    requires HandlesUsed(d) && InStep(d)
    ensures InStep(Step(d, e)) <==> TakesOnlyItsOwn(d, e)
  {
    match e
    case UnsubscribeClass(f, c) =>
      if f in d.own {
        var d' := Step(d, e);
        if !TakesOnlyItsOwn(d, e) {
          var g, a :| g in d.own && g != f && (c, a) in d.own[g];
          assert (c, a) in d'.own[g] && Sub(c, a, g) !in d'.subs;
        }
      }
    case _ =>
  }

  function Run(es: seq<Event>): Decl {
    if es == [] then FRESH else Step(Run(es[..|es| - 1]), es[|es| - 1])
  }

  ghost predicate AlwaysInStep(es: seq<Event>) {
    InStep(Run(es)) && (es == [] || AlwaysInStep(es[..|es| - 1]))
  }

  ghost predicate AlwaysTakesOnlyItsOwn(es: seq<Event>) {
    es == [] ||
    (AlwaysTakesOnlyItsOwn(es[..|es| - 1]) && TakesOnlyItsOwn(Run(es[..|es| - 1]), es[|es| - 1]))
  }

  lemma {:induction false} RunUsed(es: seq<Event>)
    ensures HandlesUsed(Run(es))
  {
    if es == [] {
    } else {
      RunUsed(es[..|es| - 1]);
      StepUsed(Run(es[..|es| - 1]), es[|es| - 1]);
    }
  }

  /** Over whole runs from the empty federation. */
  lemma {:induction false} RunInStep(es: seq<Event>)
    ensures AlwaysInStep(es) <==> AlwaysTakesOnlyItsOwn(es)
  {
    if es == [] {
    } else {
      var before := es[..|es| - 1];
      RunInStep(before);
      RunUsed(before);
      if AlwaysInStep(before) {
        StepInStep(Run(before), es[|es| - 1]);
      }
    }
  }

  // ---------------------------------------------------------------- what the lists hold

  predicate Mentions(e: Event, f: Handle, c: Class, a: Attr) {
    (e.Subscribe? || e.Unsubscribe?) && e.f == f && e.c == c && a in e.attrs
  }

  /** What an event says about `f`'s own subscription to `a` at `c`; resigning gives everything up. */
  function OnOwn(d: Decl, e: Event, f: Handle, c: Class, a: Attr): Word {
    if e.Subscribe? && Mentions(e, f, c, a) && f in d.own then On
    else if e.Unsubscribe? && Mentions(e, f, c, a) then Off
    else if e == UnsubscribeClass(f, c) || e == Resign(f) then Off
    else Silent
  }

  /** And about its entry in the matrix, which any member's class-wide unsubscription takes and which a
      resignation leaves. */
  function OnMatrix(d: Decl, e: Event, f: Handle, c: Class, a: Attr): Word {
    if e.Subscribe? && Mentions(e, f, c, a) && f in d.own then On
    else if e.Unsubscribe? && Mentions(e, f, c, a) && f in d.own then Off
    else if e.UnsubscribeClass? && e.c == c && e.f in d.own then Off
    else Silent
  }

  function SubscriptionWords(es: seq<Event>, f: Handle, c: Class, a: Attr): (ws: (seq<Word>, seq<Word>)) {
    if es == [] then ([], [])
    else
      var d, e, ws := Run(es[..|es| - 1]), es[|es| - 1], SubscriptionWords(es[..|es| - 1], f, c, a);
      (ws.0 + [OnOwn(d, e, f, c, a)], ws.1 + [OnMatrix(d, e, f, c, a)])
  }

  predicate Owns(d: Decl, f: Handle, c: Class, a: Attr) {
    f in d.own && (c, a) in d.own[f]
  }

  lemma StepOwns(d: Decl, e: Event, f: Handle, c: Class, a: Attr)
    requires HandlesUsed(d)
    ensures Owns(Step(d, e), f, c, a) <==>
      OnOwn(d, e, f, c, a) == On || (Owns(d, f, c, a) && OnOwn(d, e, f, c, a) == Silent)
  {
  }

  lemma StepMatrix(d: Decl, e: Event, f: Handle, c: Class, a: Attr)
    ensures Sub(c, a, f) in Step(d, e).subs <==>
      OnMatrix(d, e, f, c, a) == On || (Sub(c, a, f) in d.subs && OnMatrix(d, e, f, c, a) == Silent)
  {
  }

  /** Over every run: a pair is in a federate's own list, and an entry in the matrix, if and only if the
      last word on it was a subscription; so each call adds and takes exactly the pairs it names. */
  lemma {:induction false} RunSubscriptions(es: seq<Event>, f: Handle, c: Class, a: Attr)
    ensures Owns(Run(es), f, c, a) <==> LastlyOn(SubscriptionWords(es, f, c, a).0)
    ensures Sub(c, a, f) in Run(es).subs <==> LastlyOn(SubscriptionWords(es, f, c, a).1)
  {
    if es == [] {
    } else {
      var n := |es| - 1;
      var d, ws := Run(es[..n]), SubscriptionWords(es[..n], f, c, a);
      RunSubscriptions(es[..n], f, c, a);
      RunUsed(es[..n]);
      StepOwns(d, es[n], f, c, a);
      StepMatrix(d, es[n], f, c, a);
      OneMoreWord(ws.0, OnOwn(d, es[n], f, c, a));
      OneMoreWord(ws.1, OnMatrix(d, es[n], f, c, a));
    }
  }

  // ---------------------------------------------------------------- a list out of step

  lemma RunOneMore(es: seq<Event>, e: Event)
    ensures Run(es + [e]) == Step(Run(es), e)
  {
    assert (es + [e])[..|es|] == es;
  }

  lemma BothSubscribe(c: Class, a: Attr)
    ensures var d := Run([Join, Join] + [Subscribe(1, c, {a})] + [Subscribe(2, c, {a})]);
      d.own == map[1 := {(c, a)}, 2 := {(c, a)}]
  {
    RunOneMore([], Join);
    RunOneMore([Join], Join);
    assert [] + [Join] == [Join] && [Join] + [Join] == [Join, Join];
    assert Run([Join, Join]).own == map[1 := {}, 2 := {}];
    RunOneMore([Join, Join], Subscribe(1, c, {a}));
    RunOneMore([Join, Join] + [Subscribe(1, c, {a})], Subscribe(2, c, {a}));
    assert PairsFor(c, {a}) == {(c, a)} && {} + {(c, a)} == {(c, a)};
    assert Run([Join, Join] + [Subscribe(1, c, {a})]).own == map[1 := {(c, a)}, 2 := {}];
  }

  /** Two federates subscribe, one gives the class up, and the other's own list is left without its
      share of the matrix: it goes on believing it will be served. */
  lemma LosesAnothersSubscription(c: Class, a: Attr)
    ensures !InStep(Run([Join, Join] + [Subscribe(1, c, {a})] + [Subscribe(2, c, {a})] + [UnsubscribeClass(1, c)]))
  {
    BothSubscribe(c, a);
    var es := [Join, Join] + [Subscribe(1, c, {a})] + [Subscribe(2, c, {a})];
    RunOneMore(es, UnsubscribeClass(1, c));
    var d := Run(es + [UnsubscribeClass(1, c)]);
    assert (c, a) in d.own[2] && Sub(c, a, 2) !in d.subs;
  }

  // ---------------------------------------------------------------- the handlers, as they run

  lemma SubsForMore(f: Handle, c: Class, done: set<Attr>, a: Attr)
    ensures SubsFor(f, c, done + {a}) == SubsFor(f, c, done) + {Sub(c, a, f)}
  {
  }

  method SubscribeEach(matrix: SubscriptionMatrix, f: Handle, c: Class, attrs: set<Attr>)
    requires matrix.Valid()
    modifies matrix
    ensures matrix.Valid() && matrix.Subs() == old(matrix.Subs()) + SubsFor(f, c, attrs)
  {
    ghost var before := matrix.Subs();
    var todo := attrs;
    ghost var done: set<Attr> := {};
    while todo != {}
      invariant matrix.Valid() && done + todo == attrs
      invariant matrix.Subs() == before + SubsFor(f, c, done)
      decreases todo
    {
      var a :| a in todo;
      SubsForMore(f, c, done, a);
      var _ := matrix.SubscribeAttribute(c, a, f);
      todo, done := todo - {a}, done + {a};
    }
  }

  method UnsubscribeEach(matrix: SubscriptionMatrix, f: Handle, c: Class, attrs: set<Attr>)
    requires matrix.Valid()
    modifies matrix
    ensures matrix.Valid() && matrix.Subs() == old(matrix.Subs()) - SubsFor(f, c, attrs)
  {
    ghost var before := matrix.Subs();
    var todo := attrs;
    ghost var done: set<Attr> := {};
    while todo != {}
      invariant matrix.Valid() && done + todo == attrs
      invariant matrix.Subs() == before - SubsFor(f, c, done)
      decreases todo
    {
      var a :| a in todo;
      SubsForMore(f, c, done, a);
      var _ := matrix.UnsubscribeAttribute(c, a, f);
      todo, done := todo - {a}, done + {a};
    }
  }

  class Declaring {
    const matrix: SubscriptionMatrix
    var next: Handle
    var own: map<Handle, set<(Class, Attr)>>

    constructor ()
      ensures fresh(matrix) && matrix.Valid() && State() == FRESH
    {
      matrix := new SubscriptionMatrix();
      next, own := 1, map[];
    }

    ghost function State(): Decl
      reads this, matrix
    {
      Decl(next, matrix.Subs(), own)
    }

    /** Advises publishers to start registering when the class gets its first subscriber. */
    method SubscribeObjectClassAttributes(f: Handle, c: Class, attrs: set<Attr>) returns (advise: bool)
      requires matrix.Valid() && f in own
      modifies this, matrix
      ensures matrix.Valid() && State() == Step(old(State()), Subscribe(f, c, attrs))
      ensures advise <==> attrs != {} && forall s :: s in old(matrix.Subs()) ==> s.class_ != c
    {
      var was := matrix.ClassHasSubscribers(c);
      own := own[f := own[f] + PairsFor(c, attrs)];
      SubscribeEach(matrix, f, c, attrs);
      var is_ := matrix.ClassHasSubscribers(c);
      advise := !was && is_;
      assert is_ <==> was || attrs != {} by {
        if a :| a in attrs {
          assert Sub(c, a, f) in matrix.Subs();
        }
      }
    }

    /** Advises publishers to stop when the class loses its last subscriber. */
    method UnsubscribeObjectClassAttributes(f: Handle, c: Class, attrs: set<Attr>) returns (advise: bool)
      requires matrix.Valid() && f in own
      modifies this, matrix
      ensures matrix.Valid() && State() == Step(old(State()), Unsubscribe(f, c, attrs))
      ensures advise <==> (exists s :: s in old(matrix.Subs()) && s.class_ == c) &&
                          (forall s :: s in matrix.Subs() ==> s.class_ != c)
    {
      var was := matrix.ClassHasSubscribers(c);
      own := own[f := own[f] - PairsFor(c, attrs)];
      UnsubscribeEach(matrix, f, c, attrs);
      var is_ := matrix.ClassHasSubscribers(c);
      advise := was && !is_;
    }

    method UnsubscribeObjectClass(f: Handle, c: Class)
      requires matrix.Valid() && f in own
      modifies this, matrix
      ensures matrix.Valid() && State() == Step(old(State()), UnsubscribeClass(f, c))
    {
      own := own[f := (set p | p in own[f] && p.0 != c)];
      matrix.RemoveClass(c);
    }
  }

  // ---------------------------------------------------------------- recipients

  /** Subscribers to one of the attributes at the class or at an ancestor, without the producer. */
  ghost function Recipients(fom: Tables, subs: set<Sub>, class_: Class, attrs: set<Attr>,
          exclude: Option<Handle>): set<Handle>
    requires ParentsLower(fom)
  {
    set s | s in subs && s.class_ in Chain(fom, class_) && s.attr in attrs && Some(s.f) != exclude :: s.f
  }

  /** The subscribers at one class, ancestors left aside. */
  ghost function RecipientsAt(subs: set<Sub>, class_: Class, attrs: seq<Attr>, exclude: Option<Handle>): set<Handle> {
    set s | s in subs && s.class_ == class_ && s.attr in attrs && Some(s.f) != exclude :: s.f
  }

  lemma RecipientsAtMore(subs: set<Sub>, class_: Class, attrs: seq<Attr>, a: Attr, exclude: Option<Handle>,
          found: set<Handle>)
    requires forall f: Handle :: f in found <==> Sub(class_, a, f) in subs && Some(f) != exclude
    ensures RecipientsAt(subs, class_, attrs + [a], exclude) == RecipientsAt(subs, class_, attrs, exclude) + found
  {
    forall f | f in found
      ensures f in RecipientsAt(subs, class_, attrs + [a], exclude)
    {
      assert Sub(class_, a, f) in subs;
    }
  }

  method SubscribersAt(matrix: SubscriptionMatrix, class_: Class, attrs: seq<Attr>, exclude: Option<Handle>)
      returns (out: set<Handle>)
    ensures out == RecipientsAt(matrix.Subs(), class_, attrs, exclude)
  {
    out := {};
    var j := 0;
    while j < |attrs|
      invariant 0 <= j <= |attrs|
      invariant out == RecipientsAt(matrix.Subs(), class_, attrs[..j], exclude)
    {
      var k := (class_, attrs[j]);
      var found := if k in matrix.byAttribute then set f | f in matrix.byAttribute[k] && Some(f) != exclude else {};
      forall f: Handle
        ensures f in found <==> Sub(class_, attrs[j], f) in matrix.Subs() && Some(f) != exclude
      {
        InView(matrix.byAttribute, Sub(class_, attrs[j], f));
      }
      RecipientsAtMore(matrix.Subs(), class_, attrs[..j], attrs[j], exclude, found);
      assert attrs[..j + 1] == attrs[..j] + [attrs[j]];
      out := out + found;
      j := j + 1;
    }
    assert attrs[..j] == attrs;
  }

  ghost function RecipientsAlong(subs: set<Sub>, chain: seq<Class>, attrs: seq<Attr>,
          exclude: Option<Handle>): set<Handle> {
    set s | s in subs && s.class_ in chain && s.attr in attrs && Some(s.f) != exclude :: s.f
  }

  lemma RecipientsAlongMore(subs: set<Sub>, chain: seq<Class>, c: Class, attrs: seq<Attr>, exclude: Option<Handle>)
    ensures RecipientsAlong(subs, chain + [c], attrs, exclude) ==
      RecipientsAlong(subs, chain, attrs, exclude) + RecipientsAt(subs, c, attrs, exclude)
  {
    assert forall d :: d in chain + [c] <==> d in chain || d == c;
  }

  /** Up the inheritance chain, attribute by attribute. */
  method SubscribersForAttributes(fom: Tables, matrix: SubscriptionMatrix, class_: Class, attrs: seq<Attr>,
          exclude: Option<Handle>)
      returns (out: set<Handle>)
    requires ParentsLower(fom)
    ensures out == Recipients(fom, matrix.Subs(), class_, (set a | a in attrs), exclude)
  {
    var chain := InheritanceChain(fom, class_);
    out := {};
    var i := 0;
    while i < |chain|
      invariant 0 <= i <= |chain|
      invariant out == RecipientsAlong(matrix.Subs(), chain[..i], attrs, exclude)
    {
      var here := SubscribersAt(matrix, chain[i], attrs, exclude);
      assert chain[..i + 1] == chain[..i] + [chain[i]];
      RecipientsAlongMore(matrix.Subs(), chain[..i], chain[i], attrs, exclude);
      out := out + here;
      i := i + 1;
    }
    assert chain[..i] == chain;
  }

  /** On a merged FOM these are exactly the federates, other than the producer, subscribed to one
      of the attributes at the class or at a class it inherits from. */
  lemma RecipientsMeaning(st: Merged, subs: set<Sub>, class_: Class, attrs: set<Attr>, exclude: Option<Handle>,
          f: Handle)
    requires Proper(st) && class_ in Assign(st).classes
    requires forall s :: s in subs ==> s.class_ in Assign(st).classes
    ensures ParentsLower(Assign(st))
    ensures f in Recipients(Assign(st), subs, class_, attrs, exclude) <==>
      Some(f) != exclude &&
      exists s :: s in subs && s.f == f && s.attr in attrs &&
        AncestorOrSelf(st.classes, Assign(st).classes[s.class_].name, Assign(st).classes[class_].name)
  {
    AssignMeaning(st);
    forall s | s in subs
      ensures s.class_ in Chain(Assign(st), class_) <==>
        AncestorOrSelf(st.classes, Assign(st).classes[s.class_].name, Assign(st).classes[class_].name)
    {
      ChainMeaning(st, class_, s.class_);
    }
  }

  // ---------------------------------------------------------------- recipients of an interaction

  /** The classes the parent loop looks at; it looks at its start even if that is unknown. */
  ghost function Looked(fom: Tables, h: Class): seq<Class>
    requires ParentsLower(fom)
    decreases h
  {
    [h] + if h in fom.classes && ParentHandle(fom, h).Some? then Looked(fom, ParentHandle(fom, h).value) else []
  }

  predicate SubscribedAt(byInteraction: map<Class, set<Handle>>, c: Class, f: Handle) {
    c in byInteraction && f in byInteraction[c]
  }

  ghost predicate SubscribedAmong(byInteraction: map<Class, set<Handle>>, cs: seq<Class>, f: Handle) {
    exists c :: c in cs && SubscribedAt(byInteraction, c, f)
  }

  lemma SubscribedAmongMore(byInteraction: map<Class, set<Handle>>, cs: seq<Class>, c: Class, f: Handle)
    ensures SubscribedAmong(byInteraction, cs + [c], f) <==>
      SubscribedAmong(byInteraction, cs, f) || SubscribedAt(byInteraction, c, f)
  {
    assert c in cs + [c];
    assert forall d :: d in cs ==> d in cs + [c];
  }

  method SubscribersForInteraction(fom: Tables, byInteraction: map<Class, set<Handle>>, class_: Class,
          exclude: Option<Handle>)
      returns (out: set<Handle>)
    requires ParentsLower(fom)
    ensures forall f: Handle ::
      f in out <==> Some(f) != exclude && SubscribedAmong(byInteraction, Looked(fom, class_), f)
  {
    out := {};
    var current: Option<Class> := Some(class_);
    ghost var done: seq<Class> := [];
    while current.Some?
      invariant done + (if current.Some? then Looked(fom, current.value) else []) == Looked(fom, class_)
      invariant forall f: Handle :: f in out <==> Some(f) != exclude && SubscribedAmong(byInteraction, done, f)
      decreases current.Some?, if current.Some? then current.value else 0
    {
      var c := current.value;
      if c in byInteraction {
        out := out + set f | f in byInteraction[c] && Some(f) != exclude;
      }
      forall f: Handle
        ensures SubscribedAmong(byInteraction, done + [c], f) <==>
          SubscribedAmong(byInteraction, done, f) || SubscribedAt(byInteraction, c, f)
      {
        SubscribedAmongMore(byInteraction, done, c, f);
      }
      done := done + [c];
      current := if c in fom.classes then ParentHandle(fom, c) else None;
    }
  }

  lemma {:induction false} LookedIsChain(st: Merged, h: Class)
    requires Proper(st) && h in Assign(st).classes
    ensures ParentsLower(Assign(st)) && Looked(Assign(st), h) == Chain(Assign(st), h)
    decreases h
  {
    AssignMeaning(st);
    var p := ParentHandle(Assign(st), h);
    if p.Some? {
      LookedIsChain(st, p.value);
    }
  }

  /** On a merged FOM an interaction reaches exactly those subscribed at its class or at a class it
      inherits from. */
  lemma InteractionRecipientsMeaning(st: Merged, byInteraction: map<Class, set<Handle>>, class_: Class, f: Handle)
    requires Proper(st) && class_ in Assign(st).classes
    requires forall c :: c in byInteraction ==> c in Assign(st).classes
    ensures ParentsLower(Assign(st))
    ensures SubscribedAmong(byInteraction, Looked(Assign(st), class_), f) <==>
      exists c :: SubscribedAt(byInteraction, c, f) &&
        AncestorOrSelf(st.classes, Assign(st).classes[c].name, Assign(st).classes[class_].name)
  {
    LookedIsChain(st, class_);
    forall c | c in byInteraction
      ensures c in Chain(Assign(st), class_) <==>
        AncestorOrSelf(st.classes, Assign(st).classes[c].name, Assign(st).classes[class_].name)
    {
      ChainMeaning(st, class_, c);
    }
  }
}
