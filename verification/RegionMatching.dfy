/**
 Who receives an update that carries regions: what the server computes, what the subscribers asked
 for, and exactly when the two are the same.
 */
module RegionMatching {
  import opened Options
  import opened FomTables
  import opened FomInheritance
  import opened Subscriptions
  import opened Declarations
  import opened Regions

  /** Regions associated with an instance, per attribute. */
  type PubRegions = map<Attr, set<RegionId>>

  /** Regions a federate has entered, per class and attribute. */
  type Entries = map<(Class, Attr), set<RegionId>>

  function PubsOf(pubs: PubRegions, a: Attr): set<RegionId> {
    if a in pubs then pubs[a] else {}
  }

  function EntryOf(entries: Entries, c: Class, a: Attr): set<RegionId> {
    if (c, a) in entries then entries[(c, a)] else {}
  }

  // ---------------------------------------------------------------- what the server computes

  /** One attribute's filter; it looks at entries made at the instance's own class only. */
  function FilterByRegions(regions: map<RegionId, Region>, joined: map<Handle, Entries>, subscribers: set<Handle>,
                           pubs: PubRegions, c: Class, a: Attr): set<Handle> {
    if PubsOf(pubs, a) == {} then subscribers
    else set f | f in subscribers && f in joined && OverlapAny(regions, PubsOf(pubs, a), EntryOf(joined[f], c, a))
  }

  ghost function MatchedOn(regions: map<RegionId, Region>, joined: map<Handle, Entries>, subscribers: set<Handle>,
                           pubs: PubRegions, c: Class, attrs: seq<Attr>): set<Handle> {
    set f | f in subscribers && exists a :: a in attrs && f in FilterByRegions(regions, joined, subscribers, pubs, c, a)
  }

  lemma MatchedOnMore(regions: map<RegionId, Region>, joined: map<Handle, Entries>, subscribers: set<Handle>,
                      pubs: PubRegions, c: Class, attrs: seq<Attr>, a: Attr)
    ensures MatchedOn(regions, joined, subscribers, pubs, c, attrs + [a]) ==
      MatchedOn(regions, joined, subscribers, pubs, c, attrs) + FilterByRegions(regions, joined, subscribers, pubs,
        c, a)
  {
    assert a in attrs + [a];
    assert forall b :: b in attrs ==> b in attrs + [a];
  }

  /** Subscribers along the class chain, then filtered attribute by attribute. */
  method MatchSubscribers(fom: Tables, matrix: SubscriptionMatrix, joined: map<Handle, Entries>,
                          regions: map<RegionId, Region>, pubs: PubRegions, c: Class, attrs: seq<Attr>,
                            producer: Handle)
      returns (matched: set<Handle>)
    requires ParentsLower(fom)
    ensures matched ==
      MatchedOn(regions, joined, Recipients(fom, matrix.Subs(), c, (set a | a in attrs), Some(producer)), pubs, c,
        attrs)
  {
    var subscribers := SubscribersForAttributes(fom, matrix, c, attrs, Some(producer));
    matched := {};
    var k := 0;
    while k < |attrs|
      invariant 0 <= k <= |attrs|
      invariant matched == MatchedOn(regions, joined, subscribers, pubs, c, attrs[..k])
    {
      assert attrs[..k + 1] == attrs[..k] + [attrs[k]];
      MatchedOnMore(regions, joined, subscribers, pubs, c, attrs[..k], attrs[k]);
      matched := matched + FilterByRegions(regions, joined, subscribers, pubs, c, attrs[k]);
      k := k + 1;
    }
    assert attrs[..k] == attrs;
  }

  // ---------------------------------------------------------------- one subscriber

  /** What one joined federate has subscribed to along the chain of the instance's class `c`, and
      the regions it has entered. */
  datatype Profile = Profile(c: Class, at: set<(Class, Attr)>, entries: Entries)

  ghost function ProfileOf(fom: Tables, subs: set<Sub>, entries: Entries, c: Class, f: Handle): Profile
    requires ParentsLower(fom)
  {
    Profile(c, (set s | s in subs && s.f == f && s.class_ in Chain(fom, c) :: (s.class_, s.attr)), entries)
  }

  ghost predicate SubscribesTo(p: Profile, a: Attr) {
    exists k :: (k, a) in p.at
  }

  /** What the server computes, seen from one subscriber. */
  ghost predicate Receives(p: Profile, regions: map<RegionId, Region>, pubs: PubRegions, attrs: seq<Attr>) {
    && (exists a :: a in attrs && SubscribesTo(p, a))
    && (exists a :: a in attrs && OverlapAny(regions, PubsOf(pubs, a), EntryOf(p.entries, p.c, a)))
  }

  /** What it asked for: some updated attribute is subscribed to at a class of the chain where no
      regions were entered or one overlaps the publisher's. */
  ghost predicate Wants(p: Profile, regions: map<RegionId, Region>, pubs: PubRegions, attrs: seq<Attr>) {
    exists k, a :: a in attrs && (k, a) in p.at && OverlapAny(regions, PubsOf(pubs, a), EntryOf(p.entries, k, a))
  }

  lemma RecipientByProfile(fom: Tables, subs: set<Sub>, entries: Entries, c: Class, attrs: seq<Attr>,
          producer: Handle, f: Handle)
    requires ParentsLower(fom) && f != producer
    ensures f in Recipients(fom, subs, c, (set a | a in attrs), Some(producer)) <==>
      exists a :: a in attrs && SubscribesTo(ProfileOf(fom, subs, entries, c, f), a)
  {
    var p := ProfileOf(fom, subs, entries, c, f);
    if s :| s in subs && s.f == f && s.class_ in Chain(fom, c) && s.attr in attrs {
      assert (s.class_, s.attr) in p.at;
      assert SubscribesTo(p, s.attr);
    }
    if a :| a in attrs && SubscribesTo(p, a) {
      var k :| (k, a) in p.at;
      assert Sub(k, a, f) in subs;
    }
  }

  /** The server's answer for a joined federate other than the producer depends on its profile only. */
  lemma MatchedByProfile(fom: Tables, subs: set<Sub>, joined: map<Handle, Entries>, regions: map<RegionId, Region>,
                         pubs: PubRegions, c: Class, attrs: seq<Attr>, producer: Handle, f: Handle)
    requires ParentsLower(fom) && f in joined && f != producer
    ensures f in MatchedOn(regions, joined, Recipients(fom, subs, c, (set a | a in attrs), Some(producer)), pubs,
      c, attrs) <==>
      Receives(ProfileOf(fom, subs, joined[f], c, f), regions, pubs, attrs)
  {
    RecipientByProfile(fom, subs, joined[f], c, attrs, producer, f);
  }

  // ---------------------------------------------------------------- when the two agree

  /** Some subscription to the attribute carries no regions. */
  ghost predicate Unrestricted(p: Profile, a: Attr) {
    exists k :: (k, a) in p.at && EntryOf(p.entries, k, a) == {}
  }

  /** All regions entered with subscriptions to the attribute. */
  ghost function Reach(p: Profile, a: Attr): set<RegionId> {
    set q, r | q in p.at && q.1 == a && r in EntryOf(p.entries, q.0, a) :: r
  }

  /** The subscriber asked for nothing of this; or it asked for something without regions and has
      entered none at the instance's class for something; or it subscribes to everything with
      regions, and those entered at the instance's class are all there are. */
  ghost predicate Respected(p: Profile, attrs: seq<Attr>) {
    || (forall a :: a in attrs ==> !SubscribesTo(p, a))
    || ((exists a :: a in attrs && Unrestricted(p, a)) && (exists a :: a in attrs && EntryOf(p.entries, p.c, a) == {}))
    || (forall a :: a in attrs ==>
          SubscribesTo(p, a) && !Unrestricted(p, a) && EntryOf(p.entries, p.c, a) == Reach(p, a))
  }

  lemma ReachMeaning(p: Profile, a: Attr, regions: map<RegionId, Region>, pubs: set<RegionId>)
    requires SubscribesTo(p, a) && !Unrestricted(p, a)
    ensures Reach(p, a) != {}
    ensures OverlapAny(regions, pubs, Reach(p, a)) <==>
      exists k :: (k, a) in p.at && OverlapAny(regions, pubs, EntryOf(p.entries, k, a))
  {
    var k :| (k, a) in p.at;
    assert EntryOf(p.entries, k, a) != {};
    var r :| r in EntryOf(p.entries, k, a);
    assert r in Reach(p, a);
    if OverlapAny(regions, pubs, Reach(p, a)) && pubs != {} {
      var x, s :| x in pubs && s in Reach(p, a) && x in regions && s in regions &&
                  Overlap(regions[x].committed, regions[s].committed);
      var q :| q in p.at && q.1 == a && s in EntryOf(p.entries, q.0, a);
      assert (q.0, a) in p.at;
      assert OverlapAny(regions, pubs, EntryOf(p.entries, q.0, a));
    }
    if k :| (k, a) in p.at && OverlapAny(regions, pubs, EntryOf(p.entries, k, a)) && pubs != {} {
      var x, s :| x in pubs && s in EntryOf(p.entries, k, a) && x in regions && s in regions &&
                  Overlap(regions[x].committed, regions[s].committed);
      assert s in Reach(p, a);
    }
  }

  lemma RespectedSuffices(p: Profile, regions: map<RegionId, Region>, pubs: PubRegions, attrs: seq<Attr>)
    requires Respected(p, attrs)
    ensures Receives(p, regions, pubs, attrs) <==> Wants(p, regions, pubs, attrs)
  {
    if exists a :: a in attrs && Unrestricted(p, a) {
      var a :| a in attrs && Unrestricted(p, a);
      var k :| (k, a) in p.at && EntryOf(p.entries, k, a) == {};
      assert SubscribesTo(p, a);
      assert OverlapAny(regions, PubsOf(pubs, a), EntryOf(p.entries, k, a));
    } else if exists a :: a in attrs && SubscribesTo(p, a) {
      forall a | a in attrs
        ensures OverlapAny(regions, PubsOf(pubs, a), EntryOf(p.entries, p.c, a)) <==>
          exists k :: (k, a) in p.at && OverlapAny(regions, PubsOf(pubs, a), EntryOf(p.entries, k, a))
      {
        ReachMeaning(p, a, regions, PubsOf(pubs, a));
      }
    }
  }

  /** An update in which the server and the subscriber disagree. */
  ghost predicate Disagree(p: Profile, regions: map<RegionId, Region>, pubs: PubRegions, attrs: seq<Attr>) {
    AllBounded(regions) && !(Receives(p, regions, pubs, attrs) <==> Wants(p, regions, pubs, attrs))
  }

  /** Every attribute published with a region that has been deleted, but for one. */
  function Published(attrs: seq<Attr>, gone: RegionId, a: Attr, rs: set<RegionId>): PubRegions {
    map b | b in attrs :: if b == a then rs else {gone}
  }

  lemma DeletedMatchesNothing(regions: map<RegionId, Region>, gone: RegionId, subs: set<RegionId>)
    requires gone !in regions
    ensures OverlapAny(regions, {gone}, subs) <==> subs == {}
  {
  }

  /** Regions at the instance's class hide an unrestricted subscription. */
  lemma UnrestrictedMissed(p: Profile, attrs: seq<Attr>, a: Attr)
    requires a in attrs && Unrestricted(p, a)
    requires forall b :: b in attrs ==> EntryOf(p.entries, p.c, b) != {}
    ensures Disagree(p, map[], Published(attrs, 0, a, {0}), attrs)
  {
    var pubs := Published(attrs, 0, a, {0});
    forall b | b in attrs
      ensures PubsOf(pubs, b) == {0} && !OverlapAny(map[], PubsOf(pubs, b), EntryOf(p.entries, p.c, b))
    {
      DeletedMatchesNothing(map[], 0, EntryOf(p.entries, p.c, b));
    }
    var k :| (k, a) in p.at && EntryOf(p.entries, k, a) == {};
    assert OverlapAny(map[], PubsOf(pubs, a), EntryOf(p.entries, k, a));
    assert Wants(p, map[], pubs, attrs);
  }

  /** With nothing that overlaps, and every subscription restricted, nothing is wanted. */
  lemma NothingWanted(p: Profile, attrs: seq<Attr>, a: Attr, rs: set<RegionId>)
    requires forall b :: b in attrs ==> !Unrestricted(p, b)
    requires !SubscribesTo(p, a) || rs == {0}
    ensures !Wants(p, map[], Published(attrs, 0, a, rs), attrs)
  {
    var pubs := Published(attrs, 0, a, rs);
    forall k, b | b in attrs && (k, b) in p.at
      ensures !OverlapAny(map[], PubsOf(pubs, b), EntryOf(p.entries, k, b))
    {
      assert SubscribesTo(p, b);
      DeletedMatchesNothing(map[], 0, EntryOf(p.entries, k, b));
    }
  }

  /** An updated attribute without regions reaches those who did not subscribe to it. */
  lemma UnsubscribedReceived(p: Profile, attrs: seq<Attr>, a: Attr, b: Attr)
    requires forall x :: x in attrs ==> !Unrestricted(p, x)
    requires a in attrs && !SubscribesTo(p, a) && b in attrs && SubscribesTo(p, b)
    ensures Disagree(p, map[], Published(attrs, 0, a, {}), attrs)
  {
    var pubs := Published(attrs, 0, a, {});
    NothingWanted(p, attrs, a, {});
    assert PubsOf(pubs, a) == {};
    assert OverlapAny(map[], PubsOf(pubs, a), EntryOf(p.entries, p.c, a));
  }

  /** No entry at the instance's class passes for no restriction, wherever the regions were entered. */
  lemma ElsewhereIgnored(p: Profile, attrs: seq<Attr>, a: Attr, b: Attr)
    requires forall x :: x in attrs ==> !Unrestricted(p, x)
    requires a in attrs && EntryOf(p.entries, p.c, a) == {} && b in attrs && SubscribesTo(p, b)
    ensures Disagree(p, map[], Published(attrs, 0, a, {0}), attrs)
  {
    var pubs := Published(attrs, 0, a, {0});
    NothingWanted(p, attrs, a, {0});
    assert OverlapAny(map[], PubsOf(pubs, a), EntryOf(p.entries, p.c, a));
  }

  lemma Above(rs: set<RegionId>) returns (n: RegionId)
    ensures forall r :: r in rs ==> r < n
  {
    if rs == {} {
      n := 0;
    } else {
      var r :| r in rs;
      var m := Above(rs - {r});
      n := if r < m then m else r + 1;
      assert rs == (rs - {r}) + {r};
    }
  }

  /** Only `r` and the publisher's `x` exist, and neither has bounds. */
  function JustTwo(x: RegionId, r: RegionId): map<RegionId, Region> {
    map[x := Region(0, map[], map[]), r := Region(0, map[], map[])]
  }

  lemma OnlyMeets(x: RegionId, r: RegionId, subs: set<RegionId>)
    requires x !in subs
    ensures OverlapAny(JustTwo(x, r), {x}, subs) <==> subs == {} || r in subs
  {
    var regions := JustTwo(x, r);
    if r in subs {
      assert x in {x} && x in regions && r in regions && Overlap(regions[x].committed, regions[r].committed);
    }
  }

  /** Regions entered at the instance's class but not with a subscription, or the other way round. */
  lemma EntriesDiffer(p: Profile, attrs: seq<Attr>, a: Attr, r: RegionId, x: RegionId)
    requires forall b :: b in attrs ==> !Unrestricted(p, b) && EntryOf(p.entries, p.c, b) != {}
    requires a in attrs && SubscribesTo(p, a)
    requires r in EntryOf(p.entries, p.c, a) <==> r !in Reach(p, a)
    requires x !in EntryOf(p.entries, p.c, a) && x !in Reach(p, a)
    ensures Disagree(p, JustTwo(x, r), Published(attrs, x + r + 1, a, {x}), attrs)
  {
    var regions, pubs := JustTwo(x, r), Published(attrs, x + r + 1, a, {x});
    OthersMiss(p, attrs, a, x, r);
    OnlyMeets(x, r, EntryOf(p.entries, p.c, a));
    ReachMeaning(p, a, regions, {x});
    OnlyMeets(x, r, Reach(p, a));
    assert PubsOf(pubs, a) == {x};
    assert Receives(p, regions, pubs, attrs) <==> r in EntryOf(p.entries, p.c, a);
    assert Wants(p, regions, pubs, attrs) <==> r in Reach(p, a);
  }

  lemma OthersMiss(p: Profile, attrs: seq<Attr>, a: Attr, x: RegionId, r: RegionId)
    requires forall b :: b in attrs ==> !Unrestricted(p, b) && EntryOf(p.entries, p.c, b) != {}
    ensures var regions, pubs := JustTwo(x, r), Published(attrs, x + r + 1, a, {x});
      forall k, b :: b in attrs && b != a && (k == p.c || (k, b) in p.at) ==>
        !OverlapAny(regions, PubsOf(pubs, b), EntryOf(p.entries, k, b))
  {
    var regions, pubs := JustTwo(x, r), Published(attrs, x + r + 1, a, {x});
    forall k, b | b in attrs && b != a && (k == p.c || (k, b) in p.at)
      ensures !OverlapAny(regions, PubsOf(pubs, b), EntryOf(p.entries, k, b))
    {
      DeletedMatchesNothing(regions, x + r + 1, EntryOf(p.entries, k, b));
    }
  }

  lemma NotRespected(p: Profile, attrs: seq<Attr>) returns (regions: map<RegionId, Region>, pubs: PubRegions)
    requires !Respected(p, attrs)
    ensures Disagree(p, regions, pubs, attrs)
  {
    var b :| b in attrs && SubscribesTo(p, b);
    if u :| u in attrs && Unrestricted(p, u) {
      UnrestrictedMissed(p, attrs, u);
      return map[], Published(attrs, 0, u, {0});
    }
    if a :| a in attrs && !SubscribesTo(p, a) {
      UnsubscribedReceived(p, attrs, a, b);
      return map[], Published(attrs, 0, a, {});
    }
    if a :| a in attrs && EntryOf(p.entries, p.c, a) == {} {
      ElsewhereIgnored(p, attrs, a, b);
      return map[], Published(attrs, 0, a, {0});
    }
    var a :| a in attrs && EntryOf(p.entries, p.c, a) != Reach(p, a);
    var here, there := EntryOf(p.entries, p.c, a), Reach(p, a);
    var r :| r in here + there && (r in here <==> r !in there);
    var x := Above(here + there);
    EntriesDiffer(p, attrs, a, r, x);
    return JustTwo(x, r), Published(attrs, x + r + 1, a, {x});
  }

  /** For one subscriber and one list of updated attributes: the server does what the subscriber
      asked for, whatever regions there are and however they are published, if and only if
      `Respected` holds of what it has subscribed to and entered. */
  lemma RespectedIff(p: Profile, attrs: seq<Attr>)
    ensures (forall regions, pubs :: !Disagree(p, regions, pubs, attrs)) <==> Respected(p, attrs)
  {
    if Respected(p, attrs) {
      forall regions, pubs
        ensures !Disagree(p, regions, pubs, attrs)
      {
        RespectedSuffices(p, regions, pubs, attrs);
      }
    } else {
      var regions, pubs := NotRespected(p, attrs);
    }
  }

  /** So a joined subscriber of whom it holds is among the recipients of an update exactly when it
      asked for it. */
  lemma MatchedAsWanted(fom: Tables, subs: set<Sub>, joined: map<Handle, Entries>, regions: map<RegionId, Region>,
                        pubs: PubRegions, c: Class, attrs: seq<Attr>, producer: Handle, f: Handle)
    requires ParentsLower(fom) && f in joined && f != producer
    requires Respected(ProfileOf(fom, subs, joined[f], c, f), attrs)
    ensures f in MatchedOn(regions, joined, Recipients(fom, subs, c, (set a | a in attrs), Some(producer)), pubs,
      c, attrs) <==>
      Wants(ProfileOf(fom, subs, joined[f], c, f), regions, pubs, attrs)
  {
    MatchedByProfile(fom, subs, joined, regions, pubs, c, attrs, producer, f);
    RespectedSuffices(ProfileOf(fom, subs, joined[f], c, f), regions, pubs, attrs);
  }

  // ---------------------------------------------------------------- one update

  /** Some region of one set shares a point with some region of the other. */
  ghost predicate Meet(regions: map<RegionId, Region>, pubs: set<RegionId>, subs: set<RegionId>) {
    exists x, s :: x in pubs && s in subs && x in regions && s in regions &&
                   exists point :: Contains(regions[x].committed, point) && Contains(regions[s].committed, point)
  }

  lemma MeetIsOverlap(regions: map<RegionId, Region>, pubs: set<RegionId>, subs: set<RegionId>)
    requires AllBounded(regions) && pubs != {} && subs != {}
    ensures OverlapAny(regions, pubs, subs) <==> Meet(regions, pubs, subs)
  {
    forall x, s | x in regions && s in regions
      ensures Overlap(regions[x].committed, regions[s].committed) <==>
        exists point :: Contains(regions[x].committed, point) && Contains(regions[s].committed, point)
    {
      OverlapMeaning(regions[x].committed, regions[s].committed);
    }
  }

  /** A joined recipient misses an update if and only if every updated attribute carries regions, and
      the regions it has entered for it at the instance's own class are some, and share no point with
      them. */
  lemma MissedMeaning(fom: Tables, subs: set<Sub>, joined: map<Handle, Entries>, regions: map<RegionId, Region>,
                      pubs: PubRegions, c: Class, attrs: seq<Attr>, producer: Handle, f: Handle)
    requires ParentsLower(fom) && AllBounded(regions) && f in joined
    requires f in Recipients(fom, subs, c, (set a | a in attrs), Some(producer))
    ensures
      f !in MatchedOn(regions, joined, Recipients(fom, subs, c, (set a | a in attrs), Some(producer)), pubs, c,
        attrs) <==>
      forall a :: a in attrs ==>
        && PubsOf(pubs, a) != {} && EntryOf(joined[f], c, a) != {}
        && !Meet(regions, PubsOf(pubs, a), EntryOf(joined[f], c, a))
  {
    forall a | a in attrs && PubsOf(pubs, a) != {} && EntryOf(joined[f], c, a) != {}
      ensures OverlapAny(regions, PubsOf(pubs, a), EntryOf(joined[f], c, a)) <==>
        Meet(regions, PubsOf(pubs, a), EntryOf(joined[f], c, a))
    {
      MeetIsOverlap(regions, PubsOf(pubs, a), EntryOf(joined[f], c, a));
    }
  }

  /** The ancestor case, in any class tree: a federate subscribed at a proper ancestor, for a region
      that no point of the publisher's is in, receives the update all the same. */
  lemma AncestorRegionsIgnored(fom: Tables, c: Class, ancestor: Class, a: Attr, f: Handle, producer: Handle)
    requires ParentsLower(fom) && ancestor in Chain(fom, c) && ancestor != c && f != producer
    ensures
      var regions := map[1 := Region(f, map[0 := Range(0, 9)], map[]), 2 := Region(producer, map[0 := Range(10,
        19)], map[])];
      var subs, joined := {Sub(ancestor, a, f)}, map[f := map[(ancestor, a) := {1}]];
      && f in MatchedOn(regions, joined, Recipients(fom, subs, c, (set x | x in [a]), Some(producer)),
        map[a := {2}], c, [a])
      && !Wants(ProfileOf(fom, subs, joined[f], c, f), regions, map[a := {2}], [a])
  {
    var regions := map[1 := Region(f, map[0 := Range(0, 9)], map[]), 2 := Region(producer, map[0 := Range(10, 19)],
      map[])];
    var subs, joined := {Sub(ancestor, a, f)}, map[f := map[(ancestor, a) := {1}]];
    var p := ProfileOf(fom, subs, joined[f], c, f);
    assert p.at == {(ancestor, a)};
    assert SubscribesTo(p, a);
    assert OverlapAny(regions, PubsOf(map[a := {2}], a), EntryOf(p.entries, p.c, a));
    assert a in [a];
    MatchedByProfile(fom, subs, joined, regions, map[a := {2}], c, [a], producer, f);
    assert !Overlap(regions[2].committed, regions[1].committed) by {
      assert 0 in regions[2].committed && 0 in regions[1].committed;
    }
  }
}
