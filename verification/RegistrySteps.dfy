// What single registry steps keep, each with its exact condition: the steps that Links
// does not cover, and the handler of a release complete, which is made of several.

module RegistrySteps {
  import opened Basics
  import opened Context
  import opened Registry
  import opened Links
  import opened ApId
  import opened Handover

  // A connection that is listed under the RAN id of an initial message is removed as by
  // Remove, and the id is free afterwards.
  lemma ForgetIsRemove(g: Graph, s: Slot)
    requires Indexed(g) && s.ran in g.an
    ensures s in g.lists ==> Live(g, g.lists[s]) && Forget(g, s) == Remove(g, g.lists[s])
    ensures s !in Forget(g, s).lists && Indexed(Forget(g, s)) && (Listed(g) ==> Listed(Forget(g, s)))
  {
    if s in g.lists {
      assert SlotOk(g, s);
      RemoveKeepsIndexes(g, g.lists[s]);
      DetachedTwice(g, s.ran, g.lists[s]);
    }
  }

  lemma DetachedTwice(g: Graph, ran: AmfRan, r: RanUe)
    requires Closed(g) && r in g.conn && g.conn[r].ran == ran
    ensures DetachAndRemove(g, ran, r) == Remove(g, r)
  {
    hide IndexRefs, LinkRefs;
  }

  lemma ForgetNothing(g: Graph, s: Slot)
    requires Closed(g) && s.ran in g.an && s !in g.lists
    ensures Forget(g, s) == g
  {
  }

  predicate Free(g: Graph, s: Slot, r: RanUe) {
    s in g.lists ==> g.lists[s] == r
  }

  lemma NewConnectionKeepsLinks(g: Graph, ran: AmfRan, ranId: int, amfId: int, r: RanUe)
    requires Linked(g) && ran in g.an && r !in g.conn && amfId !in g.used
    ensures Linked(NewRanUe(g, ran, ranId, amfId, r))
  {
    var g' := NewRanUe(g, ran, ranId, amfId, r);
    NewRanUeKeepsIndexes(g, ran, ranId, amfId, r);
    GaugesAlone(g, g');
    hide Closed, Pooled, ListedSoundly;
    forall p | p in g'.links ensures LinkOk(g', p) { assert LinkOk(g, p); }
    forall q | q in g'.conn ensures PointerOk(g', q) { if q != r { assert PointerOk(g, q); } }
  }

  lemma NewConnectionTouches(g: Graph, ran: AmfRan, ranId: int, amfId: int, r: RanUe)
    requires Indexed(g) && ran in g.an && r !in g.conn && amfId !in g.used
    ensures var g' := NewRanUe(g, ran, ranId, amfId, r);
      && g'.links == g.links && g'.live == g.live && g'.flags == g.flags && g'.connected == g.connected
      && g'.preparing == g.preparing && g'.an == g.an
      && forall q :: q in g.conn ==> q in g'.conn && g'.conn[q] == g.conn[q]
  {
  }

  lemma TakenIdUnlists(g: Graph, ran: AmfRan, ranId: int, amfId: int, r: RanUe)
    requires Listed(g) && ran in g.an && r !in g.conn && amfId !in g.used && Slot(ran, ranId) in g.lists
    ensures !Listed(NewRanUe(g, ran, ranId, amfId, r))
  {
    assert SlotOk(g, Slot(ran, ranId));
    NewRanUeKeepsIndexes(g, ran, ranId, amfId, r);
    assert !ListedOk(NewRanUe(g, ran, ranId, amfId, r), g.lists[Slot(ran, ranId)]);
  }

  lemma AcknowledgeKeepsLinks(g: Graph, r: RanUe, ranId: int)
    requires Linked(g) && Live(g, r) && g.conn[r].ranId == UNSPECIFIED && ranId != UNSPECIFIED
    ensures Linked(StoreRanId(g, g.conn[r].ran, r, ranId))
  {
    var g' := StoreRanId(g, g.conn[r].ran, r, ranId);
    StoreRanIdKeepsIndexes(g, r, ranId);
    GaugesAlone(g, g');
    forall p | p in g'.links ensures LinkOk(g', p) { assert LinkOk(g, p); }
    forall q | q in g'.conn ensures PointerOk(g', q) { assert PointerOk(g, q); }
  }

  lemma TakenIdUnlistsAtAcknowledge(g: Graph, r: RanUe, ranId: int)
    requires Listed(g) && Live(g, r) && g.conn[r].ranId == UNSPECIFIED && ranId != UNSPECIFIED
    requires Slot(g.conn[r].ran, ranId) in g.lists
    ensures !Listed(StoreRanId(g, g.conn[r].ran, r, ranId))
  {
    var s := Slot(g.conn[r].ran, ranId);
    assert SlotOk(g, s);
    StoreRanIdKeepsIndexes(g, r, ranId);
    assert !ListedOk(StoreRanId(g, g.conn[r].ran, r, ranId), g.lists[s]);
  }

  // ----- switches -----

  // The new slot is free, and an attached connection keeps its access type.
  predicate Switchable(g: Graph, r: RanUe, newRan: AmfRan, ranId: int)
    requires Closed(g) && r in g.conn && newRan in g.an
  {
    Free(g, Slot(newRan, ranId), r) && (Attached(g, r) ==> g.an[newRan] == Access(g, r))
  }

  lemma SwitchKeepsGoodExactly(g: Graph, r: RanUe, newRan: AmfRan, ranId: int)
    requires Good(g) && Live(g, r) && newRan in g.an && ranId != UNSPECIFIED
    ensures Good(SwitchToRan(g, r, newRan, ranId)) <==> Switchable(g, r, newRan, ranId)
  {
    var s := Slot(newRan, ranId);
    var g' := SwitchToRan(g, r, newRan, ranId);
    SwitchToRanKeepsIndexes(g, r, newRan, ranId);
    if !Free(g, s, r) {
      assert SlotOk(g, s);
      assert !ListedOk(g', g.lists[s]);
    } else if Attached(g, r) && g.an[newRan] != Access(g, r) {
      assert !LinkOk(g', Port(g.conn[r].ue, Access(g, r)));
    } else {
      SwitchKeepsLinks(g, r, newRan, ranId);
    }
  }

  lemma SwitchKeepsLinks(g: Graph, r: RanUe, newRan: AmfRan, ranId: int)
    requires Linked(g) && Live(g, r) && newRan in g.an && ranId != UNSPECIFIED
    requires Attached(g, r) ==> g.an[newRan] == Access(g, r)
    ensures Linked(SwitchToRan(g, r, newRan, ranId))
  {
    var g' := SwitchToRan(g, r, newRan, ranId);
    SwitchToRanKeepsIndexes(g, r, newRan, ranId);
    GaugesAlone(g, g');
    forall p | p in g'.links ensures LinkOk(g', p) { assert LinkOk(g, p); }
    forall q | q in g'.conn ensures PointerOk(g', q) { assert PointerOk(g, q); }
  }

  // The path switch writes the id first: so the id must stay, or there was none and the
  // handler goes on to switch and nobody else has the new one on the old RAN.
  predicate PathSwitchable(g: Graph, r: RanUe, newRan: AmfRan, ranId: int, switched: bool)
    requires Closed(g) && r in g.conn && newRan in g.an
  {
    var c := g.conn[r];
    && (ranId == c.ranId || (switched && c.ranId == UNSPECIFIED && Slot(c.ran, ranId) !in g.lists))
    && (switched ==> Switchable(g, r, newRan, ranId))
  }

  lemma PathSwitchKeepsGoodExactly(g: Graph, r: RanUe, newRan: AmfRan, ranId: int, switched: bool)
    requires Good(g) && Live(g, r) && newRan in g.an && ranId != UNSPECIFIED
    ensures Good(PathSwitch(g, r, newRan, ranId, switched)) <==> PathSwitchable(g, r, newRan, ranId, switched)
  {
    hide IndexRefs, LinkRefs, Pooled, LinksPointBack, PointersAreLinks, Conserved, PathSwitch, SwitchToRan, Switchable;
    var c := g.conn[r];
    if ranId == c.ranId {
      PathSwitchOfSameId(g, r, newRan, switched);
      SwitchKeepsGoodExactly(g, r, newRan, ranId);
    } else if c.ranId != UNSPECIFIED {
      PathSwitchKeepsIndexesExactly(g, r, newRan, ranId, switched);
    } else if switched && Slot(c.ran, ranId) !in g.lists {
      FirstIdIsSwitch(g, r, newRan, ranId);
      SwitchKeepsGoodExactly(g, r, newRan, ranId);
    } else {
      FirstIdUnlists(g, r, newRan, ranId, switched);
    }
  }

  lemma FirstIdIsSwitch(g: Graph, r: RanUe, newRan: AmfRan, ranId: int)
    requires Indexed(g) && r in g.conn && newRan in g.an
    requires g.conn[r].ranId == UNSPECIFIED && Slot(g.conn[r].ran, ranId) !in g.lists
    ensures PathSwitch(g, r, newRan, ranId, true) == SwitchToRan(g, r, newRan, ranId)
  {
    hide IndexRefs, ConnRefs, LinkRefs, Pooled;
    var s0, s1 := Slot(g.conn[r].ran, UNSPECIFIED), Slot(g.conn[r].ran, ranId);
    forall s | s in g.lists ensures s.id != UNSPECIFIED { assert SlotOk(g, s); }
    assert g.lists - {s0} == g.lists == g.lists - {s1};
  }

  lemma FirstIdUnlists(g: Graph, r: RanUe, newRan: AmfRan, ranId: int, switched: bool)
    requires Listed(g) && Live(g, r) && newRan in g.an && ranId != UNSPECIFIED && g.conn[r].ranId == UNSPECIFIED
    requires switched ==> Slot(g.conn[r].ran, ranId) in g.lists
    ensures !Listed(PathSwitch(g, r, newRan, ranId, switched))
  {
    var s := Slot(g.conn[r].ran, ranId);
    var g' := PathSwitch(g, r, newRan, ranId, switched);
    if s in g.lists {
      assert SlotOk(g, s) && ListedOk(g, g.lists[s]);
    }
    if switched {
      assert !ListedOk(g', g.lists[s]);
    } else {
      assert !ListedOk(g', r);
    }
  }

  // Steps that touch nothing the link invariants look at
  ghost predicate Unmoved(g: Graph, g': Graph) {
    && SameIndexes(g, g') && g'.links == g.links && g'.live == g.live && g'.flags == g.flags
    && g'.connected == g.connected && g'.idle == g.idle && g'.preparing == g.preparing
    && forall r {:trigger g'.conn[r]} :: r in g.conn ==> g'.conn[r].ue == g.conn[r].ue
  }

  lemma UnmovedKeepsLinks(g: Graph, g': Graph)
    requires Linked(g) && Closed(g') && Unmoved(g, g')
    ensures Linked(g')
  {
    hide IndexRefs, LinkRefs;
    GaugesAlone(g, g');
    SameIndexesKeepThem(g, g');
    forall p | p in g'.links ensures LinkOk(g', p) { assert LinkOk(g, p); }
    forall q | q in g'.conn ensures PointerOk(g', q) { assert PointerOk(g, q); }
  }

  lemma CommandKeepsLinks(g: Graph, r: RanUe, action: RelAction)
    requires Linked(g) && r in g.conn
    ensures var g' := ReleaseCommand(g, r, action); Linked(g') && SameIndexes(g, g')
  {
    hide IndexRefs, ConnRefs, LinkRefs, Pooled, ListedSoundly, LinksPointBack, PointersAreLinks, Conserved;
    UnmovedKeepsLinks(g, ReleaseCommand(g, r, action));
  }

  lemma UnpairKeepsLinks(g: Graph, r: RanUe)
    requires Linked(g) && r in g.conn
    ensures var g' := Registry.Unpair(g, r); Linked(g') && SameIndexes(g, g')
  {
    hide DropTarget, DropSource, IndexRefs, LinkRefs;
    var c := g.conn[r];
    DropKeepsLinks(g, r);
    if c.target != null {
      DropKeepsLinks(DropTarget(g, r), c.target);
      SameIndexesTwice(g, DropTarget(g, r), Registry.Unpair(g, r));
    } else if c.source != null {
      DropKeepsLinks(DropSource(g, r), c.source);
      SameIndexesTwice(g, DropSource(g, r), Registry.Unpair(g, r));
    }
  }

  lemma DropKeepsLinks(g: Graph, r: RanUe)
    requires Linked(g) && r in g.conn
    ensures Linked(DropTarget(g, r)) && SameIndexes(g, DropTarget(g, r))
    ensures Linked(DropSource(g, r)) && SameIndexes(g, DropSource(g, r))
  {
    hide IndexRefs, ConnRefs, LinkRefs, Pooled, ListedSoundly, LinksPointBack, PointersAreLinks, Conserved;
    UnmovedKeepsLinks(g, DropTarget(g, r));
    UnmovedKeepsLinks(g, DropSource(g, r));
  }

  lemma SameIndexesTwice(g: Graph, g1: Graph, g2: Graph)
    requires SameIndexes(g, g1) && SameIndexes(g1, g2)
    ensures SameIndexes(g, g2)
  {
    forall r | r in g.conn
      ensures g.conn[r].ranId == g2.conn[r].ranId && g.conn[r].amfId == g2.conn[r].amfId && g.conn[r].ran == g2.conn[r].ran
    {
      assert g1.conn[r].ranId == g.conn[r].ranId;
    }
  }

  lemma Paired(g: Graph, source: RanUe, target: RanUe)
    requires Closed(g) && source in g.conn && target in g.conn && source != target && g.conn[source].ue != null
    ensures var g' := PairSourceTarget(g, source, target);
      && g'.links == g.links && g'.live == g.live && g'.an == g.an && g'.conn.Keys == g.conn.Keys && g'.pool == g.pool
      && g'.conn[source] == g.conn[source].(target := target)
      && g'.conn[target] == g.conn[target].(ue := g.conn[source].ue, source := source)
  {
    hide IndexRefs, LinkRefs;
  }

  lemma HoldKeepsGood(g: Graph, r: RanUe, ue: AmfUe?)
    requires Good(g) && r in g.conn && (ue != null ==> ue in g.ues)
    ensures var g' := Registry.Hold(g, r, ue);
      Good(g') && forall q :: q in g.conn ==> Attached(g', q) == Attached(g, q)
  {
    hide IndexRefs, ConnRefs, LinkRefs, Pooled, ListedSoundly, LinksPointBack, PointersAreLinks, Conserved;
    var g' := Registry.Hold(g, r, ue);
    UnmovedKeepsLinks(g, g');
    SameIndexesKeepThem(g, g');
  }

  predicate LetsGoOfIdle(g: Graph, r: RanUe)
    requires Closed(g) && r in g.conn
  {
    g.conn[r].holding != null ==> Port(g.conn[r].holding, Access(g, r)) !in g.links
  }

  // Letting go of a held context that has a connection leaves a link to a connection
  // that points nowhere; otherwise nothing is disturbed.
  lemma LetGoKeepsLinksExactly(g: Graph, r: RanUe)
    requires Good(g) && r in g.conn
    ensures Good(Registry.LetGo(g, r)) <==> LetsGoOfIdle(g, r)
    ensures Linked(Registry.LetGo(g, r)) <==> LetsGoOfIdle(g, r)
  {
    if LetsGoOfIdle(g, r) {
      HoldKeepsGood(g, r, null);
    } else {
      var p := Port(g.conn[r].holding, Access(g, r));
      var g' := Registry.LetGo(g, r);
      assert p in g'.links && g'.conn[g'.links[p]].ue == null;
      assert !LinkOk(g', p);
    }
  }

  lemma RemoveTouches(g: Graph, r: RanUe)
    requires Closed(g) && r in g.conn && g.conn[r].ue != null
    ensures var p := Port(g.conn[r].ue, Access(g, r));
      var g' := Remove(g, r);
      && g'.links == g.links - {p} && g'.live == g.live && g'.flags == g.flags
      && g'.connected == g.connected.Add(p.an, -1) && g'.preparing == g.preparing && g'.an == g.an
      && g'.conn == g.conn[r := g.conn[r].(ue := null)]
  {
    hide IndexRefs, LinkRefs;
  }

  lemma ReplacedTargetBreaksLinks(g: Graph, target: RanUe, ran: AmfRan, ranId: int, amfId: int, r: RanUe)
    requires Linked(g) && Live(g, target) && !Removable(g, target)
    requires ran in g.an && r !in g.conn && amfId !in Remove(g, target).used
    ensures !Linked(NewRanUe(Remove(g, target), ran, ranId, amfId, r))
  {
    hide Remove, NewRanUe;
    if Port(g.conn[target].ue, Access(g, target)) in g.links {
      ReplacedTargetLosesLink(g, target, ran, ranId, amfId, r);
    } else {
      ReplacedTargetMiscounts(g, target, ran, ranId, amfId, r);
    }
  }

  lemma ReplacedTargetLosesLink(g: Graph, target: RanUe, ran: AmfRan, ranId: int, amfId: int, r: RanUe)
    requires Linked(g) && Live(g, target) && !Removable(g, target)
    requires ran in g.an && r !in g.conn && amfId !in Remove(g, target).used
    requires Port(g.conn[target].ue, Access(g, target)) in g.links
    ensures !Linked(NewRanUe(Remove(g, target), ran, ranId, amfId, r))
  {
    hide Remove, NewRanUe, Conserved, IndexRefs, LinkRefs, Pooled, ListedSoundly;
    var p := Port(g.conn[target].ue, Access(g, target));
    assert PointerOk(g, target) && LinkOk(g, p);
    RemoveKeepsIndexes(g, target);
    RemoveTouches(g, target);
    var g1 := Remove(g, target);
    NewConnectionTouches(g1, ran, ranId, amfId, r);
    NewRanUeKeepsIndexes(g1, ran, ranId, amfId, r);
    assert !PointerOk(NewRanUe(g1, ran, ranId, amfId, r), g.links[p]);
  }

  lemma ReplacedTargetMiscounts(g: Graph, target: RanUe, ran: AmfRan, ranId: int, amfId: int, r: RanUe)
    requires Linked(g) && Live(g, target) && !Removable(g, target)
    requires ran in g.an && r !in g.conn && amfId !in Remove(g, target).used
    requires Port(g.conn[target].ue, Access(g, target)) !in g.links
    ensures !Linked(NewRanUe(Remove(g, target), ran, ranId, amfId, r))
  {
    hide Remove, NewRanUe, IndexRefs, LinkRefs, Pooled, ListedSoundly, LinksPointBack;
    var p := Port(g.conn[target].ue, Access(g, target));
    assert PointerOk(g, target) && CountsAt(g, p.an);
    RemoveKeepsIndexes(g, target);
    RemoveTouches(g, target);
    var g1 := Remove(g, target);
    NewConnectionTouches(g1, ran, ranId, amfId, r);
    var g' := NewRanUe(g1, ran, ranId, amfId, r);
    assert ConnectedUes(g', p.an) == ConnectedUes(g, p.an);
    assert !CountsAt(g', p.an);
  }

  // ----- removal of all connections of a RAN -----

  // No visited connection is a target in preparation.
  ghost predicate VisitsRemovable(g: Graph, ran: AmfRan, order: seq<int>)
    requires Closed(g)
  {
    forall id {:trigger Slot(ran, id)} :: id in order && Slot(ran, id) in g.lists ==> Removable(g, g.lists[Slot(ran, id)])
  }

  // For any order of visit. An order that covers the list visits every listed connection,
  // a target that is acknowledged and not notified yet among them.
  lemma RemovalOfAllKeepsLinksExactly(g: Graph, ran: AmfRan, order: seq<int>)
    requires Linked(g)
    ensures Linked(RemoveAll(g, ran, order)) <==> VisitsRemovable(g, ran, order)
  {
    hide RemoveAll, Linked;
    LinkedIsIndexed(g);
    if VisitsRemovable(g, ran, order) {
      RemovalOfAllKeepsLinks(g, ran, order);
    } else {
      RemovalOfAllBreaks(g, ran, order);
      BrokenIsNotLinked(RemoveAll(g, ran, order), g.an[ran]);
    }
  }

  // Removing one connection leaves the others as removable as they were.
  lemma RemoveKeepsRemovable(g: Graph, r: RanUe, q: RanUe)
    requires Linked(g) && Removable(g, r) && q in g.conn && q != r
    ensures Removable(Remove(g, r), q) <==> Removable(g, q)
  {
    hide Remove, IndexRefs, LinkRefs;
    RemoveKeepsIndexes(g, r);
    if g.conn[r].ue != null {
      RemoveTouches(g, r);
    } else {
      ReleaseOfTheUnattached(g, r);
    }
  }

  lemma {:induction false} RemovalOfAllKeepsLinks(g: Graph, ran: AmfRan, order: seq<int>)
    requires Linked(g) && VisitsRemovable(g, ran, order)
    ensures var g' := RemoveAll(g, ran, order);
      && Linked(g') && g'.an == g.an && g'.conn.Keys == g.conn.Keys
      && (forall s {:trigger g'.lists[s]} :: s in g'.lists ==> s in g.lists && g'.lists[s] == g.lists[s])
      && (forall s {:trigger g'.lists[s]} :: s in g'.lists && s.ran == ran ==>
            Removable(g', g'.lists[s]) == Removable(g, g.lists[s]))
  {
    hide Remove, IndexRefs, ConnRefs, Pooled, ListedSoundly, LinksPointBack, PointersAreLinks, Conserved;
    if order != [] {
      var front, s := order[..|order| - 1], Slot(ran, order[|order| - 1]);
      RemovalOfAllKeepsLinks(g, ran, front);
      var g1 := RemoveAll(g, ran, front);
      if s in g1.lists {
        VisitedIsLive(g1, s);
        RemoveKeepsLinks(g1, g1.lists[s]);
        RemoveKeepsRest(g1, s);
      }
    }
  }

  lemma VisitedIsLive(g: Graph, s: Slot)
    requires Indexed(g) && s in g.lists
    ensures Live(g, g.lists[s]) && s == Slot(g.conn[g.lists[s]].ran, g.conn[g.lists[s]].ranId) && s.ran in g.an
  {
    assert SlotOk(g, s);
  }

  lemma RemoveKeepsRest(g: Graph, s: Slot)
    requires Linked(g) && s in g.lists && Removable(g, g.lists[s])
    ensures var g' := Remove(g, g.lists[s]);
      && g'.an == g.an && g'.conn.Keys == g.conn.Keys && g'.lists == g.lists - {s}
      && forall t {:trigger g'.lists[t]} :: t in g'.lists && t.ran == s.ran ==>
           Removable(g', g'.lists[t]) == Removable(g, g.lists[t])
  {
    hide Remove, Pooled, LinksPointBack, PointersAreLinks, Conserved;
    var r := g.lists[s];
    VisitedIsLive(g, s);
    RemoveKeepsIndexes(g, r);
    RemoveKeepsRans(g, r);
    forall t | t in g.lists && t != s ensures Removable(Remove(g, r), g.lists[t]) == Removable(g, g.lists[t]) {
      VisitedIsLive(g, t);
      RemoveKeepsRemovable(g, r, g.lists[t]);
    }
  }

  // What is left behind when a target in preparation is removed, whatever is removed after
  // it: a connected count too low, or a connection that points to a UE not linked there.
  predicate Dangles(g: Graph, q: RanUe, an: AccessType)
    requires Closed(g) && q in g.conn
  {
    && Live(g, q) && g.conn[q].ue != null && Access(g, q) == an && q !in g.preparing
    && Port(g.conn[q].ue, an) !in g.links
  }

  ghost predicate Broken(g: Graph, an: AccessType)
    requires Closed(g)
  {
    || g.connected.At(an) < |ConnectedUes(g, an)|
    || (g.connected.At(an) == |ConnectedUes(g, an)| && exists q {:trigger Dangles(g, q, an)} :: q in g.conn && Dangles(g, q, an))
  }

  lemma BrokenIsNotLinked(g: Graph, an: AccessType)
    requires Closed(g) && Broken(g, an)
    ensures !Linked(g)
  {
    if g.connected.At(an) < |ConnectedUes(g, an)| {
      assert !CountsAt(g, an);
    } else {
      var q :| q in g.conn && Dangles(g, q, an);
      assert !PointerOk(g, q);
    }
  }

  // How a removal moves the connected count and the UEs it stands for
  lemma RemoveCounts(g: Graph, r: RanUe)
    requires Closed(g) && r in g.conn && g.conn[r].ue != null
    ensures var an := Access(g, r);
      var g' := Remove(g, r);
      && g'.connected.At(an) == g.connected.At(an) - 1
      && |ConnectedUes(g', an)| == |ConnectedUes(g, an)|
                                  - if Port(g.conn[r].ue, an) in g.links && g.conn[r].ue in g.live then 1 else 0
  {
    hide Remove, IndexRefs, LinkRefs;
    var an, ue := Access(g, r), g.conn[r].ue;
    RemoveTouches(g, r);
    var g' := Remove(g, r);
    if Port(ue, an) in g.links && ue in g.live {
      assert ConnectedUes(g', an) == ConnectedUes(g, an) - {ue};
    } else {
      assert ConnectedUes(g', an) == ConnectedUes(g, an);
    }
  }

  lemma RemovalOfPreparedBreaks(g: Graph, r: RanUe)
    requires Linked(g) && Live(g, r) && !Removable(g, r)
    ensures Closed(Remove(g, r)) && Broken(Remove(g, r), Access(g, r))
  {
    hide Remove, IndexRefs, LinkRefs, Pooled, ListedSoundly;
    var an := Access(g, r);
    var p := Port(g.conn[r].ue, an);
    assert CountsAt(g, an) && PointerOk(g, r);
    RemoveCounts(g, r);
    RemoveTouches(g, r);
    RemoveKeepsIndexes(g, r);
    if p in g.links {
      assert LinkOk(g, p);
      assert Dangles(Remove(g, r), g.links[p], an);
    }
  }

  lemma RemovalKeepsBroken(g: Graph, r: RanUe)
    requires Indexed(g) && Live(g, r) && Broken(g, Access(g, r))
    ensures Closed(Remove(g, r)) && Broken(Remove(g, r), Access(g, r))
  {
    hide Remove, IndexRefs, LinkRefs, Pooled, ListedSoundly;
    var an := Access(g, r);
    var g' := Remove(g, r);
    RemoveKeepsIndexes(g, r);
    if g.conn[r].ue == null {
      RemovalOfBareCounts(g, r);
    } else {
      RemoveCounts(g, r);
      RemoveTouches(g, r);
    }
    if g.connected.At(an) == |ConnectedUes(g, an)| {
      var q :| q in g.conn && Dangles(g, q, an);
      if q != r { assert Dangles(g', q, an); }
    }
  }

  lemma RemovalOfBareCounts(g: Graph, r: RanUe)
    requires Closed(g) && r in g.conn && g.conn[r].ue == null
    ensures var g' := Remove(g, r);
      && g'.connected == g.connected && g'.links == g.links && g'.live == g.live && g'.an == g.an && g'.conn == g.conn
      && g'.preparing == g.preparing && forall an :: ConnectedUes(g', an) == ConnectedUes(g, an)
  {
    hide IndexRefs, ConnRefs, LinkRefs;
  }

  lemma {:induction false} RemovalOfAllBreaks(g: Graph, ran: AmfRan, order: seq<int>)
    requires Linked(g) && !VisitsRemovable(g, ran, order)
    ensures var g' := RemoveAll(g, ran, order);
      && ran in g.an && Indexed(g') && g'.an == g.an && Broken(g', g.an[ran])
  {
    hide Remove, Linked, Removable, Broken, ConnRefs, LinkRefs, Pooled, ListedSoundly;
    if order != [] {
      var front, s := order[..|order| - 1], Slot(ran, order[|order| - 1]);
      LinkedIsIndexed(g);
      var g1 := RemoveAll(g, ran, front);
      RemoveAllEmptiesTheList(g, ran, front);
      RemoveAllEmptiesTheList(g, ran, order);
      if VisitsRemovable(g, ran, front) {
        RemovalOfAllKeepsLinks(g, ran, front);
        assert order == front + [s.id];
        assert s in g.lists && !Removable(g, g.lists[s]) && s.id !in front;
        VisitedIsLive(g1, s);
        RemovalOfPreparedBreaks(g1, g1.lists[s]);
        RemoveKeepsRans(g1, g1.lists[s]);
      } else {
        RemovalOfAllBreaks(g, ran, front);
        if s in g1.lists {
          VisitedIsLive(g1, s);
          RemovalKeepsBroken(g1, g1.lists[s]);
          RemoveKeepsRans(g1, g1.lists[s]);
        }
      }
    }
  }

  lemma LinkedIsIndexed(g: Graph)
    requires Linked(g)
    ensures Indexed(g)
  {
  }

  // ----- removal of contexts -----

  lemma RemoveLinkKeepsListed(g: Graph, ue: AmfUe, an: AccessType)
    requires Good(g) && ue in g.ues
    ensures Good(RemoveLink(g, ue, an))
  {
    RemoveLinkKeepsLinks(g, ue, an);
    var p := Port(ue, an);
    if p in g.links {
      assert LinkOk(g, p);
      RemoveKeepsIndexes(g, g.links[p]);
    }
  }

  lemma RemoveUeKeepsListed(g: Graph, ue: AmfUe, first: AccessType)
    requires Good(g) && ue in g.ues
    ensures Listed(RemoveUe(g, ue, first))
  {
    hide RemoveLink;
    RemoveLinkKeepsListed(g, ue, first);
    var g1 := RemoveLink(g, ue, first);
    RemoveLinkKeepsListed(g1, ue, Other(first));
    var g2 := RemoveLink(g1, ue, Other(first));
    SameIndexesKeepThem(g2, RetireUe(g2, ue));
  }

  lemma UeIsKnown(g: Graph, ue: AmfUe)
    requires Closed(g) && ue in g.live
    ensures ue in g.ues
  {
  }

  lemma RemoveUeKeepsGoodExactly(g: Graph, ue: AmfUe, first: AccessType)
    requires Good(g) && ue in g.ues
    ensures Good(RemoveUe(g, ue, first)) <==> Retirable(g, ue)
  {
    hide RemoveUe, Listed, Linked, Closed;
    GoodIsLinked(g);
    RemoveUeKeepsLinksExactly(g, ue, first);
    RemoveUeKeepsListed(g, ue, first);
  }

  lemma GoodIsLinked(g: Graph)
    requires Good(g)
    ensures Linked(g) && Listed(g) && Indexed(g) && Closed(g)
  {
  }

  // ----- the handler of a release complete -----

  // What each of its branches needs, and does not look at. A source that was handed over
  // leaves its UE to the target: if it is attached itself, the target must not be attached
  // to another UE; if not, its removal takes away a link, which must be the target's.
  predicate ReleasesCleanly(g: Graph, r: RanUe)
    requires Closed(g) && r in g.conn
  {
    var c := g.conn[r];
    c.ue == null ||
    match c.action
    case N2NormalRelease => Attached(g, r)
    case ReleaseUeContext => Retirable(g, c.ue)
    case ReleaseHandover => c.target == null || PassesOn(g, r, TargetToAttach(g, r))
  }

  predicate PassesOn(g: Graph, r: RanUe, t: RanUe?)
    requires Closed(g) && r in g.conn && g.conn[r].ue != null && (t != null ==> t in g.conn)
  {
    if Attached(g, r) then t != null ==> t != r && (Attached(g, t) ==> g.conn[t].ue == g.conn[r].ue)
    else t != null && LinkedAt(g, Port(g.conn[r].ue, Access(g, r)), t)
  }

  lemma ReleaseKeepsGoodExactly(g: Graph, r: RanUe, first: AccessType)
    requires Good(g) && Live(g, r)
    ensures Good(ReleaseComplete(g, r, first).graph) <==> ReleasesCleanly(g, r)
  {
    hide Remove, RemoveUe, Unpair, AttachAndReleaseOld, PassesOn, Retirable, Linked, Listed, IndexRefs, LinkRefs;
    GoodIsLinked(g);
    var c := g.conn[r];
    if c.ue == null || c.action == N2NormalRelease {
      RemoveKeepsLinksExactly(g, r);
      RemoveKeepsIndexes(g, r);
    } else if c.action == ReleaseUeContext {
      RemoveUeKeepsGoodExactly(g, c.ue, first);
    } else if c.target != null {
      HandoverReleaseExactly(g, r);
    }
  }

  // The branch for a handover
  function PassOn(g: Graph, r: RanUe): (g': Graph)
    requires Closed(g) && r in g.conn && g.conn[r].ue != null && g.conn[r].target != null
    ensures Closed(g')
  {
    var g1, t := Remove(Unpair(g, r), r), TargetToAttach(g, r);
    if t != null then AttachAndReleaseOld(g1, g.conn[r].ue, t) else g1
  }

  lemma HandoverReleaseExactly(g: Graph, r: RanUe)
    requires Good(g) && Live(g, r) && g.conn[r].ue != null && g.conn[r].target != null
    ensures Good(PassOn(g, r)) <==> PassesOn(g, r, TargetToAttach(g, r))
  {
    hide PassOn, PassesOn, Unpair, IndexRefs, LinkRefs, Pooled, ListedSoundly, LinksPointBack, PointersAreLinks, Conserved;
    UnpairKeepsLinks(g, r);
    UnpairKeeps(g, r);
    var g0, t := Unpair(g, r), TargetToAttach(g, r);
    SameIndexesKeepThem(g, g0);
    FoundTargetIsLive(g, r);
    UnpairedPassesOn(g, g0, r, t);
    PassOnIsReleaseAndAttach(g, r);
    if Attached(g0, r) {
      PassOnOfAttached(g0, r, t);
    } else {
      PassOnOfPrepared(g0, r, t);
    }
  }

  lemma FoundTargetIsLive(g: Graph, r: RanUe)
    requires Indexed(g) && r in g.conn && g.conn[r].target != null
    ensures var t := TargetToAttach(g, r); t != null ==> Live(g, t)
  {
  }

  lemma UnpairedPassesOn(g: Graph, g0: Graph, r: RanUe, t: RanUe?)
    requires Closed(g) && Closed(g0) && SameLinks(g, g0) && r in g.conn && g.conn[r].ue != null && (t != null ==> t in g.conn)
    ensures PassesOn(g0, r, t) == PassesOn(g, r, t)
  {
    hide IndexRefs, LinkRefs;
  }

  // On values: the removal of r and the attachment of t to its UE
  function Pass(g: Graph, r: RanUe, t: RanUe?): (g': Graph)
    requires Closed(g) && r in g.conn && g.conn[r].ue != null && (t != null ==> t in g.conn)
    ensures Closed(g')
  {
    if t != null then AttachAndReleaseOld(Remove(g, r), g.conn[r].ue, t) else Remove(g, r)
  }

  lemma PassOnIsReleaseAndAttach(g: Graph, r: RanUe)
    requires Closed(g) && r in g.conn && g.conn[r].ue != null && g.conn[r].target != null
    ensures Unpair(g, r).conn.Keys == g.conn.Keys && Unpair(g, r).conn[r].ue == g.conn[r].ue
    ensures PassOn(g, r) == Pass(Unpair(g, r), r, TargetToAttach(g, r))
  {
    hide Unpair, Remove, AttachAndReleaseOld, IndexRefs, LinkRefs;
    UnpairKeeps(g, r);
  }

  lemma PassOnOfAttached(g: Graph, r: RanUe, t: RanUe?)
    requires Good(g) && Live(g, r) && Attached(g, r) && (t != null ==> t in g.conn && Live(g, t))
    ensures Good(Pass(g, r, t)) <==> PassesOn(g, r, t)
  {
    hide Remove, AttachAndReleaseOld, IndexRefs, LinkRefs, Pooled, ListedSoundly, LinksPointBack, PointersAreLinks, Conserved;
    var ue := g.conn[r].ue;
    AttachedIsLive(g, r);
    RemoveKeepsLinks(g, r);
    RemoveKeepsIndexes(g, r);
    RemoveTouches(g, r);
    RemoveKeepsRans(g, r);
    var g1 := Remove(g, r);
    if t == null {
    } else if t == r {
      AttachOfTheDead(g1, ue, r);
    } else {
      assert Attached(g1, t) == Attached(g, t);
      AttachKeepsGoodExactly(g1, ue, t);
    }
  }

  lemma AttachedIsLive(g: Graph, r: RanUe)
    requires Linked(g) && Attached(g, r)
    ensures g.conn[r].ue in g.live && g.conn[r].ue in g.ues
  {
    assert LinkOk(g, Port(g.conn[r].ue, Access(g, r)));
  }

  lemma AttachKeepsGoodExactly(g: Graph, ue: AmfUe, r: RanUe)
    requires Good(g) && ue in g.ues && Live(g, r)
    ensures Good(AttachAndReleaseOld(g, ue, r)) <==> ReadyToAttach(g, ue, r)
  {
    hide AttachAndReleaseOld, Linked, Listed, Closed;
    GoodIsLinked(g);
    AttachAndReleaseOldKeepsLinksExactly(g, ue, r);
    if ReadyToAttach(g, ue, r) {
      AttachAndReleaseOldKeepsLinks(g, ue, r);
      SameIndexesKeepThem(g, AttachAndReleaseOld(g, ue, r));
    }
  }

  lemma AttachOfTheDead(g: Graph, ue: AmfUe, r: RanUe)
    requires Closed(g) && ue in g.ues && r in g.conn && !Live(g, r)
    ensures !Linked(AttachAndReleaseOld(g, ue, r))
  {
    hide AttachAndReleaseOld, IndexRefs, LinkRefs;
    AttachTouchesLinks(g, ue, r);
    assert !LinkOk(AttachAndReleaseOld(g, ue, r), Port(ue, Access(g, r)));
  }

  lemma PassOnOfPrepared(g: Graph, r: RanUe, t: RanUe?)
    requires Good(g) && Live(g, r) && g.conn[r].ue != null && !Attached(g, r) && (t != null ==> t in g.conn && Live(g, t))
    ensures Good(Pass(g, r, t)) <==> PassesOn(g, r, t)
  {
    hide Remove, AttachAndReleaseOld, IndexRefs, LinkRefs, Pooled, ListedSoundly, LinksPointBack, PointersAreLinks, Conserved;
    var p := Port(g.conn[r].ue, Access(g, r));
    if t == null {
      RemoveKeepsLinksExactly(g, r);
    } else if LinkedAt(g, p, t) {
      PassBack(g, r, t);
    } else {
      PassElsewhereBreaks(g, r, t);
    }
  }

  // The link that the removal takes away is put back.
  lemma PassBack(g: Graph, r: RanUe, t: RanUe)
    requires Good(g) && Live(g, r) && g.conn[r].ue != null && !Attached(g, r) && t in g.conn
    requires LinkedAt(g, Port(g.conn[r].ue, Access(g, r)), t)
    ensures Good(Pass(g, r, t))
  {
    hide IndexRefs, LinkRefs, Pooled, ListedSoundly, PointersAreLinks, Conserved, Remove, AttachAndReleaseOld, Pass;
    var p := Port(g.conn[r].ue, Access(g, r));
    assert LinkOk(g, p);
    forall q | q in g.links ensures g.links[q] != r { assert LinkOk(g, q); }
    ReleaseOfUnlinked(g, r);
    PassedBack(g, r, t);
  }

  lemma PassedBack(g: Graph, r: RanUe, t: RanUe)
    requires Closed(g) && r in g.conn && t in g.conn && t != r && g.conn[r].ue != null && g.conn[t].ue == g.conn[r].ue
    requires var p := Port(g.conn[r].ue, Access(g, r)); LinkedAt(g, p, t) && p in g.flags
    requires Access(g, t) == Access(g, r) && t !in g.preparing
    ensures Pass(g, r, t) == Unindex(DetachAmfUe(g, r), r)
  {
    hide IndexRefs, ConnRefs, LinkRefs;
    var p := Port(g.conn[r].ue, Access(g, r));
    RemovedFields(g, r);
    var g1, g', u := Remove(g, r), Pass(g, r, t), Unindex(DetachAmfUe(g, r), r);
    FreshFields(g1, p.ue, t);
    assert g'.links == g.links && g'.conn == u.conn && g'.flags == g.flags && g'.preparing == g.preparing;
  }

  lemma RemovedFields(g: Graph, r: RanUe)
    requires Closed(g) && r in g.conn && g.conn[r].ue != null
    ensures g.conn[r].ue in g.ues
    ensures var p := Port(g.conn[r].ue, Access(g, r));
      Remove(g, r) == Unindex(DetachAmfUe(g, r), r).(
        links := g.links - {p}, idle := g.idle.Add(p.an, 1), connected := g.connected.Add(p.an, -1))
  {
    hide IndexRefs, LinkRefs;
  }

  lemma FreshFields(g: Graph, ue: AmfUe, r: RanUe)
    requires Closed(g) && ue in g.ues && r in g.conn && Port(ue, Access(g, r)) !in g.links
    ensures var p := Port(ue, Access(g, r));
      AttachAndReleaseOld(g, ue, r) == g.(
        links := g.links[p := r], conn := g.conn[r := g.conn[r].(ue := ue)], preparing := g.preparing - {r},
        idle := if p in g.flags then g.idle.Add(p.an, -1) else g.idle, connected := g.connected.Add(p.an, 1),
        flags := g.flags + {p})
  {
    hide IndexRefs, ConnRefs, LinkRefs;
  }

  // The link of another connection is taken away for good, or a count that is not there.
  lemma PassElsewhereBreaks(g: Graph, r: RanUe, t: RanUe)
    requires Good(g) && Live(g, r) && g.conn[r].ue != null && !Attached(g, r) && t in g.conn && Live(g, t)
    requires !LinkedAt(g, Port(g.conn[r].ue, Access(g, r)), t)
    ensures !Linked(Pass(g, r, t))
  {
    hide Remove, AttachAndReleaseOld, IndexRefs, LinkRefs, Pooled, ListedSoundly, LinksPointBack, PointersAreLinks, Conserved;
    var p := Port(g.conn[r].ue, Access(g, r));
    if p in g.links {
      PassLeavesPointer(g, r, t);
    } else {
      PassMiscounts(g, r, t);
    }
  }

  lemma PassLeavesPointer(g: Graph, r: RanUe, t: RanUe)
    requires Good(g) && Live(g, r) && g.conn[r].ue != null && !Attached(g, r) && t in g.conn
    requires var p := Port(g.conn[r].ue, Access(g, r)); p in g.links && g.links[p] != t
    ensures !Linked(Pass(g, r, t))
  {
    hide Remove, AttachAndReleaseOld, IndexRefs, LinkRefs, Pooled, ListedSoundly, Conserved;
    var p := Port(g.conn[r].ue, Access(g, r));
    var q := g.links[p];
    assert LinkOk(g, p);
    if Port(p.ue, Access(g, t)) in g.links { assert LinkOk(g, Port(p.ue, Access(g, t))); }
    RemoveKeepsIndexes(g, r);
    RemoveTouches(g, r);
    RemoveKeepsRans(g, r);
    PassTouches(Remove(g, r), p.ue, t, q);
    assert !PointerOk(Pass(g, r, t), q);
  }

  // Attaching t leaves another connection as it was, unless it is the one replaced.
  lemma PassTouches(g: Graph, ue: AmfUe, t: RanUe, q: RanUe)
    requires Closed(g) && ue in g.ues && t in g.conn && q in g.conn && q != t
    requires !LinkedAt(g, Port(ue, Access(g, t)), q)
    ensures var g' := AttachAndReleaseOld(g, ue, t);
      && g'.links == g.links[Port(ue, Access(g, t)) := t] && g'.an == g.an && q in g'.conn && g'.conn[q] == g.conn[q]
      && Live(g', q) == Live(g, q) && g'.preparing == g.preparing - {t}
  {
    hide IndexRefs, ConnRefs;
  }

  lemma PassMiscounts(g: Graph, r: RanUe, t: RanUe)
    requires Good(g) && Live(g, r) && g.conn[r].ue != null && t in g.conn
    requires Port(g.conn[r].ue, Access(g, r)) !in g.links
    ensures !Linked(Pass(g, r, t))
  {
    hide Pass, IndexRefs, ConnRefs, LinkRefs, Pooled, ListedSoundly, PointersAreLinks;
    var p := Port(g.conn[r].ue, Access(g, r));
    if p.ue in g.live {
      assert CountsAt(g, p.an);
      PassCounts(g, r, t);
      assert !CountsAt(Pass(g, r, t), p.an);
    } else {
      PassToRemoved(g, r, t);
      assert !LinkOk(Pass(g, r, t), Port(p.ue, Access(g, t)));
    }
  }

  lemma PassToRemoved(g: Graph, r: RanUe, t: RanUe)
    requires Closed(g) && r in g.conn && g.conn[r].ue != null && t in g.conn
    ensures Port(g.conn[r].ue, Access(g, t)) in Pass(g, r, t).links && Pass(g, r, t).live == g.live
  {
    hide Remove, AttachAndReleaseOld, IndexRefs, LinkRefs;
    RemoveTouches(g, r);
    RemoveKeepsRans(g, r);
    AttachTouchesLinks(Remove(g, r), g.conn[r].ue, t);
  }

  lemma PassCounts(g: Graph, r: RanUe, t: RanUe)
    requires Closed(g) && r in g.conn && g.conn[r].ue != null && t in g.conn
    requires Port(g.conn[r].ue, Access(g, r)) !in g.links && g.conn[r].ue in g.live
    ensures var an := Access(g, r);
      Pass(g, r, t).connected.At(an) - |ConnectedUes(Pass(g, r, t), an)| == g.connected.At(an) - |ConnectedUes(g, an)| - 1
  {
    hide Remove, AttachAndReleaseOld, IndexRefs, LinkRefs;
    var p := Port(g.conn[r].ue, Access(g, r));
    RemoveCounts(g, r);
    RemoveTouches(g, r);
    RemoveKeepsRans(g, r);
    var g1, g' := Remove(g, r), Pass(g, r, t);
    AttachTouchesLinks(g1, p.ue, t);
    AttachCounts(g1, p.ue, t);
    if Access(g, t) == p.an {
      assert ConnectedUes(g', p.an) == ConnectedUes(g1, p.an) + {p.ue};
    } else {
      assert ConnectedUes(g', p.an) == ConnectedUes(g1, p.an);
    }
  }

  lemma AttachCounts(g: Graph, ue: AmfUe, t: RanUe)
    requires Closed(g) && ue in g.ues && t in g.conn
    ensures var p := Port(ue, Access(g, t));
      AttachAndReleaseOld(g, ue, t).connected == if p in g.links then g.connected else g.connected.Add(p.an, 1)
  {
    hide IndexRefs, ConnRefs;
  }

  // ----- a context that has lost its connection to another one -----

  // Both contexts are linked to t on this access, and t points to the second; on the other
  // access the first is in order.
  ghost predicate Lost(g: Graph, ue0: AmfUe, ue: AmfUe, t: RanUe)
    requires Closed(g) && t in g.conn
  {
    var an := Access(g, t);
    && ue0 != ue && ue0 in g.live && ue in g.live && g.conn[t].ue == ue
    && LinkedAt(g, Port(ue0, an), t) && LinkedAt(g, Port(ue, an), t) && OtherwiseInOrder(g, ue0, Other(an), t)
  }

  predicate OtherwiseInOrder(g: Graph, ue0: AmfUe, an: AccessType, t: RanUe)
    requires Closed(g)
  {
    var p := Port(ue0, an);
    p in g.links ==> g.links[p] != t && g.conn[g.links[p]].ue == ue0 && Access(g, g.links[p]) == an
  }

  // Attaching t to another context keeps the gauges as right as they were.
  lemma AttachOfAnothers(g: Graph, ue: AmfUe, t: RanUe)
    requires Good(g) && Live(g, t) && Attached(g, t) && ue in g.live && g.conn[t].ue != ue
    ensures ue in g.ues
    ensures var ue0 := g.conn[t].ue;
      var g' := AttachAndReleaseOld(g, ue, t);
      && t in g'.conn && Access(g', t) == Access(g, t) && ue0 in g'.ues && Lost(g', ue0, ue, t) && CountsAt(g', Access(g', t))
  {
    hide IndexRefs, Pooled, ListedSoundly, PointersAreLinks, AttachAndReleaseOld;
    var ue0, an := g.conn[t].ue, Access(g, t);
    var p := Port(ue, an);
    assert LinkOk(g, Port(ue0, an));
    if Port(ue0, Other(an)) in g.links { assert LinkOk(g, Port(ue0, Other(an))); }
    if p in g.links { assert LinkOk(g, p); }
    forall q | q in g.links ensures q in g.flags { assert LinkOk(g, q); }
    AttachTouchesLinks(g, ue, t);
    AttachCountsRight(g, ue, t);
    OtherStays(g, ue0, ue, t);
  }

  lemma AttachCountsRight(g: Graph, ue: AmfUe, t: RanUe)
    requires Closed(g) && Conserved(g) && ue in g.live && ue in g.ues && t in g.conn
    requires forall q :: q in g.links ==> q in g.flags
    ensures Conserved(AttachAndReleaseOld(g, ue, t))
  {
    hide AttachAndReleaseOld, IndexRefs, ConnRefs;
    var p := Port(ue, Access(g, t));
    if p in g.links {
      AttachAndReleaseOldReplaces(g, ue, t);
      MovedCounts(g, AttachAndReleaseOld(g, ue, t), p, t);
    } else {
      AttachAndReleaseOldConnects(g, ue, t);
      GaugesAfterAdd(g, AttachAndReleaseOld(g, ue, t), p);
    }
  }

  lemma OtherStays(g: Graph, ue0: AmfUe, ue: AmfUe, t: RanUe)
    requires Closed(g) && t in g.conn && ue in g.ues && ue != ue0 && OtherwiseInOrder(g, ue0, Other(Access(g, t)), t)
    requires var p := Port(ue, Access(g, t)); p in g.links ==> g.conn[g.links[p]].ue != ue0
    ensures OtherwiseInOrder(AttachAndReleaseOld(g, ue, t), ue0, Other(Access(g, t)), t)
  {
    hide AttachAndReleaseOld, IndexRefs;
    var p0 := Port(ue0, Other(Access(g, t)));
    AttachTouchesLinks(g, ue, t);
    if p0 in g.links { PassTouches(g, ue, t, g.links[p0]); }
  }

  lemma RemovalOfLoserMiscounts(g: Graph, ue0: AmfUe, ue: AmfUe, t: RanUe, first: AccessType)
    requires Closed(g) && t in g.conn && ue0 in g.ues && Lost(g, ue0, ue, t) && CountsAt(g, Access(g, t))
    ensures var an, g' := Access(g, t), RemoveUe(g, ue0, first);
      g'.connected.At(an) == |ConnectedUes(g', an)| + 1
  {
    hide RemoveLink, IndexRefs, ConnRefs, LinkRefs;
    var an := Access(g, t);
    if first == an {
      RemoveLostLink(g, ue0, ue, t);
      RemoveOtherLink(RemoveLink(g, ue0, an), ue0, ue, t);
    } else {
      RemoveOtherLink(g, ue0, ue, t);
      RemoveLostLink(RemoveLink(g, ue0, first), ue0, ue, t);
    }
    var g2, g' := RemoveLink(RemoveLink(g, ue0, first), ue0, Other(first)), RemoveUe(g, ue0, first);
    assert ConnectedUes(g', an) == ConnectedUes(g, an) - {ue} - {ue0};
  }

  lemma RemoveLostLink(g: Graph, ue0: AmfUe, ue: AmfUe, t: RanUe)
    requires Closed(g) && t in g.conn && ue0 in g.ues && Lost(g, ue0, ue, t)
    ensures var an := Access(g, t);
      var g' := RemoveLink(g, ue0, an);
      && t in g'.conn && Access(g', t) == an && g'.live == g.live && g'.connected.At(an) == g.connected.At(an) - 1
      && ConnectedUes(g', an) == ConnectedUes(g, an) - {ue} && OtherwiseInOrder(g', ue0, Other(an), t)
  {
    hide Remove, IndexRefs;
    RemoveTouches(g, t);
  }

  lemma RemoveOtherLink(g: Graph, ue0: AmfUe, ue: AmfUe, t: RanUe)
    requires Closed(g) && t in g.conn && ue0 in g.ues && OtherwiseInOrder(g, ue0, Other(Access(g, t)), t)
    ensures var an := Access(g, t);
      var g' := RemoveLink(g, ue0, Other(an));
      && t in g'.conn && Access(g', t) == an && g'.live == g.live && g'.connected.At(an) == g.connected.At(an)
      && ConnectedUes(g', an) == ConnectedUes(g, an)
      && (Lost(g, ue0, ue, t) ==> Lost(g', ue0, ue, t))
  {
    hide Remove, IndexRefs;
    var an := Access(g, t);
    var p := Port(ue0, Other(an));
    if p in g.links {
      RemoveTouches(g, g.links[p]);
    }
  }

  // The release complete of a source with another UE than its target leaves the target's
  // UE in that state.
  lemma ReleaseLoses(g: Graph, source: RanUe, t: RanUe, first: AccessType)
    requires Good(g) && Live(g, source) && Attached(g, source) && Live(g, t) && Attached(g, t) && t != source
    requires g.conn[source].action == ReleaseHandover && g.conn[source].target == t && g.conn[t].ue != g.conn[source].ue
    ensures !ReleasesCleanly(g, source)
    ensures var ue0, ue := g.conn[t].ue, g.conn[source].ue;
      var g' := ReleaseComplete(g, source, first).graph;
      && t in g'.conn && ue0 in g'.ues && Lost(g', ue0, ue, t) && CountsAt(g', Access(g', t))
  {
    hide Remove, Unpair, AttachAndReleaseOld, Lost, IndexRefs, LinkRefs, Pooled, ListedSoundly, LinksPointBack, PointersAreLinks;
    var ue := g.conn[source].ue;
    UnpairKeepsLinks(g, source);
    UnpairKeeps(g, source);
    var g0 := Unpair(g, source);
    SameIndexesKeepThem(g, g0);
    AttachedIsLive(g0, source);
    RemoveKeepsLinks(g0, source);
    RemoveKeepsIndexes(g0, source);
    RemoveTouches(g0, source);
    RemoveKeepsRans(g0, source);
    AttachOfAnothers(Remove(g0, source), ue, t);
  }

  // ----- a handover and a new context for its source -----

  lemma MoveConns(g: Graph, ue: AmfUe, source: RanUe, t: RanUe)
    requires Closed(g) && source in g.conn && t in g.conn && source != t && g.conn[t].ue == ue
    ensures ue in g.ues
    ensures var g1 := AttachAndReleaseSource(g, ue, source, t);
      && g1.pool == g.pool && g1.an == g.an && g1.ues == g.ues && g1.links == g.links[Port(ue, Access(g, t)) := t]
      && g1.conn == g.conn[source := g.conn[source].(ue := null, action := ReleaseHandover)]
  {
    hide IndexRefs, LinkRefs;
    HandOverTouches(g, ue, source, t);
  }

  lemma NewUeKeeps(g: Graph, ue: AmfUe)
    requires Closed(g) && ue !in g.ues
    ensures var g' := NewUe(g, ue);
      && ue in g'.ues && g'.live == g.live + {ue} && g'.pool == g.pool && g'.an == g.an && g'.links == g.links && g'.conn == g.conn
      && forall an :: Port(ue, an) !in g'.links
  {
    hide IndexRefs, ConnRefs;
  }

  lemma AttachFresh(g: Graph, ue: AmfUe, r: RanUe)
    requires Closed(g) && ue in g.ues && r in g.conn && Port(ue, Access(g, r)) !in g.links
    ensures var g' := AttachAndReleaseOld(g, ue, r);
      && g'.pool == g.pool && g'.an == g.an && g'.links == g.links[Port(ue, Access(g, r)) := r]
      && g'.conn == g.conn[r := g.conn[r].(ue := ue)]
  {
    hide IndexRefs, ConnRefs, LinkRefs;
  }
}
