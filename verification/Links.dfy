// Links between UE contexts and their connections, and the CM gauges that count
// them. A connection points back to its UE context; a handover target that is
// being prepared does so without being linked yet.

module Links {
  import opened Basics
  import opened Context
  import opened Registry

  // amfUe.RanUe[an] == ranUe
  predicate LinkedAt(g: Graph, p: Port, r: RanUe) {
    p in g.links && g.links[p] == r
  }

  predicate Attached(g: Graph, r: RanUe)
    requires Closed(g)
  {
    r in g.conn && g.conn[r].ue != null && LinkedAt(g, Port(g.conn[r].ue, Access(g, r)), r)
  }

  predicate LinkOk(g: Graph, p: Port)
    requires Closed(g) && p in g.links
  {
    var r := g.links[p];
    && p.ue in g.live && p in g.flags && Live(g, r) && g.conn[r].ue == p.ue && Access(g, r) == p.an
    && r !in g.preparing
  }

  // Only a handover target that has not been attached yet may point to a UE without being its link.
  predicate PointerOk(g: Graph, r: RanUe)
    requires Closed(g) && r in g.conn
  {
    Live(g, r) && g.conn[r].ue != null ==> Attached(g, r) || r in g.preparing
  }

  ghost predicate LinksPointBack(g: Graph)
    requires Closed(g)
  {
    forall p {:trigger LinkOk(g, p)} :: p in g.links ==> LinkOk(g, p)
  }

  ghost predicate PointersAreLinks(g: Graph)
    requires Closed(g)
  {
    forall r {:trigger PointerOk(g, r)} :: r in g.conn ==> PointerOk(g, r)
  }

  // The UEs the gauges stand for: live UEs with a connection on this access, and
  // live UEs that once had one and have none now.
  ghost function ConnectedUes(g: Graph, an: AccessType): set<AmfUe> {
    set ue | ue in g.live && Port(ue, an) in g.links
  }

  ghost function IdleUes(g: Graph, an: AccessType): set<AmfUe> {
    set ue | ue in g.live && Port(ue, an) in g.flags && Port(ue, an) !in g.links
  }

  ghost predicate CountsAt(g: Graph, an: AccessType) {
    g.connected.At(an) == |ConnectedUes(g, an)| && g.idle.At(an) == |IdleUes(g, an)|
  }

  ghost predicate Conserved(g: Graph) {
    CountsAt(g, ThreeGpp) && CountsAt(g, NonThreeGpp)
  }

  ghost predicate Linked(g: Graph) {
    Indexed(g) && LinksPointBack(g) && PointersAreLinks(g) && Conserved(g)
  }

  // Everything agrees: the indexes, complete, and the links, the pointers and the gauges.
  ghost predicate Good(g: Graph) {
    Listed(g) && Linked(g)
  }

  // ----- how the gauges move -----

  // One UE leaves CM-CONNECTED for CM-IDLE on one access.
  lemma GaugesAfterDrop(g: Graph, g': Graph, p: Port)
    requires Conserved(g) && p.ue in g.live && p in g.links && p in g.flags
    requires g'.live == g.live && g'.links.Keys == g.links.Keys - {p} && g'.flags == g.flags
    requires g'.connected == g.connected.Add(p.an, -1) && g'.idle == g.idle.Add(p.an, 1)
    ensures Conserved(g')
  {
    assert forall q :: q in g'.links <==> q in g.links && q != p;
    forall an ensures CountsAt(g', an) {
      assert CountsAt(g, an);
      if an == p.an {
        DropAtPort(g, g', p);
      } else {
        assert ConnectedUes(g', an) == ConnectedUes(g, an);
        assert IdleUes(g', an) == IdleUes(g, an);
      }
    }
  }

  lemma DropAtPort(g: Graph, g': Graph, p: Port)
    requires p.ue in g.live && p in g.links && p in g.flags && g'.live == g.live && g'.flags == g.flags
    requires forall q :: q in g'.links <==> q in g.links && q != p
    ensures |ConnectedUes(g', p.an)| == |ConnectedUes(g, p.an)| - 1
    ensures |IdleUes(g', p.an)| == |IdleUes(g, p.an)| + 1
  {
    assert ConnectedUes(g', p.an) == ConnectedUes(g, p.an) - {p.ue};
    assert IdleUes(g', p.an) == IdleUes(g, p.an) + {p.ue};
    assert p == Port(p.ue, p.an);
  }

  // One UE becomes connected, and stops being idle if it was.
  lemma GaugesAfterAdd(g: Graph, g': Graph, p: Port)
    requires Conserved(g) && p.ue in g.live && p !in g.links
    requires g'.live == g.live && g'.links.Keys == g.links.Keys + {p} && g'.flags == g.flags + {p}
    requires g'.connected == g.connected.Add(p.an, 1)
    requires g'.idle == if p in g.flags then g.idle.Add(p.an, -1) else g.idle
    ensures Conserved(g')
  {
    assert forall q :: q in g'.links <==> q in g.links || q == p;
    forall an ensures CountsAt(g', an) {
      assert CountsAt(g, an);
      if an == p.an {
        AddAtPort(g, g', p);
      } else {
        assert ConnectedUes(g', an) == ConnectedUes(g, an);
        assert IdleUes(g', an) == IdleUes(g, an);
      }
    }
  }

  lemma AddAtPort(g: Graph, g': Graph, p: Port)
    requires p.ue in g.live && p !in g.links
    requires g'.live == g.live && g'.flags == g.flags + {p}
    requires forall q :: q in g'.links <==> q in g.links || q == p
    ensures |ConnectedUes(g', p.an)| == |ConnectedUes(g, p.an)| + 1
    ensures |IdleUes(g', p.an)| == |IdleUes(g, p.an)| - if p in g.flags then 1 else 0
  {
    assert ConnectedUes(g', p.an) == ConnectedUes(g, p.an) + {p.ue};
    assert IdleUes(g', p.an) == IdleUes(g, p.an) - {p.ue};
    assert p == Port(p.ue, p.an);
  }

  // A UE without connections is removed: its idle marks go with it.
  lemma GaugesAfterRemoval(g: Graph, g': Graph, ue: AmfUe)
    requires Conserved(g) && ue in g.live && forall an :: Port(ue, an) !in g.links
    requires g'.live == g.live - {ue} && g'.links == g.links && g'.flags == g.flags && g'.connected == g.connected
    requires forall an :: g'.idle.At(an) == g.idle.At(an) - if Port(ue, an) in g.flags then 1 else 0
    ensures Conserved(g')
  {
    forall an ensures CountsAt(g', an) {
      assert CountsAt(g, an);
      assert ConnectedUes(g', an) == ConnectedUes(g, an);
      assert IdleUes(g', an) == IdleUes(g, an) - {ue};
    }
  }

  // Steps that leave the UE side alone leave the gauges right.
  lemma GaugesAlone(g: Graph, g': Graph)
    requires Conserved(g)
    requires g.live <= g'.live && g.flags == g'.flags && g.connected == g'.connected && g.idle == g'.idle
    requires g.links.Keys == g'.links.Keys
    requires forall p :: p in g.flags || p in g.links ==> p.ue !in g'.live - g.live
    ensures Conserved(g')
  {
    assert forall p :: p in g.links <==> p in g'.links;
    forall an ensures CountsAt(g', an) {
      assert CountsAt(g, an);
      assert ConnectedUes(g', an) == ConnectedUes(g, an) && IdleUes(g', an) == IdleUes(g, an);
    }
  }

  // ----- what each step does to the links -----

  // The only things the link invariants look at: the links, and each connection's
  // pointer to its UE and whether it is a target in preparation.
  ghost predicate Moves(g: Graph, g': Graph, links: map<Port, RanUe>, relinked: map<RanUe, AmfUe?>)
    requires Closed(g) && Closed(g')
  {
    && SameIndexes(g, g') && g.ues <= g'.ues && g.flags <= g'.flags
    && g'.links == links
    && (forall r {:trigger g'.conn[r]} :: r in g.conn ==>
          && g'.conn[r].ue == (if r in relinked then relinked[r] else g.conn[r].ue)
          && (r !in relinked ==> (r in g'.preparing <==> r in g.preparing)))
  }

  lemma ReleaseMoves(g: Graph, r: RanUe, action: RelAction)
    requires Closed(g) && r in g.conn
    ensures var g' := ReleaseCommand(DetachAmfUe(g, r), r, action);
      && Moves(g, g', g.links, map[r := null])
      && g'.live == g.live && g'.flags == g.flags && g'.connected == g.connected && g'.idle == g.idle
      && g'.preparing == g.preparing
  {
    hide IndexRefs, LinkRefs;
  }

  lemma AttachMoves(g: Graph, ue: AmfUe, r: RanUe)
    requires Closed(g) && ue in g.ues && r in g.conn
    ensures var g' := AttachRanUe(g, ue, r);
      && Moves(g, g', g.links[Port(ue, Access(g, r)) := r], map[r := ue])
      && g'.live == g.live && g'.flags == g.flags && g'.connected == g.connected && g'.idle == g.idle
      && g'.preparing == g.preparing - {r}
  {
    hide IndexRefs, LinkRefs;
  }

  lemma MovesCompose(g: Graph, g1: Graph, g2: Graph, links: map<Port, RanUe>, first: map<RanUe, AmfUe?>, second: map<RanUe, AmfUe?>)
    requires Closed(g) && Closed(g1) && Closed(g2)
    requires Moves(g, g1, g1.links, first) && Moves(g1, g2, links, second)
    ensures Moves(g, g2, links, first + second)
  {
    hide Closed;
    forall r | r in g.conn
      ensures g2.conn[r].ranId == g.conn[r].ranId && g2.conn[r].amfId == g.conn[r].amfId && g2.conn[r].ran == g.conn[r].ran
      ensures g2.conn[r].ue == if r in first + second then (first + second)[r] else g.conn[r].ue
      ensures r !in first + second ==> (r in g2.preparing <==> r in g.preparing)
    {
      assert g1.conn[r].ranId == g.conn[r].ranId && g2.conn[r].ranId == g1.conn[r].ranId;
    }
  }

  lemma AttachAndReleaseOldReplaces(g: Graph, ue: AmfUe, r: RanUe)
    requires Closed(g) && ue in g.ues && r in g.conn && Port(ue, Access(g, r)) in g.links
    ensures var p := Port(ue, Access(g, r));
      var g' := AttachAndReleaseOld(g, ue, r);
      && Moves(g, g', g.links[p := r], map[g.links[p] := null] + map[r := ue]) && r !in g'.preparing
      && g'.live == g.live && g'.flags == g.flags && g'.connected == g.connected && g'.idle == g.idle
  {
    var p := Port(ue, Access(g, r));
    var g1 := ReleaseOldOrCount(g, p);
    ReleaseMoves(g, g.links[p], ReleaseUeContext);
    AttachMoves(g1, ue, r);
    hide AttachRanUe, ReleaseCommand, DetachAmfUe;
    MovesCompose(g, g1, AttachRanUe(g1, ue, r), g.links[p := r], map[g.links[p] := null], map[r := ue]);
  }

  lemma AttachAndReleaseOldConnects(g: Graph, ue: AmfUe, r: RanUe)
    requires Closed(g) && ue in g.ues && r in g.conn && Port(ue, Access(g, r)) !in g.links
    ensures var p := Port(ue, Access(g, r));
      var g' := AttachAndReleaseOld(g, ue, r);
      && Moves(g, g', g.links[p := r], map[r := ue]) && r !in g'.preparing
      && g'.live == g.live && g'.flags == g.flags + {p}
      && g'.connected == g.connected.Add(p.an, 1)
      && g'.idle == if p in g.flags then g.idle.Add(p.an, -1) else g.idle
  {
    hide IndexRefs, LinkRefs;
  }

  lemma AttachAndReleaseSourceMoves(g: Graph, ue: AmfUe, source: RanUe, target: RanUe)
    requires Closed(g) && ue in g.ues && source in g.conn && target in g.conn
    ensures var g' := AttachAndReleaseSource(g, ue, source, target);
      && Moves(g, g', g.links[Port(ue, Access(g, target)) := target], map[source := null] + map[target := ue])
      && target !in g'.preparing
      && g'.live == g.live && g'.flags == g.flags && g'.connected == g.connected && g'.idle == g.idle
  {
    var g1 := ReleaseCommand(DetachAmfUe(g, source), source, ReleaseHandover);
    ReleaseMoves(g, source, ReleaseHandover);
    AttachMoves(g1, ue, target);
    hide AttachRanUe, ReleaseCommand, DetachAmfUe;
    MovesCompose(g, g1, AttachRanUe(g1, ue, target), g.links[Port(ue, Access(g, target)) := target],
                 map[source := null], map[target := ue]);
  }

  lemma PairSourceTargetMoves(g: Graph, source: RanUe, target: RanUe)
    requires Closed(g) && source in g.conn && target in g.conn && g.conn[source].ue != null
    ensures var g' := PairSourceTarget(g, source, target);
      && Moves(g, g', g.links, map[target := g.conn[source].ue]) && target in g'.preparing
      && g'.live == g.live && g'.flags == g.flags && g'.connected == g.connected && g'.idle == g.idle
  {
    hide IndexRefs, LinkRefs;
  }

  lemma DetachMoves(g: Graph, r: RanUe)
    requires Closed(g) && r in g.conn && g.conn[r].ue != null
    ensures var p := Port(g.conn[r].ue, Access(g, r));
      var g' := DetachAmfUe(DetachRanUe(g, p.ue, p.an), r);
      && Moves(g, g', g.links - {p}, map[r := null])
      && g'.live == g.live && g'.flags == g.flags
      && g'.connected == g.connected.Add(p.an, -1) && g'.idle == g.idle.Add(p.an, 1)
  {
    hide IndexRefs, LinkRefs;
  }

  // A step that relinks at one port keeps the link invariants when the new
  // pointers agree with the new links.
  lemma MovesKeepLinks(g: Graph, g': Graph, links: map<Port, RanUe>, relinked: map<RanUe, AmfUe?>)
    requires Indexed(g) && LinksPointBack(g) && PointersAreLinks(g)
    requires Closed(g') && Moves(g, g', links, relinked) && g.live <= g'.live
    requires forall p {:trigger p in links} :: p in links ==>
               var r := links[p];
               if r in relinked then
                 r in g.conn && Live(g, r) && relinked[r] == p.ue && Access(g, r) == p.an && p.ue in g'.live && p in g'.flags
                 && r !in g'.preparing
               else p in g.links && g.links[p] == r
    requires forall r {:trigger r in relinked} :: r in relinked && relinked[r] != null && r in g.conn ==>
               LinkedAt(g', Port(relinked[r], Access(g, r)), r) || r in g'.preparing
    requires forall p {:trigger p in g.links} :: p in g.links ==>
               (p in links && links[p] == g.links[p]) || g.links[p] in relinked
    ensures Indexed(g') && LinksPointBack(g') && PointersAreLinks(g')
  {
    SameIndexesKeepThem(g, g');
    forall p | p in g'.links ensures LinkOk(g', p) {
      if p in g.links { assert LinkOk(g, p); }
    }
    forall r | r in g'.conn ensures PointerOk(g', r) {
      assert PointerOk(g, r);
    }
  }

  // ----- RanUe.Remove -----

  // The detaching half of Remove, for a linked connection.
  lemma DetachKeepsLinks(g: Graph, r: RanUe)
    requires Linked(g) && Live(g, r) && Attached(g, r)
    ensures var g' := DetachAmfUe(DetachRanUe(g, g.conn[r].ue, Access(g, r)), r);
      Linked(g') && g'.conn[r].ue == null && SameIndexes(g, g')
  {
    var p := Port(g.conn[r].ue, Access(g, r));
    var g' := DetachAmfUe(DetachRanUe(g, p.ue, p.an), r);
    assert LinkOk(g, p);
    DetachMoves(g, r);
    hide DetachAmfUe, DetachRanUe;
    GaugesAfterDrop(g, g', p);
    forall q | q in g.links ensures g.links[q] == r ==> q == p { assert LinkOk(g, q); }
    MovesKeepLinks(g, g', g.links - {p}, map[r := null]);
  }

  // Dropping an unlinked connection from the indexes.
  lemma UnindexKeepsLinks(g: Graph, r: RanUe)
    requires Linked(g) && Live(g, r) && !Attached(g, r)
    ensures Linked(Unindex(g, r))
  {
    var g' := Unindex(g, r);
    UnindexKeepsIndexes(g, r);
    GaugesAlone(g, g');
    forall p | p in g'.links ensures LinkOk(g', p) {
      assert LinkOk(g, p) && g.links[p] != r;
    }
    forall q | q in g'.conn ensures PointerOk(g', q) {
      assert PointerOk(g, q);
    }
  }

  // A connection that Remove detaches rightly: it is not a target in preparation.
  predicate Removable(g: Graph, r: RanUe)
    requires Closed(g)
  {
    r in g.conn && Live(g, r) && (g.conn[r].ue == null || Attached(g, r))
  }

  lemma RemoveKeepsLinks(g: Graph, r: RanUe)
    requires Linked(g) && Removable(g, r)
    ensures Linked(Remove(g, r))
  {
    if g.conn[r].ue == null {
      UnindexKeepsLinks(g, r);
    } else {
      DetachKeepsLinks(g, r);
      var detached := DetachAmfUe(DetachRanUe(g, g.conn[r].ue, Access(g, r)), r);
      SameIndexesKeepThem(g, detached);
      UnindexKeepsLinks(detached, r);
    }
  }

  // Remove detaches by access type and not by pointer: on a target in preparation it
  // takes away the link of another connection, which keeps pointing at the UE, or a
  // count that is not there. Everywhere else it keeps links, pointers and gauges right.
  lemma RemoveKeepsLinksExactly(g: Graph, r: RanUe)
    requires Linked(g) && Live(g, r)
    ensures Linked(Remove(g, r)) <==> Removable(g, r)
  {
    if Removable(g, r) {
      RemoveKeepsLinks(g, r);
    } else {
      RemoveOfPreparedTargetBreaksLinks(g, r);
    }
  }

  lemma RemoveOfPreparedTargetBreaksLinks(g: Graph, target: RanUe)
    requires Linked(g) && Live(g, target) && !Removable(g, target)
    ensures target in g.preparing && !Linked(Remove(g, target))
    // The other connection, if there is one
    ensures var p := Port(g.conn[target].ue, Access(g, target));
      var g' := Remove(g, target);
      p !in g'.links && (p in g.links ==> Live(g', g.links[p]) && g'.conn[g.links[p]].ue == p.ue)
  {
    hide IndexRefs, LinkRefs, Pooled, ListedSoundly;
    var p := Port(g.conn[target].ue, Access(g, target));
    var g' := Remove(g, target);
    assert PointerOk(g, target);
    RemoveKeepsIndexes(g, target);
    if p in g.links {
      assert LinkOk(g, p);
      assert !PointerOk(g', g.links[p]);
    } else {
      assert CountsAt(g, p.an);
      assert ConnectedUes(g', p.an) == ConnectedUes(g, p.an);
      assert !CountsAt(g', p.an);
    }
  }

  // ----- attaching -----

  // Whatever state it meets: the connection gets the UE, the one that had it on this access
  // loses it and is to release it, or else the gauges move one UE to connected, from idle if
  // it was seen on this access before. No other connection changes.
  lemma AttachLetsTheOldGo(g: Graph, ue: AmfUe, r: RanUe)
    requires Closed(g) && ue in g.ues && r in g.conn
    ensures var p, g' := Port(ue, g.an[g.conn[r].ran]), AttachAndReleaseOld(g, ue, r);
      && g'.links == g.links[p := r] && g'.conn.Keys == g.conn.Keys && g'.conn[r].ue == ue
      && (p in g.links && g.links[p] != r ==>
            g'.conn[g.links[p]] == g.conn[g.links[p]].(ue := null, action := ReleaseUeContext))
      && (forall q :: q in g.conn && q != r && (p in g.links ==> q != g.links[p]) ==> g'.conn[q] == g.conn[q])
      && g'.connected == (if p in g.links then g.connected else g.connected.Add(p.an, 1))
      && g'.idle == (if p !in g.links && p in g.flags then g.idle.Add(p.an, -1) else g.idle)
      && g'.flags == (if p in g.links then g.flags else g.flags + {p})
  {
    hide IndexRefs, LinkRefs, ReleaseOldOrCount;
    OldOneGoes(g, Port(ue, g.an[g.conn[r].ran]));
  }

  lemma OldOneGoes(g: Graph, p: Port)
    requires Closed(g) && p.ue in g.ues
    ensures var g' := ReleaseOldOrCount(g, p);
      && g'.links == g.links && g'.pool == g.pool && g'.conn.Keys == g.conn.Keys
      && (p in g.links ==>
            && g'.conn == g.conn[g.links[p] := g.conn[g.links[p]].(ue := null, action := ReleaseUeContext)]
            && g'.connected == g.connected && g'.idle == g.idle && g'.flags == g.flags)
      && (p !in g.links ==>
            && g'.conn == g.conn && g'.connected == g.connected.Add(p.an, 1)
            && g'.idle == (if p in g.flags then g.idle.Add(p.an, -1) else g.idle) && g'.flags == g.flags + {p})
  {
    hide IndexRefs, ConnRefs;
  }

  // A handover moves the link and has the source release it for that reason.
  lemma HandOverReleasesSource(g: Graph, ue: AmfUe, source: RanUe, target: RanUe)
    requires Closed(g) && ue in g.ues && source in g.conn && target in g.conn && source != target
    ensures var g' := AttachAndReleaseSource(g, ue, source, target);
      && g'.links == g.links[Port(ue, g.an[g.conn[target].ran]) := target]
      && g'.conn == g.conn[source := g.conn[source].(ue := null, action := ReleaseHandover)]
                          [target := g.conn[target].(ue := ue)]
      && g'.connected == g.connected && g'.idle == g.idle && g'.flags == g.flags
  {
    hide IndexRefs, LinkRefs;
  }

  // What the attaching relies on and does not check: the UE context is there, and the
  // connection is not attached to another one.
  predicate ReadyToAttach(g: Graph, ue: AmfUe, r: RanUe)
    requires Closed(g) && r in g.conn
  {
    ue in g.live && (Attached(g, r) ==> g.conn[r].ue == ue)
  }

  // Attaching keeps links, pointers and gauges right exactly then; a target in preparation
  // may point to any UE.
  lemma AttachAndReleaseOldKeepsLinksExactly(g: Graph, ue: AmfUe, r: RanUe)
    requires Linked(g) && ue in g.ues && Live(g, r)
    ensures Linked(AttachAndReleaseOld(g, ue, r)) <==> ReadyToAttach(g, ue, r)
  {
    if ReadyToAttach(g, ue, r) {
      AttachAndReleaseOldKeepsLinks(g, ue, r);
    } else {
      AttachBreaksLinks(g, ue, r);
    }
  }

  lemma AttachBreaksLinks(g: Graph, ue: AmfUe, r: RanUe)
    requires Linked(g) && ue in g.ues && Live(g, r) && !ReadyToAttach(g, ue, r)
    ensures !Linked(AttachAndReleaseOld(g, ue, r))
  {
    hide IndexRefs, LinkRefs, Pooled, ListedSoundly, PointersAreLinks, Conserved, AttachAndReleaseOld;
    var g' := AttachAndReleaseOld(g, ue, r);
    AttachTouchesLinks(g, ue, r);
    if ue !in g.live {
      assert !LinkOk(g', Port(ue, Access(g, r)));
    } else {
      assert !LinkOk(g', Port(g.conn[r].ue, Access(g, r)));
    }
  }

  lemma AttachTouchesLinks(g: Graph, ue: AmfUe, r: RanUe)
    requires Closed(g) && ue in g.ues && r in g.conn
    ensures var g' := AttachAndReleaseOld(g, ue, r);
      && g'.links == g.links[Port(ue, Access(g, r)) := r] && g'.live == g.live && g'.an == g.an && g'.ues == g.ues
      && r in g'.conn && g'.conn[r].ue == ue && g'.conn[r].ran == g.conn[r].ran
      && g'.pool == g.pool && g'.conn[r].amfId == g.conn[r].amfId
  {
    hide IndexRefs, ConnRefs;
  }

  lemma AttachAndReleaseOldKeepsLinks(g: Graph, ue: AmfUe, r: RanUe)
    requires Linked(g) && Live(g, r) && ReadyToAttach(g, ue, r)
    ensures var g' := AttachAndReleaseOld(g, ue, r);
      Linked(g') && SameIndexes(g, g') && LinkedAt(g', Port(ue, Access(g, r)), r) && g'.conn[r].ue == ue
  {
    if Port(ue, Access(g, r)) in g.links {
      ReplacingKeepsLinks(g, ue, r);
    } else {
      ConnectingKeepsLinks(g, ue, r);
    }
  }

  lemma ReplacingKeepsLinks(g: Graph, ue: AmfUe, r: RanUe)
    requires Linked(g) && ue in g.ues && Live(g, r) && ReadyToAttach(g, ue, r)
    requires Port(ue, Access(g, r)) in g.links
    ensures var g' := AttachAndReleaseOld(g, ue, r);
      Linked(g') && SameIndexes(g, g') && LinkedAt(g', Port(ue, Access(g, r)), r) && g'.conn[r].ue == ue
  {
    hide AttachAndReleaseOld, AttachRanUe, ReleaseCommand, DetachAmfUe, Closed, Pooled, ListedSoundly, PointersAreLinks;
    var p := Port(ue, Access(g, r));
    var g' := AttachAndReleaseOld(g, ue, r);
    AttachAndReleaseOldReplaces(g, ue, r);
    GaugesAlone(g, g');
    LinksAreDistinct(g, p, r);
    assert LinkOk(g, p);
    MovesKeepLinks(g, g', g.links[p := r], map[g.links[p] := null] + map[r := ue]);
  }

  lemma ConnectingKeepsLinks(g: Graph, ue: AmfUe, r: RanUe)
    requires Linked(g) && ue in g.ues && Live(g, r) && ReadyToAttach(g, ue, r)
    requires Port(ue, Access(g, r)) !in g.links
    ensures var g' := AttachAndReleaseOld(g, ue, r);
      Linked(g') && SameIndexes(g, g') && LinkedAt(g', Port(ue, Access(g, r)), r) && g'.conn[r].ue == ue
  {
    hide AttachAndReleaseOld, AttachRanUe, ReleaseCommand, DetachAmfUe, Closed, Pooled, ListedSoundly, PointersAreLinks;
    var p := Port(ue, Access(g, r));
    var g' := AttachAndReleaseOld(g, ue, r);
    AttachAndReleaseOldConnects(g, ue, r);
    GaugesAfterAdd(g, g', p);
    LinksAreDistinct(g, p, r);
    MovesKeepLinks(g, g', g.links[p := r], map[r := ue]);
  }

  // A connection that is not attached to another UE is linked at no other port; and no
  // connection is linked at two.
  lemma LinksAreDistinct(g: Graph, p: Port, r: RanUe)
    requires Indexed(g) && LinksPointBack(g) && r in g.conn && p.an == Access(g, r)
    requires Attached(g, r) ==> g.conn[r].ue == p.ue
    ensures forall q {:trigger g.links[q]} :: q in g.links && q != p ==>
              g.links[q] != r && (p in g.links ==> g.links[q] != g.links[p])
  {
    forall q | q in g.links && q != p
      ensures g.links[q] != r && (p in g.links ==> g.links[q] != g.links[p])
    {
      assert LinkOk(g, q);
      if p in g.links { assert LinkOk(g, p); }
    }
  }

  // What the notify relies on and does not check: on the target's access the UE is
  // connected by the source, or by the target already and by the source nowhere.
  predicate ReadyToMove(g: Graph, source: RanUe, target: RanUe)
    requires Closed(g) && source in g.conn && target in g.conn && g.conn[target].ue != null
  {
    var p := Port(g.conn[target].ue, Access(g, target));
    LinkedAt(g, p, source) || (LinkedAt(g, p, target) && !Attached(g, source))
  }

  // The move touches no gauge, so they stay right exactly when the UE is connected on
  // that access before, or is no longer counted.
  lemma HandOverKeepsGaugesExactly(g: Graph, ue: AmfUe, source: RanUe?, target: RanUe)
    requires Closed(g) && Conserved(g) && ue in g.ues && target in g.conn && (source != null ==> source in g.conn)
    requires forall p :: p in g.links ==> p in g.flags
    ensures var g' := AttachAndReleaseSource(g, ue, source, target);
      Conserved(g') <==> ue !in g.live || Port(ue, Access(g, target)) in g.links
  {
    hide AttachAndReleaseSource, IndexRefs, ConnRefs;
    MoveTouches(g, ue, source, target);
    MovedCounts(g, AttachAndReleaseSource(g, ue, source, target), Port(ue, Access(g, target)), target);
  }

  lemma MovedCounts(g: Graph, g': Graph, p: Port, r: RanUe)
    requires Conserved(g) && forall q :: q in g.links ==> q in g.flags
    requires g'.links == g.links[p := r]
    requires g'.live == g.live && g'.flags == g.flags && g'.connected == g.connected && g'.idle == g.idle
    ensures Conserved(g') <==> p.ue !in g.live || p in g.links
  {
    if p.ue !in g.live || p in g.links {
      forall an ensures CountsAt(g', an) {
        assert CountsAt(g, an);
        assert ConnectedUes(g', an) == ConnectedUes(g, an) && IdleUes(g', an) == IdleUes(g, an);
      }
    } else {
      assert CountsAt(g, p.an);
      assert ConnectedUes(g', p.an) == ConnectedUes(g, p.an) + {p.ue};
      assert !CountsAt(g', p.an);
    }
  }

  lemma MoveTouches(g: Graph, ue: AmfUe, source: RanUe?, target: RanUe)
    requires Closed(g) && ue in g.ues && target in g.conn && (source != null ==> source in g.conn)
    ensures var g' := AttachAndReleaseSource(g, ue, source, target);
      && g'.links == g.links[Port(ue, Access(g, target)) := target]
      && g'.live == g.live && g'.flags == g.flags && g'.connected == g.connected && g'.idle == g.idle
  {
  }

  // A handover keeps links, pointers and gauges right exactly when the UE is ready to move.
  lemma HandOverKeepsLinksExactly(g: Graph, source: RanUe, target: RanUe)
    requires Linked(g) && source in g.conn && Live(g, target) && g.conn[target].ue != null
    ensures Linked(AttachAndReleaseSource(g, g.conn[target].ue, source, target)) <==> ReadyToMove(g, source, target)
  {
    if ReadyToMove(g, source, target) {
      AttachAndReleaseSourceKeepsLinks(g, source, target);
    } else {
      HandOverBreaksLinks(g, source, target);
    }
  }

  lemma AttachAndReleaseSourceKeepsLinks(g: Graph, source: RanUe, target: RanUe)
    requires Linked(g) && source in g.conn && Live(g, target) && g.conn[target].ue != null && ReadyToMove(g, source, target)
    ensures var ue := g.conn[target].ue;
      var g' := AttachAndReleaseSource(g, ue, source, target);
      Linked(g') && SameIndexes(g, g') && LinkedAt(g', Port(ue, Access(g, target)), target)
  {
    hide AttachAndReleaseSource, AttachRanUe, ReleaseCommand, DetachAmfUe, Closed, Pooled, ListedSoundly,
         PointersAreLinks, Conserved;
    var ue := g.conn[target].ue;
    TargetUeIsKnown(g, target);
    var p := Port(ue, Access(g, target));
    assert LinkOk(g, p);
    var g' := AttachAndReleaseSource(g, ue, source, target);
    AttachAndReleaseSourceMoves(g, ue, source, target);
    GaugesAlone(g, g');
    SourceIsLinkedOnlyHere(g, source, target);
    MovesKeepLinks(g, g', g.links[p := target], map[source := null] + map[target := ue]);
  }

  lemma TargetUeIsKnown(g: Graph, r: RanUe)
    requires Closed(g) && r in g.conn && g.conn[r].ue != null
    ensures g.conn[r].ue in g.ues
  {
  }

  lemma SourceIsLinkedOnlyHere(g: Graph, source: RanUe, target: RanUe)
    requires Indexed(g) && LinksPointBack(g) && source in g.conn && target in g.conn && g.conn[target].ue != null
    requires ReadyToMove(g, source, target)
    ensures var p := Port(g.conn[target].ue, Access(g, target));
      forall q {:trigger g.links[q]} :: q in g.links && q != p ==> g.links[q] != source && g.links[q] != target
  {
    var p := Port(g.conn[target].ue, Access(g, target));
    assert LinkOk(g, p);
    forall q | q in g.links && q != p ensures g.links[q] != source && g.links[q] != target { assert LinkOk(g, q); }
  }

  lemma HandOverBreaksLinks(g: Graph, source: RanUe, target: RanUe)
    requires Linked(g) && source in g.conn && Live(g, target) && g.conn[target].ue != null && !ReadyToMove(g, source, target)
    ensures !Linked(AttachAndReleaseSource(g, g.conn[target].ue, source, target))
  {
    var ue := g.conn[target].ue;
    var p := Port(ue, Access(g, target));
    var g' := AttachAndReleaseSource(g, ue, source, target);
    if p !in g.links {
      forall q | q in g.links ensures q in g.flags { assert LinkOk(g, q); }
      HandOverKeepsGaugesExactly(g, ue, source, target);
      assert ue !in g.live ==> !LinkOk(g', p);
    } else if g.links[p] == target {
      assert !LinkOk(g', Port(g.conn[source].ue, Access(g, source)));
    } else {
      assert LinkOk(g, p);
      assert !PointerOk(g', g.links[p]);
    }
  }

  // Preparing does nothing for a source without a UE, and needs a target that is not attached.
  predicate ReadyToPrepare(g: Graph, source: RanUe, target: RanUe)
    requires Closed(g) && source in g.conn && target in g.conn
  {
    g.conn[source].ue == null || !Attached(g, target)
  }

  lemma PairSourceTargetKeepsLinksExactly(g: Graph, source: RanUe, target: RanUe)
    requires Linked(g) && source in g.conn && target in g.conn
    ensures Linked(PairSourceTarget(g, source, target)) <==> ReadyToPrepare(g, source, target)
  {
    if ReadyToPrepare(g, source, target) {
      PairSourceTargetKeepsLinks(g, source, target);
    } else {
      var g' := PairSourceTarget(g, source, target);
      PairSourceTargetMoves(g, source, target);
      hide PairSourceTarget;
      assert !LinkOk(g', Port(g.conn[target].ue, Access(g, target)));
    }
  }

  lemma PairSourceTargetKeepsLinks(g: Graph, source: RanUe, target: RanUe)
    requires Linked(g) && source in g.conn && target in g.conn && ReadyToPrepare(g, source, target)
    ensures Linked(PairSourceTarget(g, source, target)) && SameIndexes(g, PairSourceTarget(g, source, target))
  {
    if g.conn[source].ue != null {
      var g' := PairSourceTarget(g, source, target);
      PairSourceTargetMoves(g, source, target);
      hide PairSourceTarget;
      GaugesAlone(g, g');
      forall q | q in g.links ensures g.links[q] != target { assert LinkOk(g, q); }
      MovesKeepLinks(g, g', g.links, map[target := g.conn[source].ue]);
    }
  }

  // ----- UE contexts come and go -----

  lemma NewUeKeepsLinks(g: Graph, ue: AmfUe)
    requires Linked(g) && ue !in g.ues
    ensures Linked(NewUe(g, ue)) && SameIndexes(g, NewUe(g, ue))
  {
    var g' := NewUe(g, ue);
    GaugesAlone(g, g');
    MovesKeepLinks(g, g', g.links, map[]);
  }

  lemma RemoveLinkKeepsLinks(g: Graph, ue: AmfUe, an: AccessType)
    requires Linked(g) && ue in g.ues
    ensures var g' := RemoveLink(g, ue, an);
      Linked(g') && g'.links == g.links - {Port(ue, an)} && g'.live == g.live && g'.flags == g.flags
  {
    var p := Port(ue, an);
    if p in g.links {
      assert LinkOk(g, p);
      RemoveKeepsLinks(g, g.links[p]);
    } else {
      assert g.links == g.links - {p};
    }
  }

  // A context that is there, or one that was removed without ever having been connected
  predicate Retirable(g: Graph, ue: AmfUe) {
    ue in g.live || (Port(ue, ThreeGpp) !in g.flags && Port(ue, NonThreeGpp) !in g.flags)
  }

  // Removing a context a second time gives up its idle marks a second time.
  lemma RemoveUeKeepsLinksExactly(g: Graph, ue: AmfUe, first: AccessType)
    requires Linked(g) && ue in g.ues
    ensures Linked(RemoveUe(g, ue, first)) <==> Retirable(g, ue)
  {
    if ue in g.live {
      RemoveUeKeepsLinks(g, ue, first);
    } else {
      RemovedHasNoLinks(g, ue);
      var g' := RetireUe(g, ue);
      assert g.live - {ue} == g.live;
      if !Retirable(g, ue) {
        var an := if Port(ue, ThreeGpp) in g.flags then ThreeGpp else NonThreeGpp;
        assert CountsAt(g, an) && IdleUes(g', an) == IdleUes(g, an);
        assert !CountsAt(g', an);
      }
    }
  }

  lemma RemovedHasNoLinks(g: Graph, ue: AmfUe)
    requires Linked(g) && ue !in g.live
    ensures forall an :: Port(ue, an) !in g.links
  {
    forall p | p in g.links ensures p.ue != ue { assert LinkOk(g, p); }
  }

  lemma RemoveUeKeepsLinks(g: Graph, ue: AmfUe, first: AccessType)
    requires Linked(g) && ue in g.live
    ensures var g' := RemoveUe(g, ue, first);
      Linked(g') && ue !in g'.live && forall an :: Port(ue, an) !in g'.links
  {
    RemoveLinkKeepsLinks(g, ue, first);
    var g1 := RemoveLink(g, ue, first);
    RemoveLinkKeepsLinks(g1, ue, Other(first));
    var g2 := RemoveLink(g1, ue, Other(first));
    hide RemoveLink, Closed;
    forall an ensures Port(ue, an) !in g2.links { assert an == first || an == Other(first); }
    RetireUeKeepsLinks(g2, ue);
  }

  // The last step of AmfUe.Remove: the idle gauges give up the flagged accesses.
  lemma RetireUeKeepsLinks(g: Graph, ue: AmfUe)
    requires Linked(g) && ue in g.live && forall an :: Port(ue, an) !in g.links
    ensures Linked(RetireUe(g, ue))
  {
    var g' := RetireUe(g, ue);
    SameIndexesKeepThem(g, g');
    GaugesAfterRemoval(g, g', ue);
    forall p | p in g'.links ensures LinkOk(g', p) {
      assert LinkOk(g, p);
    }
    forall q | q in g'.conn ensures PointerOk(g', q) {
      assert PointerOk(g, q);
    }
  }
}
