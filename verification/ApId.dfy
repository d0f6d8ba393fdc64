// Finding a connection by its pair of AP ids, and what happens when the pair is
// unknown, foreign or inconsistent (3GPP TS 38.413, section 10.6).

module ApId {
  import opened Basics
  import opened Context
  import opened Registry
  import opened Links
  import opened RegistryOps

  datatype Cause = UnknownLocalUeNgapId | InconsistentRemoteUeNgapId

  // ----- specification -----

  // removeRanUeByInvalidId: unlike Remove it compares the pointer before it detaches the UE.
  function UnlinkIfLinked(g: Graph, ran: AmfRan, r: RanUe): (g': Graph)
    requires Closed(g) && ran in g.an && r in g.conn
    ensures Closed(g') && g'.an == g.an && g'.conn == g.conn
  {
    var ue := g.conn[r].ue;
    if ue != null && LinkedAt(g, Port(ue, g.an[ran]), r) then DetachRanUe(g, ue, g.an[ran]) else g
  }

  function RemoveByInvalidId(g: Graph, ran: AmfRan, r: RanUe): (g': Graph)
    requires Closed(g) && ran in g.an && r in g.conn
    ensures Closed(g') && g'.an == g.an && g'.conn.Keys == g.conn.Keys
  {
    Remove(DetachAmfUe(UnlinkIfLinked(g, ran, r), r), r)
  }

  // removeRanUeByInvalidUE
  function RemoveByInvalidUe(g: Graph, ran: AmfRan, amfId: int, ranId: Option<int>): (g': Graph)
    requires Closed(g) && ran in g.an
    ensures Closed(g') && g'.an == g.an && g'.conn.Keys == g.conn.Keys
  {
    var g1 := if amfId in g.pool && g.conn[g.pool[amfId]].ran == ran then RemoveByInvalidId(g, ran, g.pool[amfId]) else g;
    if ranId.Some? && Slot(ran, ranId.value) in g1.lists
    then RemoveByInvalidId(g1, ran, g1.lists[Slot(ran, ranId.value)]) else g1
  }

  // What is wrong with the pair, if anything
  function Diagnosis(g: Graph, ran: AmfRan, amfId: int, ranId: Option<int>, first: bool): Option<Cause>
    requires Closed(g)
  {
    if amfId !in g.pool || g.conn[g.pool[amfId]].ran != ran then Some(UnknownLocalUeNgapId)
    else
      var known := g.conn[g.pool[amfId]].ranId;
      if (if ranId.None? || first then known != UNSPECIFIED else known != ranId.value)
      then Some(InconsistentRemoteUeNgapId) else None
  }

  datatype Lookup = Lookup(found: RanUe?, errorIndication: Option<Cause>, graph: Graph)

  function Find(g: Graph, ran: AmfRan, amfId: int, ranId: Option<int>, first: bool, send: bool): Lookup
    requires Closed(g) && ran in g.an
  {
    var wrong := Diagnosis(g, ran, amfId, ranId, first);
    if wrong.None? then Lookup(g.pool[amfId], None, g)
    else Lookup(null, if send then wrong else None, RemoveByInvalidUe(g, ran, amfId, ranId))
  }

  // ----- section 10.6 -----

  // An established connection of this RAN with one of the ids as local or remote identifier
  predicate Holds(g: Graph, r: RanUe, ran: AmfRan, amfId: int, ranId: Option<int>)
    requires r in g.conn
  {
    && Live(g, r) && g.conn[r].ran == ran
    && (g.conn[r].amfId == amfId || (ranId != None && ranId != Some(UNSPECIFIED) && ranId == Some(g.conn[r].ranId)))
  }

  // One local release takes away one connection and its own link, and nothing else.
  ghost predicate ReleasesOnly(g: Graph, g': Graph, r: RanUe)
    requires Closed(g) && Closed(g') && r in g.conn
  {
    && g'.conn.Keys == g.conn.Keys
    && (forall q {:trigger Live(g', q)} :: q in g.conn ==> Live(g', q) == (Live(g, q) && q != r))
    && (forall q {:trigger g'.conn[q]} :: q in g.conn && q != r ==> g'.conn[q] == g.conn[q])
    && g'.lists == g.lists - {Slot(g.conn[r].ran, g.conn[r].ranId)}
    && g'.links == (map p | p in g.links && g.links[p] != r :: g.links[p])
  }

  lemma LocalReleaseOfOne(g: Graph, ran: AmfRan, r: RanUe)
    requires Listed(g) && Linked(g) && Live(g, r) && g.conn[r].ran == ran && ran in g.an
    ensures var g' := RemoveByInvalidId(g, ran, r);
      Listed(g') && Linked(g') && ReleasesOnly(g, g', r)
  {
    var ue := g.conn[r].ue;
    if ue != null && LinkedAt(g, Port(ue, g.an[ran]), r) {
      ReleaseOfLinked(g, r);
    } else {
      assert forall p :: p in g.links ==> g.links[p] != r by {
        forall p | p in g.links ensures g.links[p] != r { assert LinkOk(g, p); }
      }
      ReleaseOfUnlinked(g, r);
    }
  }

  lemma ReleaseOfLinked(g: Graph, r: RanUe)
    requires Listed(g) && Linked(g) && Live(g, r) && Attached(g, r)
    ensures var g' := Unindex(DetachAmfUe(DetachRanUe(g, g.conn[r].ue, Access(g, r)), r), r);
      Listed(g') && Linked(g') && ReleasesOnly(g, g', r)
  {
    hide IndexRefs, LinkRefs, Pooled, ListedSoundly, LinksPointBack, PointersAreLinks, Conserved;
    var p0 := Port(g.conn[r].ue, Access(g, r));
    var g1 := DetachAmfUe(DetachRanUe(g, p0.ue, p0.an), r);
    DetachKeepsLinks(g, r);
    SameIndexesKeepThem(g, g1);
    UnindexKeepsIndexes(g1, r);
    UnindexKeepsLinks(g1, r);
    OnlyLink(g, p0, r);
  }

  lemma OnlyLink(g: Graph, p0: Port, r: RanUe)
    requires Linked(g) && LinkedAt(g, p0, r)
    ensures forall p {:trigger g.links[p]} :: p in g.links && g.links[p] == r ==> p == p0
  {
    assert LinkOk(g, p0);
    forall p | p in g.links && g.links[p] == r ensures p == p0 { assert LinkOk(g, p); }
  }

  lemma ReleaseOfUnlinked(g: Graph, r: RanUe)
    requires Listed(g) && Linked(g) && Live(g, r) && forall p :: p in g.links ==> g.links[p] != r
    ensures var g' := Unindex(DetachAmfUe(g, r), r);
      Listed(g') && Linked(g') && ReleasesOnly(g, g', r)
  {
    hide IndexRefs, LinkRefs, Pooled, ListedSoundly;
    var g1 := DetachAmfUe(g, r);
    GaugesAlone(g, g1);
    MovesKeepLinks(g, g1, g.links, map[r := null]);
    SameIndexesKeepThem(g, g1);
    UnindexKeepsIndexes(g1, r);
    UnindexKeepsLinks(g1, r);
  }

  // After the local releases no connection of this RAN holds either id; exactly
  // those that did are gone, with their own links, and everything else is as it was.
  lemma LocalRelease(g: Graph, ran: AmfRan, amfId: int, ranId: Option<int>)
    requires Listed(g) && Linked(g) && ran in g.an
    ensures var g' := RemoveByInvalidUe(g, ran, amfId, ranId);
      && Listed(g') && Linked(g')
      && (forall r :: r in g.conn ==> Live(g', r) == (Live(g, r) && !Holds(g, r, ran, amfId, ranId)))
      && (forall r :: r in g.conn && !Holds(g, r, ran, amfId, ranId) ==> g'.conn[r] == g.conn[r])
      && g'.links == (map p | p in g.links && !Holds(g, g.links[p], ran, amfId, ranId) :: g.links[p])
  {
    hide RemoveByInvalidId, Pooled, IndexRefs, ConnRefs, LinkRefs, LinksPointBack, PointersAreLinks, Conserved;
    PoolMember(g, amfId);
    var byAmfId := amfId in g.pool && g.conn[g.pool[amfId]].ran == ran;
    var g1 := if byAmfId then RemoveByInvalidId(g, ran, g.pool[amfId]) else g;
    if byAmfId {
      LocalReleaseOfOne(g, ran, g.pool[amfId]);
    }
    var s := Slot(ran, if ranId.Some? then ranId.value else UNSPECIFIED);
    HoldersAreIndexed(g, g1, ran, amfId, ranId);
    if s in g1.lists {
      assert SlotOk(g1, s);
      LocalReleaseOfOne(g1, ran, g1.lists[s]);
    }
  }

  lemma PoolMember(g: Graph, amfId: int)
    requires Indexed(g)
    ensures amfId in g.pool ==>
              g.pool[amfId] in g.conn && Live(g, g.pool[amfId]) && g.conn[g.pool[amfId]].amfId == amfId
  {
  }

  // After the first release, a connection that still holds the RAN id is the listed one.
  lemma HoldersAreIndexed(g: Graph, g1: Graph, ran: AmfRan, amfId: int, ranId: Option<int>)
    requires Listed(g) && Listed(g1) && ran in g.an && g1.conn.Keys == g.conn.Keys
    requires if amfId in g.pool && g.conn[g.pool[amfId]].ran == ran then ReleasesOnly(g, g1, g.pool[amfId]) else g1 == g
    ensures var s := Slot(ran, if ranId.Some? then ranId.value else UNSPECIFIED);
      forall r :: r in g.conn ==>
        (Holds(g, r, ran, amfId, ranId)
         <==> (amfId in g.pool && r == g.pool[amfId] && g.conn[r].ran == ran) || (s in g1.lists && g1.lists[s] == r))
  {
    var s := Slot(ran, if ranId.Some? then ranId.value else UNSPECIFIED);
    PoolMember(g, amfId);
    if s in g1.lists { assert SlotOk(g1, s); }
    forall r | r in g.conn
      ensures Holds(g, r, ran, amfId, ranId)
              <==> (amfId in g.pool && r == g.pool[amfId] && g.conn[r].ran == ran) || (s in g1.lists && g1.lists[s] == r)
    {
      assert ListedOk(g1, r) && (Live(g1, r) ==> Live(g, r) && g1.conn[r] == g.conn[r]);
    }
  }

  // The whole of ranUeFind: it succeeds exactly when the pair is right, returns the
  // one connection with both ids on this RAN, and otherwise releases as above and says
  // which id is wrong: the local one that no connection of this RAN has, or the remote
  // one of the connection that has the local one.
  lemma FindIsRight(g: Graph, ran: AmfRan, amfId: int, ranId: Option<int>, first: bool, send: bool)
    requires Listed(g) && Linked(g) && ran in g.an
    ensures var l := Find(g, ran, amfId, ranId, first, send);
      && Listed(l.graph) && Linked(l.graph)
      && (l.found != null ==>
            && l.graph == g && Live(g, l.found)
            && g.conn[l.found].ran == ran && g.conn[l.found].amfId == amfId
            && g.conn[l.found].ranId == (if ranId.None? || first then UNSPECIFIED else ranId.value)
            && (forall r :: r in g.conn && Live(g, r) && g.conn[r].amfId == amfId ==> r == l.found)
            && (ranId.Some? && !first && ranId != Some(UNSPECIFIED) ==>
                  forall r :: r in g.conn && Live(g, r) && g.conn[r].ran == ran && g.conn[r].ranId == ranId.value ==> r == l.found))
      && (l.found == null ==>
            && (forall r :: r in g.conn ==> !Holds(l.graph, r, ran, amfId, ranId))
            && (forall r :: r in g.conn && Live(g, r) && g.conn[r].ran != ran ==> Live(l.graph, r) && l.graph.conn[r] == g.conn[r])
            && (forall p :: p in g.links && !Holds(g, g.links[p], ran, amfId, ranId) ==>
                  p in l.graph.links && l.graph.links[p] == g.links[p]))
      && (l.found == null <==>
            !exists r :: r in g.conn && Live(g, r) && g.conn[r].ran == ran && g.conn[r].amfId == amfId
                         && g.conn[r].ranId == (if ranId.None? || first then UNSPECIFIED else ranId.value))
      && (l.errorIndication == Some(UnknownLocalUeNgapId) <==>
            send && !exists r :: r in g.conn && Live(g, r) && g.conn[r].ran == ran && g.conn[r].amfId == amfId)
      && (l.errorIndication == Some(InconsistentRemoteUeNgapId) <==>
            send && exists r :: r in g.conn && Live(g, r) && g.conn[r].ran == ran && g.conn[r].amfId == amfId
                      && g.conn[r].ranId != (if ranId.None? || first then UNSPECIFIED else ranId.value))
      && (l.errorIndication == None <==> !send || l.found != null)
  {
    var l := Find(g, ran, amfId, ranId, first, send);
    PoolMember(g, amfId);
    if l.found == null {
      LocalRelease(g, ran, amfId, ranId);
    } else if ranId.Some? && !first && ranId != Some(UNSPECIFIED) {
      forall r | r in g.conn && Live(g, r) && g.conn[r].ran == ran && g.conn[r].ranId == ranId.value ensures r == l.found {
        assert ListedOk(g, r) && ListedOk(g, l.found);
      }
    }
  }

  // ----- the methods -----

  method RemoveRanUeByInvalidId(self: AmfContext, ran: AmfRan, r: RanUe?)
    requires Closed(self.View()) && ran in self.rans && (r != null ==> r in self.ranUes)
    modifies self`ranUePool, self`usedIds, self`connected, self`idle, self.rans`ranUeList, self.ranUes`amfUe, self.ues`ranUe
    ensures self.View() == if r == null then old(self.View()) else RemoveByInvalidId(old(self.View()), ran, r)
  {
    if r == null { return; }
    DetachIfLinked(self, ran, r);
    self.Look();
    hide AmfContext.View;
    DetachThenRemove(self, r);
  }

  method DetachIfLinked(self: AmfContext, ran: AmfRan, r: RanUe)
    requires Closed(self.View()) && ran in self.rans && r in self.ranUes
    modifies self`connected, self`idle, self.ues`ranUe
    ensures self.View() == UnlinkIfLinked(old(self.View()), ran, r)
  {
    self.Look();
    self.LookAtConn(r);
    self.LookAtRan(ran, r.ranUeNgapId);
    var amfUe := r.amfUe;
    if amfUe != null { self.LookAtUe(amfUe, ran.anType); }
    hide AmfContext.View;
    if amfUe != null && ran.anType in amfUe.ranUe && amfUe.ranUe[ran.anType] == r {
      self.DetachRanUe(amfUe, ran.anType);
    }
  }

  method DetachThenRemove(self: AmfContext, r: RanUe)
    requires Closed(self.View()) && r in self.ranUes
    modifies self`ranUePool, self`usedIds, self`connected, self`idle, self.rans`ranUeList, r`amfUe, self.ues`ranUe
    ensures self.View() == Remove(DetachAmfUe(old(self.View()), r), r)
  {
    self.DetachAmfUe(r);
    self.Remove(r);
  }

  method RemoveRanUeByInvalidUe(self: AmfContext, ran: AmfRan, amfId: int, ranId: Option<int>)
    requires Closed(self.View()) && ran in self.rans
    modifies self`ranUePool, self`usedIds, self`connected, self`idle, self.rans`ranUeList, self.ranUes`amfUe, self.ues`ranUe
    ensures self.View() == RemoveByInvalidUe(old(self.View()), ran, amfId, ranId)
  {
    self.Look();
    if amfId in self.ranUePool {
      var r := self.ranUePool[amfId];
      self.LookAtConn(r);
      if r.ran == ran {
        RemoveRanUeByInvalidId(self, ran, r);
      }
    }
    if ranId.Some? {
      self.Look();
      self.LookAtRan(ran, ranId.value);
      RemoveRanUeByInvalidId(self, ran, if ranId.value in ran.ranUeList then ran.ranUeList[ranId.value] else null);
    }
  }

  datatype Outcome = Outcome(found: RanUe?, errorIndication: Option<Cause>)

  // ranUeFind. A missing AMF id (or RAN) is refused without touching anything.
  method RanUeFind(self: AmfContext, ran: AmfRan?, amfId: Option<int>, ranId: Option<int>, first: bool, send: bool)
    returns (o: Outcome)
    requires Closed(self.View()) && (ran != null ==> ran in self.rans)
    modifies self`ranUePool, self`usedIds, self`connected, self`idle, self.rans`ranUeList, self.ranUes`amfUe, self.ues`ranUe
    ensures ran == null || amfId.None? ==> o == Outcome(null, None) && self.View() == old(self.View())
    ensures ran != null && amfId.Some? ==>
              Lookup(o.found, o.errorIndication, self.View()) == Find(old(self.View()), ran, amfId.value, ranId, first, send)
  {
    if ran == null || amfId.None? { return Outcome(null, None); }
    self.Look();
    if amfId.value !in self.ranUePool {
      RemoveRanUeByInvalidUe(self, ran, amfId.value, ranId);
      return Outcome(null, if send then Some(UnknownLocalUeNgapId) else None);
    }
    var ranUe := self.ranUePool[amfId.value];
    self.LookAtPool(amfId.value);
    self.LookAtConn(ranUe);
    if ranUe.ran != ran {
      RemoveRanUeByInvalidUe(self, ran, amfId.value, ranId);
      return Outcome(null, if send then Some(UnknownLocalUeNgapId) else None);
    }
    if ranId.None? || first {
      if ranUe.ranUeNgapId != UNSPECIFIED {
        RemoveRanUeByInvalidUe(self, ran, amfId.value, ranId);
        return Outcome(null, if send then Some(InconsistentRemoteUeNgapId) else None);
      }
    } else if ranUe.ranUeNgapId != ranId.value {
      RemoveRanUeByInvalidUe(self, ran, amfId.value, ranId);
      return Outcome(null, if send then Some(InconsistentRemoteUeNgapId) else None);
    }
    o := Outcome(ranUe, None);
  }
}
