// The UE-association registry as a value: which RanUe objects are live, where
// the two indexes point, who is linked to whom, and what the CM gauges say.
// Each function is one registry operation; RegistryOps.dfy proves the methods
// that update the objects in place against them.

module Registry {
  import opened Basics
  import opened Context

  // CM gauge of one state, by access type
  datatype Gauge = Gauge(threeGpp: int, nonThreeGpp: int) {
    function At(an: AccessType): int {
      match an case ThreeGpp => threeGpp case NonThreeGpp => nonThreeGpp
    }

    function Add(an: AccessType, d: int): Gauge {
      match an case ThreeGpp => this.(threeGpp := threeGpp + d) case NonThreeGpp => this.(nonThreeGpp := nonThreeGpp + d)
    }
  }

  // The fields of a RanUe
  datatype Conn = Conn(
    ranId: int, amfId: int, ran: AmfRan, ue: AmfUe?, holding: AmfUe?,
    source: RanUe?, target: RanUe?, action: RelAction, success: seq<int>)

  // Keys of the two indexes that belong to one object each.
  datatype Slot = Slot(ran: AmfRan, id: int)          // an entry of ran.RanUeList
  datatype Port = Port(ue: AmfUe, an: AccessType)     // an entry of ue.RanUe

  datatype Graph = Graph(
    pool: map<int, RanUe>,          // RanUePool, by AMF-UE-NGAP-ID
    used: set<int>,                 // ids the generator has given out
    lists: map<Slot, RanUe>,        // every RanUeList, by RAN-UE-NGAP-ID
    an: map<AmfRan, AccessType>,
    conn: map<RanUe, Conn>,
    links: map<Port, RanUe>,        // every AmfUe.RanUe
    flags: set<Port>,               // every AmfUe.AnTypeFlags
    ues: set<AmfUe>,
    live: set<AmfUe>,               // UE contexts not removed yet
    connected: Gauge, idle: Gauge,
    preparing: set<RanUe>)          // history: handover targets not attached since they were prepared

  // Every object that is mentioned is one the graph describes.
  ghost predicate Closed(g: Graph) {
    IndexRefs(g) && ConnRefs(g) && LinkRefs(g)
  }

  ghost predicate IndexRefs(g: Graph) {
    && (forall id {:trigger g.pool[id]} :: id in g.pool ==> g.pool[id] in g.conn)
    && (forall s {:trigger g.lists[s]} :: s in g.lists ==> s.ran in g.an && g.lists[s] in g.conn)
  }

  ghost predicate ConnRefs(g: Graph) {
    forall r {:trigger g.conn[r]} :: r in g.conn ==>
      && g.conn[r].ran in g.an
      && (g.conn[r].ue != null ==> g.conn[r].ue in g.ues)
      && (g.conn[r].holding != null ==> g.conn[r].holding in g.ues)
      && (g.conn[r].source != null ==> g.conn[r].source in g.conn)
      && (g.conn[r].target != null ==> g.conn[r].target in g.conn)
  }

  ghost predicate LinkRefs(g: Graph) {
    && g.live <= g.ues
    && (forall p {:trigger p in g.flags} :: p in g.flags ==> p.ue in g.ues)
    && (forall p {:trigger g.links[p]} :: p in g.links ==> p.ue in g.ues && g.links[p] in g.conn)
  }

  predicate Live(g: Graph, r: RanUe) {
    r in g.conn && g.conn[r].amfId in g.pool && g.pool[g.conn[r].amfId] == r
  }

  function Access(g: Graph, r: RanUe): AccessType
    requires Closed(g) && r in g.conn
  {
    g.an[g.conn[r].ran]
  }

  // ----- single steps -----

  // AmfUe.DetachRanUe
  function DetachRanUe(g: Graph, ue: AmfUe, an: AccessType): (g': Graph)
    requires Closed(g) && ue in g.ues
    ensures Closed(g')
  {
    g.(idle := g.idle.Add(an, 1), connected := g.connected.Add(an, -1), links := g.links - {Port(ue, an)})
  }

  // RanUe.DetachAmfUe
  function DetachAmfUe(g: Graph, r: RanUe): (g': Graph)
    requires Closed(g) && r in g.conn
    ensures Closed(g')
  {
    g.(conn := g.conn[r := g.conn[r].(ue := null)])
  }

  // The bookkeeping half of RanUe.Remove: list, pool and id.
  function Unindex(g: Graph, r: RanUe): (g': Graph)
    requires Closed(g) && r in g.conn
    ensures Closed(g')
  {
    var c := g.conn[r];
    g.(lists := g.lists - {Slot(c.ran, c.ranId)}, pool := g.pool - {c.amfId}, used := g.used - {c.amfId})
  }

  // RanUe.Remove
  function Remove(g: Graph, r: RanUe): (g': Graph)
    requires Closed(g) && r in g.conn
    ensures Closed(g')
  {
    var c := g.conn[r];
    Unindex(if c.ue != null then DetachAmfUe(DetachRanUe(g, c.ue, Access(g, r)), r) else g, r)
  }

  // AmfRan.NewRanUe, for the allocated id and the new object
  function NewRanUe(g: Graph, ran: AmfRan, ranId: int, amfId: int, r: RanUe): (g': Graph)
    requires Closed(g) && ran in g.an && r !in g.conn
    ensures Closed(g')
  {
    g.(conn := g.conn[r := Conn(ranId, amfId, ran, null, null, null, null, N2NormalRelease, [])],
       lists := if ranId != UNSPECIFIED then g.lists[Slot(ran, ranId) := r] else g.lists,
       pool := g.pool[amfId := r],
       used := g.used + {amfId})
  }

  // RanUe.SwitchToRan
  function SwitchToRan(g: Graph, r: RanUe, newRan: AmfRan, ranId: int): (g': Graph)
    requires Closed(g) && r in g.conn && newRan in g.an
    ensures Closed(g')
  {
    var c := g.conn[r];
    g.(lists := (g.lists - {Slot(c.ran, c.ranId)})[Slot(newRan, ranId) := r],
       conn := g.conn[r := c.(ran := newRan, ranId := ranId)])
  }

  // handlePathSwitchRequestMain writes the new RAN id first, and calls SwitchToRan only
  // if a session could be switched.
  function PathSwitch(g: Graph, r: RanUe, newRan: AmfRan, ranId: int, switched: bool): (g': Graph)
    requires Closed(g) && r in g.conn && newRan in g.an
    ensures Closed(g')
  {
    var renamed := g.(conn := g.conn[r := g.conn[r].(ranId := ranId)]);
    if switched then SwitchToRan(renamed, r, newRan, ranId) else renamed
  }

  lemma ClosedIfRenamed(g: Graph, r: RanUe, ranId: int)
    requires Closed(g) && r in g.conn
    ensures Closed(g.(conn := g.conn[r := g.conn[r].(ranId := ranId)]))
  {
  }

  // The store at the head of the handover acknowledge
  function StoreRanId(g: Graph, ran: AmfRan, r: RanUe, ranId: int): (g': Graph)
    requires Closed(g) && r in g.conn && ran in g.an
    ensures Closed(g')
  {
    g.(conn := g.conn[r := g.conn[r].(ranId := ranId)], lists := g.lists[Slot(ran, ranId) := r])
  }

  // AmfUe.AttachRanUe
  function AttachRanUe(g: Graph, ue: AmfUe, r: RanUe): (g': Graph)
    requires Closed(g) && ue in g.ues && r in g.conn
    ensures Closed(g')
  {
    g.(links := g.links[Port(ue, Access(g, r)) := r], conn := g.conn[r := g.conn[r].(ue := ue)],
       preparing := g.preparing - {r})
  }

  // SendUEContextReleaseCommand records why it was sent.
  function ReleaseCommand(g: Graph, r: RanUe, action: RelAction): (g': Graph)
    requires Closed(g) && r in g.conn
    ensures Closed(g')
  {
    g.(conn := g.conn[r := g.conn[r].(action := action)])
  }

  // handleInitialUEMessageMain remembers the UE context that the message's identity names.
  function Hold(g: Graph, r: RanUe, ue: AmfUe?): (g': Graph)
    requires Closed(g) && r in g.conn && (ue != null ==> ue in g.ues)
    ensures Closed(g') && g'.conn.Keys == g.conn.Keys
  {
    g.(conn := g.conn[r := g.conn[r].(holding := ue)])
  }

  // HandleNAS with a valid security context: ClearHoldingRanUe detaches the held
  // context's connection from its side only.
  function LetGo(g: Graph, r: RanUe): (g': Graph)
    requires Closed(g) && r in g.conn
    ensures Closed(g')
  {
    var c := g.conn[r];
    if c.holding == null then g
    else
      var p := Port(c.holding, Access(g, r));
      Hold(if p in g.links then ReleaseCommand(DetachAmfUe(g, g.links[p]), g.links[p], ReleaseUeContext) else g, r, null)
  }

  // AttachRanUeToAmfUeAndReleaseOldIfAny: the old connection is let go, or the
  // gauges are told of a newly connected UE.
  function ReleaseOldOrCount(g: Graph, p: Port): (g': Graph)
    requires Closed(g) && p.ue in g.ues
    ensures Closed(g') && g'.conn.Keys == g.conn.Keys && g'.an == g.an && g'.ues == g.ues
  {
    if p in g.links then ReleaseCommand(DetachAmfUe(g, g.links[p]), g.links[p], ReleaseUeContext)
    else g.(idle := if p in g.flags then g.idle.Add(p.an, -1) else g.idle,
            connected := g.connected.Add(p.an, 1),
            flags := g.flags + {p})
  }

  function AttachAndReleaseOld(g: Graph, ue: AmfUe, r: RanUe): (g': Graph)
    requires Closed(g) && ue in g.ues && r in g.conn
    ensures Closed(g')
  {
    AttachRanUe(ReleaseOldOrCount(g, Port(ue, Access(g, r))), ue, r)
  }

  // AttachRanUeToAmfUeAndReleaseOldHandover
  function AttachAndReleaseSource(g: Graph, ue: AmfUe, source: RanUe?, target: RanUe): (g': Graph)
    requires Closed(g) && ue in g.ues && target in g.conn && (source != null ==> source in g.conn)
    ensures Closed(g')
  {
    AttachRanUe(if source != null then ReleaseCommand(DetachAmfUe(g, source), source, ReleaseHandover) else g, ue, target)
  }

  // AttachSourceUeTargetUe
  function PairSourceTarget(g: Graph, source: RanUe, target: RanUe): (g': Graph)
    requires Closed(g) && source in g.conn && target in g.conn
    ensures Closed(g')
  {
    if g.conn[source].ue == null then g
    else
      var g1 := g.(conn := g.conn[target := g.conn[target].(ue := g.conn[source].ue, source := source)],
                   preparing := g.preparing + {target});
      g1.(conn := g1.conn[source := g1.conn[source].(target := target)])
  }

  // DetachSourceUeTargetUe
  function Unpair(g: Graph, r: RanUe): (g': Graph)
    requires Closed(g) && r in g.conn
    ensures Closed(g') && g'.conn.Keys == g.conn.Keys && g'.ues == g.ues
  {
    var c := g.conn[r];
    if c.target != null then DropSource(DropTarget(g, r), c.target)
    else if c.source != null then DropTarget(DropSource(g, r), c.source)
    else g
  }

  function DropTarget(g: Graph, r: RanUe): (g': Graph)
    requires Closed(g) && r in g.conn
    ensures Closed(g') && g'.conn.Keys == g.conn.Keys && g'.ues == g.ues
  {
    g.(conn := g.conn[r := g.conn[r].(target := null)])
  }

  function DropSource(g: Graph, r: RanUe): (g': Graph)
    requires Closed(g) && r in g.conn
    ensures Closed(g') && g'.conn.Keys == g.conn.Keys && g'.ues == g.ues
  {
    g.(conn := g.conn[r := g.conn[r].(source := null)])
  }

  // NewAmfUe
  function NewUe(g: Graph, ue: AmfUe): (g': Graph)
    requires Closed(g) && ue !in g.ues
    ensures Closed(g')
  {
    g.(ues := g.ues + {ue}, live := g.live + {ue})
  }

  function RemoveLink(g: Graph, ue: AmfUe, an: AccessType): (g': Graph)
    requires Closed(g) && ue in g.ues
    ensures Closed(g') && g'.ues == g.ues
  {
    if Port(ue, an) in g.links then Remove(g, g.links[Port(ue, an)]) else g
  }

  // The end of AmfUe.Remove: the idle gauges give up every access the UE was ever connected on.
  function RetireUe(g: Graph, ue: AmfUe): (g': Graph)
    requires Closed(g)
    ensures Closed(g')
  {
    var idle1 := if Port(ue, ThreeGpp) in g.flags then g.idle.Add(ThreeGpp, -1) else g.idle;
    g.(idle := if Port(ue, NonThreeGpp) in g.flags then idle1.Add(NonThreeGpp, -1) else idle1, live := g.live - {ue})
  }

  // AmfUe.Remove; the map of its connections is visited in either order.
  function RemoveUe(g: Graph, ue: AmfUe, first: AccessType): (g': Graph)
    requires Closed(g) && ue in g.ues
    ensures Closed(g')
  {
    RetireUe(RemoveLink(RemoveLink(g, ue, first), ue, Other(first)), ue)
  }

  function RemoveListed(g: Graph, s: Slot): (g': Graph)
    requires Closed(g)
    ensures Closed(g')
  {
    if s in g.lists then Remove(g, g.lists[s]) else g
  }

  // What handleInitialUEMessageMain does to a connection that already has the RAN id.
  function DetachAndRemove(g: Graph, ran: AmfRan, r: RanUe): (g': Graph)
    requires Closed(g) && ran in g.an && r in g.conn
    ensures Closed(g') && g'.an == g.an && g'.conn.Keys == g.conn.Keys
  {
    var ue := g.conn[r].ue;
    Remove(if ue != null then DetachAmfUe(DetachRanUe(g, ue, g.an[ran]), r) else g, r)
  }

  function Forget(g: Graph, s: Slot): (g': Graph)
    requires Closed(g) && s.ran in g.an
    ensures Closed(g') && g'.an == g.an && g'.conn.Keys == g.conn.Keys
  {
    if s in g.lists then DetachAndRemove(g, s.ran, g.lists[s]) else g
  }

  // AmfRan.RemoveAllRanUe; ids is the order in which the list is visited.
  function RemoveAll(g: Graph, ran: AmfRan, ids: seq<int>): (g': Graph)
    requires Closed(g)
    ensures Closed(g')
  {
    if ids == [] then g
    else
      RemoveListed(RemoveAll(g, ran, ids[..|ids| - 1]), Slot(ran, ids[|ids| - 1]))
  }

  // ----- what the indexes agree on -----

  ghost predicate Pooled(g: Graph)
    requires Closed(g)
  {
    // the pool is keyed by each member's own id, and its ids are the allocated ones
    && g.pool.Keys == g.used
    && (forall id {:trigger g.pool[id]} :: id in g.pool ==> g.conn[g.pool[id]].amfId == id)
  }

  // A listed connection is live and sits under its own id on its own RAN.
  predicate SlotOk(g: Graph, s: Slot)
    requires Closed(g) && s in g.lists
  {
    var r := g.lists[s];
    Live(g, r) && s == Slot(g.conn[r].ran, g.conn[r].ranId) && s.id != UNSPECIFIED
  }

  ghost predicate ListedSoundly(g: Graph)
    requires Closed(g)
  {
    forall s {:trigger SlotOk(g, s)} :: s in g.lists ==> SlotOk(g, s)
  }

  ghost predicate Indexed(g: Graph) {
    Closed(g) && Pooled(g) && ListedSoundly(g)
  }

  // Every live connection with an assigned RAN id is listed.
  predicate ListedOk(g: Graph, r: RanUe)
    requires r in g.conn
  {
    var s := Slot(g.conn[r].ran, g.conn[r].ranId);
    Live(g, r) && s.id != UNSPECIFIED ==> s in g.lists && g.lists[s] == r
  }

  ghost predicate Listed(g: Graph) {
    Indexed(g) && forall r {:trigger ListedOk(g, r)} :: r in g.conn ==> ListedOk(g, r)
  }

  // The steps that touch only links, gauges and release actions.
  ghost predicate SameIndexes(g: Graph, g': Graph) {
    && g.pool == g'.pool && g.used == g'.used && g.lists == g'.lists && g.an == g'.an && g.conn.Keys == g'.conn.Keys
    && (forall r {:trigger g'.conn[r]} :: r in g.conn ==>
          && g.conn[r].ranId == g'.conn[r].ranId && g.conn[r].amfId == g'.conn[r].amfId && g.conn[r].ran == g'.conn[r].ran)
  }

  lemma SameIndexesKeepThem(g: Graph, g': Graph)
    requires Closed(g) && Closed(g') && SameIndexes(g, g')
    ensures Indexed(g) ==> Indexed(g')
    ensures Listed(g) ==> Listed(g')
    ensures forall r :: r in g.conn ==> Live(g, r) == Live(g', r)
  {
    forall s | Indexed(g) && s in g'.lists ensures SlotOk(g', s) { assert SlotOk(g, s); }
    forall r | Listed(g) && r in g'.conn ensures ListedOk(g', r) { assert ListedOk(g, r); }
  }

  lemma NewRanUeKeepsIndexes(g: Graph, ran: AmfRan, ranId: int, amfId: int, r: RanUe)
    requires Indexed(g) && ran in g.an && r !in g.conn && amfId !in g.used
    ensures var g' := NewRanUe(g, ran, ranId, amfId, r);
      && Indexed(g') && Live(g', r) && (forall q :: q in g.conn ==> Live(g', q) == Live(g, q))
      && (Listed(g) && (ranId == UNSPECIFIED || Slot(ran, ranId) !in g.lists) ==> Listed(g'))
  {
    var g' := NewRanUe(g, ran, ranId, amfId, r);
    forall q | q in g.conn ensures Live(g', q) == Live(g, q) {}
    forall s | s in g'.lists ensures SlotOk(g', s) {
      if g'.lists[s] != r { assert SlotOk(g, s); }
    }
    if Listed(g) && (ranId == UNSPECIFIED || Slot(ran, ranId) !in g.lists) {
      forall q | q in g'.conn ensures ListedOk(g', q) {
        if q != r { assert ListedOk(g, q); }
      }
    }
  }

  lemma UnindexKeepsIndexes(g: Graph, r: RanUe)
    requires Indexed(g) && Live(g, r)
    ensures var g' := Unindex(g, r);
      && Indexed(g') && !Live(g', r)
      && (forall q :: q in g.conn && q != r ==> Live(g', q) == Live(g, q))
      && (Listed(g) ==> Listed(g'))
  {
    var g' := Unindex(g, r);
    forall q | q in g.conn && q != r ensures Live(g', q) == Live(g, q) {}
    forall s | s in g'.lists ensures SlotOk(g', s) { assert SlotOk(g, s); }
    if Listed(g) {
      forall q | q in g'.conn ensures ListedOk(g', q) { assert ListedOk(g, q) && ListedOk(g, r); }
    }
  }

  lemma RemoveKeepsIndexes(g: Graph, r: RanUe)
    requires Indexed(g) && Live(g, r)
    ensures var g' := Remove(g, r);
      && Indexed(g') && !Live(g', r)
      && g'.lists == g.lists - {Slot(g.conn[r].ran, g.conn[r].ranId)}
      && (forall q :: q in g.conn && q != r ==> Live(g', q) == Live(g, q))
      && (Listed(g) ==> Listed(g'))
  {
    var c := g.conn[r];
    var detached := if c.ue != null then DetachAmfUe(DetachRanUe(g, c.ue, Access(g, r)), r) else g;
    SameIndexesKeepThem(g, detached);
    UnindexKeepsIndexes(detached, r);
  }

  lemma SwitchToRanKeepsIndexes(g: Graph, r: RanUe, newRan: AmfRan, ranId: int)
    requires Indexed(g) && Live(g, r) && newRan in g.an && ranId != UNSPECIFIED
    ensures var g' := SwitchToRan(g, r, newRan, ranId);
      var free := Slot(newRan, ranId) in g.lists ==> g.lists[Slot(newRan, ranId)] == r;
      && Indexed(g') && (forall q :: q in g.conn ==> Live(g', q) == Live(g, q))
      && (Listed(g) && free ==> Listed(g'))
  {
    var g' := SwitchToRan(g, r, newRan, ranId);
    forall q | q in g.conn ensures Live(g', q) == Live(g, q) {}
    forall s | s in g'.lists ensures SlotOk(g', s) {
      if s != Slot(newRan, ranId) { assert SlotOk(g, s); }
    }
    if Listed(g) && (Slot(newRan, ranId) in g.lists ==> g.lists[Slot(newRan, ranId)] == r) {
      forall q | q in g'.conn ensures ListedOk(g', q) { assert ListedOk(g, q) && ListedOk(g, r); }
    }
  }

  lemma StoreRanIdKeepsIndexes(g: Graph, r: RanUe, ranId: int)
    requires Indexed(g) && Live(g, r) && g.conn[r].ranId == UNSPECIFIED && ranId != UNSPECIFIED
    ensures var ran := g.conn[r].ran;
      var g' := StoreRanId(g, ran, r, ranId);
      && Indexed(g') && (forall q :: q in g.conn ==> Live(g', q) == Live(g, q))
      && (Listed(g) && Slot(ran, ranId) !in g.lists ==> Listed(g'))
  {
    var ran := g.conn[r].ran;
    var g' := StoreRanId(g, ran, r, ranId);
    forall q | q in g.conn ensures Live(g', q) == Live(g, q) {}
    forall s | s in g'.lists ensures SlotOk(g', s) {
      if s != Slot(ran, ranId) { assert SlotOk(g, s); }
    }
    if Listed(g) && Slot(ran, ranId) !in g.lists {
      forall q | q in g'.conn ensures ListedOk(g', q) { assert ListedOk(g, q); }
    }
  }

  // As the path switch writes the new RAN id before it calls SwitchToRan, the old list
  // entry is not the one that is deleted. This keeps the index exactly when the id does
  // not change.
  lemma PathSwitchKeepsIndexesExactly(g: Graph, r: RanUe, newRan: AmfRan, ranId: int, switched: bool)
    requires Listed(g) && Live(g, r) && newRan in g.an && ranId != UNSPECIFIED
    requires g.conn[r].ranId != UNSPECIFIED
    ensures Indexed(PathSwitch(g, r, newRan, ranId, switched)) <==> ranId == g.conn[r].ranId
  {
    var c := g.conn[r];
    var g' := PathSwitch(g, r, newRan, ranId, switched);
    assert ListedOk(g, r);
    if ranId == c.ranId {
      PathSwitchOfSameId(g, r, newRan, switched);
      SwitchToRanKeepsIndexes(g, r, newRan, ranId);
    } else {
      assert !SlotOk(g', Slot(c.ran, c.ranId));
    }
  }

  lemma PathSwitchOfSameId(g: Graph, r: RanUe, newRan: AmfRan, switched: bool)
    requires Closed(g) && r in g.conn && newRan in g.an
    ensures var id := g.conn[r].ranId;
      PathSwitch(g, r, newRan, id, switched) == if switched then SwitchToRan(g, r, newRan, id) else g
  {
    hide IndexRefs, ConnRefs, LinkRefs;
    assert g.conn[r := g.conn[r].(ranId := g.conn[r].ranId)] == g.conn;
  }

  // The loop of RemoveAllRanUe takes away exactly the entries it has visited.
  lemma {:induction false} RemoveAllEmptiesTheList(g: Graph, ran: AmfRan, ids: seq<int>)
    requires Indexed(g)
    ensures var g' := RemoveAll(g, ran, ids);
      && Indexed(g') && (Listed(g) ==> Listed(g'))
      && g'.lists == g.lists - (set id | id in ids :: Slot(ran, id))
  {
    hide Remove, IndexRefs, ConnRefs, LinkRefs, Pooled;
    if ids == [] {
      assert g.lists == g.lists - (set id | id in ids :: Slot(ran, id));
    } else {
      var front, s := ids[..|ids| - 1], Slot(ran, ids[|ids| - 1]);
      RemoveAllEmptiesTheList(g, ran, front);
      var g1 := RemoveAll(g, ran, front);
      assert ids == front + [s.id];
      assert (set id | id in ids :: Slot(ran, id)) == (set id | id in front :: Slot(ran, id)) + {s};
      if s in g1.lists {
        assert SlotOk(g1, s);
        RemoveKeepsIndexes(g1, g1.lists[s]);
      }
      assert RemoveAll(g, ran, ids).lists == g1.lists - {s};
    }
  }
}
