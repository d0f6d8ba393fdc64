// N2 handover inside one AMF: preparation, acknowledge, notify and the release of
// the source. HandoverRuns.dfy composes these steps to runs.

module Handover {
  import opened Basics
  import opened Context
  import opened Registry
  import opened ApId
  import opened Links
  import opened RegistryOps

  const MAX_NUM_OF_PDU_SESSIONS := 256

  // One item of the admitted list, with the SMF's answer: does it carry N2
  // information for the command, and does its error carry a transfer for the release list?
  datatype Item = Item(id: int, response: bool, errorResponse: bool)

  // ----- specification -----

  // The sessions of a list that have an SM context, in order
  function Having(ids: seq<int>, contexts: set<int>): (r: seq<int>)
    ensures |r| <= |ids|
  {
    if ids == [] then []
    else Having(ids[..|ids| - 1], contexts) + if ids[|ids| - 1] in contexts then [ids[|ids| - 1]] else []
  }

  function Admitted(items: seq<Item>, contexts: set<int>): (r: seq<int>)
    ensures |r| <= |items|
  {
    if items == [] then []
    else
      var last := items[|items| - 1];
      Admitted(items[..|items| - 1], contexts) + if last.id in contexts && last.response then [last.id] else []
  }

  function ToRelease(items: seq<Item>, contexts: set<int>): (r: seq<int>)
    ensures |r| <= |items|
  {
    if items == [] then []
    else
      var last := items[|items| - 1];
      ToRelease(items[..|items| - 1], contexts) + if last.id in contexts && last.errorResponse then [last.id] else []
  }

  // SendHandoverRequest: the target's connection is made and paired with the source,
  // unless the UE is gone or the source has a target already.
  function RequestHandover(g: Graph, source: RanUe, targetRan: AmfRan, amfId: int, target: RanUe): (g': Graph)
    requires Closed(g) && source in g.conn && targetRan in g.an && target !in g.conn
    ensures Closed(g')
  {
    if g.conn[source].ue == null || g.conn[source].target != null then g
    else PairSourceTarget(NewRanUe(g, targetRan, UNSPECIFIED, amfId, target), source, target)
  }

  function AppendSuccess(g: Graph, r: RanUe, ids: seq<int>): (g': Graph)
    requires Closed(g) && r in g.conn
    ensures Closed(g')
  {
    g.(conn := g.conn[r := g.conn[r].(success := g.conn[r].success + ids)])
  }

  // handleHandoverRequestAcknowledgeMain
  function AcceptTarget(g: Graph, ran: AmfRan, t: RanUe, ranId: Option<int>, admitted: seq<int>): (g': Graph)
    requires Closed(g) && ran in g.an && t in g.conn
    ensures Closed(g')
  {
    var g1 := if ranId.Some? then StoreRanId(g, ran, t, ranId.value) else g;
    if g1.conn[t].ue == null then g1 else AppendSuccess(g1, t, admitted)
  }

  // handleHandoverCancelMain: the target, if there is one, is asked to release.
  function CancelHandover(g: Graph, source: RanUe): (g': Graph)
    requires Closed(g) && source in g.conn
    ensures Closed(g')
  {
    if g.conn[source].target == null then g else ReleaseCommand(g, g.conn[source].target, ReleaseHandover)
  }

  // From either side it undoes the pairing; the target keeps the UE it was given.
  lemma UnpairUndoesPairing(g: Graph, source: RanUe, target: RanUe, fromSource: bool)
    requires Closed(g) && source in g.conn && target in g.conn && source != target && g.conn[source].ue != null
    requires g.conn[source].source == null && g.conn[source].target == null
    requires g.conn[target].source == null && g.conn[target].target == null
    ensures var paired := PairSourceTarget(g, source, target);
      && source in paired.conn && target in paired.conn
      && Unpair(paired, if fromSource then source else target)
         == g.(conn := g.conn[target := g.conn[target].(ue := g.conn[source].ue)], preparing := g.preparing + {target})
  {
    hide Closed, PairSourceTarget, Unpair;
    var paired := PairSourceTarget(g, source, target);
    PairedConns(g, source, target);
    UnpairedConns(paired, source);
    UnpairedConns(paired, target);
    var restored := Unpair(paired, if fromSource then source else target);
    forall r | r in g.conn ensures restored.conn[r] == if r == target then g.conn[r].(ue := g.conn[source].ue) else g.conn[r] {}
    assert restored.conn == g.conn[target := g.conn[target].(ue := g.conn[source].ue)];
  }

  lemma UnpairedConns(g: Graph, r: RanUe)
    requires Closed(g) && r in g.conn
    requires var c := g.conn[r]; (c.target != null ==> c.target in g.conn) && (c.source != null ==> c.source in g.conn)
    ensures var g' := Unpair(g, r);
      var c := g.conn[r];
      && g' == g.(conn := g'.conn) && g'.conn.Keys == g.conn.Keys
      && (c.target != null && c.target != r ==>
            forall q {:trigger g'.conn[q]} :: q in g.conn ==>
              g'.conn[q] == if q == r then c.(target := null) else if q == c.target then g.conn[q].(source := null) else g.conn[q])
      && (c.target == null && c.source != null && c.source != r ==>
            forall q {:trigger g'.conn[q]} :: q in g.conn ==>
              g'.conn[q] == if q == r then c.(source := null) else if q == c.source then g.conn[q].(target := null) else g.conn[q])
  {
    hide Closed, DropTarget, DropSource;
    var c := g.conn[r];
    DroppedConns(g, r);
    if c.target != null {
      DroppedConns(DropTarget(g, r), c.target);
    } else if c.source != null {
      DroppedConns(DropSource(g, r), c.source);
    }
  }

  lemma PairedConns(g: Graph, source: RanUe, target: RanUe)
    requires Closed(g) && source in g.conn && target in g.conn && source != target && g.conn[source].ue != null
    ensures var g' := PairSourceTarget(g, source, target);
      && g' == g.(conn := g'.conn, preparing := g.preparing + {target}) && g'.conn.Keys == g.conn.Keys
      && forall r {:trigger g'.conn[r]} :: r in g.conn ==>
           g'.conn[r] == if r == target then g.conn[r].(ue := g.conn[source].ue, source := source)
                         else if r == source then g.conn[r].(target := target) else g.conn[r]
  {
    hide IndexRefs, ConnRefs, LinkRefs;
  }

  lemma DroppedConns(g: Graph, r: RanUe)
    requires Closed(g) && r in g.conn
    ensures var g' := DropTarget(g, r);
      && g' == g.(conn := g'.conn) && g'.conn.Keys == g.conn.Keys
      && forall q {:trigger g'.conn[q]} :: q in g.conn ==> g'.conn[q] == if q == r then g.conn[r].(target := null) else g.conn[q]
    ensures var g' := DropSource(g, r);
      && g' == g.(conn := g'.conn) && g'.conn.Keys == g.conn.Keys
      && forall q {:trigger g'.conn[q]} :: q in g.conn ==> g'.conn[q] == if q == r then g.conn[r].(source := null) else g.conn[q]
  {
    hide IndexRefs, ConnRefs, LinkRefs;
  }

  // Steps that change no link, no UE pointer and no RAN
  ghost predicate SameLinks(g: Graph, g': Graph) {
    && g'.links == g.links && g'.an == g.an && g'.conn.Keys == g.conn.Keys
    && forall q {:trigger g'.conn[q]} :: q in g.conn ==> g'.conn[q].ran == g.conn[q].ran && g'.conn[q].ue == g.conn[q].ue
  }

  lemma UnpairKeeps(g: Graph, r: RanUe)
    requires Closed(g) && r in g.conn
    ensures SameLinks(g, Unpair(g, r))
  {
    hide DropTarget, DropSource, IndexRefs, LinkRefs;
    var c := g.conn[r];
    DroppingKeeps(g, r);
    if c.target != null {
      DroppingKeeps(DropTarget(g, r), c.target);
    } else if c.source != null {
      DroppingKeeps(DropSource(g, r), c.source);
    }
  }

  lemma DroppingKeeps(g: Graph, r: RanUe)
    requires Closed(g) && r in g.conn
    ensures SameLinks(g, DropTarget(g, r)) && SameLinks(g, DropSource(g, r))
  {
    hide IndexRefs, ConnRefs, LinkRefs;
  }

  // The release complete looks for the target by its AMF id.
  function TargetToAttach(g: Graph, r: RanUe): (t: RanUe?)
    requires Closed(g) && r in g.conn && g.conn[r].target != null
    ensures t != null ==> t in g.conn
  {
    var id := g.conn[g.conn[r].target].amfId;
    if id in g.pool then g.pool[id] else null
  }

  // How far a handler got: stopped says that it dereferenced a nil pointer.
  datatype Handled = Handled(graph: Graph, stopped: bool)

  // handleUEContextReleaseCompleteMain
  function ReleaseComplete(g: Graph, r: RanUe, first: AccessType): (h: Handled)
    requires Closed(g) && r in g.conn
    ensures Closed(h.graph)
  {
    var c := g.conn[r];
    if c.ue == null then Handled(Remove(g, r), false)
    else
      match c.action
      case N2NormalRelease => Handled(Remove(g, r), false)
      case ReleaseUeContext => Handled(RemoveUe(g, c.ue, first), false)
      case ReleaseHandover =>
        if c.target == null then Handled(g, true)
        else
          var g1 := Remove(Unpair(g, r), r);
          var t := TargetToAttach(g, r);
          if t != null then Handled(AttachAndReleaseOld(g1, c.ue, t), false) else Handled(g1, true)
  }

  // ----- what single steps find and change -----

  lemma FindsWithoutRanId(g: Graph, ran: AmfRan, amfId: int, ranId: Option<int>)
    requires Closed(g) && ran in g.an
    ensures var t := Find(g, ran, amfId, ranId, true, true).found; t != null ==> t in g.conn && g.conn[t].ranId == UNSPECIFIED
  {
  }

  lemma FoundIsKnown(g: Graph, ran: AmfRan, amfId: int, ranId: Option<int>, first: bool, send: bool)
    requires Closed(g) && ran in g.an
    ensures var l := Find(g, ran, amfId, ranId, first, send); l.found != null ==> l.found in g.conn && l.graph == g
  {
  }

  lemma FindsWithRanId(g: Graph, ran: AmfRan, amfId: int, ranId: int)
    requires Closed(g) && ran in g.an
    ensures var t := Find(g, ran, amfId, Some(ranId), false, true).found; t != null ==> t in g.conn && g.conn[t].ranId == ranId
  {
  }

  lemma AcceptTouches(g: Graph, ran: AmfRan, t: RanUe, ranId: Option<int>, admitted: seq<int>)
    requires Closed(g) && ran in g.an && t in g.conn
    ensures var c := g.conn[t];
      AcceptTarget(g, ran, t, ranId, admitted).conn ==
        g.conn[t := c.(ranId := if ranId.Some? then ranId.value else c.ranId,
                       success := if c.ue == null then c.success else c.success + admitted)]
  {
  }

  lemma HandOverTouches(g: Graph, ue: AmfUe, source: RanUe, target: RanUe)
    requires Closed(g) && ue in g.ues && source in g.conn && target in g.conn && source != target
    ensures AttachAndReleaseSource(g, ue, source, target).conn
            == g.conn[source := g.conn[source].(ue := null, action := ReleaseHandover)][target := g.conn[target].(ue := ue)]
  {
    hide IndexRefs, ConnRefs, LinkRefs;
  }

  lemma RequestMakesTarget(g: Graph, source: RanUe, ran: AmfRan, amfId: int, target: RanUe)
    requires Closed(g) && source in g.conn && ran in g.an && target !in g.conn
    requires g.conn[source].ue != null && g.conn[source].target == null
    ensures var g' := RequestHandover(g, source, ran, amfId, target);
      && g'.an == g.an && amfId in g'.pool && g'.pool[amfId] == target && target in g'.conn
      && g'.conn[target] == Conn(UNSPECIFIED, amfId, ran, g.conn[source].ue, null, source, null, N2NormalRelease, [])
  {
  }

  lemma AcceptKeepsPool(g: Graph, ran: AmfRan, t: RanUe, ranId: Option<int>, admitted: seq<int>)
    requires Closed(g) && ran in g.an && t in g.conn
    ensures var g' := AcceptTarget(g, ran, t, ranId, admitted); g'.pool == g.pool && g'.an == g.an
  {
  }

  // The list of completed sessions is the filtered list of the command.
  lemma {:induction false} HavingFilters(a: seq<int>, b: seq<int>, contexts: set<int>)
    ensures Having(a + b, contexts) == Having(a, contexts) + Having(b, contexts)
  {
    if b == [] {
      assert a + b == a;
    } else {
      var front, last := b[..|b| - 1], b[|b| - 1];
      HavingFilters(a, front, contexts);
      assert (a + b)[..|a + b| - 1] == a + front;
    }
  }

  lemma {:induction false} HavingHolds(ids: seq<int>, contexts: set<int>)
    ensures forall id :: id in Having(ids, contexts) <==> id in ids && id in contexts
  {
    if ids != [] {
      HavingHolds(ids[..|ids| - 1], contexts);
      assert ids == ids[..|ids| - 1] + [ids[|ids| - 1]];
    }
  }

  lemma {:induction false} HavingAll(ids: seq<int>, contexts: set<int>)
    requires forall id :: id in ids ==> id in contexts
    ensures Having(ids, contexts) == ids
  {
    if ids != [] {
      var front, last := ids[..|ids| - 1], ids[|ids| - 1];
      HavingAll(front, contexts);
      assert last in ids;
      assert ids == front + [last] == Having(ids, contexts);
    }
  }

  // The ids of the items at these positions, and of no others, in their order
  ghost predicate IdsAt(items: seq<Item>, chosen: set<nat>, ids: seq<int>, pos: seq<nat>) {
    && |pos| == |ids|
    && (forall k {:trigger pos[k]} :: 0 <= k < |pos| ==> pos[k] in chosen && pos[k] < |items| && ids[k] == items[pos[k]].id)
    && (forall j, k :: 0 <= j < k < |pos| ==> pos[j] < pos[k])
    && (forall i :: i in chosen ==> i in pos)
  }

  ghost predicate AreIdsAt(items: seq<Item>, chosen: set<nat>, ids: seq<int>) {
    exists pos :: IdsAt(items, chosen, ids, pos)
  }

  lemma NoIdsAt()
    ensures AreIdsAt([], {}, [])
  {
    assert IdsAt([], {}, [], []);
  }

  lemma OneMoreIdAt(items: seq<Item>, chosen: set<nat>, ids: seq<int>, last: Item)
    requires AreIdsAt(items, chosen, ids) && forall i :: i in chosen ==> i < |items|
    ensures AreIdsAt(items + [last], chosen, ids)
    ensures AreIdsAt(items + [last], chosen + {|items|}, ids + [last.id])
  {
    var pos: seq<nat> :| IdsAt(items, chosen, ids, pos);
    assert IdsAt(items + [last], chosen, ids, pos);
    var pos': seq<nat> := pos + [|items|];
    forall i | i in chosen + {|items|} ensures i in pos' {
      assert i == |items| ==> pos'[|pos|] == i;
    }
    assert IdsAt(items + [last], chosen + {|items|}, ids + [last.id], pos');
  }

  // As many as there are positions, and each of them one of the ids
  lemma AreIdsAtCounts(items: seq<Item>, chosen: set<nat>, ids: seq<int>)
    requires AreIdsAt(items, chosen, ids)
    ensures |ids| == |chosen|
    ensures forall i :: i in chosen ==> i < |items| && items[i].id in ids
    ensures forall id :: id in ids ==> exists i :: i in chosen && i < |items| && items[i].id == id
  {
    var pos: seq<nat> :| IdsAt(items, chosen, ids, pos);
    DistinctCount(pos);
    assert chosen == set i: nat | i in pos;
    forall i | i in chosen ensures i < |items| && items[i].id in ids {
      var k :| 0 <= k < |pos| && pos[k] == i;
      assert ids[k] == items[i].id;
    }
    forall id | id in ids ensures exists i :: i in chosen && i < |items| && items[i].id == id {
      var k :| 0 <= k < |ids| && ids[k] == id;
      assert pos[k] in chosen;
    }
  }

  lemma {:induction false} DistinctCount(pos: seq<nat>)
    requires forall j, k :: 0 <= j < k < |pos| ==> pos[j] < pos[k]
    ensures |set i: nat | i in pos| == |pos|
  {
    if pos != [] {
      var front, last := pos[..|pos| - 1], pos[|pos| - 1];
      DistinctCount(front);
      var before := set i: nat | i in front;
      assert last !in before;
      assert (set i: nat | i in pos) == before + {last} by {
        assert pos == front + [last];
      }
    }
  }

  ghost function Answered(items: seq<Item>, contexts: set<int>): set<nat> {
    set i: nat | i < |items| && items[i].response && items[i].id in contexts
  }

  ghost function Refused(items: seq<Item>, contexts: set<int>): set<nat> {
    set i: nat | i < |items| && items[i].errorResponse && items[i].id in contexts
  }

  // The sessions handed over are those of the items with an SM context and a response, one
  // for each such item and in their order.
  lemma {:induction false} AdmittedAreAnswered(items: seq<Item>, contexts: set<int>)
    ensures AreIdsAt(items, Answered(items, contexts), Admitted(items, contexts))
  {
    hide AreIdsAt;
    if items == [] {
      NoIdsAt();
      assert Answered(items, contexts) == {};
    } else {
      var n, front, last := |items| - 1, items[..|items| - 1], items[|items| - 1];
      AdmittedAreAnswered(front, contexts);
      OneMoreIdAt(front, Answered(front, contexts), Admitted(front, contexts), last);
      assert front + [last] == items;
      if last.response && last.id in contexts {
        assert Answered(items, contexts) == Answered(front, contexts) + {n};
      } else {
        assert Answered(items, contexts) == Answered(front, contexts);
        assert Admitted(items, contexts) == Admitted(front, contexts);
      }
    }
  }

  // The sessions released are those with an SM context and an error response.
  lemma {:induction false} ReleasedAreRefused(items: seq<Item>, contexts: set<int>)
    ensures AreIdsAt(items, Refused(items, contexts), ToRelease(items, contexts))
  {
    hide AreIdsAt;
    if items == [] {
      NoIdsAt();
      assert Refused(items, contexts) == {};
    } else {
      var n, front, last := |items| - 1, items[..|items| - 1], items[|items| - 1];
      ReleasedAreRefused(front, contexts);
      OneMoreIdAt(front, Refused(front, contexts), ToRelease(front, contexts), last);
      assert front + [last] == items;
      if last.errorResponse && last.id in contexts {
        assert Refused(items, contexts) == Refused(front, contexts) + {n};
      } else {
        assert Refused(items, contexts) == Refused(front, contexts);
        assert ToRelease(items, contexts) == ToRelease(front, contexts);
      }
    }
  }

  // So a session is in one of the lists exactly if it has an SM context and an item with
  // its id says so, and the list has as many entries as there are such items.
  lemma ListsExactly(items: seq<Item>, contexts: set<int>)
    ensures var sessions := Admitted(items, contexts);
      && AreIdsAt(items, (set i: nat | i < |items| && items[i].response && items[i].id in contexts), sessions)
      && (forall id :: id in sessions <==>
            id in contexts && exists i :: 0 <= i < |items| && items[i].id == id && items[i].response)
      && |sessions| == |set i: nat | i < |items| && items[i].response && items[i].id in contexts|
    ensures var released := ToRelease(items, contexts);
      && AreIdsAt(items, (set i: nat | i < |items| && items[i].errorResponse && items[i].id in contexts), released)
      && (forall id :: id in released <==>
            id in contexts && exists i :: 0 <= i < |items| && items[i].id == id && items[i].errorResponse)
      && |released| == |set i: nat | i < |items| && items[i].errorResponse && items[i].id in contexts|
  {
    hide AreIdsAt, Admitted, ToRelease;
    AdmittedAreAnswered(items, contexts);
    AreIdsAtCounts(items, Answered(items, contexts), Admitted(items, contexts));
    ReleasedAreRefused(items, contexts);
    AreIdsAtCounts(items, Refused(items, contexts), ToRelease(items, contexts));
    forall i | 0 <= i < |items| && items[i].id in contexts
      ensures items[i].response ==> items[i].id in Admitted(items, contexts)
      ensures items[i].errorResponse ==> items[i].id in ToRelease(items, contexts)
    {
      assert items[i].response ==> i in Answered(items, contexts);
      assert items[i].errorResponse ==> i in Refused(items, contexts);
    }
  }

  lemma AllAdmittedHave(items: seq<Item>, contexts: set<int>)
    ensures AreIdsAt(items, (set i: nat | i < |items| && items[i].response && items[i].id in contexts),
                     Having(Admitted(items, contexts), contexts))
  {
    hide AreIdsAt;
    ListsExactly(items, contexts);
    HavingAll(Admitted(items, contexts), contexts);
  }

  // Both are made piece by piece, so they keep order and repetitions.
  lemma {:induction false} ListsOfPieces(a: seq<Item>, b: seq<Item>, contexts: set<int>)
    ensures Admitted(a + b, contexts) == Admitted(a, contexts) + Admitted(b, contexts)
    ensures ToRelease(a + b, contexts) == ToRelease(a, contexts) + ToRelease(b, contexts)
  {
    if b == [] {
      assert a + b == a;
    } else {
      hide *;
      ListsOfPieces(a, b[..|b| - 1], contexts);
      assert (a + b)[..|a + b| - 1] == a + b[..|b| - 1];
      OneMoreListed(b, contexts);
      OneMoreListed(a + b, contexts);
    }
  }

  lemma OneMoreListed(items: seq<Item>, contexts: set<int>)
    requires items != []
    ensures var front, last := items[..|items| - 1], items[|items| - 1];
      && Admitted(items, contexts)
         == Admitted(front, contexts) + (if last.id in contexts && last.response then [last.id] else [])
      && ToRelease(items, contexts)
         == ToRelease(front, contexts) + (if last.id in contexts && last.errorResponse then [last.id] else [])
  {
  }

  // ----- what single steps guarantee -----

  // What a release complete does, by what the release was asked for. Without a UE, and after
  // a normal release, the connection goes and no other changes.
  lemma NormalReleaseExactly(g: Graph, r: RanUe, first: AccessType)
    requires Indexed(g) && Live(g, r) && (g.conn[r].ue == null || g.conn[r].action == N2NormalRelease)
    ensures var h := ReleaseComplete(g, r, first);
      && !h.stopped && h.graph.live == g.live && h.graph.ues == g.ues && h.graph.conn.Keys == g.conn.Keys
      && (forall q {:trigger Live(h.graph, q)} :: q in g.conn ==> Live(h.graph, q) == (Live(g, q) && q != r))
      && (forall q :: q in g.conn && q != r ==> h.graph.conn[q] == g.conn[q])
      && (forall p :: p in h.graph.links ==> p in g.links && h.graph.links[p] == g.links[p])
  {
  }

  // If its UE context is to be released, that context goes with all its links, and whatever
  // belongs to other UEs stays.
  lemma ContextReleaseExactly(g: Graph, r: RanUe, first: AccessType)
    requires Linked(g) && Indexed(g) && Live(g, r) && g.conn[r].ue != null && g.conn[r].action == ReleaseUeContext
    ensures var h, ue := ReleaseComplete(g, r, first), g.conn[r].ue;
      && !h.stopped && h.graph.live == g.live - {ue} && h.graph.conn.Keys == g.conn.Keys
      && h.graph.links == (map p | p in g.links && p.ue != ue :: g.links[p])
      && (forall q {:trigger Live(h.graph, q)} :: q in g.conn ==>
            Live(h.graph, q) == (Live(g, q) && !(Port(ue, Access(g, q)) in g.links && g.links[Port(ue, Access(g, q))] == q)))
  {
    hide RemoveUe, Linked, Pooled, ListedSoundly, IndexRefs, LinkRefs;
    ContextGoes(g, g.conn[r].ue, first);
  }

  lemma ContextGoes(g: Graph, ue: AmfUe, first: AccessType)
    requires Linked(g) && Closed(g) && ue in g.ues
    ensures var g' := RemoveUe(g, ue, first);
      && g'.live == g.live - {ue} && g'.conn.Keys == g.conn.Keys
      && g'.links == (map p | p in g.links && p.ue != ue :: g.links[p])
      && (forall q {:trigger Live(g', q)} :: q in g.conn ==>
            Live(g', q) == (Live(g, q) && !(Port(ue, Access(g, q)) in g.links && g.links[Port(ue, Access(g, q))] == q)))
  {
    hide RemoveLink, Linked, Closed;
    LinkOnOneAccessGoes(g, ue, first);
    var g1 := RemoveLink(g, ue, first);
    LinkOnOneAccessGoes(g1, ue, Other(first));
    var g2 := RemoveLink(g1, ue, Other(first));
    var p1, p2, g' := Port(ue, first), Port(ue, Other(first)), RemoveUe(g, ue, first);
    if p1 in g.links { LinkIsOfItsAccess(g, p1); }
    if p2 in g.links { LinkIsOfItsAccess(g, p2); }
    forall q | q in g.conn
      ensures Live(g', q) == (Live(g, q) && !(Port(ue, Access(g, q)) in g.links && g.links[Port(ue, Access(g, q))] == q))
    {
      assert Live(g', q) == Live(g2, q);
      assert Access(g, q) == first || Access(g, q) == Other(first);
      assert p2 in g1.links ==> g1.links[p2] == g.links[p2];
    }
    assert forall p :: p in g.links && p.ue == ue ==> p == Port(ue, first) || p == Port(ue, Other(first));
  }

  lemma LinkIsOfItsAccess(g: Graph, p: Port)
    requires Linked(g) && p in g.links
    ensures g.links[p] in g.conn && Access(g, g.links[p]) == p.an
  {
    assert LinkOk(g, p);
  }

  lemma LinkOnOneAccessGoes(g: Graph, ue: AmfUe, an: AccessType)
    requires Linked(g) && ue in g.ues
    ensures var g', p := RemoveLink(g, ue, an), Port(ue, an);
      && Linked(g') && g'.live == g.live && g'.conn.Keys == g.conn.Keys && g'.links == g.links - {p} && g'.an == g.an
      && (forall q {:trigger Live(g', q)} :: q in g.conn ==>
            && Live(g', q) == (Live(g, q) && !(p in g.links && g.links[p] == q))
            && Access(g', q) == Access(g, q))
  {
    hide RemoveLink, Pooled, ListedSoundly, IndexRefs, LinkRefs, PointersAreLinks, Conserved;
    RemoveLinkKeepsLinks(g, ue, an);
    if Port(ue, an) in g.links {
      assert LinkOk(g, Port(ue, an));
    }
    LinkedOneGoes(g, Port(ue, an));
  }

  lemma LinkedOneGoes(g: Graph, p: Port)
    requires Indexed(g) && p.ue in g.ues && (p in g.links ==> Live(g, g.links[p]))
    ensures var g' := RemoveLink(g, p.ue, p.an);
      && g'.conn.Keys == g.conn.Keys && g'.an == g.an
      && (forall q {:trigger Live(g', q)} :: q in g.conn ==>
            && Live(g', q) == (Live(g, q) && !(p in g.links && g.links[p] == q))
            && Access(g', q) == Access(g, q))
  {
    hide IndexRefs, LinkRefs, ListedSoundly;
  }

  // After a handover the target, if it is there, gets the UE, and the source goes.
  lemma SourceReleaseExactly(g: Graph, r: RanUe, first: AccessType)
    requires Indexed(g) && Live(g, r) && g.conn[r].ue != null && g.conn[r].action == ReleaseHandover
    ensures var h, t, ue := ReleaseComplete(g, r, first), g.conn[r].target, g.conn[r].ue;
      && (t == null ==> h == Handled(g, true))
      && (t != null && t != r && Live(g, t) ==>
            && !h.stopped && !Live(h.graph, r) && Live(h.graph, t) && t in h.graph.conn
            && h.graph.conn[t].ue == ue && h.graph.conn[t].source == null
            && (var p := Port(ue, Access(g, t)); p in h.graph.links && h.graph.links[p] == t))
  {
    hide Unpair, Remove, AttachAndReleaseOld, IndexRefs, LinkRefs, Pooled, ListedSoundly;
    var t, ue := g.conn[r].target, g.conn[r].ue;
    if t != null && t != r && Live(g, t) {
      UnpairKeeps(g, r);
      UnpairedConns(g, r);
      var g0 := Unpair(g, r);
      var g1 := Remove(g0, r);
      RemovedIsGone(g0, r, t);
      AttachLetsTheOldGo(g1, ue, t);
      AttachKeepsLife(g1, ue, t);
    }
  }

  lemma RemovedIsGone(g: Graph, r: RanUe, t: RanUe)
    requires Closed(g) && Live(g, r) && Live(g, t) && t != r
    ensures var g' := Remove(g, r);
      && !Live(g', r) && Live(g', t) && g'.an == g.an && g'.ues == g.ues && g'.conn.Keys == g.conn.Keys
      && g'.conn[t] == g.conn[t]
  {
  }

  lemma AttachKeepsLife(g: Graph, ue: AmfUe, t: RanUe)
    requires Closed(g) && ue in g.ues && t in g.conn
    ensures var g' := AttachAndReleaseOld(g, ue, t);
      && (forall q {:trigger Live(g', q)} :: Live(g', q) == Live(g, q)) && g'.conn[t].source == g.conn[t].source
  {
    hide IndexRefs, LinkRefs, ReleaseOldOrCount;
    OldOneGoes(g, Port(ue, Access(g, t)));
  }

  // If a UE is attached to the source again, the release takes the target from its UE:
  // the target keeps its UE exactly when the source has none or the same.
  lemma ReleaseSparesTargetExactly(g: Graph, source: RanUe, target: RanUe, first: AccessType)
    requires Closed(g) && source in g.conn && Live(g, target) && source != target && Attached(g, target)
    requires g.conn[source].action == ReleaseHandover && g.conn[source].target == target
    ensures var g' := ReleaseComplete(g, source, first).graph;
      var ue := g.conn[target].ue;
      Attached(g', target) && g'.conn[target].ue == ue <==> g.conn[source].ue == null || g.conn[source].ue == ue
  {
    hide Remove;
    var c := g.conn[source];
    if c.ue == null {
      ReleaseOfTheUnattached(g, source);
    } else {
      var g1 := Remove(Unpair(g, source), source);
      RemoveKeepsRans(Unpair(g, source), source);
      AttachLinks(g1, c.ue, target);
    }
  }

  lemma ReleaseOfTheUnattached(g: Graph, r: RanUe)
    requires Closed(g) && r in g.conn && g.conn[r].ue == null
    ensures var g' := Remove(g, r); g'.links == g.links && g'.conn == g.conn && g'.an == g.an
  {
  }

  lemma RemoveKeepsRans(g: Graph, r: RanUe)
    requires Closed(g) && r in g.conn
    ensures var g' := Remove(g, r);
      && g'.an == g.an && g'.ues == g.ues && g'.conn.Keys == g.conn.Keys
      && forall q :: q in g.conn ==> g'.conn[q].ran == g.conn[q].ran
  {
  }

  lemma AttachLinks(g: Graph, ue: AmfUe, r: RanUe)
    requires Closed(g) && ue in g.ues && r in g.conn
    ensures var g' := AttachAndReleaseOld(g, ue, r); Attached(g', r) && g'.conn[r].ue == ue
  {
  }

  // An acknowledge closes the target to further ones exactly when it carries a RAN id
  // that is not the reserved one.
  lemma AcknowledgeClosesTargetExactly(
    g: Graph, ran: AmfRan, amfId: int, ranId: Option<int>, admitted: seq<int>, again: Option<int>)
    requires Closed(g) && ran in g.an && Find(g, ran, amfId, ranId, true, true).found != null
    ensures var t := Find(g, ran, amfId, ranId, true, true).found;
      var g' := AcceptTarget(g, ran, t, ranId, admitted);
      (Find(g', ran, amfId, again, true, true).found == t) <==> ranId.None? || ranId.value == UNSPECIFIED
  {
    hide IndexRefs, ConnRefs, LinkRefs, RemoveByInvalidUe;
    FindsWithoutRanId(g, ran, amfId, ranId);
    var t := g.pool[amfId];
    AcceptTouches(g, ran, t, ranId, admitted);
  }

  // ----- the methods -----

  // SendHandoverRequest; of the list of sessions and the transparent container only
  // the lengths matter here.
  method SendHandoverRequest(self: AmfContext, source: RanUe, targetRan: AmfRan, listLength: nat, containerLength: nat)
    returns (target: RanUe?)
    requires Closed(self.View()) && source in self.ranUes && targetRan in self.rans
    modifies self`ranUes, self`ranUePool, self`usedIds, self`preparing, targetRan`ranUeList, source`targetUe
    ensures target == null ==> self.View() == old(self.View())
    ensures target == null <==>
              || old(source.amfUe) == null || old(source.targetUe) != null
              || listLength > MAX_NUM_OF_PDU_SESSIONS || containerLength == 0
              || forall i :: 1 <= i <= MAX_AMF_UE_NGAP_ID ==> i in old(self.usedIds)
    ensures target != null ==>
              && fresh(target) && target.amfUeNgapId !in old(self.usedIds)
              && old(source in self.View().conn && targetRan in self.View().an)
              && target !in old(self.View()).conn
              && self.View() == RequestHandover(old(self.View()), source, targetRan, target.amfUeNgapId, target)
  {
    hide AmfContext.View, IndexRefs, ConnRefs, LinkRefs, NewRanUe, PairSourceTarget;
    self.Look();
    self.LookAtConn(source);
    if source.amfUe == null || source.targetUe != null { return null; }
    if listLength > MAX_NUM_OF_PDU_SESSIONS || containerLength == 0 { return null; }
    var result := self.NewRanUe(targetRan, UNSPECIFIED);
    if result.None? { return null; }
    target := result.value;
    self.Look();
    self.AttachSourceUeTargetUe(source, target);
  }

  // handleHandoverCancelMain
  method HandleHandoverCancel(self: AmfContext, source: RanUe)
    requires Closed(self.View()) && source in self.ranUes
    modifies self.ranUes`releaseAction
    ensures self.View() == CancelHandover(old(self.View()), source)
  {
    self.Look();
    self.LookAtConn(source);
    hide AmfContext.View;
    if source.targetUe != null {
      self.SendUEContextReleaseCommand(source.targetUe, ReleaseHandover);
    }
  }

  // DetachSourceUeTargetUe
  method DetachSourceUeTargetUe(self: AmfContext, r: RanUe)
    requires Closed(self.View()) && r in self.ranUes
    modifies self.ranUes`sourceUe, self.ranUes`targetUe, self.ranUes`amfUe
    ensures self.View() == Unpair(old(self.View()), r)
  {
    self.Look();
    self.LookAtConn(r);
    if r.targetUe != null {
      var target := r.targetUe;
      self.SetTarget(r, null);
      self.Look();
      self.LookAtConn(target);
      hide AmfContext.View;
      self.SetSource(target, target.amfUe, null);
    } else if r.sourceUe != null {
      var source := r.sourceUe;
      self.SetSource(r, r.amfUe, null);
      self.Look();
      self.LookAtConn(source);
      hide AmfContext.View;
      self.SetTarget(source, null);
    }
  }

  // The loop over the admitted list: each session with an SM context is offered to the SMF.
  method PrepareSessions(self: AmfContext, t: RanUe, items: seq<Item>, contexts: set<int>)
    returns (handoverList: seq<int>, releaseList: seq<int>)
    requires Closed(self.View()) && t in self.ranUes
    modifies t`successPduSessionId
    ensures handoverList == Admitted(items, contexts) && releaseList == ToRelease(items, contexts)
    ensures AreIdsAt(items, (set i: nat | i < |items| && items[i].response && items[i].id in contexts), handoverList)
    ensures AreIdsAt(items, (set i: nat | i < |items| && items[i].errorResponse && items[i].id in contexts), releaseList)
    ensures self.View() == AppendSuccess(old(self.View()), t, handoverList)
  {
    ListsExactly(items, contexts);
    self.LookAtConn(t);
    hide AmfContext.View, IndexRefs, ConnRefs, LinkRefs, AreIdsAt;
    ghost var g := self.View();
    handoverList, releaseList := [], [];
    assert g.conn[t].success + [] == g.conn[t].success;
    assert AppendSuccess(g, t, []).conn == g.conn;
    for i := 0 to |items|
      invariant handoverList == Admitted(items[..i], contexts) && releaseList == ToRelease(items[..i], contexts)
      invariant t in self.ranUes && self.View() == AppendSuccess(g, t, handoverList)
    {
      assert items[..i + 1][..i] == items[..i];
      var item := items[i];
      if item.id in contexts {
        if item.response {
          self.LookAtConn(t);
          AppendOneMore(g, t, handoverList, item.id);
          handoverList := handoverList + [item.id];
          self.SetSuccess(t, t.successPduSessionId + [item.id]);
        }
        if item.errorResponse {
          releaseList := releaseList + [item.id];
        }
      }
    }
    assert items[..|items|] == items;
  }

  lemma AppendOneMore(g: Graph, t: RanUe, ids: seq<int>, id: int)
    requires Closed(g) && t in g.conn
    ensures var g1 := AppendSuccess(g, t, ids);
      AppendSuccess(g, t, ids + [id]) == g1.(conn := g1.conn[t := g1.conn[t].(success := g1.conn[t].success + [id])])
  {
    hide IndexRefs, ConnRefs, LinkRefs;
    assert g.conn[t].success + (ids + [id]) == g.conn[t].success + ids + [id];
  }

  lemma NoneAdmitted(items: seq<Item>, contexts: set<int>)
    ensures Admitted(items, contexts) == [] <==>
              forall i :: 0 <= i < |items| && items[i].response ==> items[i].id !in contexts
  {
    ListsExactly(items, contexts);
    var sessions := Admitted(items, contexts);
    assert sessions != [] ==> sessions[0] in sessions;
  }

  // What is sent towards the source: a HandoverCommand with its two lists, a
  // HandoverPreparationFailure, or nothing.
  datatype Answer = NoAnswer | HandoverCommand(sessions: seq<int>, released: seq<int>) | PreparationFailure

  method HandleHandoverRequestAcknowledge(
    self: AmfContext, ran: AmfRan, t: RanUe, ranId: Option<int>, items: seq<Item>, contexts: set<int>)
    returns (answer: Answer)
    requires Closed(self.View()) && ran in self.rans && t in self.ranUes
    modifies ran`ranUeList, t`ran, t`ranUeNgapId, t`successPduSessionId
    ensures self.View() == AcceptTarget(old(self.View()), ran, t, ranId, Admitted(items, contexts))
    ensures answer.HandoverCommand? <==>
              && old(t.amfUe) != null && old(t.sourceUe) != null
              && 0 < |Admitted(items, contexts)| <= MAX_NUM_OF_PDU_SESSIONS
              && |ToRelease(items, contexts)| <= MAX_NUM_OF_PDU_SESSIONS
    ensures answer.HandoverCommand? ==>
              answer.sessions == Admitted(items, contexts) && answer.released == ToRelease(items, contexts)
    ensures answer.PreparationFailure? <==>
              old(t.amfUe) != null && old(t.sourceUe) != null
              && forall i :: 0 <= i < |items| && items[i].response ==> items[i].id !in contexts
    ensures answer.HandoverCommand? ==>
              && AreIdsAt(items, (set i: nat | i < |items| && items[i].response && items[i].id in contexts), answer.sessions)
              && AreIdsAt(items, (set i: nat | i < |items| && items[i].errorResponse && items[i].id in contexts), answer.released)
              && t.successPduSessionId == old(t.successPduSessionId) + answer.sessions
  {
    NoneAdmitted(items, contexts);
    ListsExactly(items, contexts);
    self.Look();
    self.LookAtConn(t);
    hide AmfContext.View, IndexRefs, ConnRefs, LinkRefs;
    if ranId.Some? {
      self.StoreRanId(ran, t, ranId.value);
    }
    if t.amfUe == null { return NoAnswer; }
    var handoverList, releaseList := PrepareSessions(self, t, items, contexts);
    if t.sourceUe == null { return NoAnswer; }
    if |handoverList| == 0 { return PreparationFailure; }
    if |handoverList| > MAX_NUM_OF_PDU_SESSIONS || |releaseList| > MAX_NUM_OF_PDU_SESSIONS { return NoAnswer; }
    answer := HandoverCommand(handoverList, releaseList);
  }

  // handleHandoverNotifyMain: the sessions for which completion is reported, in order
  method HandleHandoverNotify(self: AmfContext, t: RanUe, contexts: set<int>) returns (completed: seq<int>)
    requires Closed(self.View()) && t in self.ranUes
    modifies self`preparing, self.ues`ranUe, self.ranUes`amfUe, self.ranUes`releaseAction
    ensures var g := old(self.View());
      && t in g.conn
      && var c := g.conn[t];
         if c.ue == null || c.source == null then self.View() == g && completed == []
         else self.View() == AttachAndReleaseSource(g, c.ue, c.source, t) && completed == Having(c.success, contexts)
  {
    self.Look();
    self.LookAtConn(t);
    hide AmfContext.View;
    completed := [];
    if t.amfUe == null || t.sourceUe == null { return; }
    var ids := t.successPduSessionId;
    for i := 0 to |ids|
      invariant completed == Having(ids[..i], contexts)
    {
      assert ids[..i + 1][..i] == ids[..i];
      if ids[i] in contexts {
        completed := completed + [ids[i]];
      }
    }
    assert ids[..|ids|] == ids;
    self.AttachRanUeToAmfUeAndReleaseOldHandover(t.amfUe, t.sourceUe, t);
  }

  // handleUEContextReleaseCompleteMain; stopped says where a nil pointer ends it.
  method HandleUEContextReleaseComplete(self: AmfContext, r: RanUe) returns (stopped: bool, ghost first: AccessType)
    requires Closed(self.View()) && r in self.ranUes
    modifies self`ranUePool, self`usedIds, self`connected, self`idle, self`live, self`preparing, self.rans`ranUeList,
             self.ranUes`amfUe, self.ranUes`releaseAction, self.ranUes`sourceUe, self.ranUes`targetUe,
             self.ues`ranUe, self.ues`anTypeFlags
    ensures Handled(self.View(), stopped) == ReleaseComplete(old(self.View()), r, first)
  {
    self.Look();
    self.LookAtConn(r);
    hide AmfContext.View;
    first, stopped := ThreeGpp, false;
    if r.amfUe == null {
      self.Remove(r);
      return;
    }
    match r.releaseAction
    case N2NormalRelease => self.Remove(r);
    case ReleaseUeContext => first := self.RemoveAmfUe(r.amfUe);
    case ReleaseHandover => stopped := ReleaseSource(self, r, r.amfUe);
  }

  method ReleaseSource(self: AmfContext, r: RanUe, ue: AmfUe) returns (stopped: bool)
    requires Closed(self.View()) && r in self.ranUes && ue in self.ues && r.amfUe == ue && r.releaseAction == ReleaseHandover
    modifies self`ranUePool, self`usedIds, self`connected, self`idle, self`preparing, self.rans`ranUeList,
             self.ranUes`amfUe, self.ranUes`releaseAction, self.ranUes`sourceUe, self.ranUes`targetUe,
             self.ues`ranUe, self.ues`anTypeFlags
    ensures Handled(self.View(), stopped) == ReleaseComplete(old(self.View()), r, ThreeGpp)
  {
    hide AmfContext.View, IndexRefs, LinkRefs, Remove, Unpair, AttachAndReleaseOld;
    self.Look();
    self.LookAtConn(r);
    if r.targetUe == null { return true; }
    self.LookAtConn(r.targetUe);
    var id := r.targetUe.amfUeNgapId;
    var target: RanUe? := if id in self.ranUePool then self.ranUePool[id] else null;
    if target != null { self.LookAtPool(id); }
    UnpairThenRemove(self, r);
    self.Look();
    if target == null { return true; }
    self.AttachRanUeToAmfUeAndReleaseOldIfAny(ue, target);
    stopped := false;
  }

  method UnpairThenRemove(self: AmfContext, r: RanUe)
    requires Closed(self.View()) && r in self.ranUes
    modifies self`ranUePool, self`usedIds, self`connected, self`idle, self.rans`ranUeList,
             self.ranUes`amfUe, self.ranUes`sourceUe, self.ranUes`targetUe, self.ues`ranUe
    ensures self.View() == Remove(Unpair(old(self.View()), r), r)
  {
    hide AmfContext.View, IndexRefs, ConnRefs, LinkRefs, Remove, Unpair;
    DetachSourceUeTargetUe(self, r);
    self.Look();
    self.Remove(r);
  }
}
