// Whole runs of registry operations, in any order and number.

module RegistryRuns {
  import opened Basics
  import opened Context
  import opened Registry
  import opened Links
  import opened ApId
  import opened RegistrySteps
  import Handover

  datatype Event =
    | NewConnection(ran: AmfRan, ranId: int, amfId: int, r: RanUe)
    | Replacement(ran: AmfRan, ranId: int, amfId: int, r: RanUe)
    | Removal(r: RanUe)
    | Switch(r: RanUe, newRan: AmfRan, ranId: int)
    | PathSwitch(r: RanUe, newRan: AmfRan, ranId: int, switched: bool)
    | RemovalOfAll(ran: AmfRan, order: seq<int>)
    | Acknowledge(r: RanUe, ranId: int)
    | Search(ran: AmfRan, amfId: int, remoteId: Option<int>, first: bool, send: bool)
    | NewContext(ue: AmfUe)
    | Hold(r: RanUe, ue: AmfUe)
    | LetGo(r: RanUe)
    | Attach(ue: AmfUe, r: RanUe)
    | Prepare(source: RanUe, target: RanUe)
    | HandOver(target: RanUe)
    | Unpair(r: RanUe)
    | Command(r: RanUe, action: RelAction)
    | Released(r: RanUe, visitedFirst: AccessType)
    | RemovalOfContext(ue: AmfUe, visitedFirst: AccessType)

  // What the callers see to: connections are live and known, ids come from the generator,
  // an acknowledge reaches a target without a RAN id, a notify a target with UE and source.
  // What the RANs see to: none assigns the reserved id.
  ghost predicate Enabled(g: Graph, e: Event) {
    && Closed(g)
    && match e
       case NewConnection(ran, ranId, amfId, r) => ran in g.an && amfId !in g.used && r !in g.conn
       case Replacement(ran, ranId, amfId, r) => ran in g.an && amfId !in Forget(g, Slot(ran, ranId)).used && r !in g.conn
       case Removal(r) => Live(g, r)
       case Switch(r, newRan, ranId) => Live(g, r) && newRan in g.an && ranId != UNSPECIFIED
       case PathSwitch(r, newRan, ranId, switched) => Live(g, r) && newRan in g.an && ranId != UNSPECIFIED
       case RemovalOfAll(ran, order) => true
       case Acknowledge(r, ranId) => Live(g, r) && g.conn[r].ranId == UNSPECIFIED && ranId != UNSPECIFIED
       case Search(ran, amfId, ranId, first, send) => ran in g.an
       case NewContext(ue) => ue !in g.ues
       case Hold(r, ue) => Live(g, r) && ue in g.ues
       case LetGo(r) => Live(g, r)
       case Attach(ue, r) => ue in g.ues && Live(g, r)
       case Prepare(source, target) => source in g.conn && target in g.conn
       case HandOver(target) => Live(g, target) && g.conn[target].ue != null && g.conn[target].source != null
       case Unpair(r) => Live(g, r)
       case Command(r, action) => Live(g, r)
       case Released(r, first) => Live(g, r)
       case RemovalOfContext(ue, first) => ue in g.ues
  }

  function Apply(g: Graph, e: Event): (g': Graph)
    requires Enabled(g, e)
    ensures Closed(g')
  {
    match e
    case NewConnection(ran, ranId, amfId, r) => NewRanUe(g, ran, ranId, amfId, r)
    case Replacement(ran, ranId, amfId, r) => NewRanUe(Forget(g, Slot(ran, ranId)), ran, ranId, amfId, r)
    case Removal(r) => Remove(g, r)
    case Switch(r, newRan, ranId) => SwitchToRan(g, r, newRan, ranId)
    case PathSwitch(r, newRan, ranId, switched) => Registry.PathSwitch(g, r, newRan, ranId, switched)
    case RemovalOfAll(ran, order) => RemoveAll(g, ran, order)
    case Acknowledge(r, ranId) => StoreRanId(g, g.conn[r].ran, r, ranId)
    case Search(ran, amfId, ranId, first, send) => Find(g, ran, amfId, ranId, first, send).graph
    case NewContext(ue) => NewUe(g, ue)
    case Hold(r, ue) => Registry.Hold(g, r, ue)
    case LetGo(r) => Registry.LetGo(g, r)
    case Attach(ue, r) => AttachAndReleaseOld(g, ue, r)
    case Prepare(source, target) => PairSourceTarget(g, source, target)
    case HandOver(target) => AttachAndReleaseSource(g, g.conn[target].ue, g.conn[target].source, target)
    case Unpair(r) => Registry.Unpair(g, r)
    case Command(r, action) => ReleaseCommand(g, r, action)
    case Released(r, first) => Handover.ReleaseComplete(g, r, first).graph
    case RemovalOfContext(ue, first) => RemoveUe(g, ue, first)
  }

  // A run: graphs[i+1] is what the i-th event makes of graphs[i].
  ghost predicate Run(graphs: seq<Graph>, events: seq<Event>) {
    && |graphs| == |events| + 1
    && forall i {:trigger events[i]} :: 0 <= i < |events| ==>
         Enabled(graphs[i], events[i]) && graphs[i + 1] == Apply(graphs[i], events[i])
  }

  // ----- the indexes agree in every run -----

  lemma InvalidIdKeepsIndexes(g: Graph, ran: AmfRan, r: RanUe)
    requires Indexed(g) && ran in g.an && Live(g, r)
    ensures Indexed(RemoveByInvalidId(g, ran, r))
  {
    var g1 := UnlinkIfLinked(g, ran, r);
    SameIndexesKeepThem(g, DetachAmfUe(g1, r));
    RemoveKeepsIndexes(DetachAmfUe(g1, r), r);
  }

  lemma InvalidUeKeepsIndexes(g: Graph, ran: AmfRan, amfId: int, ranId: Option<int>)
    requires Indexed(g) && ran in g.an
    ensures Indexed(RemoveByInvalidUe(g, ran, amfId, ranId))
  {
    hide RemoveByInvalidId;
    PoolMember(g, amfId);
    var g1 := g;
    if amfId in g.pool && g.conn[g.pool[amfId]].ran == ran {
      InvalidIdKeepsIndexes(g, ran, g.pool[amfId]);
      g1 := RemoveByInvalidId(g, ran, g.pool[amfId]);
    }
    if ranId.Some? && Slot(ran, ranId.value) in g1.lists {
      assert SlotOk(g1, Slot(ran, ranId.value));
      InvalidIdKeepsIndexes(g1, ran, g1.lists[Slot(ran, ranId.value)]);
    }
  }

  // A replacement needs no fresh RAN id: the old connection has made way for it.
  lemma ReplacementKeepsIndexes(g: Graph, ran: AmfRan, ranId: int, amfId: int, r: RanUe)
    requires Indexed(g) && Enabled(g, Replacement(ran, ranId, amfId, r))
    ensures var g' := Apply(g, Replacement(ran, ranId, amfId, r));
      Indexed(g') && Live(g', r) && (Listed(g) ==> Listed(g'))
  {
    hide Forget, NewRanUe;
    ForgetIsRemove(g, Slot(ran, ranId));
    NewRanUeKeepsIndexes(Forget(g, Slot(ran, ranId)), ran, ranId, amfId, r);
  }

  // The events that change the indexes by themselves.
  predicate IndexEvent(e: Event) {
    e.NewConnection? || e.Replacement? || e.Removal? || e.Switch? || e.RemovalOfAll? || e.Acknowledge? || e.Search?
  }

  lemma StepKeepsIndexes(g: Graph, e: Event)
    requires Indexed(g) && Enabled(g, e) && IndexEvent(e)
    ensures Indexed(Apply(g, e))
  {
    match e
    case NewConnection(ran, ranId, amfId, r) => NewRanUeKeepsIndexes(g, ran, ranId, amfId, r);
    case Replacement(ran, ranId, amfId, r) => ReplacementKeepsIndexes(g, ran, ranId, amfId, r);
    case Removal(r) => RemoveKeepsIndexes(g, r);
    case Switch(r, newRan, ranId) => SwitchToRanKeepsIndexes(g, r, newRan, ranId);
    case RemovalOfAll(ran, order) => RemoveAllEmptiesTheList(g, ran, order);
    case Acknowledge(r, ranId) => StoreRanIdKeepsIndexes(g, r, ranId);
    case Search(ran, amfId, ranId, first, send) => InvalidUeKeepsIndexes(g, ran, amfId, ranId);
    case _ =>
  }

  lemma {:induction false} RunKeepsIndexes(graphs: seq<Graph>, events: seq<Event>, i: nat)
    requires Run(graphs, events) && Indexed(graphs[0]) && i <= |events|
    requires forall e :: e in events ==> IndexEvent(e)
    ensures Indexed(graphs[i])
  {
    if i > 0 {
      RunKeepsIndexes(graphs, events, i - 1);
      StepKeepsIndexes(graphs[i - 1], events[i - 1]);
    }
  }

  // ----- links, gauges and the full list in every orderly run -----

  // On top of Enabled, what the code does not see to. Each is a condition on the state
  // before the event: RAN ids are fresh on their RAN, Remove meets no target in
  // preparation, an attached connection keeps its access type and its UE, a UE that is
  // handed over is still connected by the source, and so on.
  ghost predicate Orderly(g: Graph, e: Event) {
    && Enabled(g, e)
    && match e
       case NewConnection(ran, ranId, amfId, r) => ranId == UNSPECIFIED || Slot(ran, ranId) !in g.lists
       case Replacement(ran, ranId, amfId, r) => Slot(ran, ranId) in g.lists ==> Removable(g, g.lists[Slot(ran, ranId)])
       case Removal(r) => Removable(g, r)
       case Switch(r, newRan, ranId) => Switchable(g, r, newRan, ranId)
       case PathSwitch(r, newRan, ranId, switched) => PathSwitchable(g, r, newRan, ranId, switched)
       case RemovalOfAll(ran, order) => VisitsRemovable(g, ran, order)
       case Acknowledge(r, ranId) => Slot(g.conn[r].ran, ranId) !in g.lists
       case LetGo(r) => LetsGoOfIdle(g, r)
       case Attach(ue, r) => ReadyToAttach(g, ue, r)
       case Prepare(source, target) => ReadyToPrepare(g, source, target)
       case HandOver(target) => ReadyToMove(g, g.conn[target].source, target)
       case Released(r, first) => ReleasesCleanly(g, r)
       case RemovalOfContext(ue, first) => Retirable(g, ue)
       case _ => true
  }

  // An initial message with a RAN id in use keeps links, pointers and gauges right
  // exactly when the connection it replaces is not a target in preparation.
  lemma ReplacementKeepsLinksExactly(g: Graph, ran: AmfRan, ranId: int, amfId: int, r: RanUe)
    requires Linked(g) && Enabled(g, Replacement(ran, ranId, amfId, r))
    ensures var s := Slot(ran, ranId);
      Linked(Apply(g, Replacement(ran, ranId, amfId, r))) <==> s in g.lists ==> Removable(g, g.lists[s])
  {
    hide Forget, NewRanUe, Removable, IndexRefs, ConnRefs, LinkRefs, LinksPointBack, PointersAreLinks, Conserved, Pooled, ListedSoundly;
    var s := Slot(ran, ranId);
    ForgetIsRemove(g, s);
    var g1 := Forget(g, s);
    if s !in g.lists {
      ForgetNothing(g, s);
      NewConnectionKeepsLinks(g1, ran, ranId, amfId, r);
    } else if Removable(g, g.lists[s]) {
      RemoveKeepsLinks(g, g.lists[s]);
      NewConnectionKeepsLinks(g1, ran, ranId, amfId, r);
    } else {
      ReplacedTargetBreaksLinks(g, g.lists[s], ran, ranId, amfId, r);
    }
  }

  // The condition of an orderly run is exact for every event: without it the event breaks
  // the indexes, the links or the gauges.
  lemma OrderlyIsExact(g: Graph, e: Event)
    requires Good(g) && Enabled(g, e)
    ensures Good(Apply(g, e)) <==> Orderly(g, e)
  {
    hide Good, Apply, Orderly, IndexRefs, ConnRefs, LinkRefs;
    if IndexEvent(e) || e.PathSwitch? {
      IndexStepIsExact(g, e);
    } else {
      LinkStepIsExact(g, e);
    }
  }

  lemma IndexStepIsExact(g: Graph, e: Event)
    requires Good(g) && Enabled(g, e) && (IndexEvent(e) || e.PathSwitch?)
    ensures Good(Apply(g, e)) <==> Orderly(g, e)
  {
    hide IndexRefs, ConnRefs, LinkRefs, Linked, Listed, Removable, Switchable, PathSwitchable, VisitsRemovable,
         NewRanUe, Forget, Remove, SwitchToRan, Registry.PathSwitch, RemoveAll, StoreRanId, Find;
    GoodIsLinked(g);
    match e
    case NewConnection(ran, ranId, amfId, r) =>
      NewRanUeKeepsIndexes(g, ran, ranId, amfId, r);
      NewConnectionKeepsLinks(g, ran, ranId, amfId, r);
      if ranId != UNSPECIFIED && Slot(ran, ranId) in g.lists { TakenIdUnlists(g, ran, ranId, amfId, r); }
    case Replacement(ran, ranId, amfId, r) =>
      ReplacementKeepsIndexes(g, ran, ranId, amfId, r);
      ReplacementKeepsLinksExactly(g, ran, ranId, amfId, r);
    case Removal(r) =>
      RemoveKeepsIndexes(g, r);
      RemoveKeepsLinksExactly(g, r);
    case Switch(r, newRan, ranId) => SwitchKeepsGoodExactly(g, r, newRan, ranId);
    case PathSwitch(r, newRan, ranId, switched) => PathSwitchKeepsGoodExactly(g, r, newRan, ranId, switched);
    case RemovalOfAll(ran, order) =>
      RemoveAllEmptiesTheList(g, ran, order);
      RemovalOfAllKeepsLinksExactly(g, ran, order);
    case Acknowledge(r, ranId) => AcknowledgeIsExact(g, r, ranId);
    case Search(ran, amfId, ranId, first, send) => FindIsRight(g, ran, amfId, ranId, first, send);
    case _ =>
  }

  lemma AcknowledgeIsExact(g: Graph, r: RanUe, ranId: int)
    requires Good(g) && Live(g, r) && g.conn[r].ranId == UNSPECIFIED && ranId != UNSPECIFIED
    ensures Good(StoreRanId(g, g.conn[r].ran, r, ranId)) <==> Slot(g.conn[r].ran, ranId) !in g.lists
  {
    hide IndexRefs, LinkRefs, Pooled, LinksPointBack, PointersAreLinks, Conserved, StoreRanId;
    StoreRanIdKeepsIndexes(g, r, ranId);
    AcknowledgeKeepsLinks(g, r, ranId);
    if Slot(g.conn[r].ran, ranId) in g.lists { TakenIdUnlistsAtAcknowledge(g, r, ranId); }
  }

  lemma LinkStepIsExact(g: Graph, e: Event)
    requires Good(g) && Enabled(g, e) && !IndexEvent(e) && !e.PathSwitch?
    ensures Good(Apply(g, e)) <==> Orderly(g, e)
  {
    hide IndexRefs, LinkRefs, Linked, Listed, Retirable, ReadyToAttach, ReadyToPrepare, ReadyToMove, ReleasesCleanly,
         LetsGoOfIdle, RemoveUe, AttachAndReleaseOld, AttachAndReleaseSource, PairSourceTarget, Registry.Hold,
         Registry.LetGo, Registry.Unpair, ReleaseCommand, NewUe, Handover.ReleaseComplete;
    GoodIsLinked(g);
    match e
    case NewContext(ue) =>
      NewUeKeepsLinks(g, ue);
      SameIndexesKeepThem(g, NewUe(g, ue));
    case Hold(r, ue) => HoldKeepsGood(g, r, ue);
    case LetGo(r) => LetGoKeepsLinksExactly(g, r);
    case Attach(ue, r) => AttachKeepsGoodExactly(g, ue, r);
    case Prepare(source, target) => PrepareIsExact(g, source, target);
    case HandOver(target) => HandOverIsExact(g, g.conn[target].source, target);
    case Unpair(r) =>
      UnpairKeepsLinks(g, r);
      SameIndexesKeepThem(g, Registry.Unpair(g, r));
    case Command(r, action) =>
      CommandKeepsLinks(g, r, action);
      SameIndexesKeepThem(g, ReleaseCommand(g, r, action));
    case Released(r, first) => ReleaseKeepsGoodExactly(g, r, first);
    case RemovalOfContext(ue, first) => RemoveUeKeepsGoodExactly(g, ue, first);
    case _ =>
  }

  lemma PrepareIsExact(g: Graph, source: RanUe, target: RanUe)
    requires Good(g) && source in g.conn && target in g.conn
    ensures Good(PairSourceTarget(g, source, target)) <==> ReadyToPrepare(g, source, target)
  {
    hide PairSourceTarget, Linked, Listed, IndexRefs, LinkRefs;
    GoodIsLinked(g);
    PairSourceTargetKeepsLinksExactly(g, source, target);
    if ReadyToPrepare(g, source, target) {
      PairSourceTargetKeepsLinks(g, source, target);
      SameIndexesKeepThem(g, PairSourceTarget(g, source, target));
    }
  }

  lemma HandOverIsExact(g: Graph, source: RanUe, target: RanUe)
    requires Good(g) && source in g.conn && Live(g, target) && g.conn[target].ue != null
    ensures g.conn[target].ue in g.ues
    ensures Good(AttachAndReleaseSource(g, g.conn[target].ue, source, target)) <==> ReadyToMove(g, source, target)
  {
    hide AttachAndReleaseSource, Linked, Listed, IndexRefs, LinkRefs;
    GoodIsLinked(g);
    HandOverKeepsLinksExactly(g, source, target);
    if ReadyToMove(g, source, target) {
      AttachAndReleaseSourceKeepsLinks(g, source, target);
      SameIndexesKeepThem(g, AttachAndReleaseSource(g, g.conn[target].ue, source, target));
    }
  }

  // In every orderly run, at every point: the indexes agree and list every connection
  // with a RAN id, links and pointers agree, and the CM gauges count the UEs.
  lemma {:induction false} RunKeepsGood(graphs: seq<Graph>, events: seq<Event>, i: nat)
    requires Run(graphs, events) && Good(graphs[0]) && i <= |events|
    requires forall k {:trigger events[k]} :: 0 <= k < i ==> Orderly(graphs[k], events[k])
    ensures Good(graphs[i])
  {
    hide Good, Apply, Orderly;
    if i > 0 {
      RunKeepsGood(graphs, events, i - 1);
      OrderlyIsExact(graphs[i - 1], events[i - 1]);
    }
  }

  // And in no other: the first event that is not in order ends it.
  lemma RunIsGoodExactly(graphs: seq<Graph>, events: seq<Event>)
    requires Run(graphs, events) && Good(graphs[0])
    ensures (forall i {:trigger graphs[i]} :: 0 <= i <= |events| ==> Good(graphs[i]))
            <==> forall k {:trigger events[k]} :: 0 <= k < |events| ==> Orderly(graphs[k], events[k])
  {
    hide Good, Apply, Orderly;
    if forall i {:trigger graphs[i]} :: 0 <= i <= |events| ==> Good(graphs[i]) {
      forall k | 0 <= k < |events| ensures Orderly(graphs[k], events[k]) {
        assert Good(graphs[k]) && Good(graphs[k + 1]);
        OrderlyIsExact(graphs[k], events[k]);
      }
    }
    if forall k {:trigger events[k]} :: 0 <= k < |events| ==> Orderly(graphs[k], events[k]) {
      forall i | 0 <= i <= |events| ensures Good(graphs[i]) { RunKeepsGood(graphs, events, i); }
    }
  }

  // A handover during whose preparation the source was removed: every step before the
  // notify is in order, the notify finds both its UE and its source, and links the UE
  // without counting it as connected again.
  lemma NotifyAfterRemovalOfSource(g: Graph, source: RanUe, target: RanUe)
    requires Good(g) && Live(g, target) && source != target && g.conn[target].ue == null
    requires Live(g, source) && Attached(g, source) && Access(g, source) == Access(g, target)
    ensures var g1 := Apply(g, Prepare(source, target));
      && Orderly(g, Prepare(source, target)) && Orderly(g1, Removal(source))
      && var g2 := Apply(g1, Removal(source));
         && Good(g2) && Enabled(g2, HandOver(target)) && !Conserved(Apply(g2, HandOver(target)))
  {
    hide Apply, Remove, PairSourceTarget, AttachAndReleaseSource, IndexRefs, ConnRefs, LinkRefs, Pooled, ListedSoundly,
         PointersAreLinks, Conserved;
    var p := Port(g.conn[source].ue, Access(g, source));
    assert LinkOk(g, p);
    Applied(g, Prepare(source, target));
    Paired(g, source, target);
    OrderlyIsExact(g, Prepare(source, target));
    var g1 := Apply(g, Prepare(source, target));
    Applied(g1, Removal(source));
    RemoveTouches(g1, source);
    RemoveKeepsIndexes(g1, source);
    OrderlyIsExact(g1, Removal(source));
    var g2 := Apply(g1, Removal(source));
    Applied(g2, HandOver(target));
    forall q | q in g2.links ensures q in g2.flags { assert LinkOk(g2, q); }
    UeIsKnown(g2, p.ue);
    HandOverKeepsGaugesExactly(g2, p.ue, source, target);
  }

  lemma Applied(g: Graph, e: Event)
    requires Enabled(g, e) && (e.Prepare? || e.Removal? || e.HandOver?)
    ensures Apply(g, e) ==
      match e
      case Prepare(source, target) => PairSourceTarget(g, source, target)
      case Removal(r) => Remove(g, r)
      case HandOver(target) => AttachAndReleaseSource(g, g.conn[target].ue, g.conn[target].source, target)
      case _ => g
  {
  }

  // A handover after which the source is given a new context, as an uplink NAS message that
  // is not refused does: every step is in order but the source's release complete, which
  // attaches the target to the new context as well. When the first context is removed,
  // that link goes with it, and the AMF counts one connected UE too many.
  lemma RemovalAfterReattachmentMiscounts(g: Graph, t: RanUe, ue: AmfUe, first: AccessType, second: AccessType)
    requires Good(g) && Orderly(g, HandOver(t)) && g.conn[t].source != t && ue !in g.ues
    requires var source := g.conn[t].source; Live(g, source) && g.conn[source].target == t
    ensures var source, ue0 := g.conn[t].source, g.conn[t].ue;
      var g1 := Apply(g, HandOver(t));
      && Orderly(g1, NewContext(ue))
      && var g2 := Apply(g1, NewContext(ue));
         && Orderly(g2, Attach(ue, source))
         && var g3 := Apply(g2, Attach(ue, source));
            && Good(g3) && Enabled(g3, Released(source, first)) && !Orderly(g3, Released(source, first))
            && var g4 := Apply(g3, Released(source, first));
               && ue0 in g4.live && Enabled(g4, RemovalOfContext(ue0, second)) && t in g4.conn
               && var g5 := Apply(g4, RemovalOfContext(ue0, second));
                  var an := Access(g4, t);
                  g5.connected.At(an) == |ConnectedUes(g5, an)| + 1 && !Conserved(g5)
  {
    hide *;
    HandOverIsEnabled(g, t);
    var source, ue0 := g.conn[t].source, g.conn[t].ue;
    Reattach(g, t, ue);
    var g2 := Apply(Apply(g, HandOver(t)), NewContext(ue));
    var g3 := Apply(g2, Attach(ue, source));
    GoodIsLinked(g3);
    ReleaseLoses(g3, source, t, first);
    ReleaseIsOrderly(g3, source, first);
    var g4 := Apply(g3, Released(source, first));
    RemovalOfLoserMiscounts(g4, ue0, ue, t, second);
    LostIsLive(g4, ue0, ue, t);
    RemovalIsEnabled(g4, ue0, second);
    MiscountIsNotConserved(RemoveUe(g4, ue0, second), Access(g4, t));
  }

  lemma LostIsLive(g: Graph, ue0: AmfUe, ue: AmfUe, t: RanUe)
    requires Closed(g) && t in g.conn && Lost(g, ue0, ue, t)
    ensures ue0 in g.live
  {
  }

  lemma MiscountIsNotConserved(g: Graph, an: AccessType)
    requires g.connected.At(an) != |ConnectedUes(g, an)|
    ensures !Conserved(g)
  {
    assert !CountsAt(g, an);
  }

  lemma Reattach(g: Graph, t: RanUe, ue: AmfUe)
    requires Good(g) && Orderly(g, HandOver(t)) && g.conn[t].source != t && ue !in g.ues
    requires var source := g.conn[t].source; Live(g, source) && g.conn[source].target == t
    ensures var source, ue0 := g.conn[t].source, g.conn[t].ue;
      var g1 := Apply(g, HandOver(t));
      && Enabled(g1, NewContext(ue)) && Orderly(g1, NewContext(ue))
      && var g2 := Apply(g1, NewContext(ue));
         && Enabled(g2, Attach(ue, source)) && Orderly(g2, Attach(ue, source))
         && var g3 := Apply(g2, Attach(ue, source));
            && Good(g3) && source in g3.conn && t in g3.conn && Live(g3, source) && Attached(g3, source) && Live(g3, t) && Attached(g3, t)
            && g3.conn[source] == g.conn[source].(ue := ue, action := ReleaseHandover)
            && g3.conn[t].ue == ue0 && ue0 != ue
  {
    hide Apply, Good, Orderly, IndexRefs, ConnRefs, LinkRefs, AttachAndReleaseSource, AttachAndReleaseOld, NewUe;
    HandOverIsEnabled(g, t);
    var source, ue0 := g.conn[t].source, g.conn[t].ue;
    MoveConns(g, ue0, source, t);
    OrderlyIsExact(g, HandOver(t));
    var g1 := Apply(g, HandOver(t));
    GoodIsLinked(g1);
    NewUeKeeps(g1, ue);
    ContextIsOrderly(g1, ue);
    OrderlyIsExact(g1, NewContext(ue));
    var g2 := Apply(g1, NewContext(ue));
    GoodIsLinked(g2);
    AttachFresh(g2, ue, source);
    AttachIsOrderly(g2, ue, source);
    OrderlyIsExact(g2, Attach(ue, source));
  }

  // Apply, event by event
  lemma HandOverIsEnabled(g: Graph, t: RanUe)
    requires Orderly(g, HandOver(t))
    ensures Enabled(g, HandOver(t)) && Live(g, t) && g.conn[t].ue != null && g.conn[t].source in g.conn
    ensures Apply(g, HandOver(t)) == AttachAndReleaseSource(g, g.conn[t].ue, g.conn[t].source, t)
  {
  }

  lemma ContextIsOrderly(g: Graph, ue: AmfUe)
    requires Closed(g) && ue !in g.ues
    ensures Enabled(g, NewContext(ue)) && Orderly(g, NewContext(ue)) && Apply(g, NewContext(ue)) == NewUe(g, ue)
  {
  }

  lemma AttachIsOrderly(g: Graph, ue: AmfUe, r: RanUe)
    requires Closed(g) && ue in g.live && Live(g, r) && g.conn[r].ue == null
    ensures Enabled(g, Attach(ue, r)) && Orderly(g, Attach(ue, r)) && Apply(g, Attach(ue, r)) == AttachAndReleaseOld(g, ue, r)
  {
  }

  lemma ReleaseIsOrderly(g: Graph, r: RanUe, first: AccessType)
    requires Closed(g) && r in g.conn && Live(g, r)
    ensures Enabled(g, Released(r, first)) && (Orderly(g, Released(r, first)) <==> ReleasesCleanly(g, r))
    ensures Apply(g, Released(r, first)) == Handover.ReleaseComplete(g, r, first).graph
  {
  }

  lemma RemovalIsEnabled(g: Graph, ue: AmfUe, first: AccessType)
    requires Closed(g) && ue in g.ues
    ensures Enabled(g, RemovalOfContext(ue, first))
    ensures Apply(g, RemovalOfContext(ue, first)) == RemoveUe(g, ue, first)
  {
  }

  // An AMF that has just started is good.
  lemma EmptyIsGood(an: map<AmfRan, AccessType>)
    ensures Good(Graph(map[], {}, map[], an, map[], map[], {}, {}, {}, Gauge(0, 0), Gauge(0, 0), {}))
  {
    var g := Graph(map[], {}, map[], an, map[], map[], {}, {}, {}, Gauge(0, 0), Gauge(0, 0), {});
    forall at ensures CountsAt(g, at) {
      assert ConnectedUes(g, at) == {} && IdleUes(g, at) == {};
    }
  }
}
