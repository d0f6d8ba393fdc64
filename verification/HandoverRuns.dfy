// Runs of N2 handovers inside one AMF: preparation, acknowledge, notify, failure,
// cancel and release, with any other registry event in between.

module HandoverRuns {
  import opened Basics
  import opened Context
  import opened Registry
  import opened ApId
  import opened Links
  import opened Handover
  import opened RegistrySteps
  import Runs = RegistryRuns

  // The graph, the sessions with an SM context, and what has happened so far: the
  // sessions admitted in each acknowledge, the sessions of each HandoverCommand, the
  // sources that a notify has moved a UE away from, and the connections that a UE was
  // attached to other than by a notify and since it last left them.
  datatype State = State(
    g: Graph, sm: map<AmfUe, set<int>>,
    acked: map<RanUe, seq<int>>, commands: map<RanUe, seq<int>>, left: set<RanUe>, reattached: set<RanUe>)

  datatype Event =
    | Required(source: RanUe, targetRan: AmfRan, newId: int, target: RanUe)
    | Acknowledge(ran: AmfRan, amfId: int, ranId: Option<int>, items: seq<Item>)
    | Failure(ran: AmfRan, amfId: int)
    | Cancel(ran: AmfRan, amfId: int, ranId: Option<int>)
    | Notify(ran: AmfRan, amfId: int, ranId: Option<int>)
    | Completed(ran: AmfRan, amfId: int, ranId: Option<int>, visitedFirst: AccessType)
    | Command(r: RanUe, action: RelAction)
    | Sessions(ue: AmfUe, ids: set<int>)
    | Elsewhere(e: Runs.Event)

  function ContextsOf(s: State, ue: AmfUe?): set<int> {
    if ue != null && ue in s.sm then s.sm[ue] else {}
  }

  predicate Searches(e: Event) {
    e.Acknowledge? || e.Failure? || e.Cancel? || e.Notify? || e.Completed?
  }

  // Acknowledge and failure are the first messages of a target; the release complete is
  // the last one, for which no error is indicated.
  function FindFor(s: State, e: Event): Lookup
    requires Closed(s.g) && Searches(e) && e.ran in s.g.an
  {
    Find(s.g, e.ran, e.amfId, if e.Failure? then None else e.ranId, e.Acknowledge? || e.Failure?, !e.Completed?)
  }

  // The target whose acknowledge this event is
  function AcknowledgedBy(s: State, e: Event): (t: RanUe?)
    requires Enabled(s, e)
    ensures t != null ==> t in s.g.conn
  {
    if e.Acknowledge? then FindFor(s, e).found else null
  }

  // The sessions in the HandoverCommand this event sends
  function CommandOf(s: State, e: Event): (ids: seq<int>)
    requires Enabled(s, e)
  {
    var t := AcknowledgedBy(s, e);
    if t == null || s.g.conn[t].ue == null || s.g.conn[t].source == null then []
    else
      var contexts := ContextsOf(s, s.g.conn[t].ue);
      var admitted := Admitted(e.items, contexts);
      if |admitted| <= MAX_NUM_OF_PDU_SESSIONS && |ToRelease(e.items, contexts)| <= MAX_NUM_OF_PDU_SESSIONS then admitted else []
  }

  // The target whose notify completes a handover
  function NotifiedBy(s: State, e: Event): (t: RanUe?)
    requires Enabled(s, e)
    ensures t != null ==> t in s.g.conn && s.g.conn[t].ue != null && s.g.conn[t].source != null
  {
    if e.Notify? then
      var t := FindFor(s, e).found;
      if t != null && s.g.conn[t].ue != null && s.g.conn[t].source != null then t else null
    else null
  }

  // The sessions for which the SMF is told that the handover is complete
  function CompletedBy(s: State, e: Event): (ids: seq<int>)
    requires Enabled(s, e) && NotifiedBy(s, e) != null
  {
    var c := s.g.conn[NotifiedBy(s, e)];
    Having(c.success, ContextsOf(s, c.ue))
  }

  // The source that a notify moves the UE away from
  function LeftBy(s: State, e: Event): (r: RanUe?)
    requires Enabled(s, e)
    ensures r != null ==> r in s.g.conn
  {
    var t := NotifiedBy(s, e);
    if t == null then null else s.g.conn[t].source
  }

  // The connection to which a UE is attached other than by a notify: by an uplink NAS
  // message or, at the end of a handover's release, to the target of the released source.
  function AttachedBy(s: State, e: Event): (r: RanUe?)
    requires Enabled(s, e)
    ensures r != null ==> r in s.g.conn
  {
    match e
    case Elsewhere(Attach(ue, r)) => r
    case Completed(_, _, _, _) =>
      var r := FindFor(s, e).found;
      if r != null && ReleasedForHandover(s.g, r) then TargetToAttach(s.g, r) else null
    case _ => null
  }

  predicate ReleasedForHandover(g: Graph, r: RanUe)
    requires Closed(g) && r in g.conn
  {
    g.conn[r].ue != null && g.conn[r].action == ReleaseHandover && g.conn[r].target != null
  }

  ghost predicate Enabled(s: State, e: Event) {
    && Closed(s.g)
    && (Searches(e) ==> e.ran in s.g.an)
    && match e
       case Required(source, ran, id, target) => Live(s.g, source) && ran in s.g.an && id !in s.g.used && target !in s.g.conn
       case Command(r, _) => Live(s.g, r)
       case Elsewhere(e) => Runs.Enabled(s.g, e)
       case _ => true
  }

  // Does the handler of this event stop at a nil pointer?
  predicate Stops(s: State, e: Event)
    requires Enabled(s, e)
  {
    e.Completed? && FindFor(s, e).found != null && ReleaseComplete(s.g, FindFor(s, e).found, e.visitedFirst).stopped
  }

  function Only(r: RanUe?): set<RanUe> {
    if r == null then {} else {r}
  }

  function Step(s: State, e: Event): (s': State)
    requires Enabled(s, e)
    ensures Closed(s'.g)
  {
    Effect(s, e).(left := s.left + Only(LeftBy(s, e)),
                  reattached := s.reattached - Only(LeftBy(s, e)) + Only(AttachedBy(s, e)))
  }

  function Effect(s: State, e: Event): (s': State)
    requires Enabled(s, e)
    ensures Closed(s'.g)
  {
    match e
    case Required(source, ran, id, target) => s.(g := RequestHandover(s.g, source, ran, id, target))
    case Acknowledge(_, _, _, _) => AcknowledgeStep(s, e)
    case Failure(_, _) =>
      var l := FindFor(s, e);
      s.(g := if l.found == null then l.graph else ReleaseCommand(s.g, l.found, ReleaseHandover))
    case Cancel(_, _, _) =>
      var l := FindFor(s, e);
      s.(g := if l.found == null then l.graph else CancelHandover(s.g, l.found))
    case Notify(_, _, _) => NotifyStep(s, e)
    case Completed(_, _, _, first) =>
      var l := FindFor(s, e);
      s.(g := if l.found == null then l.graph else ReleaseComplete(s.g, l.found, first).graph)
    case Command(r, action) => s.(g := ReleaseCommand(s.g, r, action))
    case Sessions(ue, ids) => s.(sm := s.sm[ue := ids])
    case Elsewhere(e) => s.(g := Runs.Apply(s.g, e))
  }

  function AcknowledgeStep(s: State, e: Event): (s': State)
    requires Enabled(s, e) && e.Acknowledge?
    ensures Closed(s'.g)
  {
    var l := FindFor(s, e);
    var t := l.found;
    if t == null then s.(g := l.graph)
    else
      var ue := s.g.conn[t].ue;
      var admitted := if ue == null then [] else Admitted(e.items, ContextsOf(s, ue));
      s.(g := AcceptTarget(s.g, e.ran, t, e.ranId, admitted),
         acked := s.acked[t := admitted],
         commands := if CommandOf(s, e) == [] then s.commands else s.commands[t := CommandOf(s, e)])
  }

  function NotifyStep(s: State, e: Event): (s': State)
    requires Enabled(s, e) && e.Notify?
    ensures Closed(s'.g)
  {
    var l := FindFor(s, e);
    if l.found == null then s.(g := l.graph)
    else
      var t := NotifiedBy(s, e);
      if t == null then s else s.(g := AttachAndReleaseSource(s.g, s.g.conn[t].ue, s.g.conn[t].source, t))
  }

  // What the RANs keep to: the RAN id is present and not the reserved one, and lists
  // have at most 256 items. No path switch reaches a target that is not acknowledged.
  // The registry's own form of the handover steps stands aside for the messages.
  ghost predicate Orderly(s: State, e: Event) {
    && Enabled(s, e)
    && match e
       case Acknowledge(_, _, ranId, items) =>
         ranId.Some? && ranId.value != UNSPECIFIED && |items| <= MAX_NUM_OF_PDU_SESSIONS
       case Notify(_, _, ranId) => ranId.Some? && ranId.value != UNSPECIFIED
       case Elsewhere(e) =>
         && !e.Acknowledge? && !e.Prepare? && !e.HandOver? && !e.Unpair? && !e.Released?
         && (Renames(e) ==> s.g.conn[e.r].source == null || e.r in s.acked)
       case _ => true
  }

  predicate Renames(e: Runs.Event) {
    e.Switch? || e.PathSwitch?
  }

  ghost predicate Run(states: seq<State>, events: seq<Event>) {
    && |states| == |events| + 1
    && forall i {:trigger events[i]} :: 0 <= i < |events| ==>
         Orderly(states[i], events[i]) && states[i + 1] == Step(states[i], events[i])
  }

  // ----- the invariant -----

  predicate Sound(s: State, r: RanUe)
    requires r in s.g.conn
  {
    var c := s.g.conn[r];
    && (r in s.acked ==> c.ranId != UNSPECIFIED && c.success == s.acked[r])
    && (r !in s.acked ==> c.success == [] && r !in s.commands && (c.source != null ==> c.ranId == UNSPECIFIED))
    && (r in s.commands ==> r in s.acked && s.commands[r] == s.acked[r])
    && (r in s.acked && c.source != null && s.acked[r] != [] ==> r in s.commands)
    // a source has no UE unless one was attached to it again
    && (r in s.left && r !in s.reattached ==> c.ue == null)
  }

  // Source and target name each other.
  predicate Mutual(g: Graph, r: RanUe)
    requires r in g.conn
  {
    var c := g.conn[r];
    && c.source != r
    && (c.source != null ==> c.source in g.conn && g.conn[c.source].target == r)
    && (c.target != null ==> c.target in g.conn && g.conn[c.target].source == r)
  }

  ghost predicate Inv(s: State) {
    && Closed(s.g)
    && s.acked.Keys <= s.g.conn.Keys && s.commands.Keys <= s.g.conn.Keys && s.left <= s.g.conn.Keys
    && (forall r {:trigger Sound(s, r)} :: r in s.g.conn ==> Sound(s, r))
    && (forall r {:trigger Mutual(s.g, r)} :: r in s.g.conn ==> Mutual(s.g, r))
  }

  // Steps that keep what the invariant is about: pairs and sessions stay, new connections
  // have none, an id is written where it does not matter, and only the connections in
  // touched may gain a UE.
  ghost predicate Frames(s: State, g': Graph, touched: set<RanUe>) {
    && s.g.conn.Keys <= g'.conn.Keys
    && (forall r {:trigger g'.conn[r]} :: r in s.g.conn ==> FramesConn(s.g.conn[r], g'.conn[r], r in s.acked, r in touched))
    && (forall r {:trigger g'.conn[r]} :: r in g'.conn && r !in s.g.conn ==> Blank(g'.conn[r]))
  }

  predicate FramesConn(c: Conn, c': Conn, acked: bool, touched: bool) {
    && (c'.ranId == c.ranId || (c'.ranId != UNSPECIFIED && (c.source == null || acked)))
    && c'.success == c.success && c'.source == c.source && c'.target == c.target
    && (c.ue == null && !touched ==> c'.ue == null)
  }

  predicate Blank(c: Conn) {
    c.success == [] && c.source == null && c.target == null
  }

  lemma FramesKeepInv(s: State, s': State, touched: set<RanUe>)
    requires Inv(s) && Closed(s'.g) && Frames(s, s'.g, touched)
    requires s'.acked == s.acked && s'.commands == s.commands && s'.left == s.left && s'.reattached == s.reattached + touched
    ensures Inv(s')
  {
    hide IndexRefs, ConnRefs, LinkRefs;
    forall r | r in s'.g.conn ensures Sound(s', r) {
      if r in s.g.conn { assert Sound(s, r); }
    }
    forall r | r in s'.g.conn ensures Mutual(s'.g, r) {
      if r in s.g.conn { assert Mutual(s.g, r); }
    }
  }

  // The same for a step of the graph alone, whatever has been acknowledged.
  ghost predicate Quiet(g: Graph, g': Graph) {
    && g'.conn.Keys == g.conn.Keys
    && forall r {:trigger g'.conn[r]} :: r in g.conn ==> FramesConn(g.conn[r], g'.conn[r], false, false) && g'.conn[r].ranId == g.conn[r].ranId
  }

  lemma QuietFrames(s: State, g': Graph)
    requires Quiet(s.g, g')
    ensures Frames(s, g', {})
  {
  }

  lemma RemoveIsQuiet(g: Graph, r: RanUe)
    requires Closed(g) && r in g.conn
    ensures Quiet(g, Remove(g, r))
  {
    hide IndexRefs, LinkRefs;
  }

  lemma {:induction false} RemoveAllIsQuiet(g: Graph, ran: AmfRan, ids: seq<int>)
    requires Closed(g)
    ensures Quiet(g, RemoveAll(g, ran, ids))
  {
    hide Remove;
    if ids != [] {
      RemoveAllIsQuiet(g, ran, ids[..|ids| - 1]);
      var g1, s := RemoveAll(g, ran, ids[..|ids| - 1]), Slot(ran, ids[|ids| - 1]);
      if s in g1.lists { RemoveIsQuiet(g1, g1.lists[s]); }
    }
  }

  lemma RemoveUeIsQuiet(g: Graph, ue: AmfUe, first: AccessType)
    requires Closed(g) && ue in g.ues
    ensures Quiet(g, RemoveUe(g, ue, first))
  {
    hide Remove;
    var p, q := Port(ue, first), Port(ue, Other(first));
    if p in g.links { RemoveIsQuiet(g, g.links[p]); }
    var g1 := RemoveLink(g, ue, first);
    if q in g1.links { RemoveIsQuiet(g1, g1.links[q]); }
  }

  lemma FindIsQuiet(g: Graph, ran: AmfRan, amfId: int, ranId: Option<int>, first: bool, send: bool)
    requires Closed(g) && ran in g.an
    ensures Quiet(g, Find(g, ran, amfId, ranId, first, send).graph)
  {
    hide RemoveByInvalidId;
    var byAmfId := amfId in g.pool && g.conn[g.pool[amfId]].ran == ran;
    var g1 := if byAmfId then RemoveByInvalidId(g, ran, g.pool[amfId]) else g;
    if byAmfId { RemoveByInvalidIdIsQuiet(g, ran, g.pool[amfId]); }
    var s := Slot(ran, if ranId.Some? then ranId.value else UNSPECIFIED);
    if ranId.Some? && s in g1.lists { RemoveByInvalidIdIsQuiet(g1, ran, g1.lists[s]); }
  }

  lemma RemoveByInvalidIdIsQuiet(g: Graph, ran: AmfRan, r: RanUe)
    requires Closed(g) && ran in g.an && r in g.conn
    ensures Quiet(g, RemoveByInvalidId(g, ran, r))
  {
  }

  lemma ForgetIsQuiet(g: Graph, s: Slot)
    requires Closed(g) && s.ran in g.an
    ensures Quiet(g, Forget(g, s))
  {
    hide ConnRefs, LinkRefs, Remove;
    if s in g.lists {
      var r := g.lists[s];
      var ue := g.conn[r].ue;
      DetachIsQuiet(g, r, s.ran);
      if ue != null && ue in g.ues { RemoveIsQuiet(DetachAmfUe(DetachRanUe(g, ue, g.an[s.ran]), r), r); }
      RemoveIsQuiet(g, r);
    }
  }

  lemma DetachIsQuiet(g: Graph, r: RanUe, ran: AmfRan)
    requires Closed(g) && r in g.conn && ran in g.an
    ensures var ue := g.conn[r].ue;
      ue != null ==> ue in g.ues && Quiet(g, DetachAmfUe(DetachRanUe(g, ue, g.an[ran]), r))
  {
    hide IndexRefs, LinkRefs;
  }

  lemma CommandIsQuiet(g: Graph, r: RanUe, action: RelAction)
    requires Closed(g) && r in g.conn
    ensures Quiet(g, ReleaseCommand(g, r, action))
    ensures ReleaseCommand(g, r, action).conn.Keys == g.conn.Keys
  {
    hide IndexRefs, ConnRefs, LinkRefs;
  }

  lemma LetGoIsQuiet(g: Graph, r: RanUe)
    requires Closed(g) && r in g.conn
    ensures Quiet(g, LetGo(g, r))
  {
    hide Quiet, DetachAmfUe, ReleaseCommand, Hold, IndexRefs, ConnRefs;
    HoldIsQuiet(g, r);
    if g.conn[r].holding != null && Port(g.conn[r].holding, Access(g, r)) in g.links {
      var previous := g.links[Port(g.conn[r].holding, Access(g, r))];
      var g1 := DetachAmfUe(g, previous);
      DetachAmfUeIsQuiet(g, previous);
      var g2 := ReleaseCommand(g1, previous, ReleaseUeContext);
      CommandIsQuiet(g1, previous, ReleaseUeContext);
      QuietTwice(g, g1, g2);
      HoldIsQuiet(g2, r);
      QuietTwice(g, g2, Hold(g2, r, null));
    } else {
      QuietAtRest(g);
    }
  }

  lemma QuietAtRest(g: Graph)
    ensures Quiet(g, g)
  {
  }

  lemma QuietTwice(g: Graph, g1: Graph, g2: Graph)
    requires Quiet(g, g1) && Quiet(g1, g2)
    ensures Quiet(g, g2)
  {
    forall r | r in g.conn ensures FramesConn(g.conn[r], g2.conn[r], false, false) && g2.conn[r].ranId == g.conn[r].ranId {
      assert FramesConn(g.conn[r], g1.conn[r], false, false) && FramesConn(g1.conn[r], g2.conn[r], false, false);
    }
  }

  lemma DetachAmfUeIsQuiet(g: Graph, r: RanUe)
    requires Closed(g) && r in g.conn
    ensures Quiet(g, DetachAmfUe(g, r)) && r in DetachAmfUe(g, r).conn
  {
    hide IndexRefs, ConnRefs, LinkRefs;
  }

  lemma HoldIsQuiet(g: Graph, r: RanUe)
    requires Closed(g) && r in g.conn
    ensures Quiet(g, Hold(g, r, null))
  {
    hide IndexRefs, ConnRefs, LinkRefs;
  }

  // Registry events that touch neither pairs nor ids
  predicate QuietEvent(e: Runs.Event) {
    e.Removal? || e.RemovalOfAll? || e.Search? || e.RemovalOfContext? || e.NewContext? || e.Command? || e.Hold? || e.LetGo?
  }

  lemma QuietEvents(g: Graph, e: Runs.Event)
    requires Runs.Enabled(g, e) && QuietEvent(e)
    ensures Quiet(g, Runs.Apply(g, e))
  {
    hide Remove, RemoveAll, RemoveUe, Find, LetGo, ReleaseCommand, IndexRefs, ConnRefs;
    match e {
      case Removal(r) => RemoveIsQuiet(g, r);
      case RemovalOfAll(ran, order) => RemoveAllIsQuiet(g, ran, order);
      case Search(ran, amfId, ranId, first, send) => FindIsQuiet(g, ran, amfId, ranId, first, send);
      case RemovalOfContext(ue, first) => RemoveUeIsQuiet(g, ue, first);
      case Command(r, action) => CommandIsQuiet(g, r, action);
      case LetGo(r) => LetGoIsQuiet(g, r);
      case Hold(r, ue) =>
      case NewContext(ue) =>
      case _ =>
    }
  }

  lemma ElsewhereFrames(s: State, e: Runs.Event)
    requires Inv(s) && Orderly(s, Elsewhere(e))
    ensures Frames(s, Runs.Apply(s.g, e), Only(AttachedBy(s, Elsewhere(e))))
  {
    hide Runs.Apply, IndexRefs, ConnRefs, LinkRefs;
    if QuietEvent(e) {
      QuietEvents(s.g, e);
      QuietFrames(s, Runs.Apply(s.g, e));
    } else if e.Attach? {
      AttachFrames(s, e);
    } else if Renames(e) {
      RenameFrames(s, e);
    } else {
      CreationFrames(s, e);
    }
  }

  lemma AttachFrames(s: State, e: Runs.Event)
    requires Runs.Enabled(s.g, e) && e.Attach?
    ensures Frames(s, Runs.Apply(s.g, e), {e.r})
  {
    hide AttachAndReleaseOld, IndexRefs, ConnRefs;
    AttachTouches(s.g, e.ue, e.r);
  }

  lemma RenameFrames(s: State, e: Runs.Event)
    requires Runs.Enabled(s.g, e) && Renames(e) && (s.g.conn[e.r].source == null || e.r in s.acked)
    ensures Frames(s, Runs.Apply(s.g, e), {})
  {
    hide Runs.Apply, IndexRefs, ConnRefs, LinkRefs;
    RenamedConn(s.g, e);
  }

  lemma CreationFrames(s: State, e: Runs.Event)
    requires Runs.Enabled(s.g, e) && (e.NewConnection? || e.Replacement?)
    ensures Frames(s, Runs.Apply(s.g, e), {})
  {
    hide Forget, IndexRefs, ConnRefs, LinkRefs;
    if e.Replacement? {
      ForgetIsQuiet(s.g, Slot(e.ran, e.ranId));
    }
  }

  // Attaching changes UE pointers and may ask for one release.
  lemma AttachTouches(g: Graph, ue: AmfUe, r0: RanUe)
    requires Closed(g) && ue in g.ues && r0 in g.conn
    ensures var g' := AttachAndReleaseOld(g, ue, r0);
      && g'.conn.Keys == g.conn.Keys
      && forall r {:trigger g'.conn[r]} :: r in g.conn ==>
           FramesConn(g.conn[r], g'.conn[r], false, r == r0) && g'.conn[r].ranId == g.conn[r].ranId
  {
    hide ReleaseOldOrCount, IndexRefs, ConnRefs, LinkRefs;
    var p := Port(ue, Access(g, r0));
    ReleaseIsQuiet(g, p);
    var g1 := ReleaseOldOrCount(g, p);
    assert forall r :: r in g.conn ==> g1.conn[r].ranId == g.conn[r].ranId;
  }

  lemma ReleaseIsQuiet(g: Graph, p: Port)
    requires Closed(g) && p.ue in g.ues
    ensures Quiet(g, ReleaseOldOrCount(g, p))
  {
  }

  lemma ElsewhereKeepsInv(s: State, e: Runs.Event)
    requires Inv(s) && Orderly(s, Elsewhere(e))
    ensures Inv(Step(s, Elsewhere(e)))
  {
    hide Runs.Apply, IndexRefs, ConnRefs, LinkRefs;
    ElsewhereFrames(s, e);
    FramesKeepInv(s, Step(s, Elsewhere(e)), Only(AttachedBy(s, Elsewhere(e))));
  }

  lemma QuietKeepsInv(s: State, s': State)
    requires Inv(s) && Closed(s'.g) && Quiet(s.g, s'.g)
    requires s'.acked == s.acked && s'.commands == s.commands && s'.left == s.left && s'.reattached == s.reattached
    ensures Inv(s')
  {
    hide IndexRefs, ConnRefs, LinkRefs;
    QuietFrames(s, s'.g);
    FramesKeepInv(s, s', {});
  }

  lemma RequestConns(g: Graph, source: RanUe, ran: AmfRan, amfId: int, target: RanUe)
    requires Closed(g) && source in g.conn && ran in g.an && target !in g.conn
    ensures var g' := RequestHandover(g, source, ran, amfId, target);
      if g.conn[source].ue == null || g.conn[source].target != null then g' == g
      else
        && g'.conn.Keys == g.conn.Keys + {target}
        && g'.conn[target] == Conn(UNSPECIFIED, amfId, ran, g.conn[source].ue, null, source, null, N2NormalRelease, [])
        && forall r {:trigger g'.conn[r]} :: r in g.conn ==>
             g'.conn[r] == if r == source then g.conn[r].(target := target) else g.conn[r]
  {
    hide IndexRefs, ConnRefs, LinkRefs;
    if g.conn[source].ue != null && g.conn[source].target == null {
      NewConnectionConns(g, ran, amfId, target);
      PairedConns(NewRanUe(g, ran, UNSPECIFIED, amfId, target), source, target);
    }
  }

  lemma NewConnectionConns(g: Graph, ran: AmfRan, amfId: int, r: RanUe)
    requires Closed(g) && ran in g.an && r !in g.conn
    ensures Closed(NewRanUe(g, ran, UNSPECIFIED, amfId, r))
    ensures NewRanUe(g, ran, UNSPECIFIED, amfId, r).conn
            == g.conn[r := Conn(UNSPECIFIED, amfId, ran, null, null, null, null, N2NormalRelease, [])]
  {
  }

  lemma RequiredKeepsInv(s: State, e: Event)
    requires Inv(s) && Orderly(s, e) && e.Required?
    ensures Inv(Step(s, e))
  {
    hide RequestHandover, IndexRefs, ConnRefs, LinkRefs;
    var s' := Step(s, e);
    RequestConns(s.g, e.source, e.targetRan, e.newId, e.target);
    forall r | r in s'.g.conn ensures Sound(s', r) && Mutual(s'.g, r) {
      if r != e.target { assert Sound(s, r) && Mutual(s.g, r); }
    }
  }

  // An acknowledge finds a target that has no RAN id, so it was never acknowledged.
  lemma AcknowledgeKeepsInv(s: State, e: Event)
    requires Inv(s) && Orderly(s, e) && e.Acknowledge?
    ensures Inv(Step(s, e))
    ensures AcknowledgedBy(s, e) != null ==> AcknowledgedBy(s, e) !in s.acked
  {
    hide Find, AcceptTarget, IndexRefs, ConnRefs, LinkRefs;
    var t := AcknowledgedBy(s, e);
    if t == null {
      FindIsQuiet(s.g, e.ran, e.amfId, e.ranId, true, true);
      QuietKeepsInv(s, Step(s, e));
    } else {
      FindsWithoutRanId(s.g, e.ran, e.amfId, e.ranId);
      assert Sound(s, t);
      AcknowledgedIsSound(s, e);
    }
  }

  lemma AcknowledgedIsSound(s: State, e: Event)
    requires Inv(s) && Orderly(s, e) && e.Acknowledge? && AcknowledgedBy(s, e) != null && AcknowledgedBy(s, e) !in s.acked
    ensures Inv(Step(s, e))
  {
    hide Step, Find, CommandOf, Sound, IndexRefs, ConnRefs, LinkRefs;
    var s' := Step(s, e);
    AcknowledgeFields(s, e);
    forall r | r in s'.g.conn ensures Sound(s', r) {
      assert Sound(s, r);
      AcknowledgedStaySound(s, e, r);
    }
    forall r | r in s'.g.conn ensures Mutual(s'.g, r) { assert Mutual(s.g, r); }
  }

  lemma AcknowledgedStaySound(s: State, e: Event, r: RanUe)
    requires Orderly(s, e) && e.Acknowledge? && AcknowledgedBy(s, e) != null && AcknowledgedBy(s, e) !in s.acked
    requires r in s.g.conn && Sound(s, r) && r in Step(s, e).g.conn
    ensures Sound(Step(s, e), r)
  {
    hide Step, Find, CommandOf, IndexRefs, ConnRefs, LinkRefs;
    AcknowledgeFields(s, e);
  }

  lemma AcknowledgeFields(s: State, e: Event)
    requires Orderly(s, e) && e.Acknowledge? && AcknowledgedBy(s, e) != null
    ensures var s', t := Step(s, e), AcknowledgedBy(s, e);
      var c := s.g.conn[t];
      var admitted := if c.ue == null then [] else Admitted(e.items, ContextsOf(s, c.ue));
      && s'.acked == s.acked[t := admitted] && s'.left == s.left && s'.reattached == s.reattached
      && s'.g.conn == s.g.conn[t := c.(ranId := e.ranId.value, success := c.success + admitted)]
      && s'.commands == if c.ue == null || c.source == null || admitted == [] then s.commands else s.commands[t := admitted]
  {
    hide Find, AcceptTarget, IndexRefs, ConnRefs, LinkRefs;
    var t := AcknowledgedBy(s, e);
    var c := s.g.conn[t];
    var admitted := if c.ue == null then [] else Admitted(e.items, ContextsOf(s, c.ue));
    AcceptTouches(s.g, e.ran, t, e.ranId, admitted);
    assert c.success + [] == c.success;
  }

  // A notify finds a target with a RAN id, so it was acknowledged.
  lemma NotifyKeepsInv(s: State, e: Event)
    requires Inv(s) && Orderly(s, e) && e.Notify?
    ensures Inv(Step(s, e))
    ensures NotifiedBy(s, e) != null ==>
              var t := NotifiedBy(s, e);
              t in s.acked && s.g.conn[t].success == (if t in s.commands then s.commands[t] else [])
  {
    hide Find, AttachAndReleaseSource, IndexRefs, LinkRefs;
    var s' := Step(s, e);
    var t := NotifiedBy(s, e);
    if FindFor(s, e).found == null {
      FindIsQuiet(s.g, e.ran, e.amfId, e.ranId, false, true);
      QuietKeepsInv(s, s');
    } else if t == null {
      QuietKeepsInv(s, s');
    } else {
      FindsWithRanId(s.g, e.ran, e.amfId, e.ranId.value);
      assert Sound(s, t) && Mutual(s.g, t);
      NotifiedIsSound(s, e);
    }
  }

  lemma NotifiedIsSound(s: State, e: Event)
    requires Inv(s) && Orderly(s, e) && e.Notify? && NotifiedBy(s, e) != null
    ensures Inv(Step(s, e))
  {
    hide Step, Find, Sound, IndexRefs, LinkRefs;
    var s', t := Step(s, e), NotifiedBy(s, e);
    assert Sound(s, t) && Mutual(s.g, t);
    NotifyFields(s, e);
    forall r | r in s'.g.conn ensures Sound(s', r) {
      assert Sound(s, r) && Sound(s, t);
      NotifiedStaySound(s, e, r);
    }
    forall r | r in s'.g.conn ensures Mutual(s'.g, r) { assert Mutual(s.g, r); }
  }

  lemma NotifiedStaySound(s: State, e: Event, r: RanUe)
    requires Orderly(s, e) && e.Notify? && NotifiedBy(s, e) != null && s.g.conn[NotifiedBy(s, e)].source != NotifiedBy(s, e)
    requires r in s.g.conn && Sound(s, r) && Sound(s, NotifiedBy(s, e)) && r in Step(s, e).g.conn
    ensures Sound(Step(s, e), r)
  {
    hide Step, Find, IndexRefs, ConnRefs, LinkRefs;
    NotifyFields(s, e);
  }

  lemma NotifyFields(s: State, e: Event)
    requires Orderly(s, e) && e.Notify? && NotifiedBy(s, e) != null && s.g.conn[NotifiedBy(s, e)].source != NotifiedBy(s, e)
    ensures var s', t := Step(s, e), NotifiedBy(s, e);
      var source := s.g.conn[t].source;
      && source in s.g.conn
      && s'.acked == s.acked && s'.commands == s.commands
      && s'.left == s.left + {source} && s'.reattached == s.reattached - {source}
      && s'.g.conn == s.g.conn[source := s.g.conn[source].(ue := null, action := ReleaseHandover)][t := s.g.conn[t]]
  {
    hide Find, AttachAndReleaseSource, IndexRefs, LinkRefs;
    var t := NotifiedBy(s, e);
    HandOverTouches(s.g, s.g.conn[t].ue, s.g.conn[t].source, t);
  }

  // Failure and cancel only ask for a release.
  lemma AbandonKeepsInv(s: State, e: Event)
    requires Inv(s) && Orderly(s, e) && (e.Failure? || e.Cancel?)
    ensures Inv(Step(s, e))
  {
    hide Find, ReleaseCommand, IndexRefs, LinkRefs;
    var l := FindFor(s, e);
    FoundIsKnown(s.g, e.ran, e.amfId, if e.Failure? then None else e.ranId, e.Failure?, true);
    if l.found == null {
      FindIsQuiet(s.g, e.ran, e.amfId, if e.Failure? then None else e.ranId, e.Failure?, true);
    } else if e.Failure? {
      CommandIsQuiet(s.g, l.found, ReleaseHandover);
    } else if s.g.conn[l.found].target != null {
      CommandIsQuiet(s.g, s.g.conn[l.found].target, ReleaseHandover);
    }
    QuietKeepsInv(s, Step(s, e));
  }

  lemma UnpairKeepsInv(s: State, r: RanUe)
    requires Inv(s) && r in s.g.conn && s.g.conn[r].target != null
    ensures Inv(s.(g := Unpair(s.g, r)))
  {
    hide Unpair, IndexRefs, ConnRefs, LinkRefs;
    assert Mutual(s.g, r) && Mutual(s.g, s.g.conn[r].target);
    UnpairedConns(s.g, r);
    var s' := s.(g := Unpair(s.g, r));
    forall q | q in s'.g.conn ensures Sound(s', q) && Mutual(s'.g, q) { assert Sound(s, q) && Mutual(s.g, q); }
  }

  // The release of a source after a handover
  lemma ReleaseOfSourceKeepsInv(s: State, s': State, r: RanUe, first: AccessType)
    requires Inv(s) && r in s.g.conn && ReleasedForHandover(s.g, r)
    requires s'.g == ReleaseComplete(s.g, r, first).graph
    requires s'.acked == s.acked && s'.commands == s.commands && s'.left == s.left
    requires s'.reattached == s.reattached + Only(TargetToAttach(s.g, r))
    ensures Inv(s')
  {
    hide Unpair, Remove, AttachAndReleaseOld, IndexRefs, LinkRefs;
    UnpairKeepsInv(s, r);
    var s1 := s.(g := Unpair(s.g, r));
    RemoveIsQuiet(s1.g, r);
    RemoveKeepsRans(s1.g, r);
    var g1 := Remove(s1.g, r);
    var t := TargetToAttach(s.g, r);
    if t == null {
      QuietKeepsInv(s1, s');
    } else {
      AttachAfterRelease(s1, g1, s.g.conn[r].ue, t);
      FramesKeepInv(s1, s', {t});
    }
  }

  lemma AttachAfterRelease(s: State, g1: Graph, ue: AmfUe, t: RanUe)
    requires Closed(s.g) && Closed(g1) && Quiet(s.g, g1) && ue in g1.ues && t in g1.conn
    ensures Frames(s, AttachAndReleaseOld(g1, ue, t), {t})
  {
    hide AttachAndReleaseOld, IndexRefs, ConnRefs, LinkRefs;
    AttachTouches(g1, ue, t);
    var g' := AttachAndReleaseOld(g1, ue, t);
    forall r | r in s.g.conn ensures FramesConn(s.g.conn[r], g'.conn[r], r in s.acked, r in {t}) {
      assert FramesConn(s.g.conn[r], g1.conn[r], false, false) && FramesConn(g1.conn[r], g'.conn[r], false, r == t);
    }
  }

  lemma CompletedKeepsInv(s: State, e: Event)
    requires Inv(s) && Orderly(s, e) && e.Completed?
    ensures Inv(Step(s, e))
  {
    hide Find, Remove, RemoveUe, Unpair, AttachAndReleaseOld, IndexRefs, LinkRefs;
    var s' := Step(s, e);
    FoundIsKnown(s.g, e.ran, e.amfId, e.ranId, false, false);
    var r := FindFor(s, e).found;
    if r == null {
      FindIsQuiet(s.g, e.ran, e.amfId, e.ranId, false, false);
      QuietKeepsInv(s, s');
    } else if ReleasedForHandover(s.g, r) {
      ReleaseOfSourceKeepsInv(s, s', r, e.visitedFirst);
    } else {
      RemoveIsQuiet(s.g, r);
      if s.g.conn[r].ue != null { RemoveUeIsQuiet(s.g, s.g.conn[r].ue, e.visitedFirst); }
      QuietKeepsInv(s, s');
    }
  }

  lemma SessionsKeepInv(s: State, e: Event)
    requires Inv(s) && Orderly(s, e) && e.Sessions?
    ensures Inv(Step(s, e))
  {
    hide IndexRefs, ConnRefs, LinkRefs;
    QuietKeepsInv(s, Step(s, e));
  }

  lemma CommandKeepsInv(s: State, e: Event)
    requires Inv(s) && Orderly(s, e) && e.Command?
    ensures Inv(Step(s, e))
  {
    hide ReleaseCommand, IndexRefs, LinkRefs;
    CommandIsQuiet(s.g, e.r, e.action);
    QuietKeepsInv(s, Step(s, e));
  }

  lemma StepKeepsInv(s: State, e: Event)
    requires Inv(s) && Orderly(s, e)
    ensures Inv(Step(s, e))
  {
    hide Step;
    match e
    case Required(_, _, _, _) => RequiredKeepsInv(s, e);
    case Acknowledge(_, _, _, _) => AcknowledgeKeepsInv(s, e);
    case Failure(_, _) => AbandonKeepsInv(s, e);
    case Cancel(_, _, _) => AbandonKeepsInv(s, e);
    case Notify(_, _, _) => NotifyKeepsInv(s, e);
    case Completed(_, _, _, _) => CompletedKeepsInv(s, e);
    case Command(_, _) => CommandKeepsInv(s, e);
    case Sessions(_, _) => SessionsKeepInv(s, e);
    case Elsewhere(e) => ElsewhereKeepsInv(s, e);
  }

  lemma {:induction false} RunKeepsInv(states: seq<State>, events: seq<Event>, i: nat)
    requires Run(states, events) && Inv(states[0]) && i <= |events|
    ensures Inv(states[i])
  {
    hide Step, Inv;
    if i > 0 {
      RunKeepsInv(states, events, i - 1);
      StepKeepsInv(states[i - 1], events[i - 1]);
    }
  }

  // ----- what the runs guarantee -----

  // A run that starts before any handover.
  ghost predicate FreshRun(states: seq<State>, events: seq<Event>) {
    && Run(states, events) && Inv(states[0])
    && states[0].acked == map[] && states[0].commands == map[]
    && states[0].left == {} && states[0].reattached == {}
  }

  lemma {:induction false} AcknowledgedStays(states: seq<State>, events: seq<Event>, i: nat, j: nat)
    requires Run(states, events) && i <= j <= |events|
    ensures states[i].acked.Keys <= states[j].acked.Keys
  {
    hide Step, Find, IndexRefs, ConnRefs, LinkRefs;
    if i < j {
      AcknowledgedStays(states, events, i, j - 1);
      assert Orderly(states[j - 1], events[j - 1]);
      AcknowledgedGrows(states[j - 1], events[j - 1]);
    }
  }

  lemma AcknowledgedGrows(s: State, e: Event)
    requires Enabled(s, e)
    ensures var t := AcknowledgedBy(s, e);
      Step(s, e).acked.Keys == s.acked.Keys + (if t == null then {} else {t})
  {
    hide Find, AcceptTarget, IndexRefs, ConnRefs, LinkRefs;
  }

  lemma CommandsGrow(s: State, e: Event)
    requires Enabled(s, e)
    ensures var t := AcknowledgedBy(s, e);
      Step(s, e).commands == if t == null || CommandOf(s, e) == [] then s.commands else s.commands[t := CommandOf(s, e)]
  {
    hide Find, AcceptTarget, IndexRefs, ConnRefs, LinkRefs;
  }

  function CommandFor(s: State, t: RanUe): seq<int> {
    if t in s.commands then s.commands[t] else []
  }

  ghost predicate AcknowledgedAt(states: seq<State>, events: seq<Event>, i: nat, t: RanUe)
    requires Run(states, events) && i < |events|
  {
    var e := events[i];
    AcknowledgedBy(states[i], e) == t
  }

  // An acknowledged target was acknowledged by one event, which also settled the command.
  lemma {:induction false} AcknowledgedByAnEvent(states: seq<State>, events: seq<Event>, k: nat, t: RanUe) returns (i: nat)
    requires FreshRun(states, events) && k <= |events| && t in states[k].acked
    ensures i < k && AcknowledgedAt(states, events, i, t)
    ensures CommandFor(states[k], t) == CommandOf(states[i], events[i])
  {
    hide Step, Find, IndexRefs, ConnRefs, LinkRefs;
    var s, e := states[k - 1], events[k - 1];
    RunKeepsInv(states, events, k - 1);
    AcknowledgedGrows(s, e);
    CommandsGrow(s, e);
    if AcknowledgedBy(s, e) == t {
      i := k - 1;
      NotAcknowledgedBefore(s, e);
    } else {
      i := AcknowledgedByAnEvent(states, events, k - 1, t);
    }
  }

  lemma NotAcknowledgedBefore(s: State, e: Event)
    requires Inv(s) && Orderly(s, e) && AcknowledgedBy(s, e) != null
    ensures var t := AcknowledgedBy(s, e); t !in s.acked && t !in s.commands
  {
    hide Find, AcceptTarget, IndexRefs, ConnRefs, LinkRefs, Step;
    AcknowledgeKeepsInv(s, e);
    assert Sound(s, AcknowledgedBy(s, e));
  }

  // A target's acknowledge is processed at most once.
  lemma AcknowledgedOnce(states: seq<State>, events: seq<Event>, i: nat, j: nat, t: RanUe)
    requires FreshRun(states, events) && i < j < |events|
    requires AcknowledgedAt(states, events, i, t)
    ensures !AcknowledgedAt(states, events, j, t)
  {
    hide Step, Find, IndexRefs, ConnRefs, LinkRefs;
    AcknowledgedGrows(states[i], events[i]);
    AcknowledgedStays(states, events, i + 1, j);
    RunKeepsInv(states, events, j);
    if AcknowledgedAt(states, events, j, t) {
      NotAcknowledgedBefore(states[j], events[j]);
    }
  }

  // A notify completes a handover only after the one acknowledge of its target, and
  // then for exactly those sessions of the HandoverCommand that still have an SM
  // context, in order.
  lemma NotifyFollowsItsAcknowledge(states: seq<State>, events: seq<Event>, k: nat)
    requires FreshRun(states, events) && k < |events| && NotifiedBy(states[k], events[k]) != null
    ensures var t := NotifiedBy(states[k], events[k]);
      exists i: nat ::
        && i < k && AcknowledgedAt(states, events, i, t)
        && (forall j: nat :: j < |events| && j != i ==> !AcknowledgedAt(states, events, j, t))
        && CompletedBy(states[k], events[k])
             == Having(CommandOf(states[i], events[i]), ContextsOf(states[k], states[k].g.conn[t].ue))
  {
    hide Step, Find, IndexRefs, ConnRefs, LinkRefs;
    var s, e := states[k], events[k];
    RunKeepsInv(states, events, k);
    NotifyKeepsInv(s, e);
    var t := NotifiedBy(s, e);
    var i := AcknowledgedByAnEvent(states, events, k, t);
    forall j: nat | j < |events| && j != i ensures !AcknowledgedAt(states, events, j, t) {
      if i < j {
        AcknowledgedOnce(states, events, i, j, t);
      } else if AcknowledgedAt(states, events, j, t) {
        AcknowledgedOnce(states, events, j, i, t);
      }
    }
  }

  // The sessions in a HandoverCommand are those of the acknowledge's items that have an
  // SM context and for which the SMF has answered with something to hand over, in order.
  lemma CommandIsExact(s: State, e: Event)
    requires Enabled(s, e) && CommandOf(s, e) != []
    ensures var t := AcknowledgedBy(s, e);
      && t != null && s.g.conn[t].ue != null && s.g.conn[t].source != null
      && var contexts := ContextsOf(s, s.g.conn[t].ue);
         AreIdsAt(e.items, (set i: nat | i < |e.items| && e.items[i].response && e.items[i].id in contexts), CommandOf(s, e))
  {
    hide AreIdsAt, Find, IndexRefs, ConnRefs, LinkRefs;
    ListsExactly(e.items, ContextsOf(s, s.g.conn[AcknowledgedBy(s, e)].ue));
  }

  // A handover that is prepared, acknowledged with a RAN id and notified goes through, for
  // exactly the sessions with an SM context and a response, one for each such item, in order.
  lemma HandoverGoesThrough(s: State, source: RanUe, ran: AmfRan, amfId: int, target: RanUe, ranId: int, items: seq<Item>)
    requires Closed(s.g) && Live(s.g, source) && ran in s.g.an && amfId !in s.g.used && target !in s.g.conn
    requires s.g.conn[source].ue != null && s.g.conn[source].target == null && ranId != UNSPECIFIED
    ensures var required := Required(source, ran, amfId, target);
      var s1 := Step(s, required);
      var acknowledge := Acknowledge(ran, amfId, Some(ranId), items);
      var s2 := Step(s1, acknowledge);
      var notify := Notify(ran, amfId, Some(ranId));
      var contexts := ContextsOf(s, s.g.conn[source].ue);
      && AcknowledgedBy(s1, acknowledge) == target && NotifiedBy(s2, notify) == target
      && AreIdsAt(items, (set i: nat | i < |items| && items[i].response && items[i].id in contexts),
                  CompletedBy(s2, notify))
  {
    hide AreIdsAt, Admitted, ToRelease, Having, IndexRefs, ConnRefs, LinkRefs, RemoveByInvalidUe, RequestHandover, AcceptTarget;
    var ue := s.g.conn[source].ue;
    var s1 := Step(s, Required(source, ran, amfId, target));
    RequestMakesTarget(s.g, source, ran, amfId, target);
    var acknowledge := Acknowledge(ran, amfId, Some(ranId), items);
    assert AcknowledgedBy(s1, acknowledge) == target;
    var admitted := Admitted(items, ContextsOf(s, ue));
    AcceptTouches(s1.g, ran, target, Some(ranId), admitted);
    AcceptKeepsPool(s1.g, ran, target, Some(ranId), admitted);
    assert [] + admitted == admitted;
    AllAdmittedHave(items, ContextsOf(s, ue));
  }

  // ----- a path switch on a target -----

  // A path switch keeps the invariant exactly if its connection is no target, or one
  // that has been acknowledged.
  lemma PathSwitchKeepsInvExactly(s: State, e: Runs.Event)
    requires Inv(s) && Renames(e) && Runs.Enabled(s.g, e)
    ensures Inv(Step(s, Elsewhere(e))) <==> s.g.conn[e.r].source == null || e.r in s.acked
  {
    hide IndexRefs, ConnRefs, LinkRefs;
    if s.g.conn[e.r].source == null || e.r in s.acked {
      StepKeepsInv(s, Elsewhere(e));
    } else {
      assert !Sound(Step(s, Elsewhere(e)), e.r);
    }
  }

  // After it a notify with the new id completes the handover of a target, whether the
  // target has been acknowledged or not.
  lemma NotifyAfterPathSwitch(s: State, e: Runs.Event)
    requires Inv(s) && Renames(e) && Runs.Enabled(s.g, e)
    requires s.g.conn[e.r].source != null && s.g.conn[e.r].ue != null
    ensures var s' := Step(s, Elsewhere(e));
      var notify := Notify(s'.g.conn[e.r].ran, s'.g.conn[e.r].amfId, Some(e.ranId));
      && e.r in s'.g.conn && notify.ran in s'.g.an
      && Orderly(s', notify) && NotifiedBy(s', notify) == e.r && (e.r in s'.acked <==> e.r in s.acked)
  {
    hide Runs.Apply, IndexRefs, LinkRefs;
    RenamedConn(s.g, e);
  }

  lemma RenamedConn(g: Graph, e: Runs.Event)
    requires Runs.Enabled(g, e) && Renames(e)
    ensures var g' := Runs.Apply(g, e);
      var switched := e.Switch? || e.switched;
      && g'.pool == g.pool && g'.an == g.an
      && g'.conn == g.conn[e.r := g.conn[e.r].(ran := if switched then e.newRan else g.conn[e.r].ran, ranId := e.ranId)]
  {
    hide IndexRefs, LinkRefs;
  }

  // ----- the release of the source -----

  lemma HistoryGrows(s: State, e: Event)
    requires Enabled(s, e)
    ensures var s' := Step(s, e);
      && s'.left == s.left + Only(LeftBy(s, e))
      && s'.reattached == s.reattached - Only(LeftBy(s, e)) + Only(AttachedBy(s, e))
  {
    hide Find, Effect, IndexRefs, ConnRefs, LinkRefs;
  }

  ghost predicate LeftAt(states: seq<State>, events: seq<Event>, i: nat, r: RanUe)
    requires Run(states, events) && i < |events|
  {
    var e := events[i];
    LeftBy(states[i], e) == r
  }

  ghost predicate AttachedAt(states: seq<State>, events: seq<Event>, i: nat, r: RanUe)
    requires Run(states, events) && i < |events|
  {
    var e := events[i];
    AttachedBy(states[i], e) == r
  }

  // After a notify its source has no UE until one is attached to it.
  lemma {:induction false} SourceStaysDetached(states: seq<State>, events: seq<Event>, i: nat, k: nat, r: RanUe)
    requires FreshRun(states, events) && i < k <= |events| && LeftAt(states, events, i, r)
    requires forall j {:trigger AttachedAt(states, events, j, r)} :: i < j < k ==> !AttachedAt(states, events, j, r)
    ensures r in states[k].left && r !in states[k].reattached
    ensures r in states[k].g.conn && states[k].g.conn[r].ue == null
  {
    hide Step, Find, IndexRefs, ConnRefs, LinkRefs;
    RunKeepsInv(states, events, k);
    HistoryGrows(states[k - 1], events[k - 1]);
    if k > i + 1 {
      SourceStaysDetached(states, events, i, k - 1, r);
      assert !AttachedAt(states, events, k - 1, r);
    } else {
      assert AttachedBy(states[i], events[i]) == null;
    }
    assert Sound(states[k], r);
  }

  // The release of a source that a notify moved the UE away from changes no link, no
  // other connection and no gauge, if no UE was attached to it since.
  lemma SourceReleaseSparesTheUe(states: seq<State>, events: seq<Event>, i: nat, k: nat, r: RanUe)
    requires FreshRun(states, events) && i < k < |events| && LeftAt(states, events, i, r)
    requires forall j {:trigger AttachedAt(states, events, j, r)} :: i < j < k ==> !AttachedAt(states, events, j, r)
    requires events[k].Completed? && FindFor(states[k], events[k]).found == r
    ensures !Stops(states[k], events[k])
    ensures var g, g' := states[k].g, states[k + 1].g;
      && g'.links == g.links && g'.conn == g.conn && g'.live == g.live
      && g'.connected == g.connected && g'.idle == g.idle
      && g'.pool == g.pool - {g.conn[r].amfId} && !Live(g', r)
  {
    hide Find, IndexRefs, ConnRefs, LinkRefs;
    SourceStaysDetached(states, events, i, k, r);
    ReleaseOfTheUnattached(states[k].g, r);
  }

  // In every run: the release that the notify asked the source for leaves the target with
  // its UE exactly if no UE was attached to the source since, or it has lost it again, or
  // it is the target's own.
  lemma SourceReleaseSparesTheUeExactly(states: seq<State>, events: seq<Event>, i: nat, k: nat, r: RanUe, t: RanUe)
    requires FreshRun(states, events) && i < k < |events| && LeftAt(states, events, i, r)
    requires events[k].Completed? && FindFor(states[k], events[k]).found == r
    requires r in states[k].g.conn && states[k].g.conn[r].action == ReleaseHandover && states[k].g.conn[r].target == t
    requires Live(states[k].g, t) && Attached(states[k].g, t)
    ensures var g, g' := states[k].g, states[k + 1].g;
      var ue := g.conn[t].ue;
      && r in g.conn
      && (Attached(g', t) && g'.conn[t].ue == ue <==>
            || (forall j {:trigger AttachedAt(states, events, j, r)} :: i < j < k ==> !AttachedAt(states, events, j, r))
            || g.conn[r].ue == null || g.conn[r].ue == ue)
  {
    hide Find, ReleaseComplete, IndexRefs, ConnRefs, LinkRefs;
    RunKeepsInv(states, events, k);
    assert Mutual(states[k].g, r) && Mutual(states[k].g, t);
    ReleaseSparesTargetExactly(states[k].g, r, t, events[k].visitedFirst);
    if forall j {:trigger AttachedAt(states, events, j, r)} :: i < j < k ==> !AttachedAt(states, events, j, r) {
      SourceStaysDetached(states, events, i, k, r);
    }
  }

  // From the notify on the UE is linked to the target, and the source is marked.
  lemma NotifyMovesTheUe(s: State, e: Event)
    requires Inv(s) && Orderly(s, e) && NotifiedBy(s, e) != null
    ensures var t := NotifiedBy(s, e);
      var c := s.g.conn[t];
      var s' := Step(s, e);
      && LeftBy(s, e) == c.source && c.source != t
      && Attached(s'.g, t) && s'.g.conn[t].ue == c.ue
      && s'.g.conn[c.source].ue == null && s'.g.conn[c.source].action == ReleaseHandover && s'.g.conn[c.source].target == t
      && s'.g.connected == s.g.connected && s'.g.idle == s.g.idle
  {
    assert Sound(s, NotifiedBy(s, e)) && Mutual(s.g, NotifiedBy(s, e));
  }

  // How a UE comes to a source again and the target is lost to it: after the notify the
  // source is still there without a UE, so that an uplink NAS message that is not refused
  // for this makes a new context for it. The release of the source then takes the target
  // to the new context, while the UE stays linked to it.
  lemma SourceReleaseTakesTheTarget(s: State, e: Event, ue: AmfUe, first: AccessType)
    requires Inv(s) && Orderly(s, e) && NotifiedBy(s, e) != null && ue !in s.g.ues
    requires Live(s.g, s.g.conn[NotifiedBy(s, e)].source) && Live(s.g, NotifiedBy(s, e))
    ensures var t := NotifiedBy(s, e);
      var source := s.g.conn[t].source;
      && source in s.g.conn
      && var s1 := Step(s, e);
         && Orderly(s1, Elsewhere(Runs.NewContext(ue)))
         && var s2 := Step(s1, Elsewhere(Runs.NewContext(ue)));
            && Orderly(s2, Elsewhere(Runs.Attach(ue, source)))
            && var s3 := Step(s2, Elsewhere(Runs.Attach(ue, source)));
               var c := s.g.conn[source];
               var completed := Completed(c.ran, c.amfId, Some(c.ranId), first);
               && Orderly(s3, completed) && !Stops(s3, completed)
               && var s4 := Step(s3, completed);
                  && Attached(s4.g, t) && s4.g.conn[t].ue == ue != s.g.conn[t].ue
                  && LinkedAt(s4.g, Port(s.g.conn[t].ue, Access(s4.g, t)), t)
  {
    hide Effect, Find, ReleaseComplete, IndexRefs, ConnRefs, LinkRefs, AttachAndReleaseSource, AttachAndReleaseOld, NewUe;
    var t := NotifiedBy(s, e);
    var source := s.g.conn[t].source;
    assert Mutual(s.g, t);
    UplinkReattaches(s, e, ue);
    MoveAndReattach(s.g, source, t, ue);
    var s2 := Step(Step(s, e), Elsewhere(Runs.NewContext(ue)));
    var s3 := Step(s2, Elsewhere(Runs.Attach(ue, source)));
    var c := s.g.conn[source];
    FindsByItsIds(s3.g, source);
    ReleaseReattached(s3.g, source, t, Port(s.g.conn[t].ue, Access(s.g, t)), first);
    CompletedReleases(s3, Completed(c.ran, c.amfId, Some(c.ranId), first), source);
  }

  function Reattached(g: Graph, source: RanUe, t: RanUe, ue: AmfUe): (g': Graph)
    requires Closed(g) && source in g.conn && t in g.conn && g.conn[t].ue != null && ue !in g.ues
    ensures Closed(g')
  {
    AttachAndReleaseOld(NewUe(AttachAndReleaseSource(g, g.conn[t].ue, source, t), ue), ue, source)
  }

  lemma UplinkReattaches(s: State, e: Event, ue: AmfUe)
    requires Inv(s) && Orderly(s, e) && NotifiedBy(s, e) != null && ue !in s.g.ues
    requires Live(s.g, s.g.conn[NotifiedBy(s, e)].source)
    ensures var t := NotifiedBy(s, e);
      var source := s.g.conn[t].source;
      && source in s.g.conn && source != t
      && var s1 := Step(s, e);
         && Orderly(s1, Elsewhere(Runs.NewContext(ue)))
         && var s2 := Step(s1, Elsewhere(Runs.NewContext(ue)));
            && Orderly(s2, Elsewhere(Runs.Attach(ue, source)))
            && Step(s2, Elsewhere(Runs.Attach(ue, source))).g == Reattached(s.g, source, t, ue)
  {
    hide Effect, Find, IndexRefs, ConnRefs, LinkRefs, AttachAndReleaseSource, AttachAndReleaseOld, NewUe;
    var t := NotifiedBy(s, e);
    var source := s.g.conn[t].source;
    assert Mutual(s.g, t);
    NotifyMoves(s, e);
    MoveConns(s.g, s.g.conn[t].ue, source, t);
    var s1 := Step(s, e);
    ElsewhereApplies(s1, Runs.NewContext(ue));
    NewUeKeeps(s1.g, ue);
    ElsewhereApplies(Step(s1, Elsewhere(Runs.NewContext(ue))), Runs.Attach(ue, source));
  }

  lemma NotifyMoves(s: State, e: Event)
    requires Enabled(s, e) && NotifiedBy(s, e) != null
    ensures var t := NotifiedBy(s, e);
      && s.g.conn[t].source in s.g.conn && s.g.conn[t].ue in s.g.ues
      && Step(s, e).g == AttachAndReleaseSource(s.g, s.g.conn[t].ue, s.g.conn[t].source, t)
  {
    hide Find, AttachAndReleaseSource, IndexRefs, LinkRefs;
  }

  lemma ElsewhereApplies(s: State, e: Runs.Event)
    requires Runs.Enabled(s.g, e)
    ensures Step(s, Elsewhere(e)).g == Runs.Apply(s.g, e)
  {
    hide Runs.Apply, IndexRefs, ConnRefs, LinkRefs;
  }

  lemma CompletedReleases(s: State, e: Event, r: RanUe)
    requires Enabled(s, e) && e.Completed? && FindFor(s, e).found == r && r in s.g.conn
    ensures Step(s, e).g == ReleaseComplete(s.g, r, e.visitedFirst).graph
    ensures Stops(s, e) == ReleaseComplete(s.g, r, e.visitedFirst).stopped
  {
    hide Find, ReleaseComplete, IndexRefs, ConnRefs, LinkRefs;
  }

  lemma FindsByItsIds(g: Graph, r: RanUe)
    requires Closed(g) && Live(g, r)
    ensures g.conn[r].ran in g.an
    ensures Find(g, g.conn[r].ran, g.conn[r].amfId, Some(g.conn[r].ranId), false, false).found == r
  {
    hide RemoveByInvalidUe, IndexRefs, LinkRefs;
  }

  // The handover's move, a new context and its attachment to the source
  lemma MoveAndReattach(g: Graph, source: RanUe, t: RanUe, ue: AmfUe)
    requires Closed(g) && source in g.conn && t in g.conn && source != t && g.conn[t].ue != null && ue !in g.ues
    ensures var g' := Reattached(g, source, t, ue);
      && g'.pool == g.pool && g'.an == g.an && g'.conn.Keys == g.conn.Keys
      && g'.conn[source] == g.conn[source].(ue := ue, action := ReleaseHandover) && g'.conn[t] == g.conn[t]
      && LinkedAt(g', Port(g.conn[t].ue, Access(g, t)), t) && g.conn[t].ue != ue
  {
    hide IndexRefs, ConnRefs, LinkRefs, AttachAndReleaseSource, AttachAndReleaseOld, NewUe;
    MoveConns(g, g.conn[t].ue, source, t);
    var g1 := AttachAndReleaseSource(g, g.conn[t].ue, source, t);
    NewUeKeeps(g1, ue);
    AttachFresh(NewUe(g1, ue), ue, source);
  }

  lemma ReleaseReattached(g: Graph, source: RanUe, t: RanUe, p: Port, first: AccessType)
    requires Closed(g) && source in g.conn && Live(g, t) && source != t && LinkedAt(g, p, t)
    requires g.conn[source].ue != null && g.conn[source].ue != p.ue
    requires g.conn[source].action == ReleaseHandover && g.conn[source].target == t
    ensures var h := ReleaseComplete(g, source, first);
      && !h.stopped && Attached(h.graph, t) && h.graph.conn[t].ue == g.conn[source].ue && LinkedAt(h.graph, p, t)
      && Access(h.graph, t) == Access(g, t)
  {
    hide Remove, Unpair, AttachAndReleaseOld, IndexRefs, LinkRefs;
    var ue := g.conn[source].ue;
    UnpairKeeps(g, source);
    var g1 := Remove(Unpair(g, source), source);
    RemoveKeepsRans(Unpair(g, source), source);
    RemoveKeepsOthersLinks(Unpair(g, source), source, p);
    AttachLinks(g1, ue, t);
    AttachKeepsOthersLinks(g1, ue, t, p);
  }

  lemma RemoveKeepsOthersLinks(g: Graph, r: RanUe, p: Port)
    requires Closed(g) && r in g.conn && p in g.links && g.conn[r].ue != p.ue
    ensures var g' := Remove(g, r); p in g'.links && g'.links[p] == g.links[p]
  {
    hide IndexRefs, LinkRefs;
  }

  lemma AttachKeepsOthersLinks(g: Graph, ue: AmfUe, r: RanUe, p: Port)
    requires Closed(g) && ue in g.ues && r in g.conn && p in g.links && ue != p.ue
    ensures var g' := AttachAndReleaseOld(g, ue, r);
      p in g'.links && g'.links[p] == g.links[p] && g'.an == g.an && r in g'.conn && g'.conn[r].ran == g.conn[r].ran
  {
    hide IndexRefs;
  }

  // ----- targets of handovers that were given up -----

  // Told to release for a handover, with a UE and without a target of its own.
  ghost predicate Abandoned(g: Graph, t: RanUe) {
    && Closed(g) && Live(g, t)
    && g.conn[t].ue != null && g.conn[t].target == null && g.conn[t].action == ReleaseHandover
  }

  // Does this RAN id, present or not, pass the search for a connection with the id known?
  predicate Names(ranId: Option<int>, known: int) {
    ranId == Some(known) || (ranId.None? && known == UNSPECIFIED)
  }

  // The release complete of such a target stops at the missing target pointer, with
  // nothing changed, exactly if its ids are consistent; otherwise it removes the target.
  lemma AbandonedStopsExactly(s: State, t: RanUe, ranId: Option<int>, first: AccessType)
    requires Abandoned(s.g, t)
    ensures var c := s.g.conn[t];
      var e := Completed(c.ran, c.amfId, ranId, first);
      && Enabled(s, e) && (Stops(s, e) <==> Names(ranId, c.ranId))
      && (Stops(s, e) ==> Step(s, e) == s)
      && (!Stops(s, e) ==> !Live(Step(s, e).g, t))
  {
    hide RemoveByInvalidUe, IndexRefs, LinkRefs;
    var c := s.g.conn[t];
    var e := Completed(c.ran, c.amfId, ranId, first);
    if Names(ranId, c.ranId) {
      assert FindFor(s, e) == Lookup(t, None, s.g);
      assert s.reattached - {} + {} == s.reattached && s.left + {} == s.left;
    } else {
      InvalidUeUnpools(s.g, c.ran, c.amfId, ranId);
    }
  }

  lemma InvalidUeUnpools(g: Graph, ran: AmfRan, amfId: int, ranId: Option<int>)
    requires Closed(g) && ran in g.an && amfId in g.pool && g.conn[g.pool[amfId]].ran == ran && g.conn[g.pool[amfId]].amfId == amfId
    ensures amfId !in RemoveByInvalidUe(g, ran, amfId, ranId).pool
    ensures RemoveByInvalidUe(g, ran, amfId, ranId).conn[g.pool[amfId]].amfId == amfId
  {
    hide RemoveByInvalidId, ConnRefs, LinkRefs;
    var t := g.pool[amfId];
    InvalidIdUnpools(g, ran, t);
    var g1 := RemoveByInvalidId(g, ran, t);
    if ranId.Some? && Slot(ran, ranId.value) in g1.lists {
      InvalidIdUnpools(g1, ran, g1.lists[Slot(ran, ranId.value)]);
    }
  }

  lemma InvalidIdUnpools(g: Graph, ran: AmfRan, r: RanUe)
    requires Closed(g) && ran in g.an && r in g.conn
    ensures var g' := RemoveByInvalidId(g, ran, r);
      && g'.pool == g.pool - {g.conn[r].amfId}
      && forall q :: q in g.conn ==> q in g'.conn && g'.conn[q].amfId == g.conn[q].amfId
  {
  }

  // A failure abandons the target it finds, which has no RAN id.
  lemma FailureAbandons(s: State, e: Event)
    requires Enabled(s, e) && e.Failure? && FindFor(s, e).found != null
    ensures var t := FindFor(s, e).found;
      && t in s.g.conn && s.g.conn[t].ranId == UNSPECIFIED
      && (Live(s.g, t) && s.g.conn[t].ue != null && s.g.conn[t].target == null ==>
            Abandoned(Step(s, e).g, t) && Step(s, e).g.conn[t] == s.g.conn[t].(action := ReleaseHandover))
  {
    hide RemoveByInvalidUe, ConnRefs, LinkRefs;
  }

  // A cancel abandons the target of the source it finds, acknowledged or not.
  lemma CancelAbandons(s: State, e: Event)
    requires Enabled(s, e) && e.Cancel? && FindFor(s, e).found != null
    ensures var r := FindFor(s, e).found;
      && r in s.g.conn
      && var t := s.g.conn[r].target;
         && (t != null && Live(s.g, t) && s.g.conn[t].ue != null && s.g.conn[t].target == null ==>
               Abandoned(Step(s, e).g, t) && Step(s, e).g.conn[t] == s.g.conn[t].(action := ReleaseHandover))
  {
    hide RemoveByInvalidUe, LinkRefs;
  }

  // Whenever the source cancels: its target's release complete stops the handler exactly if
  // it carries the ids that are known of the target; any other RAN id removes it.
  lemma CancelledTargetStopsExactly(s: State, e: Event, ranId: Option<int>, first: AccessType)
    requires Enabled(s, e) && e.Cancel? && FindFor(s, e).found != null && FindFor(s, e).found in s.g.conn
    requires var t := s.g.conn[FindFor(s, e).found].target;
      t != null && Live(s.g, t) && s.g.conn[t].ue != null && s.g.conn[t].target == null
    ensures var t := s.g.conn[FindFor(s, e).found].target;
      var c := s.g.conn[t];
      var s1 := Step(s, e);
      var completed := Completed(c.ran, c.amfId, ranId, first);
      && Enabled(s1, completed) && (Stops(s1, completed) <==> Names(ranId, c.ranId))
      && (Stops(s1, completed) ==> Step(s1, completed) == s1) && (!Stops(s1, completed) ==> !Live(Step(s1, completed).g, t))
  {
    hide Find, Effect, IndexRefs, ConnRefs, LinkRefs, ReleaseComplete;
    CancelAbandons(s, e);
    AbandonedStopsExactly(Step(s, e), s.g.conn[FindFor(s, e).found].target, ranId, first);
  }

  // From the request on: a target whose preparation failed stops the handler exactly if its
  // release complete has no RAN id or the reserved one; any other id removes it.
  lemma FailedTargetStopsExactly(
    s: State, source: RanUe, ran: AmfRan, amfId: int, target: RanUe, ranId: Option<int>, first: AccessType)
    requires Closed(s.g) && Live(s.g, source) && ran in s.g.an && amfId !in s.g.used && target !in s.g.conn
    requires s.g.conn[source].ue != null && s.g.conn[source].target == null
    ensures var s1 := Step(s, Required(source, ran, amfId, target));
      && Orderly(s1, Failure(ran, amfId))
      && var s2 := Step(s1, Failure(ran, amfId));
         var e := Completed(ran, amfId, ranId, first);
         && Orderly(s2, e)
         && (Stops(s2, e) <==> ranId.None? || ranId.value == UNSPECIFIED)
         && (Stops(s2, e) ==> Step(s2, e) == s2) && (!Stops(s2, e) ==> !Live(Step(s2, e).g, target))
  {
    hide Find, RequestHandover, IndexRefs, ConnRefs, LinkRefs, ReleaseComplete;
    var s1 := Step(s, Required(source, ran, amfId, target));
    RequestMakesTarget(s.g, source, ran, amfId, target);
    FindsUnacknowledged(s1, Failure(ran, amfId), target);
    FailureAbandons(s1, Failure(ran, amfId));
    var s2 := Step(s1, Failure(ran, amfId));
    AbandonedStopsExactly(s2, target, ranId, first);
  }

  lemma FindsUnacknowledged(s: State, e: Event, t: RanUe)
    requires Enabled(s, e) && e.Failure? && e.amfId in s.g.pool && s.g.pool[e.amfId] == t
    requires s.g.conn[t].ran == e.ran && s.g.conn[t].ranId == UNSPECIFIED
    ensures FindFor(s, e).found == t
  {
  }
}
