// The entry point for uplink NAS messages: which UE context a connection is given,
// what Decode makes of the message, and what is settled before it is dispatched.

module HandleNas {
  import opened Basics
  import opened NasCount
  import opened Context
  import opened NasSecurity
  import opened Registry
  import opened Links
  import opened RegistryOps
  import opened RegistrySteps
  import Runs = RegistryRuns
  import Handover

  // ----- specification -----

  // The connection has no UE context, and the one it holds (found by the GUTI of its
  // initial message) is connected elsewhere or there is none: a new one is made.
  predicate NeedsContext(g: Graph, r: RanUe)
    requires Closed(g) && r in g.conn
  {
    var c := g.conn[r];
    c.ue == null && (c.holding == null || Port(c.holding, Access(g, r)) in g.links)
  }

  function Arrive(g: Graph, r: RanUe, newUe: AmfUe): (g': Graph)
    requires Closed(g) && r in g.conn && (NeedsContext(g, r) ==> newUe !in g.ues)
    ensures Closed(g') && g'.conn.Keys == g.conn.Keys
  {
    var c := g.conn[r];
    if c.ue != null then g
    else if NeedsContext(g, r) then AttachAndReleaseOld(NewUe(g, newUe), newUe, r)
    else Hold(AttachAndReleaseOld(g, c.holding, r), r, null)
  }

  // ----- what the decision guarantees -----

  // Whatever the branch, the connection ends up attached, to the held context exactly
  // when that one was idle, and the registry stays in order.
  lemma ArriveAttaches(g: Graph, r: RanUe, newUe: AmfUe)
    requires Good(g) && Live(g, r) && newUe !in g.ues
    requires g.conn[r].ue == null && (NeedsContext(g, r) || g.conn[r].holding in g.live)
    ensures var g' := Arrive(g, r, newUe);
      && Good(g') && Attached(g', r)
      && g'.conn[r].ue == (if NeedsContext(g, r) then newUe else g.conn[r].holding)
  {
    hide IndexRefs, ConnRefs, Pooled, ListedSoundly, LinksPointBack, PointersAreLinks, Conserved;
    var g1, ue := if NeedsContext(g, r) then NewUe(g, newUe) else g, if NeedsContext(g, r) then newUe else g.conn[r].holding;
    if NeedsContext(g, r) {
      Runs.OrderlyIsExact(g, Runs.NewContext(newUe));
    }
    Runs.OrderlyIsExact(g1, Runs.Attach(ue, r));
    Handover.AttachLinks(g1, ue, r);
    var g2 := AttachAndReleaseOld(g1, ue, r);
    HoldKeepsGood(g2, r, null);
  }

  // Which context it is: the one it has; or else the one it holds, if there is one and that is
  // not connected on this access, and then it holds it no longer; or else a new one.
  lemma ArriveExactly(g: Graph, r: RanUe, newUe: AmfUe)
    requires Closed(g) && r in g.conn && newUe !in g.ues
    ensures var c, an, g' := g.conn[r], g.an[g.conn[r].ran], Arrive(g, r, newUe);
      if c.ue != null then g' == g
      else if c.holding != null && Port(c.holding, an) !in g.links then
        && g'.conn[r] == c.(ue := c.holding, holding := null) && g'.links == g.links[Port(c.holding, an) := r]
        && g'.ues == g.ues
      else
        && g'.conn[r] == c.(ue := newUe) && g'.links == g.links[Port(newUe, an) := r]
        && g'.ues == g.ues + {newUe}
  {
    hide IndexRefs;
    assert Port(newUe, Access(g, r)) !in g.links;
  }

  // What becomes of the held context once the message is known to be its UE's: the connection
  // it had is detached and is to release it, and it is held no longer. Its link stays.
  lemma LetGoExactly(g: Graph, r: RanUe)
    requires Closed(g) && r in g.conn
    ensures var c, g' := g.conn[r], LetGo(g, r);
      && g'.links == g.links && r in g'.conn && g'.conn[r].holding == null
      && (c.holding == null ==> g' == g)
      && (c.holding != null ==>
            var p := Port(c.holding, g.an[c.ran]);
            && (p in g.links ==> g'.conn[g.links[p]].ue == null && g'.conn[g.links[p]].action == ReleaseUeContext)
            && (forall q :: q in g.conn && q != r && (p in g.links ==> q != g.links[p]) ==> g'.conn[q] == g.conn[q]))
  {
    hide IndexRefs;
  }

  // The registry stays in order exactly if no context is attached that has been removed:
  // the one case is a held context that was removed while it was held.
  lemma ArriveKeepsGoodExactly(g: Graph, r: RanUe, newUe: AmfUe)
    requires Good(g) && Live(g, r) && newUe !in g.ues
    ensures Good(Arrive(g, r, newUe)) <==>
              g.conn[r].ue != null || NeedsContext(g, r) || g.conn[r].holding in g.live
  {
    hide IndexRefs, Pooled, ListedSoundly, LinksPointBack, PointersAreLinks, Conserved, AttachAndReleaseOld;
    var c := g.conn[r];
    if c.ue != null {
    } else if NeedsContext(g, r) || c.holding in g.live {
      ArriveAttaches(g, r, newUe);
    } else {
      RemovedIsLinked(g, c.holding, r);
    }
  }

  lemma RemovedIsLinked(g: Graph, ue: AmfUe, r: RanUe)
    requires Closed(g) && r in g.conn && ue in g.ues && ue !in g.live
    ensures !Linked(Hold(AttachAndReleaseOld(g, ue, r), r, null))
  {
    assert !LinkOk(Hold(AttachAndReleaseOld(g, ue, r), r, null), Port(ue, Access(g, r)));
  }

  // When the release of that old connection completes, the held context is still
  // linked to it, though it is live no longer.
  lemma ClearedContextStaysConnected(g: Graph, r: RanUe, first: AccessType)
    requires Good(g) && r in g.conn && g.conn[r].holding != null
    requires Port(g.conn[r].holding, Access(g, r)) in g.links
    ensures var p := Port(g.conn[r].holding, Access(g, r));
      var previous := g.links[p];
      var g' := Handover.ReleaseComplete(LetGo(g, r), previous, first).graph;
      LinkedAt(g', p, previous) && !Live(g', previous)
  {
    assert LinkOk(g, Port(g.conn[r].holding, Access(g, r)));
  }

  // ----- the method -----

  datatype Outcome = Ignored | Refused(error: NasError) | Dispatched(accepted: Accepted)

  function OutcomeOf(result: Result<Accepted, NasError>): Outcome {
    match result case Ok(a) => Dispatched(a) case Err(e) => Refused(e)
  }

  // Decode, and what HandleNAS settles in the UE context when it succeeds.
  method DecodeFor(lib: Library, ue: AmfUe, an: AccessType, payload: array<Byte>, initial: bool) returns (o: Outcome)
    requires Lawful(lib)
    modifies ue`ulCount, ue`nasPduValue, ue`macFailed, payload
    ensures var d := old(Decoding(lib, SecurityOf(ue), an, payload[..], initial));
      !o.Ignored? && o == OutcomeOf(d.result) && ue.ulCount == d.ulCount && payload[..] == d.pdu
    ensures o.Dispatched? ==> ue.macFailed == !o.accepted.integrityProtected && ue.nasPduValue == payload
    ensures o.Refused? ==> ue.macFailed == old(ue.macFailed) && ue.nasPduValue == old(ue.nasPduValue)
  {
    hide Decoding;
    var result := Decode(lib, ue, an, payload, initial);
    if result.Err? { return Refused(result.error); }
    ue.nasPduValue := payload;
    ue.macFailed := !result.value.integrityProtected;
    o := Dispatched(result.value);
  }

  lemma Availability(ue: AmfUe)
    ensures SecurityOf(ue).available == ue.securityContextAvailable
  {
  }

  // HandleNAS up to Dispatch. ue is the context that serves the connection and before
  // its security context when Decode is called.
  method HandleNas(self: AmfContext, lib: Library, r: RanUe?, payload: array?<Byte>, initial: bool)
    returns (o: Outcome, ghost ue: AmfUe?, ghost before: Security)
    requires Lawful(lib) && Closed(self.View()) && (r != null ==> r in self.ranUes)
    modifies self`connected, self`idle, self`preparing, self`ues, self`live, self.ranUes`amfUe, self.ranUes`releaseAction,
             self.ranUes`holdingAmfUe, self.ues, if payload == null then {} else {payload}
    ensures o.Ignored? <==> r == null || payload == null
    ensures o.Ignored? ==> self.View() == old(self.View())
    ensures !o.Ignored? ==>
              var g := old(self.View());
              && ue != null && r in g.conn && (NeedsContext(g, r) ==> ue !in g.ues)
              && var g1 := Arrive(g, r, ue);
                 && g1.conn[r].ue == ue
                 && (if ue in old(self.ues) then before == old(SecurityOf(ue)) else !before.available)
                 && var d := Decoding(lib, before, g.an[g.conn[r].ran], old(payload[..]), initial);
                    && o == OutcomeOf(d.result) && ue.ulCount == d.ulCount && payload[..] == d.pdu
                    && self.View() == if o.Dispatched? && ue.SecurityContextIsValid() then LetGo(g1, r) else g1
    // MacFailed is settled by the integrity check of the message that goes on, and by no other.
    ensures o.Dispatched? ==> ue != null && ue.macFailed == !o.accepted.integrityProtected && ue.nasPduValue == payload
    ensures o.Refused? ==>
              && ue != null
              && (ue in old(self.ues) ==> ue.macFailed == old(ue.macFailed) && ue.nasPduValue == old(ue.nasPduValue))
  {
    hide *;
    o, ue, before := Ignored, null, Security(false, Keys([], [], 0, 0), ZERO, ZERO);
    if r == null || payload == null { return; }
    var amfUe := AttachOnArrival(self, r);
    Availability(amfUe);
    ue, before := amfUe, SecurityOf(amfUe);
    o := DecodeAndSettle(self, lib, r, amfUe, payload, initial);
  }

  method DecodeAndSettle(self: AmfContext, lib: Library, r: RanUe, ue: AmfUe, payload: array<Byte>, initial: bool)
    returns (o: Outcome)
    requires Lawful(lib) && Closed(self.View()) && r in self.ranUes && ue in self.ues
    modifies self.ranUes`amfUe, self.ranUes`releaseAction, self.ranUes`holdingAmfUe,
             ue`ulCount, ue`nasPduValue, ue`macFailed, payload
    ensures !o.Ignored?
    ensures var g := old(self.View());
      && r in g.conn
      && var d := Decoding(lib, old(SecurityOf(ue)), g.an[g.conn[r].ran], old(payload[..]), initial);
         && o == OutcomeOf(d.result) && ue.ulCount == d.ulCount && payload[..] == d.pdu
         && self.View() == if o.Dispatched? && ue.SecurityContextIsValid() then LetGo(g, r) else g
    ensures o.Dispatched? ==> ue.macFailed == !o.accepted.integrityProtected && ue.nasPduValue == payload
    ensures o.Refused? ==> ue.macFailed == old(ue.macFailed) && ue.nasPduValue == old(ue.nasPduValue)
  {
    hide *;
    self.Look();
    self.LookAtConn(r);
    RanIsKnown(self, r);
    self.LookAtRan(r.ran, r.ranUeNgapId);
    o := DecodeFor(lib, ue, r.ran.anType, payload, initial);
    if o.Dispatched? && ue.SecurityContextIsValid() {
      ClearHoldingRanUe(self, r);
    }
  }

  lemma RanIsKnown(self: AmfContext, r: RanUe)
    requires Closed(self.View()) && r in self.ranUes
    ensures r.ran in self.rans && r in self.View().conn && self.View().conn[r].ran == r.ran
  {
    self.LookAtConn(r);
    self.Look();
  }

  method AttachOnArrival(self: AmfContext, r: RanUe) returns (ue: AmfUe)
    requires Closed(self.View()) && r in self.ranUes
    modifies self`connected, self`idle, self`preparing, self`ues, self`live, self.ranUes`amfUe, self.ranUes`releaseAction,
             self.ranUes`holdingAmfUe, self.ues`ranUe, self.ues`anTypeFlags
    ensures var g := old(self.View());
      && r in g.conn && (NeedsContext(g, r) ==> ue !in g.ues && fresh(ue) && !ue.securityContextAvailable)
      && self.View() == Arrive(g, r, ue) && self.View().an == g.an
      && r in self.View().conn && self.View().conn[r].ue == ue && self.View().conn[r].ran == g.conn[r].ran
      && (!NeedsContext(g, r) ==> ue in old(self.ues))
      && self.ranUes == old(self.ranUes) && ue in self.ues
  {
    self.Look();
    self.LookAtConn(r);
    self.LookAtRan(r.ran, r.ranUeNgapId);
    if r.amfUe != null { return r.amfUe; }
    var holding := r.holdingAmfUe;
    if holding != null { self.LookAtUe(holding, r.ran.anType); }
    hide AmfContext.View, IndexRefs, ConnRefs, LinkRefs, AttachAndReleaseOld;
    ghost var g := self.View();
    if holding != null && !holding.CmConnect(r.ran.anType) {
      AttachKeeps(g, holding, r);
      AttachHeld(self, holding, r);
      ue := holding;
    } else {
      ue := AttachNew(self, r);
      AttachKeeps(NewUe(g, ue), ue, r);
    }
    self.Look();
  }

  lemma AttachKeeps(g: Graph, ue: AmfUe, r: RanUe)
    requires Closed(g) && ue in g.ues && r in g.conn
    ensures var g' := AttachAndReleaseOld(g, ue, r);
      && g'.an == g.an && g'.ues == g.ues && g'.conn.Keys == g.conn.Keys
      && g'.conn[r].ue == ue && g'.conn[r].ran == g.conn[r].ran
  {
    hide ReleaseOldOrCount, IndexRefs, ConnRefs, LinkRefs;
    ReleaseKeepsRan(g, Port(ue, Access(g, r)), r);
  }

  lemma ReleaseKeepsRan(g: Graph, p: Port, r: RanUe)
    requires Closed(g) && p.ue in g.ues && r in g.conn
    ensures ReleaseOldOrCount(g, p).conn[r].ran == g.conn[r].ran
  {
  }

  method AttachHeld(self: AmfContext, holding: AmfUe, r: RanUe)
    requires Closed(self.View()) && r in self.ranUes && holding in self.ues
    modifies self`connected, self`idle, self`preparing, self.ranUes`amfUe, self.ranUes`releaseAction,
             self.ranUes`holdingAmfUe, self.ues`ranUe, self.ues`anTypeFlags
    ensures r in old(self.View()).conn && r in AttachAndReleaseOld(old(self.View()), holding, r).conn
    ensures self.View() == Hold(AttachAndReleaseOld(old(self.View()), holding, r), r, null)
  {
    self.Look();
    hide AmfContext.View, IndexRefs, ConnRefs, LinkRefs, AttachAndReleaseOld;
    AttachKeeps(self.View(), holding, r);
    self.AttachRanUeToAmfUeAndReleaseOldIfAny(holding, r);
    self.Look();
    self.LookAtConn(r);
    self.SetHolding(r, null);
  }

  method AttachNew(self: AmfContext, r: RanUe) returns (ue: AmfUe)
    requires Closed(self.View()) && r in self.ranUes
    modifies self`connected, self`idle, self`preparing, self`ues, self`live, self.ranUes`amfUe, self.ranUes`releaseAction
    ensures fresh(ue) && ue !in old(self.View()).ues && !ue.securityContextAvailable && ue in self.ues
    ensures self.ranUes == old(self.ranUes)
    ensures r in old(self.View()).conn
    ensures self.View() == AttachAndReleaseOld(NewUe(old(self.View()), ue), ue, r)
  {
    hide *;
    self.Look();
    ue := self.NewAmfUe();
    self.Look();
    self.AttachRanUeToAmfUeAndReleaseOldIfAny(ue, r);
  }

  method ClearHoldingRanUe(self: AmfContext, r: RanUe)
    requires Closed(self.View()) && r in self.ranUes
    modifies self.ranUes`amfUe, self.ranUes`releaseAction, r`holdingAmfUe
    ensures self.View() == LetGo(old(self.View()), r)
  {
    self.Look();
    self.LookAtConn(r);
    self.LookAtRan(r.ran, r.ranUeNgapId);
    var holding := r.holdingAmfUe;
    if holding == null { return; }
    self.LookAtUe(holding, r.ran.anType);
    hide AmfContext.View;
    if r.ran.anType in holding.ranUe {
      var previous := holding.ranUe[r.ran.anType];
      self.DetachAmfUe(previous);
      self.SendUEContextReleaseCommand(previous, ReleaseUeContext);
    }
    self.SetHolding(r, null);
  }
}
