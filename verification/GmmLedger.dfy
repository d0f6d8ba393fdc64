// What one NAS message does to the gauges, label by label, and to the data of a
// registration that are kept between messages.

module GmmLedger {
  import opened Basics
  import opened Context
  import opened Gmm
  import opened GmmRuns
  import opened GmmProgress

  // ----- the outcomes of the nested events -----

  // The gauges of one access label have followed an access from the state it was in to the
  // one it is in; there is none for Deregistered.
  ghost predicate Moved(u: Ue, u': Ue, at: AccessType, name: AccessType) {
    forall a: AccessType, s: GmmState {:trigger GaugeAt(u', a, s)} :: s != Deregistered ==>
      GaugeAt(u', a, s) == GaugeAt(u, a, s)
        + if a != name then 0 else (if u'.state.At(at) == s then 1 else 0) - if u.state.At(at) == s then 1 else 0
  }

  predicate Cleared(u: Ue) {
    u.kind == NoKind && u.identityType == NoIdentity && u.synchFailures == 0 && u.identityRequests == 0
  }

  // The data are kept on the way and cleared at either end of it.
  ghost predicate Booked(u: Ue, u': Ue, at: AccessType, name: AccessType) {
    && Moved(u, u', at, name)
    && if u'.state.At(at) == Deregistered || u'.state.At(at) == Registered then Cleared(u')
       else u'.kind == u.kind && u'.identityType == u.identityType
  }

  lemma MovedOn(u: Ue, u1: Ue, u2: Ue, at: AccessType, name: AccessType)
    requires Moved(u, u1, at, name) && Moved(u1, u2, at, name)
    ensures Moved(u, u2, at, name)
  {
    forall a: AccessType, s: GmmState | s != Deregistered
      ensures GaugeAt(u2, a, s) == GaugeAt(u, a, s)
        + if a != name then 0 else (if u2.state.At(at) == s then 1 else 0) - if u.state.At(at) == s then 1 else 0
    {
      assert GaugeAt(u2, a, s) == GaugeAt(u1, a, s)
        + if a != name then 0 else (if u2.state.At(at) == s then 1 else 0) - if u1.state.At(at) == s then 1 else 0;
    }
  }

  lemma SameGauges(u: Ue, u': Ue, at: AccessType, name: AccessType)
    requires u'.gauge == u.gauge && u'.state == u.state
    ensures Moved(u, u', at, name)
  {
  }

  lemma CountMoves(u: Ue, an: AccessType, s: GmmState, d: int)
    ensures var u' := Count(u, an, s, d);
      forall a: AccessType, t: GmmState {:trigger GaugeAt(u', a, t)} ::
        GaugeAt(u', a, t) == GaugeAt(u, a, t) + if a == an && t == s then d else 0
  {
  }

  lemma ExitMoves(u: Ue, from: GmmState, args: Args)
    ensures var u' := OnExit(u, from, args);
      && u'.state == u.state && u'.kind == u.kind && u'.identityType == u.identityType
      && forall a: AccessType, t: GmmState {:trigger GaugeAt(u', a, t)} :: t != Deregistered ==>
           GaugeAt(u', a, t) == GaugeAt(u, a, t) - if a == args.an && t == from then 1 else 0
  {
    hide Count;
    var u1 := if from == Authentication then u.(authCtx := None, synchFailures := 0, identityRequests := 0) else u;
    SameGauges(u, u1, args.an, args.an);
    CountMoves(u1, args.an, from, -1);
    CountFields(u1, args.an, from, -1);
  }

  // Exit, new state and the count of the entry
  lemma Entered(u: Ue, at: AccessType, e: Event, to: GmmState, args: Args)
    requires to != u.state.At(at)
    ensures var u1 := Change(u, at, e, to, args);
      && u1.kind == u.kind && u1.identityType == u.identityType && u1.state.At(at) == to
      && Moved(u, if to == Deregistered then u1 else Count(u1, args.an, to, 1), at, args.an)
  {
    hide OnExit, Count, Valid;
    ChangeTouches(u, at, e, to, args);
    var u0 := Leaving(u, at, e, args);
    var u1 := Change(u, at, e, to, args);
    ExitMoves(u0, u.state.At(at), args);
    CountMoves(u1, args.an, to, 1);
    CountFields(u1, args.an, to, 1);
    var u2 := if to == Deregistered then u1 else Count(u1, args.an, to, 1);
    forall a: AccessType, s: GmmState | s != Deregistered
      ensures GaugeAt(u2, a, s) == GaugeAt(u, a, s)
        + if a != args.an then 0 else (if u2.state.At(at) == s then 1 else 0) - if u.state.At(at) == s then 1 else 0
    {
      assert GaugeAt(u0, a, s) == GaugeAt(u, a, s);
      assert GaugeAt(u1, a, s) == GaugeAt(OnExit(u0, u.state.At(at), args), a, s);
    }
  }

  lemma GoneBooked(u: Ue, at: AccessType, e: Event, args: Args)
    requires Next(e, u.state.At(at)) == Some(Deregistered) && u.state.At(at) != Deregistered
    ensures Booked(u, SendEvent(u, at, e, args), at, args.an)
  {
    hide Change, Moved;
    NothingIsOverwritten(u, at, e, args);
    Entered(u, at, e, Deregistered, args);
    var u1 := Change(u, at, e, Deregistered, args);
    SameGauges(u1, ClearRegistrationRequestData(u1), at, args.an);
    MovedOn(u, u1, ClearRegistrationRequestData(u1), at, args.an);
  }

  lemma RegistersBooked(u: Ue, at: AccessType, args: Args)
    requires u.state.At(at) == ContextSetup
    ensures Booked(u, Register(u, at, args), at, args.an)
  {
    hide SendEvent;
    if u.kind in {Initial, Mobility, Periodic} && args.answers.setup == SetupFails {
      GoneBooked(u, at, ContextSetupFail, args.(nas := NoNas, eap := None, ausf := false));
    } else {
      SameGauges(u, Register(u, at, args), at, args.an);
    }
  }

  lemma BookedOn(u: Ue, u1: Ue, u2: Ue, at: AccessType, name: AccessType)
    requires Moved(u, u1, at, name) && u1.kind == u.kind && u1.identityType == u.identityType
    requires Booked(u1, u2, at, name)
    ensures Booked(u, u2, at, name)
  {
    hide Moved;
    MovedOn(u, u1, u2, at, name);
  }

  lemma SecuritySucceedsBooked(u: Ue, at: AccessType, args: Args)
    requires u.state.At(at) == SecurityMode && args.nas == Registering
    ensures Booked(u, SendEvent(u, at, SecurityModeSuccess, args), at, args.an)
  {
    hide Change, Count, Register, Moved, Booked;
    NothingIsOverwritten(u, at, SecurityModeSuccess, args);
    Entered(u, at, SecurityModeSuccess, ContextSetup, args);
    var u1 := Change(u, at, SecurityModeSuccess, ContextSetup, args);
    CountFields(u1, args.an, ContextSetup, 1);
    var u2 := Count(u1, args.an, ContextSetup, 1);
    RegistersBooked(u2, at, args);
    assert SendEvent(u, at, SecurityModeSuccess, args) == Register(u2, at, args);
    BookedOn(u, u2, Register(u2, at, args), at, args.an);
  }

  lemma StaysBooked(u: Ue, u': Ue, at: AccessType, name: AccessType)
    requires u'.gauge == u.gauge && u'.state == u.state && u'.kind == u.kind && u'.identityType == u.identityType
    requires u.state.At(at) != Deregistered && u.state.At(at) != Registered
    ensures Booked(u, u', at, name)
  {
  }

  lemma AuthenticationSucceedsBooked(u: Ue, at: AccessType, args: Args)
    requires u.state.At(at) == Authentication
    ensures Booked(u, SendEvent(u, at, AuthSuccess, args), at, args.an)
  {
    hide Change, Count, Moved, Booked;
    NothingIsOverwritten(u, at, AuthSuccess, args);
    Entered(u, at, AuthSuccess, SecurityMode, args);
    var u1 := Change(u, at, AuthSuccess, SecurityMode, args);
    CountFields(u1, args.an, SecurityMode, 1);
    var u2 := Count(u1, args.an, SecurityMode, 1);
    SecureBooked(u2, at, args);
    assert SendEvent(u, at, AuthSuccess, args) == Secure(u2, at, args);
    BookedOn(u, u2, Secure(u2, at, args), at, args.an);
  }

  lemma SecureBooked(u: Ue, at: AccessType, args: Args)
    requires u.state.At(at) == SecurityMode
    ensures Booked(u, Secure(u, at, args), at, args.an)
  {
    hide Booked, SendEvent;
    if Valid(u) {
      SecuritySucceedsBooked(u, at, args.(nas := Registering, eap := None, ausf := false));
    } else if args.eap.Some? && !args.answers.algorithms {
      GoneBooked(u, at, SecurityModeFail, args.(nas := NoNas, eap := None, ausf := false));
    } else {
      StaysBooked(u, Secure(u, at, args), at, args.an);
    }
  }

  lemma AuthenticatesBooked(u: Ue, at: AccessType, args: Args)
    requires u.state.At(at) == Authentication
    ensures Booked(u, Authenticate(u, at, args), at, args.an)
  {
    hide Booked, SendEvent;
    var args1 := args.(nas := NoNas, eap := None, ausf := false);
    if u.identified && Valid(u) {
      AuthenticationSucceedsBooked(u, at, args1);
    } else if u.identified && args.answers.ausf.None? {
      GoneBooked(u, at, AuthError, args1);
    } else {
      StaysBooked(u, Authenticate(u, at, args), at, args.an);
    }
  }

  lemma StartsBooked(u: Ue, at: AccessType, args: Args)
    requires u.state.At(at) == Deregistered || u.state.At(at) == Registered
    ensures Booked(u, SendEvent(u, at, StartAuth, args), at, args.an)
  {
    hide Change, Count, Authenticate, Moved, Booked;
    NothingIsOverwritten(u, at, StartAuth, args);
    Entered(u, at, StartAuth, Authentication, args);
    var u1 := Change(u, at, StartAuth, Authentication, args);
    CountFields(u1, args.an, Authentication, 1);
    var u2 := Count(u1, args.an, Authentication, 1);
    AuthenticatesBooked(u2, at, args);
    assert SendEvent(u, at, StartAuth, args) == Authenticate(u2, at, args);
    BookedOn(u, u2, Authenticate(u2, at, args), at, args.an);
  }

  lemma FallsBackBooked(u: Ue, an: AccessType, args: Args)
    requires u.state.At(an) == Authentication
    ensures Booked(u, FallBackOrFail(u, an, args), an, args.an)
  {
    hide Booked, SendEvent;
    if u.identityType == Guti && u.identityRequests == 0 {
      StaysBooked(u, FallBackOrFail(u, an, args), an, args.an);
    } else {
      GoneBooked(u, an, AuthFail, args.(nas := NoNas, eap := None, ausf := false));
    }
  }

  lemma ResponseBooked(u: Ue, an: AccessType, r: Response, args: Args)
    requires u.state.At(an) == Authentication
    ensures Booked(u, HandleAuthenticationResponse(u, an, r, args), an, args.an)
  {
    hide Booked, SendEvent, FallBackOrFail;
    var u1 := u.(identified := true);
    StaysBooked(u, u, an, args.an);
    FallsBackBooked(u, an, args);
    GoneBooked(u, an, AuthFail, args.(nas := NoNas, eap := None, ausf := false));
    AuthenticationSucceedsBooked(u1, an, args.(nas := NoNas, eap := Some(false), ausf := true));
    AuthenticationSucceedsBooked(u1, an, args.(nas := NoNas, eap := Some(true), ausf := true));
    IdentifiedBooked(u, SendEvent(u1, an, AuthSuccess, args.(nas := NoNas, eap := Some(false), ausf := true)), an, args.an);
    IdentifiedBooked(u, SendEvent(u1, an, AuthSuccess, args.(nas := NoNas, eap := Some(true), ausf := true)), an, args.an);
  }

  lemma IdentifiedBooked(u: Ue, u': Ue, at: AccessType, name: AccessType)
    requires Booked(u.(identified := true), u', at, name)
    ensures Booked(u, u', at, name)
  {
    hide Moved;
    SameGauges(u, u.(identified := true), at, name);
    MovedOn(u, u.(identified := true), u', at, name);
  }

  lemma CompletesBooked(u: Ue, an: AccessType, args: Args)
    requires u.state.At(an) == ContextSetup
    ensures Booked(u, SendEvent(u, an, ContextSetupSuccess, args), an, args.an)
  {
    hide Change, Count, Moved;
    NothingIsOverwritten(u, an, ContextSetupSuccess, args);
    Entered(u, an, ContextSetupSuccess, Registered, args);
    var u1 := Change(u, an, ContextSetupSuccess, Registered, args);
    CountFields(u1, args.an, Registered, 1);
    var u2 := Count(u1, args.an, Registered, 1);
    SameGauges(u2, ClearRegistrationRequestData(u2), an, args.an);
    MovedOn(u, u2, ClearRegistrationRequestData(u2), an, args.an);
  }

  // ----- what one message does -----

  // A registration request is read this far: its kind is taken over; and so is its identity.
  predicate KindRead(macFailed: bool, r: Registration) {
    r.connected && (r.container == WrongContents ==> macFailed)
  }

  predicate IdentityRead(state: GmmState, macFailed: bool, r: Registration) {
    && KindRead(macFailed, r) && r.kind != Emergency && (r.kind in {Mobility, Periodic} ==> state != Deregistered)
    && r.identity.Some?
  }

  predicate DataRead(u: Ue, u': Ue, an: AccessType, r: Registration) {
    if Taken(u.state.At(an), u.macFailed, r) && u'.state.At(an) == Deregistered then Cleared(u')
    else
      && u'.kind == (if !KindRead(u.macFailed, r) then u.kind
                     else if r.kind in {NoKind, UnknownKind} then Initial else r.kind)
      && u'.identityType == if IdentityRead(u.state.At(an), u.macFailed, r) then r.identity.value else u.identityType
  }

  // Outside a registration request: the data are cleared when the access becomes registered
  // or deregistered, and the type of an accepted identity is remembered.
  predicate DataKept(u: Ue, u': Ue, an: AccessType, m: Message) {
    var from, to := u.state.At(an), u'.state.At(an);
    if to != from && (to == Deregistered || to == Registered) then Cleared(u')
    else
      && u'.kind == u.kind
      && u'.identityType == (if from == Authentication && m.IdentityResponse?
                                && Identifies(u.macFailed, m.accepted, m.identity)
                             then m.identity else u.identityType)
  }

  lemma RequestReads(u: Ue, an: AccessType, r: Registration)
    ensures var u' := HandleRegistrationRequest(u, an, r).ue;
      && u'.kind == (if !KindRead(u.macFailed, r) then u.kind
                     else if r.kind in {NoKind, UnknownKind} then Initial else r.kind)
      && u'.identityType == if IdentityRead(u.state.At(an), u.macFailed, r) then r.identity.value else u.identityType
  {
  }

  lemma RequestMovesNothing(u: Ue, an: AccessType, r: Registration)
    ensures var u' := HandleRegistrationRequest(u, an, r).ue; u'.state == u.state && u'.gauge == u.gauge
  {
    hide HandleRegistrationRequest;
    RegistrationIsMinor(u, an, r);
  }

  lemma RequestKsi(u: Ue, an: AccessType, r: Registration)
    ensures var h := HandleRegistrationRequest(u, an, r);
      h.ue.ksi == if !IdentityRead(u.state.At(an), u.macFailed, r) || !r.identityDecoded then u.ksi
                  else if r.admitted && r.transfer.Some? then r.transfer.value.ksi
                  else if r.native && r.ksi != 7 then r.ksi else 0
  {
    hide OpenContainer, SetRegistrationType;
    OpeningKeepsKsi(u, r.container);
    TypeKeepsKsi(OpenContainer(u, r.container), r.kind);
  }

  lemma OpeningKeepsKsi(u: Ue, container: Container)
    ensures var u' := OpenContainer(u, container);
      u'.ksi == u.ksi && u'.state == u.state && u'.macFailed == u.macFailed
  {
  }

  lemma TypeKeepsKsi(u: Ue, kind: Kind)
    ensures var u' := SetRegistrationType(u, kind);
      u'.ksi == u.ksi && u'.state == u.state && u'.macFailed == u.macFailed
  {
  }

  // The gauges of the access that a message comes by follow that access, label by label, and
  // no other gauge moves; a message that deregisters the other access moves them for both.
  lemma GaugesFollowExactly(u: Ue, an: AccessType, macFailed: bool, m: Message, answers: Answers)
    requires m.DeregistrationRequest? && u.state.At(an) == Registered ==>
               m.targets == Target(an) || u.state.At(Other(an)) != DeregistrationInitiated
    ensures var u' := Step(u, Nas(an, macFailed, m, answers));
      forall a: AccessType, s: GmmState {:trigger GaugeAt(u', a, s)} :: s != Deregistered ==>
        GaugeAt(u', a, s) == GaugeAt(u, a, s)
          + if a != an then 0 else (if u'.state.At(an) == s then 1 else 0) - if u.state.At(an) == s then 1 else 0
  {
    hide Moved;
    MessageMoves(u, an, macFailed, m, answers);
    FollowsIsMoved(u, Step(u, Nas(an, macFailed, m, answers)), an);
  }

  lemma FollowsIsMoved(u: Ue, u': Ue, an: AccessType)
    requires Moved(u, u', an, an)
    ensures forall a: AccessType, s: GmmState {:trigger GaugeAt(u', a, s)} :: s != Deregistered ==>
              GaugeAt(u', a, s) == GaugeAt(u, a, s)
                + if a != an then 0 else (if u'.state.At(an) == s then 1 else 0) - if u.state.At(an) == s then 1 else 0
  {
  }

  lemma MessageMoves(u: Ue, an: AccessType, macFailed: bool, m: Message, answers: Answers)
    requires m.DeregistrationRequest? && u.state.At(an) == Registered ==>
               m.targets == Target(an) || u.state.At(Other(an)) != DeregistrationInitiated
    ensures Moved(u, Step(u, Nas(an, macFailed, m, answers)), an, an)
  {
    hide SendEvent, Moved, HandleRegistrationRequest, WhenSecuring, WhenSettingUp, WhenAuthenticating;
    Dispatches(u, an, macFailed, m, answers);
    var v, args := u.(macFailed := macFailed), Plainly(an, answers);
    var u' := Step(u, Nas(an, macFailed, m, answers));
    SameGauges(u, v, an, an);
    match u.state.At(an)
    case Deregistered => RegistrationMoves(v, an, m, args); MovedOn(u, v, u', an, an);
    case Authentication => AuthenticatingMoves(v, an, m, args); MovedOn(u, v, u', an, an);
    case SecurityMode => SecuringMoves(v, an, m, args); MovedOn(u, v, u', an, an);
    case ContextSetup => SettingUpMoves(v, an, m, args); MovedOn(u, v, u', an, an);
    case Registered =>
      if m.DeregistrationRequest? {
        LeavesMoved(v, an, m.targets, args.(nas := Deregistering(m.targets)));
      } else {
        RegistrationMoves(v, an, m, args);
      }
      MovedOn(u, v, u', an, an);
    case DeregistrationInitiated =>
  }

  lemma RegistrationMoves(u: Ue, an: AccessType, m: Message, args: Args)
    requires u.state.At(an) == Deregistered || u.state.At(an) == Registered
    requires args == Plainly(an, args.answers) && (u.state.At(an) == Registered ==> !m.DeregistrationRequest?)
    ensures var u' := if u.state.At(an) == Deregistered then WhenDeregistered(u, an, m, args)
                      else WhenRegistered(u, an, m, args);
      && Moved(u, u', an, an)
      && if m.RegistrationRequest? then DataRead(u, u', an, m.registration)
         else u'.state == u.state && u'.kind == u.kind && u'.identityType == u.identityType
  {
    hide SendEvent, Moved, HandleRegistrationRequest, KindRead, IdentityRead, Taken;
    match m
    case RegistrationRequest(r) =>
      var h := HandleRegistrationRequest(u, an, r);
      RequestMovesNothing(u, an, r);
      RequestReads(u, an, r);
      RequestTaken(u, an, r);
      SameGauges(u, h.ue, an, an);
      if h.ok {
        StartsBooked(h.ue, an, args);
        Starts(h.ue, an, args);
        MovedOn(u, h.ue, SendEvent(h.ue, an, StartAuth, args), an, an);
      }
    case ServiceRequest(container) => SameGauges(u, HandleServiceRequest(u, container), an, an);
    case _ => SameGauges(u, u, an, an);
  }

  lemma AuthenticatingMoves(u: Ue, an: AccessType, m: Message, args: Args)
    requires u.state.At(an) == Authentication && args == Plainly(an, args.answers)
    ensures var u' := WhenAuthenticating(u, an, m, args); Moved(u, u', an, an) && DataKept(u, u', an, m)
  {
    hide SendEvent, Moved, Authenticate, HandleAuthenticationResponse;
    SameGauges(u, u, an, an);
    match m
    case IdentityResponse(accepted, identity) =>
      var u1 := HandleIdentityResponse(u, accepted, identity).(identityType := identity);
      SameGauges(u, u1, an, an);
      Restarts(u1, an, args);
      AuthenticatesBooked(u1, an, args);
      MovedOn(u, u1, Authenticate(u1, an, args), an, an);
    case AuthenticationResponse(r) => ResponseBooked(u, an, r, args);
    case AuthenticationFailure(cause, resync) => FailureMoves(u, an, cause, resync, args);
    case _ =>
  }

  lemma FailureMoves(u: Ue, an: AccessType, cause: Cause, resync: Resync, args: Args)
    requires u.state.At(an) == Authentication && args == Plainly(an, args.answers)
    ensures var u' := HandleAuthenticationFailure(u, an, cause, resync, args);
      Moved(u, u', an, an) && DataKept(u, u', an, AuthenticationFailure(cause, resync))
  {
    hide SendEvent, Moved, Cleared, HandleAuthenticationFailure, Ends;
    var u' := HandleAuthenticationFailure(u, an, cause, resync, args);
    var u1 := if cause == SynchFailure then u.(synchFailures := u.synchFailures + 1) else u;
    FailureOutcome(u, an, cause, resync, args);
    FailureExactly(u, an, cause, resync, args.answers);
    if Ends(u, cause) {
      GoneBooked(u1, an, AuthFail, args);
      SameGauges(u, u1, an, an);
      MovedOn(u, u1, u', an, an);
    } else {
      SameGauges(u, u', an, an);
    }
  }

  lemma SecuringMoves(u: Ue, an: AccessType, m: Message, args: Args)
    requires u.state.At(an) == SecurityMode && args == Plainly(an, args.answers)
    ensures var u' := WhenSecuring(u, an, m, args); Moved(u, u', an, an) && DataKept(u, u', an, m)
  {
    hide SendEvent, Moved;
    SameGauges(u, u, an, an);
    SecuritySucceedsBooked(u, an, args.(nas := Registering));
    GoneBooked(u, an, SecurityModeFail, args);
    GoneBooked(u, an, SecurityModeFail, args.(nas := Servicing(NoContainer)));
  }

  lemma SettingUpMoves(u: Ue, an: AccessType, m: Message, args: Args)
    requires u.state.At(an) == ContextSetup && args == Plainly(an, args.answers)
    ensures var u' := WhenSettingUp(u, an, m, args); Moved(u, u', an, an) && DataKept(u, u', an, m)
  {
    hide SendEvent, Moved, Register;
    SameGauges(u, u, an, an);
    match m
    case RegistrationComplete =>
      var u1 := u.(t3550 := false);
      SameGauges(u, u1, an, an);
      CompletesBooked(u1, an, args);
      MovedOn(u, u1, SendEvent(u1, an, ContextSetupSuccess, args), an, an);
    case IdentityResponse(accepted, identity) =>
      var u1 := HandleIdentityResponse(u, accepted, identity);
      SameGauges(u, u1, an, an);
      RegistersBooked(u1, an, args);
      MovedOn(u, u1, Register(u1, an, args), an, an);
    case _ =>
  }

  lemma AcceptsMoved(u: Ue, at: AccessType, args: Args)
    requires args.an == at || u.state.At(at) != DeregistrationInitiated
    ensures Moved(u, SendEvent(u, at, DeregistrationAccept, args), args.an, args.an)
  {
    hide Booked;
    if u.state.At(at) == DeregistrationInitiated {
      GoneBooked(u, at, DeregistrationAccept, args);
      assert Booked(u, SendEvent(u, at, DeregistrationAccept, args), at, args.an);
      BookedMoves(u, SendEvent(u, at, DeregistrationAccept, args), at, args.an);
    } else {
      SameGauges(u, u, args.an, args.an);
    }
  }

  lemma BookedMoves(u: Ue, u': Ue, at: AccessType, name: AccessType)
    requires Booked(u, u', at, name)
    ensures Moved(u, u', at, name)
  {
  }

  lemma LeavesMoved(u: Ue, an: AccessType, targets: Targets, args: Args)
    requires u.state.At(an) == Registered && args.nas == Deregistering(targets) && args.an == an
    requires targets == Target(an) || u.state.At(Other(an)) != DeregistrationInitiated
    ensures Moved(u, SendEvent(u, an, InitDeregistration, args), an, an)
  {
    hide Change, Count, Moved;
    NothingIsOverwritten(u, an, InitDeregistration, args);
    Entered(u, an, InitDeregistration, DeregistrationInitiated, args);
    ChangeTouches(u, an, InitDeregistration, DeregistrationInitiated, args);
    var u1 := Change(u, an, InitDeregistration, DeregistrationInitiated, args);
    CountFields(u1, args.an, DeregistrationInitiated, 1);
    var u2 := Count(u1, args.an, DeregistrationInitiated, 1);
    assert SendEvent(u, an, InitDeregistration, args) == Deregister(u2, targets, args);
    DeregisterMoved(u2, an, targets, args);
    MovedOn(u, u2, Deregister(u2, targets, args), an, an);
  }

  lemma DeregisterMoved(u: Ue, an: AccessType, targets: Targets, args: Args)
    requires args.an == an && (targets == Target(an) || u.state.At(Other(an)) != DeregistrationInitiated)
    ensures Moved(u, Deregister(u, targets, args), an, an)
  {
    hide SendEvent, Moved;
    var args1 := args.(nas := NoNas, eap := None, ausf := false);
    match targets
    case Target(t) => AcceptsMoved(u, t, args1);
    case Both =>
      var u1 := SendEvent(u, ThreeGpp, DeregistrationAccept, args1);
      AcceptsMoved(u, ThreeGpp, args1);
      Accepts(u, ThreeGpp, args1);
      AcceptsMoved(u1, NonThreeGpp, args1);
      MovedOn(u, u1, SendEvent(u1, NonThreeGpp, DeregistrationAccept, args1), an, an);
  }

  // The data of a registration after a message: what the request says, as far as it was
  // read, until the access is registered or deregistered; then they are cleared. An accepted
  // identity that restarts the authentication is remembered.
  lemma DataExactly(u: Ue, an: AccessType, macFailed: bool, m: Message, answers: Answers)
    requires !m.DeregistrationRequest?
    ensures var u' := Step(u, Nas(an, macFailed, m, answers));
      var from, to := u.state.At(an), u'.state.At(an);
      if m.RegistrationRequest? && (from == Deregistered || from == Registered) then
        DataRead(u.(macFailed := macFailed), u', an, m.registration)
      else DataKept(u.(macFailed := macFailed), u', an, m)
  {
    hide SendEvent, Moved, HandleRegistrationRequest, WhenDeregistered, WhenRegistered, WhenSecuring, WhenSettingUp,
         WhenAuthenticating, DataRead;
    Dispatches(u, an, macFailed, m, answers);
    var v, args := u.(macFailed := macFailed), Plainly(an, answers);
    match u.state.At(an)
    case Deregistered => RegistrationMoves(v, an, m, args);
    case Authentication => AuthenticatingMoves(v, an, m, args);
    case SecurityMode => SecuringMoves(v, an, m, args);
    case ContextSetup => SettingUpMoves(v, an, m, args);
    case Registered => RegistrationMoves(v, an, m, args);
    case DeregistrationInitiated =>
  }

  // The key set identifier changes with a registration request that is read as far as it, and
  // with the UE's word that it is in use.
  lemma KsiExactly(u: Ue, an: AccessType, macFailed: bool, r: Registration, answers: Answers)
    requires u.state.At(an) == Deregistered || u.state.At(an) == Registered
    ensures Step(u, Nas(an, macFailed, RegistrationRequest(r), answers)).ksi ==
      if !IdentityRead(u.state.At(an), macFailed, r) || !r.identityDecoded then u.ksi
      else if r.admitted && r.transfer.Some? then r.transfer.value.ksi
      else if r.native && r.ksi != 7 then r.ksi
      else 0
  {
    hide SendEvent, HandleRegistrationRequest, IdentityRead;
    var v := u.(macFailed := macFailed);
    Dispatches(u, an, macFailed, RegistrationRequest(r), answers);
    RequestKsi(v, an, r);
    RequestMovesNothing(v, an, r);
    if HandleRegistrationRequest(v, an, r).ok {
      Starts(HandleRegistrationRequest(v, an, r).ue, an, Plainly(an, answers));
    }
  }

  // ----- runs -----

  // Every gauge counts the accesses in its state, label by label.
  ghost predicate LabelsCount(u: Ue) {
    forall a: AccessType, s: GmmState {:trigger GaugeAt(u, a, s)} :: s != Deregistered ==>
      GaugeAt(u, a, s) == if u.state.At(a) == s then 1 else 0
  }

  // A message by which an access that is registered deregisters the other one, which was told
  // so before and left behind
  predicate DeregistersOther(u: Ue, i: Input) {
    && i.Nas? && i.message.DeregistrationRequest? && i.message.targets != Target(i.an)
    && u.state.At(i.an) == Registered && u.state.At(Other(i.an)) == DeregistrationInitiated
  }

  // The gauges go on counting label by label exactly if the message is none of these: the
  // other access's state is left under the name of the one that the message came by.
  lemma LabelsCountExactly(u: Ue, i: Input)
    requires LabelsCount(u)
    ensures LabelsCount(Step(u, i)) <==> !DeregistersOther(u, i)
  {
    hide Step, LabelsCount;
    match i
    case TimersStop => StopKeepsStates(u); SameLabels(u, Step(u, i));
    case Nas(an, macFailed, m, answers) =>
      if DeregistersOther(u, i) {
        LabelsMissed(u, an, macFailed, m.targets, answers);
      } else {
        GaugesFollowExactly(u, an, macFailed, m, answers);
        OtherAccessStays(u, an, macFailed, m, answers);
        LabelsFollow(u, Step(u, i), an);
      }
  }

  lemma SameLabels(u: Ue, u': Ue)
    requires LabelsCount(u) && u'.gauge == u.gauge && u'.state == u.state
    ensures LabelsCount(u')
  {
    forall a: AccessType, s: GmmState | s != Deregistered ensures GaugeAt(u', a, s) == if u'.state.At(a) == s then 1 else 0 {
      assert GaugeAt(u', a, s) == GaugeAt(u, a, s);
    }
  }

  lemma LabelsFollow(u: Ue, u': Ue, an: AccessType)
    requires LabelsCount(u) && Moved(u, u', an, an) && u'.state.At(Other(an)) == u.state.At(Other(an))
    ensures LabelsCount(u')
  {
    forall a: AccessType, s: GmmState | s != Deregistered ensures GaugeAt(u', a, s) == if u'.state.At(a) == s then 1 else 0 {
      assert GaugeAt(u, a, s) == if u.state.At(a) == s then 1 else 0;
      assert a == an || a == Other(an);
    }
  }

  // No gauge of the other label moves.
  ghost predicate OtherLabelStays(u: Ue, u': Ue, an: AccessType) {
    forall s: GmmState {:trigger GaugeAt(u', Other(an), s)} :: s != Deregistered ==>
      GaugeAt(u', Other(an), s) == GaugeAt(u, Other(an), s)
  }

  lemma MovedIsOnOneLabel(u: Ue, u': Ue, at: AccessType, an: AccessType)
    requires Moved(u, u', at, an)
    ensures OtherLabelStays(u, u', an)
  {
  }

  lemma StayOn(u: Ue, u1: Ue, u2: Ue, an: AccessType)
    requires OtherLabelStays(u, u1, an) && OtherLabelStays(u1, u2, an)
    ensures OtherLabelStays(u, u2, an)
  {
    forall s: GmmState | s != Deregistered ensures GaugeAt(u2, Other(an), s) == GaugeAt(u, Other(an), s) {
      assert GaugeAt(u2, Other(an), s) == GaugeAt(u1, Other(an), s);
    }
  }

  lemma AcceptsUnderItsLabel(u: Ue, at: AccessType, args: Args)
    ensures OtherLabelStays(u, SendEvent(u, at, DeregistrationAccept, args), args.an)
  {
    hide Moved;
    if u.state.At(at) == DeregistrationInitiated {
      GoneBooked(u, at, DeregistrationAccept, args);
      MovedIsOnOneLabel(u, SendEvent(u, at, DeregistrationAccept, args), at, args.an);
    } else {
      SameGauges(u, u, at, args.an);
      MovedIsOnOneLabel(u, u, at, args.an);
    }
  }

  lemma LeavesUnderItsLabel(u: Ue, an: AccessType, targets: Targets, args: Args)
    requires u.state.At(an) == Registered && args.nas == Deregistering(targets)
    ensures OtherLabelStays(u, SendEvent(u, an, InitDeregistration, args), args.an)
  {
    hide Change, Count, Moved, OtherLabelStays;
    NothingIsOverwritten(u, an, InitDeregistration, args);
    Entered(u, an, InitDeregistration, DeregistrationInitiated, args);
    var u1 := Change(u, an, InitDeregistration, DeregistrationInitiated, args);
    var u2 := Count(u1, args.an, DeregistrationInitiated, 1);
    MovedIsOnOneLabel(u, u2, an, args.an);
    assert SendEvent(u, an, InitDeregistration, args) == Deregister(u2, targets, args);
    var args1 := args.(nas := NoNas, eap := None, ausf := false);
    match targets
    case Target(t) =>
      AcceptsUnderItsLabel(u2, t, args1);
      StayOn(u, u2, SendEvent(u2, t, DeregistrationAccept, args1), args.an);
    case Both =>
      var u3 := SendEvent(u2, ThreeGpp, DeregistrationAccept, args1);
      AcceptsUnderItsLabel(u2, ThreeGpp, args1);
      StayOn(u, u2, u3, args.an);
      AcceptsUnderItsLabel(u3, NonThreeGpp, args1);
      StayOn(u, u3, SendEvent(u3, NonThreeGpp, DeregistrationAccept, args1), args.an);
  }

  lemma LabelsMissed(u: Ue, an: AccessType, macFailed: bool, targets: Targets, answers: Answers)
    requires LabelsCount(u) && DeregistersOther(u, Nas(an, macFailed, DeregistrationRequest(targets), answers))
    ensures !LabelsCount(Step(u, Nas(an, macFailed, DeregistrationRequest(targets), answers)))
  {
    hide SendEvent;
    var v, args := u.(macFailed := macFailed), Plainly(an, answers).(nas := Deregistering(targets));
    var u' := Step(u, Nas(an, macFailed, DeregistrationRequest(targets), answers));
    Dispatches(u, an, macFailed, DeregistrationRequest(targets), answers);
    Leaves(v, an, targets, args);
    LeavesUnderItsLabel(v, an, targets, args);
    assert GaugeAt(u, Other(an), DeregistrationInitiated) == 1 == GaugeAt(v, Other(an), DeregistrationInitiated);
    assert GaugeAt(u', Other(an), DeregistrationInitiated) == 1;
  }

  // In every run in which no access deregisters the other one so, the gauges count label by
  // label; that is so if each asks for its own deregistration, alone or with the other's.
  lemma {:induction false} LabelsCountInRuns(inputs: seq<Input>)
    requires forall i {:trigger inputs[i]} :: 0 <= i < |inputs| ==> !DeregistersOther(Run(inputs[..i]), inputs[i])
    ensures LabelsCount(Run(inputs))
  {
    hide Step, LabelsCount, DeregistersOther;
    if inputs == [] {
      NewCounts();
    } else {
      var front := inputs[..|inputs| - 1];
      forall i | 0 <= i < |front| ensures !DeregistersOther(Run(front[..i]), front[i]) {
        assert front[..i] == inputs[..i] && front[i] == inputs[i];
      }
      LabelsCountInRuns(front);
      assert !DeregistersOther(Run(inputs[..|inputs| - 1]), inputs[|inputs| - 1]);
      LabelsCountExactly(Run(front), inputs[|inputs| - 1]);
    }
  }

  lemma NewCounts()
    ensures LabelsCount(NEW)
  {
  }

  // And it happens: from every run with both accesses registered and the gauges right, let
  // each ask for the deregistration of the other, one after the other.
  lemma CrossDeregistrationMiscounts(inputs: seq<Input>, an: AccessType, macFailed: seq<bool>, answers: seq<Answers>)
    requires |macFailed| == |answers| == 2 && LabelsCount(Run(inputs))
    requires Run(inputs).state == PerAccess(Registered, Registered)
    ensures !LabelsCount(Run(inputs + [Nas(an, macFailed[0], DeregistrationRequest(Target(Other(an))), answers[0])]
                                + [Nas(Other(an), macFailed[1], DeregistrationRequest(Target(an)), answers[1])]))
  {
    hide Step, Run, LabelsCount;
    var i1 := Nas(an, macFailed[0], DeregistrationRequest(Target(Other(an))), answers[0]);
    var i2 := Nas(Other(an), macFailed[1], DeregistrationRequest(Target(an)), answers[1]);
    RunOnByOne(inputs, i1);
    RunOnByOne(inputs + [i1], i2);
    LabelsCountExactly(Run(inputs), i1);
    DeregistrationExactly(Run(inputs), an, macFailed[0], i1.message, answers[0]);
    assert Other(Other(an)) == an;
    LabelsCountExactly(Run(inputs + [i1]), i2);
  }
}
