// What one NAS message makes of the states of a UE, for every state and every message,
// and that a registration in which everything goes well ends in Registered.

module GmmProgress {
  import opened Basics
  import opened Context
  import opened Gmm
  import opened GmmRuns

  // ----- the outcomes of the nested events -----

  function Plainly(an: AccessType, answers: Answers): Args {
    Args(an, NoNas, None, false, answers)
  }

  // The fields that a change of state leaves alone
  predicate Kept(u: Ue, u': Ue) {
    && u'.available == u.available && u'.ksi == u.ksi && u'.macFailed == u.macFailed
    && u'.identified == u.identified && u'.identityType == u.identityType && u'.kind == u.kind
  }

  lemma WithTwice(p: PerAccess<GmmState>, an: AccessType, s: GmmState, t: GmmState)
    ensures p.With(an, s).With(an, t) == p.With(an, t)
    ensures p.With(an, s).At(an) == s && p.With(an, p.At(an)) == p
    ensures p.With(an, s).At(Other(an)) == p.At(Other(an))
  {
  }

  lemma ExitTouches(u: Ue, from: GmmState, args: Args)
    ensures var u' := OnExit(u, from, args);
      && u'.state == u.state && Kept(u, u') && u'.t3550 == u.t3550
      && u'.authCtx == if from == Authentication then None else u.authCtx
  {
  }

  lemma ChangeTouches(u: Ue, at: AccessType, e: Event, to: GmmState, args: Args)
    ensures var u' := Change(u, at, e, to, args);
      && u'.state == u.state.With(at, to) && Kept(u, u') && u'.t3550 == (u.t3550 && !e.AuthFail?)
      && u'.authCtx == if u.state.At(at) == Authentication then None else u.authCtx
  {
    hide OnExit, Valid;
    ExitTouches(Leaving(u, at, e, args), u.state.At(at), args);
  }

  // An event that ends in Deregistered
  lemma Gone(u: Ue, at: AccessType, e: Event, args: Args)
    requires Next(e, u.state.At(at)) == Some(Deregistered) && u.state.At(at) != Deregistered
    ensures var u' := SendEvent(u, at, e, args);
      && u'.state == u.state.With(at, Deregistered) && u'.available == u.available && u'.ksi == u.ksi
      && u'.t3550 == (u.t3550 && !e.AuthFail?)
  {
    hide Change;
    NothingIsOverwritten(u, at, e, args);
    ChangeTouches(u, at, e, Deregistered, args);
  }

  // With a security context the registration handlers run, and only their failure takes
  // the access out of ContextSetup again.
  function Established(kind: Kind, setup: Setup): GmmState {
    if kind in {Initial, Mobility, Periodic} && setup == SetupFails then Deregistered else ContextSetup
  }

  // T3550 is started with a RegistrationAccept that asks for an answer.
  function TimerAfter(t3550: bool, kind: Kind, setup: Setup): bool {
    t3550 || (kind in {Initial, Mobility, Periodic} && setup == SetupAccepts(true))
  }

  lemma Registers(u: Ue, at: AccessType, args: Args)
    requires u.state.At(at) == ContextSetup
    ensures var u' := Register(u, at, args);
      && u'.state == u.state.With(at, Established(u.kind, args.answers.setup))
      && u'.available == u.available && u'.ksi == u.ksi
      && u'.t3550 == TimerAfter(u.t3550, u.kind, args.answers.setup)
      && (u'.state.At(at) == ContextSetup ==> u' == u.(t3550 := u'.t3550))
  {
    hide SendEvent;
    WithTwice(u.state, at, ContextSetup, Deregistered);
    if u.kind in {Initial, Mobility, Periodic} && args.answers.setup == SetupFails {
      Gone(u, at, ContextSetupFail, args.(nas := NoNas, eap := None, ausf := false));
    }
  }

  lemma SecuritySucceeds(u: Ue, at: AccessType, args: Args)
    requires u.state.At(at) == SecurityMode && args.nas == Registering
    ensures var u' := SendEvent(u, at, SecurityModeSuccess, args);
      && u'.state == u.state.With(at, Established(u.kind, args.answers.setup))
      && u'.available == u.available && u'.ksi == u.ksi
      && u'.t3550 == TimerAfter(u.t3550, u.kind, args.answers.setup)
      && (u'.state.At(at) == ContextSetup ==> Kept(u, u'))
  {
    hide Change, Count, Register;
    NothingIsOverwritten(u, at, SecurityModeSuccess, args);
    ChangeTouches(u, at, SecurityModeSuccess, ContextSetup, args);
    var u1 := Change(u, at, SecurityModeSuccess, ContextSetup, args);
    CountFields(u1, args.an, ContextSetup, 1);
    var u2 := Count(u1, args.an, ContextSetup, 1);
    WithTwice(u.state, at, ContextSetup, Established(u.kind, args.answers.setup));
    Registers(u2, at, args);
    assert SendEvent(u, at, SecurityModeSuccess, args) == Register(u2, at, args);
  }

  // After a success of the AUSF, or with a valid security context
  lemma AuthenticationSucceeds(u: Ue, at: AccessType, args: Args)
    requires u.state.At(at) == Authentication && (args.eap.None? ==> Valid(u))
    ensures var u' := SendEvent(u, at, AuthSuccess, args);
      && u'.state == u.state.With(at,
           if Valid(u) then Established(u.kind, args.answers.setup)
           else if !args.answers.algorithms then Deregistered
           else SecurityMode)
      && u'.ksi == u.ksi && u'.available == (if Valid(u) || !args.answers.algorithms || args.answers.command == NotBuilt then u.available
                          else args.answers.command == Sent)
      && u'.t3550 == (if Valid(u) then TimerAfter(u.t3550, u.kind, args.answers.setup) else u.t3550)
      && (u'.state.At(at) == SecurityMode || u'.state.At(at) == ContextSetup ==> u'.kind == u.kind)
  {
    hide Change, Count;
    NothingIsOverwritten(u, at, AuthSuccess, args);
    ChangeTouches(u, at, AuthSuccess, SecurityMode, args);
    var u1 := Change(u, at, AuthSuccess, SecurityMode, args);
    CountFields(u1, args.an, SecurityMode, 1);
    var u2 := Count(u1, args.an, SecurityMode, 1);
    assert SendEvent(u, at, AuthSuccess, args) == Secure(u2, at, args);
    WithTwice(u.state, at, SecurityMode, Established(u.kind, args.answers.setup));
    WithTwice(u.state, at, SecurityMode, Deregistered);
    if Valid(u) {
      SecuritySucceeds(u2, at, args.(nas := Registering, eap := None, ausf := false));
    } else if !args.answers.algorithms {
      Gone(u2, at, SecurityModeFail, args.(nas := NoNas, eap := None, ausf := false));
    }
  }

  // Where an authentication leads that is started or started again
  function Begun(identified: bool, valid: bool, kind: Kind, answers: Answers): GmmState {
    if !identified then Authentication
    else if valid then Established(kind, answers.setup)
    else if answers.ausf == None then Deregistered
    else Authentication
  }

  lemma Authenticates(u: Ue, at: AccessType, args: Args)
    requires u.state.At(at) == Authentication
    ensures var u' := Authenticate(u, at, args);
      && u'.state == u.state.With(at, Begun(u.identified, Valid(u), u.kind, args.answers))
      && u'.available == u.available && u'.ksi == u.ksi
      && u'.t3550 == (if u.identified && Valid(u) then TimerAfter(u.t3550, u.kind, args.answers.setup) else u.t3550)
      && (u'.state.At(at) == ContextSetup ==> u'.kind == u.kind)
      && (u.identified && !Valid(u) && args.answers.ausf.Some? ==> u' == u.(authCtx := args.answers.ausf))
      && (!u.identified ==> Kept(u, u') && u'.authCtx == u.authCtx)
  {
    var args1 := args.(nas := NoNas, eap := None, ausf := false);
    WithTwice(u.state, at, Authentication, Authentication);
    if u.identified && Valid(u) {
      AuthenticationSucceeds(u, at, args1);
    } else if u.identified && args.answers.ausf.None? {
      Gone(u, at, AuthError, args1);
    }
  }

  lemma Starts(u: Ue, at: AccessType, args: Args)
    requires u.state.At(at) == Deregistered || u.state.At(at) == Registered
    ensures var u' := SendEvent(u, at, StartAuth, args);
      && u'.state == u.state.With(at, Begun(u.identified, Valid(u), u.kind, args.answers))
      && u'.available == u.available && u'.ksi == u.ksi
      && u'.t3550 == (if u.identified && Valid(u) then TimerAfter(u.t3550, u.kind, args.answers.setup) else u.t3550)
      && (u'.state.At(at) == ContextSetup ==> u'.kind == u.kind)
      && (u.identified && !Valid(u) && args.answers.ausf.Some? ==> Kept(u, u') && u'.authCtx == args.answers.ausf)
      && (!u.identified ==> Kept(u, u'))
  {
    hide Change, Count, Authenticate;
    NothingIsOverwritten(u, at, StartAuth, args);
    ChangeTouches(u, at, StartAuth, Authentication, args);
    var u1 := Change(u, at, StartAuth, Authentication, args);
    CountFields(u1, args.an, Authentication, 1);
    var u2 := Count(u1, args.an, Authentication, 1);
    WithTwice(u.state, at, Authentication, Begun(u.identified, Valid(u), u.kind, args.answers));
    Authenticates(u2, at, args);
    assert SendEvent(u, at, StartAuth, args) == Authenticate(u2, at, args);
  }

  // ----- what one message does -----

  lemma Dispatches(u: Ue, an: AccessType, macFailed: bool, m: Message, answers: Answers)
    ensures var v, args := u.(macFailed := macFailed), Plainly(an, answers);
      Step(u, Nas(an, macFailed, m, answers)) ==
      match u.state.At(an)
      case Deregistered => WhenDeregistered(v, an, m, args)
      case Authentication => WhenAuthenticating(v, an, m, args)
      case SecurityMode => WhenSecuring(v, an, m, args)
      case ContextSetup => WhenSettingUp(v, an, m, args)
      case Registered => WhenRegistered(v, an, m, args)
      case DeregistrationInitiated => v
  {
    hide WhenDeregistered, WhenAuthenticating, WhenSecuring, WhenSettingUp, WhenRegistered;
    var v, args := u.(macFailed := macFailed), Plainly(an, answers);
    var e, from := GmmMessage(m), u.state.At(an);
    assert SendEvent(v, an, e, args) == if from == DeregistrationInitiated then v else OnEvent(v, an, from, e, args);
  }

  // A registration request that is taken up
  predicate Taken(state: GmmState, macFailed: bool, r: Registration) {
    && r.connected && (r.container == WrongContents ==> macFailed)
    && r.kind != Emergency && (r.kind in {Mobility, Periodic} ==> state != Deregistered)
    && r.identity.Some? && r.identityDecoded && r.admitted
  }

  // It is taken up in Deregistered and in Registered, where an access begins to
  // authenticate with what the request, or the old AMF, has brought along.
  lemma RegistrationRequestExactly(u: Ue, an: AccessType, macFailed: bool, r: Registration, answers: Answers)
    requires u.state.At(an) == Deregistered || u.state.At(an) == Registered
    ensures var u' := Step(u, Nas(an, macFailed, RegistrationRequest(r), answers));
      u'.state == if !Taken(u.state.At(an), macFailed, r) then u.state else u.state.With(an, Begun(
        u.identified || r.identity == Some(Suci) || (r.transfer.Some? && r.transfer.value.identified),
        match r.transfer {
          case Some(t) => t.available && t.ksi != 7
          case None => u.available && r.kind != Initial && r.container != CipherError && !macFailed
        },
        if r.kind in {NoKind, UnknownKind} then Initial else r.kind,
        answers))
  {
    hide SendEvent, HandleRegistrationRequest;
    var v, args := u.(macFailed := macFailed), Plainly(an, answers);
    Dispatches(u, an, macFailed, RegistrationRequest(r), answers);
    RequestTaken(v, an, r);
    var h := HandleRegistrationRequest(v, an, r);
    if h.ok {
      RequestBrings(v, an, r);
      Starts(h.ue, an, args);
    }
  }

  lemma RequestTaken(u: Ue, an: AccessType, r: Registration)
    ensures var h := HandleRegistrationRequest(u, an, r);
      && h.ok == Taken(u.state.At(an), u.macFailed, r)
      && h.ue.state == u.state && h.ue.authCtx == u.authCtx && h.ue.t3550 == u.t3550
  {
  }

  // What the request, or the old AMF, brings along
  lemma RequestBrings(u: Ue, an: AccessType, r: Registration)
    requires HandleRegistrationRequest(u, an, r).ok
    ensures var u' := HandleRegistrationRequest(u, an, r).ue;
      && r.identity.Some?
      && u'.identified == (u.identified || r.identity == Some(Suci) || (r.transfer.Some? && r.transfer.value.identified))
      && u'.kind == (if r.kind in {NoKind, UnknownKind} then Initial else r.kind)
      && u'.identityType == r.identity.value
      && u'.available == (match r.transfer
                          case Some(t) => t.available
                          case None => u.available && r.kind != Initial && (r.container == CipherError ==> u.macFailed))
      && Valid(u') == (match r.transfer
                       case Some(t) => t.available && t.ksi != 7
                       case None => u.available && r.kind != Initial && r.container != CipherError && !u.macFailed)
  {
  }

  lemma RequestRefused(u: Ue, an: AccessType, r: Registration)
    requires !HandleRegistrationRequest(u, an, r).ok
    ensures HandleRegistrationRequest(u, an, r).ue.available ==
      (u.available
       && (!r.connected || (r.container == WrongContents && !u.macFailed)
           || (r.kind != Initial && (r.container == CipherError ==> u.macFailed))))
  {
  }

  // Deregistered: nothing else leads out of it.
  lemma DeregisteredStays(u: Ue, an: AccessType, macFailed: bool, m: Message, answers: Answers)
    requires u.state.At(an) == Deregistered && !m.RegistrationRequest?
    ensures Step(u, Nas(an, macFailed, m, answers)).state == u.state
  {
    Dispatches(u, an, macFailed, m, answers);
  }

  // An identity that is accepted. Without integrity only the SUCI is, and no identity.
  predicate Identifies(macFailed: bool, accepted: bool, identity: Identity) {
    accepted && (macFailed ==> identity == Suci || identity == NoIdentity)
  }

  // The response that confirms the authentication that is going on
  predicate Confirms(authType: AuthType, r: Response) {
    r.confirmation == Success && if authType == Aka then r.wellFormed && r.hresMatches else r.eapMessage
  }

  // Authentication: the confirmed response leads on to SecurityMode or, with a security
  // context that is valid already, further; a response that fails, or carries no EAP message
  // where one is due, ends it, unless the UE can be asked for its SUCI first.
  lemma AuthenticationResponseExactly(u: Ue, an: AccessType, macFailed: bool, r: Response, answers: Answers)
    requires u.state.At(an) == Authentication
    ensures var u' := Step(u, Nas(an, macFailed, AuthenticationResponse(r), answers));
      u'.state ==
        if u.authCtx == None then u.state
        else if Confirms(u.authCtx.value, r) then u.state.With(an,
          if u.available && u.ksi != 7 && !macFailed then Established(u.kind, answers.setup)
          else if !answers.algorithms then Deregistered
          else SecurityMode)
        else if u.authCtx == Some(EapAkaPrime) && !r.eapMessage then u.state.With(an, Deregistered)
        else if Fails(u.authCtx.value, r) && (u.identityType != Guti || u.identityRequests > 0)
        then u.state.With(an, Deregistered)
        else u.state
  {
    hide HandleAuthenticationResponse, Established, Confirms, Fails;
    Dispatches(u, an, macFailed, AuthenticationResponse(r), answers);
    ResponseExactly(u.(macFailed := macFailed), an, r, answers);
  }

  // An identity starts it again, and no other message but a failure reported by the UE has
  // an effect on the state: the ones that end it are these.
  lemma AuthenticationExactly(u: Ue, an: AccessType, macFailed: bool, m: Message, answers: Answers)
    requires u.state.At(an) == Authentication && !m.AuthenticationResponse?
    ensures var u' := Step(u, Nas(an, macFailed, m, answers));
      u'.state ==
        match m
        case IdentityResponse(accepted, identity) =>
          if !Identifies(macFailed, accepted, identity) then u.state
          else u.state.With(an, Begun(u.identified || identity == Suci, u.available && u.ksi != 7 && !macFailed, u.kind, answers))
        case AuthenticationFailure(cause, _) =>
          if u.authCtx == Some(Aka)
             && (cause in {MacFailure, Non5GUnacceptable} || (cause == SynchFailure && u.synchFailures > 0))
          then u.state.With(an, Deregistered) else u.state
        case _ => u.state
  {
    hide SendEvent, Authenticate, Begun, HandleAuthenticationFailure;
    Dispatches(u, an, macFailed, m, answers);
    var v, args := u.(macFailed := macFailed), Plainly(an, answers);
    match m
    case IdentityResponse(accepted, identity) =>
      if Identifies(macFailed, accepted, identity) {
        Restarts(HandleIdentityResponse(v, accepted, identity).(identityType := identity), an, args);
      }
    case AuthenticationFailure(cause, resync) => FailureExactly(v, an, cause, resync, answers);
    case _ =>
  }

  lemma Restarts(u: Ue, an: AccessType, args: Args)
    requires u.state.At(an) == Authentication
    ensures SendEvent(u, an, AuthRestart, args) == Authenticate(u, an, args)
    ensures Authenticate(u, an, args).state == u.state.With(an, Begun(u.identified, Valid(u), u.kind, args.answers))
  {
    hide Authenticate;
    Authenticates(u, an, args);
  }

  lemma FallsBackOrFails(u: Ue, an: AccessType, args: Args)
    requires u.state.At(an) == Authentication
    ensures var u' := FallBackOrFail(u, an, args);
      && u'.state == (if u.identityType == Guti && u.identityRequests == 0 then u.state else u.state.With(an, Deregistered))
      && u'.available == u.available && u'.t3550 == (u.t3550 && u'.state.At(an) != Deregistered)
  {
    hide SendEvent;
    Gone(u, an, AuthFail, args.(nas := NoNas, eap := None, ausf := false));
  }

  lemma ResponseExactly(u: Ue, an: AccessType, r: Response, answers: Answers)
    requires u.state.At(an) == Authentication
    ensures var u' := HandleAuthenticationResponse(u, an, r, Plainly(an, answers));
      u'.state ==
        if u.authCtx == None then u.state
        else if Confirms(u.authCtx.value, r) then u.state.With(an,
          if Valid(u) then Established(u.kind, answers.setup) else if !answers.algorithms then Deregistered else SecurityMode)
        else if u.authCtx == Some(EapAkaPrime) && !r.eapMessage then u.state.With(an, Deregistered)
        else if Fails(u.authCtx.value, r) && (u.identityType != Guti || u.identityRequests > 0)
        then u.state.With(an, Deregistered)
        else u.state
  {
    hide SendEvent, FallBackOrFail, Valid;
    var args := Plainly(an, answers);
    FallsBackOrFails(u, an, args);
    if u.authCtx.Some? && Confirms(u.authCtx.value, r) {
      ConfirmationSucceeds(u, an, r, answers);
    } else if u.authCtx == Some(EapAkaPrime) && !r.eapMessage {
      Gone(u, an, AuthFail, args);
    }
  }

  lemma ConfirmationSucceeds(u: Ue, an: AccessType, r: Response, answers: Answers)
    requires u.state.At(an) == Authentication && u.authCtx.Some? && Confirms(u.authCtx.value, r)
    ensures var u' := HandleAuthenticationResponse(u, an, r, Plainly(an, answers));
      && u'.state == u.state.With(an,
           if Valid(u) then Established(u.kind, answers.setup)
           else if !answers.algorithms then Deregistered else SecurityMode)
      && u'.available == (if Valid(u) || !answers.algorithms || answers.command == NotBuilt then u.available
                          else answers.command == Sent)
      && u'.t3550 == (if Valid(u) then TimerAfter(u.t3550, u.kind, answers.setup) else u.t3550)
      && (u'.state.At(an) == SecurityMode || u'.state.At(an) == ContextSetup ==> u'.kind == u.kind)
  {
    hide SendEvent;
    var args := Plainly(an, answers);
    AuthenticationSucceeds(u.(identified := true), an,
                           args.(nas := NoNas, eap := Some(u.authCtx == Some(EapAkaPrime)), ausf := true));
  }

  predicate Ends(u: Ue, cause: Cause) {
    u.authCtx == Some(Aka) && (cause == MacFailure || cause == Non5GUnacceptable || (cause == SynchFailure && u.synchFailures > 0))
  }

  lemma FailureOutcome(u: Ue, an: AccessType, cause: Cause, resync: Resync, args: Args)
    requires args == Plainly(an, args.answers)
    ensures var u' := HandleAuthenticationFailure(u, an, cause, resync, args);
      if Ends(u, cause) then
        u' == SendEvent(if cause == SynchFailure then u.(synchFailures := u.synchFailures + 1) else u, an, AuthFail, args)
      else u' == u.(synchFailures := u'.synchFailures, ksi := u'.ksi, authCtx := u'.authCtx)
  {
    hide SendEvent;
  }

  lemma FailureExactly(u: Ue, an: AccessType, cause: Cause, resync: Resync, answers: Answers)
    requires u.state.At(an) == Authentication
    ensures var u' := HandleAuthenticationFailure(u, an, cause, resync, Plainly(an, answers));
      && u'.state == (if Ends(u, cause) then u.state.With(an, Deregistered) else u.state)
      && u'.available == u.available && u'.t3550 == (u.t3550 && !Ends(u, cause))
  {
    hide SendEvent, HandleAuthenticationFailure, Ends;
    var args := Plainly(an, answers);
    FailureOutcome(u, an, cause, resync, args);
    if Ends(u, cause) {
      EndsInAuthentication(u, an);
      Gone(u, an, AuthFail, args);
      Gone(u.(synchFailures := u.synchFailures + 1), an, AuthFail, args);
    }
  }

  lemma EndsInAuthentication(u: Ue, an: AccessType)
    requires u.state.At(an) == Authentication
    ensures Next(AuthFail, u.state.At(an)) == Some(Deregistered)
  {
  }

  // SecurityMode: a completion with integrity leads on, to ContextSetup or, if the
  // registration handlers fail at once, back; one with a service request and a rejection end
  // the registration.
  lemma SecurityModeExactly(u: Ue, an: AccessType, macFailed: bool, m: Message, answers: Answers)
    requires u.state.At(an) == SecurityMode
    ensures var u' := Step(u, Nas(an, macFailed, m, answers));
      u'.state == u.state.With(an,
        match m
        case SecurityModeComplete(true, contents) =>
          if macFailed || contents in {Undecodable, OtherInside} then SecurityMode
          else if contents == ServiceInside then Deregistered
          else Established(u.kind, answers.setup)
        case SecurityModeReject => Deregistered
        case _ => SecurityMode)
  {
    hide SendEvent;
    Dispatches(u, an, macFailed, m, answers);
    var v, args := u.(macFailed := macFailed), Plainly(an, answers);
    WithTwice(u.state, an, SecurityMode, SecurityMode);
    SecuritySucceeds(v, an, args.(nas := Registering, eap := None, ausf := false));
    Gone(v, an, SecurityModeFail, args);
    Gone(v, an, SecurityModeFail, args.(nas := Servicing(NoContainer), eap := None, ausf := false));
  }

  // ContextSetup: a completed registration with the timer running leads to Registered, an
  // identity the handlers waited for to where they lead; nothing else leads out.
  lemma ContextSetupExactly(u: Ue, an: AccessType, macFailed: bool, m: Message, answers: Answers)
    requires u.state.At(an) == ContextSetup
    ensures var u' := Step(u, Nas(an, macFailed, m, answers));
      u'.state == u.state.With(an,
        match m
        case RegistrationComplete => if u.t3550 then Registered else ContextSetup
        case IdentityResponse(accepted, identity) =>
          if Identifies(macFailed, accepted, identity) then Established(u.kind, answers.setup) else ContextSetup
        case _ => ContextSetup)
  {
    hide SendEvent, Register;
    Dispatches(u, an, macFailed, m, answers);
    var v, args := u.(macFailed := macFailed), Plainly(an, answers);
    WithTwice(u.state, an, ContextSetup, ContextSetup);
    match m
    case RegistrationComplete => Completes(v.(t3550 := false), an, args);
    case IdentityResponse(accepted, identity) =>
      if Identifies(macFailed, accepted, identity) {
        Registers(HandleIdentityResponse(v, accepted, identity), an, args);
      }
    case _ =>
  }

  lemma Completes(u: Ue, an: AccessType, args: Args)
    requires u.state.At(an) == ContextSetup
    ensures var u' := SendEvent(u, an, ContextSetupSuccess, args);
      u'.state == u.state.With(an, Registered) && u'.available == u.available && u'.t3550 == u.t3550
  {
    hide Change;
    NothingIsOverwritten(u, an, ContextSetupSuccess, args);
    ChangeTouches(u, an, ContextSetupSuccess, Registered, args);
  }

  // An access that is deregistered when it has said so itself
  function Left(s: GmmState): GmmState {
    if s == DeregistrationInitiated then Deregistered else s
  }

  // Registered: besides a registration request only a deregistration request leads out. It
  // takes the accesses it names to Deregistered if they have initiated it, as the access it
  // came by has now.
  lemma DeregistrationExactly(u: Ue, an: AccessType, macFailed: bool, m: Message, answers: Answers)
    requires u.state.At(an) == Registered && !m.RegistrationRequest?
    ensures var u' := Step(u, Nas(an, macFailed, m, answers));
      && u'.state.At(an) == (if !m.DeregistrationRequest? then Registered
                             else if m.targets == Both || m.targets == Target(an) then Deregistered
                             else DeregistrationInitiated)
      && u'.state.At(Other(an)) == (if m.DeregistrationRequest? && (m.targets == Both || m.targets == Target(Other(an)))
                                    then Left(u.state.At(Other(an))) else u.state.At(Other(an)))
  {
    hide SendEvent;
    Dispatches(u, an, macFailed, m, answers);
    var v, args := u.(macFailed := macFailed), Plainly(an, answers);
    if m.DeregistrationRequest? {
      Leaves(v, an, m.targets, args.(nas := Deregistering(m.targets)));
    }
  }

  lemma Leaves(u: Ue, an: AccessType, targets: Targets, args: Args)
    requires u.state.At(an) == Registered && args.nas == Deregistering(targets)
    ensures var u' := SendEvent(u, an, InitDeregistration, args);
      && u'.available == u.available && u'.t3550 == u.t3550 && u'.state.At(an)
         == (if targets == Both || targets == Target(an) then Deregistered else DeregistrationInitiated)
      && u'.state.At(Other(an)) == (if targets == Both || targets == Target(Other(an))
                                    then Left(u.state.At(Other(an))) else u.state.At(Other(an)))
  {
    hide Change, Count;
    NothingIsOverwritten(u, an, InitDeregistration, args);
    ChangeTouches(u, an, InitDeregistration, DeregistrationInitiated, args);
    var u1 := Change(u, an, InitDeregistration, DeregistrationInitiated, args);
    CountFields(u1, args.an, DeregistrationInitiated, 1);
    var u2 := Count(u1, args.an, DeregistrationInitiated, 1);
    assert SendEvent(u, an, InitDeregistration, args) == Deregister(u2, targets, args);
    var args1 := args.(nas := NoNas, eap := None, ausf := false);
    match targets
    case Target(t) => Accepts(u2, t, args1);
    case Both =>
      Accepts(u2, ThreeGpp, args1);
      Accepts(SendEvent(u2, ThreeGpp, DeregistrationAccept, args1), NonThreeGpp, args1);
  }

  lemma Accepts(u: Ue, at: AccessType, args: Args)
    ensures var u' := SendEvent(u, at, DeregistrationAccept, args);
      u'.state == u.state.With(at, Left(u.state.At(at))) && u'.available == u.available && u'.t3550 == u.t3550
  {
    hide Change;
    if u.state.At(at) == DeregistrationInitiated {
      NothingIsOverwritten(u, at, DeregistrationAccept, args);
      ChangeTouches(u, at, DeregistrationAccept, Deregistered, args);
    } else {
      WithTwice(u.state, at, Registered, Registered);
    }
  }

  // DeregistrationInitiated: no message is processed.
  lemma InitiatedStays(u: Ue, an: AccessType, macFailed: bool, m: Message, answers: Answers)
    requires u.state.At(an) == DeregistrationInitiated
    ensures Step(u, Nas(an, macFailed, m, answers)) == u.(macFailed := macFailed)
  {
    Dispatches(u, an, macFailed, m, answers);
  }

  // A message changes the state of its own access only, unless it deregisters the other.
  lemma OtherAccessStays(u: Ue, an: AccessType, macFailed: bool, m: Message, answers: Answers)
    ensures var a := Other(an);
      var u' := Step(u, Nas(an, macFailed, m, answers));
      u'.state.At(a) != u.state.At(a) <==>
        && u.state.At(an) == Registered && u.state.At(a) == DeregistrationInitiated
        && m.DeregistrationRequest? && m.targets != Target(an) && u'.state.At(a) == Deregistered
  {
    hide Step, Established, Begun, Taken, Identifies, Confirms, Fails;
    match u.state.At(an)
    case Deregistered =>
      if m.RegistrationRequest? { RegistrationRequestExactly(u, an, macFailed, m.registration, answers); }
      else { DeregisteredStays(u, an, macFailed, m, answers); }
    case Authentication =>
      if m.AuthenticationResponse? { AuthenticationResponseExactly(u, an, macFailed, m.response, answers); }
      else { AuthenticationExactly(u, an, macFailed, m, answers); }
    case SecurityMode => SecurityModeExactly(u, an, macFailed, m, answers);
    case ContextSetup => ContextSetupExactly(u, an, macFailed, m, answers);
    case Registered =>
      if m.RegistrationRequest? { RegistrationRequestExactly(u, an, macFailed, m.registration, answers); }
      else { DeregistrationExactly(u, an, macFailed, m, answers); }
    case DeregistrationInitiated => InitiatedStays(u, an, macFailed, m, answers);
  }

  // An access becomes registered by exactly one kind of input: a RegistrationComplete that
  // comes by it in ContextSetup while T3550 is running.
  lemma RegisteredExactly(u: Ue, i: Input, a: AccessType)
    requires u.state.At(a) != Registered
    ensures Step(u, i).state.At(a) == Registered <==>
              u.state.At(a) == ContextSetup && u.t3550 && i.Nas? && i.an == a && i.message == RegistrationComplete
  {
    hide Step, Taken, Identifies, Confirms, Fails;
    match i
    case TimersStop => StopKeepsStates(u);
    case Nas(an, macFailed, m, answers) =>
      if an != a {
        OtherAccessStays(u, an, macFailed, m, answers);
      } else {
        match u.state.At(an)
        case Deregistered =>
          if m.RegistrationRequest? { RegistrationRequestExactly(u, an, macFailed, m.registration, answers); }
          else { DeregisteredStays(u, an, macFailed, m, answers); }
        case Authentication =>
          if m.AuthenticationResponse? { AuthenticationResponseExactly(u, an, macFailed, m.response, answers); }
          else { AuthenticationExactly(u, an, macFailed, m, answers); }
        case SecurityMode => SecurityModeExactly(u, an, macFailed, m, answers);
        case ContextSetup => ContextSetupExactly(u, an, macFailed, m, answers);
        case DeregistrationInitiated => InitiatedStays(u, an, macFailed, m, answers);
      }
  }

  lemma StopKeepsStates(u: Ue)
    ensures Step(u, TimersStop) == u.(t3550 := false)
  {
  }

  // ----- a registration that goes well -----

  // The request: an initial registration by a UE that is known, and a vector for it.
  lemma RequestGoesWell(u: Ue, an: AccessType, macFailed: bool, r: Registration, answers: Answers)
    requires u.state.At(an) == Deregistered && r.kind == Initial && Taken(Deregistered, macFailed, r) && r.transfer == None
    ensures var u' := Step(u, Nas(an, macFailed, RegistrationRequest(r), answers));
      && (u.identified || r.identity == Some(Suci) ==>
            answers.ausf.Some? ==>
              && u'.state == u.state.With(an, Authentication) && u'.authCtx == answers.ausf
              && u'.kind == Initial && !u'.available)
      && (!u.identified && r.identity != Some(Suci) ==>
            u'.state == u.state.With(an, Authentication) && u'.kind == Initial && !u'.available && !u'.identified)
  {
    hide SendEvent, HandleRegistrationRequest;
    var v := u.(macFailed := macFailed);
    Dispatches(u, an, macFailed, RegistrationRequest(r), answers);
    RequestTaken(v, an, r);
    RequestBrings(v, an, r);
    Starts(HandleRegistrationRequest(v, an, r).ue, an, Plainly(an, answers));
  }

  // The identity, where it was asked for
  lemma IdentityGoesWell(u: Ue, an: AccessType, macFailed: bool, answers: Answers)
    requires u.state.At(an) == Authentication && !u.available && answers.ausf.Some?
    ensures var u' := Step(u, Nas(an, macFailed, IdentityResponse(true, Suci), answers));
      u'.state == u.state && u'.authCtx == answers.ausf && u'.kind == u.kind && !u'.available
  {
    hide SendEvent, Authenticate;
    var v, args := u.(macFailed := macFailed), Plainly(an, answers);
    Dispatches(u, an, macFailed, IdentityResponse(true, Suci), answers);
    WithTwice(u.state, an, Authentication, Authentication);
    var v1 := HandleIdentityResponse(v, true, Suci).(identityType := Suci);
    Restarts(v1, an, args);
    Authenticates(v1, an, args);
  }

  lemma ResponseGoesWell(u: Ue, an: AccessType, macFailed: bool, r: Response, answers: Answers)
    requires u.state.At(an) == Authentication && !u.available && u.authCtx.Some? && Confirms(u.authCtx.value, r)
    requires answers.algorithms
    ensures var u' := Step(u, Nas(an, macFailed, AuthenticationResponse(r), answers));
      u'.state == u.state.With(an, SecurityMode) && u'.kind == u.kind
  {
    hide SendEvent, HandleAuthenticationResponse;
    Dispatches(u, an, macFailed, AuthenticationResponse(r), answers);
    ConfirmationSucceeds(u.(macFailed := macFailed), an, r, answers);
  }

  lemma CompletionGoesWell(u: Ue, an: AccessType, contents: CompleteContents, answers: Answers)
    requires u.state.At(an) == SecurityMode && u.kind == Initial && contents in {NoMessage, RegistrationInside}
    requires answers.setup == SetupAccepts(true)
    ensures var u' := Step(u, Nas(an, false, SecurityModeComplete(true, contents), answers));
      u'.state == u.state.With(an, ContextSetup) && u'.t3550
  {
    hide SendEvent;
    Dispatches(u, an, false, SecurityModeComplete(true, contents), answers);
    SecuritySucceeds(u.(macFailed := false), an, Plainly(an, answers).(nas := Registering));
  }

  // From Authentication on, with an authentication context
  lemma GoesOnWell(u: Ue, an: AccessType, macFailed: seq<bool>, r: Response, contents: CompleteContents,
                   answers: seq<Answers>, inputs: seq<Input>)
    requires |macFailed| == |answers| == 3
    requires u.state.At(an) == Authentication && !u.available && u.kind == Initial && u.authCtx.Some?
    requires Confirms(u.authCtx.value, r) && answers[0].algorithms
    requires !macFailed[1] && contents in {NoMessage, RegistrationInside} && answers[1].setup == SetupAccepts(true)
    requires inputs == [Nas(an, macFailed[0], AuthenticationResponse(r), answers[0]),
                        Nas(an, macFailed[1], SecurityModeComplete(true, contents), answers[1]),
                        Nas(an, macFailed[2], RegistrationComplete, answers[2])]
    ensures Step(Step(Step(u, inputs[0]), inputs[1]), inputs[2]).state == u.state.With(an, Registered)
  {
    hide Step;
    ResponseGoesWell(u, an, macFailed[0], r, answers[0]);
    var u1 := Step(u, inputs[0]);
    CompletionGoesWell(u1, an, contents, answers[1]);
    var u2 := Step(u1, inputs[1]);
    ContextSetupExactly(u2, an, macFailed[2], RegistrationComplete, answers[2]);
    WithTwice(u.state, an, SecurityMode, ContextSetup);
    WithTwice(u.state, an, ContextSetup, Registered);
  }

  lemma RunOnByThree(before: seq<Input>, after: seq<Input>)
    requires |after| == 3
    ensures Run(before + after) == Step(Step(Step(Run(before), after[0]), after[1]), after[2])
  {
    hide Step;
    var inputs := before + after;
    var n := |inputs|;
    assert inputs[..n - 1][..n - 2] == inputs[..n - 2] && inputs[..n - 2][..n - 3] == inputs[..n - 3] == before;
    assert Run(inputs[..n - 2]) == Step(Run(before), after[0]);
    assert Run(inputs[..n - 1]) == Step(Run(inputs[..n - 2]), after[1]);
  }

  lemma RunOnByOne(before: seq<Input>, i: Input)
    ensures Run(before + [i]) == Step(Run(before), i)
  {
    hide Step;
    assert (before + [i])[..|before|] == before;
  }

  // From every run with the access deregistered, the initial registration of a known UE ends
  // in Registered: with a vector for it, the response the AUSF confirms, algorithms and a
  // command, a completion with integrity and handlers that accept.
  lemma RegistrationCompletes(inputs: seq<Input>, an: AccessType, r: Registration, authType: AuthType, response: Response,
                              contents: CompleteContents, macFailed: seq<bool>, answers: seq<Answers>)
    requires |macFailed| == |answers| == 4 && Run(inputs).state.At(an) == Deregistered
    requires r.connected && (r.container == WrongContents ==> macFailed[0]) && r.kind == Initial
    requires r.identity.Some? && r.identityDecoded && r.admitted && r.transfer == None
    requires (Run(inputs).identified || r.identity == Some(Suci)) && answers[0].ausf == Some(authType)
    requires response.confirmation == Success
    requires if authType == Aka then response.wellFormed && response.hresMatches else response.eapMessage
    requires answers[1].algorithms && answers[1].command == Sent
    requires !macFailed[2] && contents in {NoMessage, RegistrationInside} && answers[2].setup == SetupAccepts(true)
    ensures Run(inputs + [Nas(an, macFailed[0], RegistrationRequest(r), answers[0])]
                + [Nas(an, macFailed[1], AuthenticationResponse(response), answers[1]),
                   Nas(an, macFailed[2], SecurityModeComplete(true, contents), answers[2]),
                   Nas(an, macFailed[3], RegistrationComplete, answers[3])]).state
            == Run(inputs).state.With(an, Registered)
  {
    hide Step, Run;
    var first := Nas(an, macFailed[0], RegistrationRequest(r), answers[0]);
    var rest := [Nas(an, macFailed[1], AuthenticationResponse(response), answers[1]),
                 Nas(an, macFailed[2], SecurityModeComplete(true, contents), answers[2]),
                 Nas(an, macFailed[3], RegistrationComplete, answers[3])];
    RunOnByOne(inputs, first);
    RunOnByThree(inputs + [first], rest);
    RequestGoesWell(Run(inputs), an, macFailed[0], r, answers[0]);
    WithTwice(Run(inputs).state, an, Authentication, Registered);
    GoesOnWell(Run(inputs + [first]), an, macFailed[1..], response, contents, answers[1..], rest);
  }

  // So does that of an unknown UE that is asked for its SUCI and gives it.
  lemma UnknownUeCompletes(inputs: seq<Input>, an: AccessType, r: Registration, authType: AuthType, response: Response,
                           contents: CompleteContents, macFailed: seq<bool>, answers: seq<Answers>)
    requires |macFailed| == |answers| == 5 && Run(inputs).state.At(an) == Deregistered
    requires r.connected && (r.container == WrongContents ==> macFailed[0]) && r.kind == Initial
    requires r.identity.Some? && r.identityDecoded && r.admitted && r.transfer == None
    requires !Run(inputs).identified && r.identity != Some(Suci) && answers[1].ausf == Some(authType)
    requires response.confirmation == Success
    requires if authType == Aka then response.wellFormed && response.hresMatches else response.eapMessage
    requires answers[2].algorithms && answers[2].command == Sent
    requires !macFailed[3] && contents in {NoMessage, RegistrationInside} && answers[3].setup == SetupAccepts(true)
    ensures Run(inputs + [Nas(an, macFailed[0], RegistrationRequest(r), answers[0])]
                + [Nas(an, macFailed[1], IdentityResponse(true, Suci), answers[1])]
                + [Nas(an, macFailed[2], AuthenticationResponse(response), answers[2]),
                   Nas(an, macFailed[3], SecurityModeComplete(true, contents), answers[3]),
                   Nas(an, macFailed[4], RegistrationComplete, answers[4])]).state
            == Run(inputs).state.With(an, Registered)
  {
    hide Step, Run;
    var first := Nas(an, macFailed[0], RegistrationRequest(r), answers[0]);
    var second := Nas(an, macFailed[1], IdentityResponse(true, Suci), answers[1]);
    var rest := [Nas(an, macFailed[2], AuthenticationResponse(response), answers[2]),
                 Nas(an, macFailed[3], SecurityModeComplete(true, contents), answers[3]),
                 Nas(an, macFailed[4], RegistrationComplete, answers[4])];
    RunOnByOne(inputs, first);
    RunOnByOne(inputs + [first], second);
    RunOnByThree(inputs + [first] + [second], rest);
    RequestGoesWell(Run(inputs), an, macFailed[0], r, answers[0]);
    IdentityGoesWell(Run(inputs + [first]), an, macFailed[1], answers[1]);
    WithTwice(Run(inputs).state, an, Authentication, Registered);
    GoesOnWell(Run(inputs + [first] + [second]), an, macFailed[2..], response, contents, answers[2..], rest);
  }

  // ----- the security context and the key set identifier -----

  // Whether a security context is available after a message: the confirmed response settles it
  // by the command that is built then; a registration request settles it by what the old AMF
  // brings, or else takes it away, if it is an initial one or its container cannot be
  // deciphered, and so does a service request of the last kind. No other message matters.
  lemma AvailableExactly(u: Ue, an: AccessType, macFailed: bool, m: Message, answers: Answers)
    ensures var state := u.state.At(an);
      var valid := u.available && u.ksi != 7 && !macFailed;
      Step(u, Nas(an, macFailed, m, answers)).available ==
      match m
      case RegistrationRequest(r) =>
        if state != Deregistered && state != Registered then u.available
        else if Taken(state, macFailed, r) && r.transfer.Some? then r.transfer.value.available
        else if !r.connected || (r.container == WrongContents && !macFailed) then u.available
        else u.available && r.kind != Initial && (r.container == CipherError ==> macFailed)
      case ServiceRequest(container) =>
        u.available && !((state == Deregistered || state == Registered) && valid && container == CipherError)
      case AuthenticationResponse(r) =>
        if state == Authentication && u.authCtx.Some? && Confirms(u.authCtx.value, r) && !valid
           && answers.algorithms && answers.command != NotBuilt
        then answers.command == Sent else u.available
      case _ => u.available
  {
    hide SendEvent, HandleRegistrationRequest, WhenSecuring, WhenSettingUp, WhenAuthenticating, Confirms, Taken;
    Dispatches(u, an, macFailed, m, answers);
    var v, args := u.(macFailed := macFailed), Plainly(an, answers);
    match u.state.At(an)
    case Deregistered =>
      if m.RegistrationRequest? { RequestAvails(v, an, m.registration, answers); }
    case Authentication =>
      if m.AuthenticationResponse? { ResponseAvails(v, an, m.response, answers); }
      else { AuthenticatingAvails(v, an, m, args); }
    case SecurityMode => SecuringAvails(v, an, m, args);
    case ContextSetup => SettingUpAvails(v, an, m, args);
    case Registered =>
      if m.RegistrationRequest? { RequestAvails(v, an, m.registration, answers); }
      else if m.DeregistrationRequest? { Leaves(v, an, m.targets, args.(nas := Deregistering(m.targets))); }
    case DeregistrationInitiated =>
  }

  lemma RequestAvails(u: Ue, an: AccessType, r: Registration, answers: Answers)
    requires u.state.At(an) == Deregistered || u.state.At(an) == Registered
    ensures RequestRegistration(u, an, r, Plainly(an, answers)).available ==
      if Taken(u.state.At(an), u.macFailed, r) && r.transfer.Some? then r.transfer.value.available
      else if !r.connected || (r.container == WrongContents && !u.macFailed) then u.available
      else u.available && r.kind != Initial && (r.container == CipherError ==> u.macFailed)
  {
    hide SendEvent, HandleRegistrationRequest;
    var h := HandleRegistrationRequest(u, an, r);
    RequestTaken(u, an, r);
    if h.ok {
      RequestBrings(u, an, r);
      Starts(h.ue, an, Plainly(an, answers));
    } else {
      RequestRefused(u, an, r);
    }
  }

  lemma ResponseAvails(u: Ue, an: AccessType, r: Response, answers: Answers)
    requires u.state.At(an) == Authentication
    ensures WhenAuthenticating(u, an, AuthenticationResponse(r), Plainly(an, answers)).available ==
      if u.authCtx.Some? && Confirms(u.authCtx.value, r) && !Valid(u) && answers.algorithms && answers.command != NotBuilt
      then answers.command == Sent else u.available
  {
    hide SendEvent, FallBackOrFail;
    var args := Plainly(an, answers);
    Gone(u, an, AuthFail, args);
    FallsBackOrFails(u, an, args);
    assert WhenAuthenticating(u, an, AuthenticationResponse(r), args) == HandleAuthenticationResponse(u, an, r, args);
    if u.authCtx.Some? && Confirms(u.authCtx.value, r) {
      ConfirmationSucceeds(u, an, r, answers);
    }
  }

  lemma AuthenticatingAvails(u: Ue, an: AccessType, m: Message, args: Args)
    requires u.state.At(an) == Authentication && args == Plainly(an, args.answers) && !m.AuthenticationResponse?
    ensures WhenAuthenticating(u, an, m, args).available == u.available
  {
    hide SendEvent, Authenticate, HandleAuthenticationFailure;
    match m
    case IdentityResponse(accepted, identity) =>
      var u1 := HandleIdentityResponse(u, accepted, identity).(identityType := identity);
      Restarts(u1, an, args);
      Authenticates(u1, an, args);
    case AuthenticationFailure(cause, resync) => FailureExactly(u, an, cause, resync, args.answers);
    case _ =>
  }

  lemma SecuringAvails(u: Ue, an: AccessType, m: Message, args: Args)
    requires u.state.At(an) == SecurityMode && args == Plainly(an, args.answers)
    ensures WhenSecuring(u, an, m, args).available == u.available
  {
    hide SendEvent;
    SecuritySucceeds(u, an, args.(nas := Registering));
    Gone(u, an, SecurityModeFail, args);
    Gone(u, an, SecurityModeFail, args.(nas := Servicing(NoContainer)));
  }

  lemma SettingUpAvails(u: Ue, an: AccessType, m: Message, args: Args)
    requires u.state.At(an) == ContextSetup && args == Plainly(an, args.answers)
    ensures WhenSettingUp(u, an, m, args).available == u.available
  {
    hide SendEvent, Register;
    match m
    case RegistrationComplete => Completes(u.(t3550 := false), an, args);
    case IdentityResponse(accepted, identity) => Registers(HandleIdentityResponse(u, accepted, identity), an, args);
    case _ =>
  }

  // A UE that finds its key set identifier in use is given the next one, counted modulo 7;
  // the one that stands for no key is never given.
  lemma KsiGoesRound(u: Ue, an: AccessType, macFailed: bool, resync: Resync, answers: Answers)
    requires u.state.At(an) == Authentication && u.authCtx.Some? && 0 <= u.ksi < 7
    ensures Step(u, Nas(an, macFailed, AuthenticationFailure(KsiInUse, resync), answers)).ksi == (u.ksi + 1) % 7
  {
    hide SendEvent;
    Dispatches(u, an, macFailed, AuthenticationFailure(KsiInUse, resync), answers);
  }

  // Of two synchronisation failures in a row the second ends the authentication, exactly if
  // the vector that the first one was answered with, if any, is one for 5G AKA again.
  lemma SecondSynchFailureEnds(u: Ue, an: AccessType, macFailed: seq<bool>, resync: seq<Resync>, answers: seq<Answers>)
    requires |macFailed| == |resync| == |answers| == 2
    requires u.state.At(an) == Authentication && u.authCtx == Some(Aka) && u.synchFailures == 0
    ensures var u1 := Step(u, Nas(an, macFailed[0], AuthenticationFailure(SynchFailure, resync[0]), answers[0]));
      var u2 := Step(u1, Nas(an, macFailed[1], AuthenticationFailure(SynchFailure, resync[1]), answers[1]));
      && u1.state == u.state && u1.authCtx == Some(if resync[0].Vector? then resync[0].authType else Aka)
      && (u2.state.At(an) == Deregistered <==> resync[0] != Vector(EapAkaPrime))
  {
    hide SendEvent, Step;
    SynchFailureStep(u, an, macFailed[0], resync[0], answers[0]);
    var u1 := Step(u, Nas(an, macFailed[0], AuthenticationFailure(SynchFailure, resync[0]), answers[0]));
    assert resync[0].Vector? ==> resync[0].authType.Aka? || resync[0].authType.EapAkaPrime?;
    AuthenticationExactly(u1, an, macFailed[1], AuthenticationFailure(SynchFailure, resync[1]), answers[1]);
    WithTwice(u.state, an, Deregistered, Deregistered);
  }

  lemma SynchFailureStep(u: Ue, an: AccessType, macFailed: bool, resync: Resync, answers: Answers)
    requires u.state.At(an) == Authentication && u.authCtx == Some(Aka) && u.synchFailures == 0
    ensures Step(u, Nas(an, macFailed, AuthenticationFailure(SynchFailure, resync), answers))
            == u.(macFailed := macFailed, synchFailures := 1,
                  authCtx := Some(if resync.Vector? then resync.authType else Aka))
  {
    hide SendEvent;
    Dispatches(u, an, macFailed, AuthenticationFailure(SynchFailure, resync), answers);
  }

  // A key set identifier that was in use in between makes it start counting again.
  lemma KsiInUseForgives(u: Ue, an: AccessType, macFailed: seq<bool>, resync: seq<Resync>, answers: seq<Answers>)
    requires |macFailed| == |resync| == |answers| == 2
    requires u.state.At(an) == Authentication
    ensures var u1 := Step(u, Nas(an, macFailed[0], AuthenticationFailure(KsiInUse, resync[0]), answers[0]));
      var u2 := Step(u1, Nas(an, macFailed[1], AuthenticationFailure(SynchFailure, resync[1]), answers[1]));
      u1.state == u2.state == u.state
  {
    hide SendEvent, Step;
    AuthenticationExactly(u, an, macFailed[0], AuthenticationFailure(KsiInUse, resync[0]), answers[0]);
    var u1 := Step(u, Nas(an, macFailed[0], AuthenticationFailure(KsiInUse, resync[0]), answers[0]));
    KsiInUseStep(u, an, macFailed[0], resync[0], answers[0]);
    AuthenticationExactly(u1, an, macFailed[1], AuthenticationFailure(SynchFailure, resync[1]), answers[1]);
  }

  lemma KsiInUseStep(u: Ue, an: AccessType, macFailed: bool, resync: Resync, answers: Answers)
    requires u.state.At(an) == Authentication
    ensures var u1 := Step(u, Nas(an, macFailed, AuthenticationFailure(KsiInUse, resync), answers));
      u1.authCtx == u.authCtx && (u.authCtx == Some(Aka) ==> u1.synchFailures == 0)
  {
    hide SendEvent;
    Dispatches(u, an, macFailed, AuthenticationFailure(KsiInUse, resync), answers);
  }

  // ----- T3550 -----

  // T3550 runs after a message exactly if the access is in ContextSetup and its handlers have
  // now accepted with a timer, or it was running before, unless this message has completed the
  // registration or failed the authentication.
  lemma TimerExactly(u: Ue, an: AccessType, macFailed: bool, m: Message, answers: Answers)
    ensures var u' := Step(u, Nas(an, macFailed, m, answers));
      var from, to := u.state.At(an), u'.state.At(an);
      var accepted := && to == ContextSetup && u'.kind in {Initial, Mobility, Periodic}
                      && answers.setup == SetupAccepts(true)
                      && (from != ContextSetup || (m.IdentityResponse? && Identifies(macFailed, m.accepted, m.identity)));
      var completed := from == ContextSetup && m == RegistrationComplete;
      var failed := && from == Authentication && to == Deregistered
                    && (m.AuthenticationFailure?
                        || (m.AuthenticationResponse? && u.authCtx.Some? && !Confirms(u.authCtx.value, m.response)));
      u'.t3550 <==> accepted || (u.t3550 && !completed && !failed)
  {
    hide SendEvent, HandleRegistrationRequest, WhenSecuring, WhenSettingUp, WhenAuthenticating, Confirms, Taken;
    Dispatches(u, an, macFailed, m, answers);
    var v, args := u.(macFailed := macFailed), Plainly(an, answers);
    match u.state.At(an)
    case Deregistered =>
      if m.RegistrationRequest? { RequestTimes(v, an, m.registration, answers); }
    case Authentication =>
      if m.AuthenticationResponse? { ResponseTimes(v, an, m.response, answers); }
      else { AuthenticatingTimes(v, an, m, args); }
    case SecurityMode => SecuringTimes(v, an, m, args);
    case ContextSetup => SettingUpTimes(v, an, m, args);
    case Registered =>
      if m.RegistrationRequest? { RequestTimes(v, an, m.registration, answers); }
      else if m.DeregistrationRequest? { Leaves(v, an, m.targets, args.(nas := Deregistering(m.targets))); }
    case DeregistrationInitiated =>
  }

  // On the way into ContextSetup
  predicate Times(u: Ue, u': Ue, at: AccessType, setup: Setup) {
    u'.t3550 == (u.t3550 || (u'.state.At(at) == ContextSetup && u'.kind in {Initial, Mobility, Periodic}
                             && setup == SetupAccepts(true)))
  }

  lemma RequestTimes(u: Ue, an: AccessType, r: Registration, answers: Answers)
    requires u.state.At(an) in {Deregistered, Registered}
    ensures Times(u, RequestRegistration(u, an, r, Plainly(an, answers)), an, answers.setup)
  {
    hide SendEvent, HandleRegistrationRequest, Taken;
    var h := HandleRegistrationRequest(u, an, r);
    RequestTaken(u, an, r);
    if h.ok {
      RequestBrings(u, an, r);
      Starts(h.ue, an, Plainly(an, answers));
    }
  }

  lemma ResponseTimes(u: Ue, an: AccessType, r: Response, answers: Answers)
    requires u.state.At(an) == Authentication
    ensures var u' := WhenAuthenticating(u, an, AuthenticationResponse(r), Plainly(an, answers));
      if u.authCtx.Some? && !Confirms(u.authCtx.value, r)
      then u'.state.At(an) in {Authentication, Deregistered} && u'.t3550 == (u.t3550 && u'.state.At(an) != Deregistered)
      else Times(u, u', an, answers.setup)
  {
    hide SendEvent, FallBackOrFail;
    var args := Plainly(an, answers);
    Gone(u, an, AuthFail, args);
    FallsBackOrFails(u, an, args);
    assert WhenAuthenticating(u, an, AuthenticationResponse(r), args) == HandleAuthenticationResponse(u, an, r, args);
    if u.authCtx.Some? && Confirms(u.authCtx.value, r) {
      ConfirmationSucceeds(u, an, r, answers);
    }
  }

  lemma AuthenticatingTimes(u: Ue, an: AccessType, m: Message, args: Args)
    requires u.state.At(an) == Authentication && args == Plainly(an, args.answers) && !m.AuthenticationResponse?
    ensures var u' := WhenAuthenticating(u, an, m, args);
      if m.AuthenticationFailure?
      then u'.state.At(an) in {Authentication, Deregistered} && u'.t3550 == (u.t3550 && u'.state.At(an) != Deregistered)
      else Times(u, u', an, args.answers.setup)
  {
    hide SendEvent, Authenticate, HandleAuthenticationFailure;
    match m
    case IdentityResponse(accepted, identity) =>
      var u1 := HandleIdentityResponse(u, accepted, identity).(identityType := identity);
      Restarts(u1, an, args);
      Authenticates(u1, an, args);
    case AuthenticationFailure(cause, resync) => FailureExactly(u, an, cause, resync, args.answers);
    case _ =>
  }

  lemma SecuringTimes(u: Ue, an: AccessType, m: Message, args: Args)
    requires u.state.At(an) == SecurityMode && args == Plainly(an, args.answers)
    ensures Times(u, WhenSecuring(u, an, m, args), an, args.answers.setup)
  {
    hide SendEvent;
    SecuritySucceeds(u, an, args.(nas := Registering));
    Gone(u, an, SecurityModeFail, args);
    Gone(u, an, SecurityModeFail, args.(nas := Servicing(NoContainer)));
  }

  lemma SettingUpTimes(u: Ue, an: AccessType, m: Message, args: Args)
    requires u.state.At(an) == ContextSetup && args == Plainly(an, args.answers)
    ensures var u' := WhenSettingUp(u, an, m, args);
      if m == RegistrationComplete then !u'.t3550
      else if m.IdentityResponse? && Identifies(u.macFailed, m.accepted, m.identity) then Times(u, u', an, args.answers.setup)
      else u'.t3550 == u.t3550
  {
    hide SendEvent, Register;
    match m
    case RegistrationComplete => Completes(u.(t3550 := false), an, args);
    case IdentityResponse(accepted, identity) => Registers(HandleIdentityResponse(u, accepted, identity), an, args);
    case _ =>
  }
}
