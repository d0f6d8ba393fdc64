// The GMM state machine as the AMF runs it: callbacks and handlers that update one UE
// context in place and call SendEvent again. Every method is proved to do what its
// namesake in Gmm does to the value View(), and the nested calls to terminate; Dispatch,
// where messages come in, keeps what GmmRuns proves of whole runs.

module GmmOps {
  import opened Basics
  import opened Context
  import opened Gmm
  import Runs = GmmRuns

  class GmmUe {
    var state: PerAccess<GmmState>
    var securityContextAvailable: bool
    var ngKsi: int
    var macFailed: bool
    var identified: bool
    var identityTypeUsedForRegistration: Identity
    var registrationType5GS: Kind
    var authenticationCtx: Option<AuthType>
    var authFailureCauseSynchFailureTimes: nat
    var identityRequestSendTimes: nat
    var t3550: bool
    var gauge: map<Label, int>
    ghost var log: seq<Noted>
    var stopped: bool

    ghost function View(): Ue
      reads this
    {
      Ue(state, securityContextAvailable, ngKsi, macFailed, identified, identityTypeUsedForRegistration,
         registrationType5GS, authenticationCtx, authFailureCauseSynchFailureTimes, identityRequestSendTimes,
         t3550, gauge, log, stopped)
    }

    constructor ()
      ensures View() == NEW && Runs.Inv({}, View())
    {
      state := PerAccess(Deregistered, Deregistered);
      securityContextAvailable, ngKsi, macFailed := false, 0, false;
      identified, identityTypeUsedForRegistration, registrationType5GS := false, NoIdentity, NoKind;
      authenticationCtx, authFailureCauseSynchFailureTimes, identityRequestSendTimes := None, 0, 0;
      t3550, gauge, stopped := false, map[], false;
      log := [];
      new;
      Runs.NewIsSound();
    }

    predicate SecurityContextIsValid()
      reads this`securityContextAvailable, this`ngKsi, this`macFailed
    {
      securityContextAvailable && ngKsi != NO_KEY_IS_AVAILABLE && !macFailed
    }

    lemma LookAtValidity()
      ensures SecurityContextIsValid() == Valid(View())
    {
    }

    ghost method Note(at: AccessType, m: Mark)
      modifies this`log
      ensures View() == Gmm.Note(old(View()), at, m)
    {
      log := log + [Noted(at, m)];
    }

    method CountGmmState(an: AccessType, s: GmmState, d: int)
      modifies this`gauge
      ensures View() == Count(old(View()), an, s, d)
    {
      var l := Label(an, s);
      gauge := gauge[l := (if l in gauge then gauge[l] else 0) + d];
    }

    method SetState(at: AccessType, s: GmmState)
      modifies this`state, this`log
      ensures View() == Set(old(View()), at, s)
    {
      state := state.With(at, s);
      Note(at, Enters(s, macFailed));
    }

    method ClearRegistrationRequestData()
      modifies this
      ensures View() == Gmm.ClearRegistrationRequestData(old(View()))
    {
      registrationType5GS, identityTypeUsedForRegistration := NoKind, NoIdentity;
      authFailureCauseSynchFailureTimes, identityRequestSendTimes := 0, 0;
    }

    // ----- what comes in -----

    // HandleNAS has decided MacFailed; Dispatch sends the message event. heard are the
    // accesses messages have come from so far.
    method Dispatch(ghost heard: set<AccessType>, an: AccessType, integrityProtected: bool, m: Message, answers: Answers)
      requires Runs.Inv(heard, View())
      modifies this
      ensures View() == Runs.Step(old(View()), Runs.Nas(an, !integrityProtected, m, answers))
      ensures Runs.Inv(heard + {an}, View()) && Runs.Between(View())
      ensures forall a: AccessType :: Runs.Earned(Path(View(), a))
    {
      hide *;
      ghost var u := View();
      SetMacFailed(!integrityProtected);
      SendEvent(an, GmmMessage(m), Args(an, NoNas, None, false, answers));
      Runs.MessageStep(u, an, !integrityProtected, m, answers);
      Runs.StepKeepsInv(heard, u, Runs.Nas(an, !integrityProtected, m, answers));
      Runs.InvHolds(heard + {an}, View());
    }

    method SetMacFailed(failed: bool)
      modifies this`macFailed
      ensures View() == old(View()).(macFailed := failed)
    {
      macFailed := failed;
    }

    // StopT3550, when another connection takes over
    method StopT3550(ghost heard: set<AccessType>)
      requires Runs.Inv(heard, View())
      modifies this`t3550
      ensures View() == Runs.Step(old(View()), Runs.TimersStop) && Runs.Inv(heard, View())
    {
      hide Runs.Inv;
      ghost var u := View();
      t3550 := false;
      Runs.StepKeepsInv(heard, u, Runs.TimersStop);
      assert heard + {} == heard;
    }

    // ----- fsm.SendEvent -----

    method SendEvent(at: AccessType, e: Event, args: Args)
      modifies this
      ensures View() == Gmm.SendEvent(old(View()), at, e, args)
      decreases Rank(e), 2
    {
      hide Gmm.OnEvent, Gmm.OnExit, Gmm.OnEntry, Set;
      var from := state.At(at);
      var to := Next(e, from);
      if to.None? { return; }
      OnEvent(at, from, e, args);
      if from != to.value {
        OnExit(from, args);
        SetState(at, to.value);
        OnEntry(at, to.value, args);
      }
    }

    method OnEvent(at: AccessType, from: GmmState, e: Event, args: Args)
      modifies this
      ensures View() == Gmm.OnEvent(old(View()), at, from, e, args)
      decreases Rank(e), 1
    {
      hide Gmm.WhenDeregistered, Gmm.WhenAuthenticating, Gmm.WhenSecuring, Gmm.WhenSettingUp, Gmm.WhenRegistered;
      hide Gmm.Authenticate, Gmm.Note;
      match e
      case GmmMessage(m) =>
        match from {
          case Deregistered => WhenDeregistered(at, m, args);
          case Authentication => WhenAuthenticating(at, m, args);
          case SecurityMode => WhenSecuring(at, m, args);
          case ContextSetup => WhenSettingUp(at, m, args);
          case Registered => WhenRegistered(at, m, args);
          case DeregistrationInitiated =>
        }
      case AuthRestart => Authenticate(at, args);
      case AuthSuccess => Note(at, Evidence(args.ausf, Valid(View())));
      case AuthFail => t3550 := false;
      case _ =>
    }

    method OnExit(from: GmmState, args: Args)
      modifies this
      ensures View() == Gmm.OnExit(old(View()), from, args)
    {
      hide Count;
      if from == Deregistered { return; }
      if from == Authentication {
        authenticationCtx, authFailureCauseSynchFailureTimes, identityRequestSendTimes := None, 0, 0;
      }
      CountGmmState(args.an, from, -1);
    }

    method OnEntry(at: AccessType, to: GmmState, args: Args)
      modifies this
      ensures View() == Gmm.OnEntry(old(View()), at, to, args)
      decreases EntryRank(to), 3
    {
      hide Count, Gmm.Authenticate, Gmm.Secure, Gmm.SetUp, Gmm.Deregister, Gmm.ClearRegistrationRequestData;
      if to == Deregistered {
        ClearRegistrationRequestData();
        return;
      }
      CountGmmState(args.an, to, 1);
      match to
      case Registered => ClearRegistrationRequestData();
      case Authentication => Authenticate(at, args);
      case SecurityMode => Secure(at, args);
      case ContextSetup => SetUp(at, args);
      case DeregistrationInitiated => if args.nas.Deregistering? { HandleDeregistrationRequest(args.nas.targets, args); }
      case Deregistered =>
    }

    // ----- Authentication -----

    method AuthenticationProcedure(at: AccessType, answers: Answers) returns (pass: bool, error: bool)
      modifies this
      ensures Started(View(), pass, error) == Gmm.AuthenticationProcedure(old(View()), at, answers)
    {
      LookAtValidity();
      if !identified {
        identityRequestSendTimes := identityRequestSendTimes + 1;
        Note(at, Asks);
        return false, false;
      }
      if SecurityContextIsValid() { return true, false; }
      if answers.ausf.None? { return false, true; }
      authenticationCtx := answers.ausf;
      return false, false;
    }

    method Authenticate(at: AccessType, args: Args)
      modifies this
      ensures View() == Gmm.Authenticate(old(View()), at, args)
      decreases 8, 2
    {
      hide Gmm.AuthenticationProcedure, Gmm.SendEvent;
      var pass, error := AuthenticationProcedure(at, args.answers);
      var args1 := args.(nas := NoNas, eap := None, ausf := false);
      if error {
        SendEvent(at, AuthError, args1);
      } else if pass {
        SendEvent(at, AuthSuccess, args1);
      }
    }

    method WhenAuthenticating(at: AccessType, m: Message, args: Args)
      modifies this
      ensures View() == Gmm.WhenAuthenticating(old(View()), at, m, args)
      decreases 11, 0
    {
      hide Gmm.SendEvent, Gmm.HandleAuthenticationResponse, Gmm.HandleAuthenticationFailure;
      match m
      case IdentityResponse(accepted, identity) =>
        var ok := HandleIdentityResponse(accepted, identity);
        if ok {
          identityTypeUsedForRegistration := identity;
          SendEvent(at, AuthRestart, args.(nas := NoNas, eap := None, ausf := false));
        }
      case AuthenticationResponse(r) => HandleAuthenticationResponse(args.an, r, args);
      case AuthenticationFailure(cause, resync) => HandleAuthenticationFailure(args.an, cause, resync, args);
      case _ =>
    }

    method HandleIdentityResponse(accepted: bool, identity: Identity) returns (ok: bool)
      modifies this
      ensures View() == Gmm.HandleIdentityResponse(old(View()), accepted, identity)
      ensures ok == IdentityAccepted(old(View()), accepted, identity)
    {
      ok := accepted && (identity == Suci || identity == NoIdentity || !macFailed);
      if ok && identity == Suci {
        identified := true;
      }
    }

    method FallBackOrFail(an: AccessType, args: Args)
      modifies this
      ensures View() == Gmm.FallBackOrFail(old(View()), an, args)
      decreases 2, 0
    {
      hide Gmm.SendEvent, Gmm.Note;
      if identityTypeUsedForRegistration == Guti && identityRequestSendTimes == 0 {
        identityRequestSendTimes := 1;
        Note(an, FallsBack);
      } else {
        SendEvent(an, AuthFail, args.(nas := NoNas, eap := None, ausf := false));
      }
    }

    method HandleAuthenticationResponse(an: AccessType, r: Response, args: Args)
      modifies this
      ensures View() == Gmm.HandleAuthenticationResponse(old(View()), an, r, args)
      decreases 10, 0
    {
      hide Gmm.SendEvent, Gmm.FallBackOrFail;
      if authenticationCtx.None? { return; }
      var eap := authenticationCtx.value == EapAkaPrime;
      if eap && !r.eapMessage {
        SendEvent(an, AuthFail, args.(nas := NoNas, eap := None, ausf := false));
      } else if !eap && !r.wellFormed {
      } else if !eap && !r.hresMatches {
        FallBackOrFail(an, args);
      } else {
        match r.confirmation
        case Success =>
          identified := true;
          SendEvent(an, AuthSuccess, args.(nas := NoNas, eap := Some(eap), ausf := true));
        case Failure => FallBackOrFail(an, args);
        case _ =>
      }
    }

    method HandleAuthenticationFailure(an: AccessType, cause: Cause, resync: Resync, args: Args)
      modifies this
      ensures View() == Gmm.HandleAuthenticationFailure(old(View()), an, cause, resync, args)
      decreases 10, 0
    {
      hide Gmm.SendEvent;
      if authenticationCtx.None? { return; }
      var args1 := args.(nas := NoNas, eap := None, ausf := false);
      match authenticationCtx.value
      case EapAkaPrime =>
        if cause == KsiInUse { ngKsi := NextKsi(ngKsi); }
      case Aka =>
        match cause
        case MacFailure => SendEvent(an, AuthFail, args1);
        case Non5GUnacceptable => SendEvent(an, AuthFail, args1);
        case KsiInUse =>
          authFailureCauseSynchFailureTimes := 0;
          ngKsi := NextKsi(ngKsi);
        case SynchFailure =>
          authFailureCauseSynchFailureTimes := authFailureCauseSynchFailureTimes + 1;
          if authFailureCauseSynchFailureTimes >= 2 {
            SendEvent(an, AuthFail, args1);
          } else if resync.Vector? {
            authenticationCtx := Some(resync.authType);
          }
        case OtherCause =>
    }

    // ----- SecurityMode -----

    method Secure(at: AccessType, args: Args)
      modifies this
      ensures View() == Gmm.Secure(old(View()), at, args)
      decreases 6, 2
    {
      hide Gmm.SendEvent;
      LookAtValidity();
      if SecurityContextIsValid() {
        SendEvent(at, SecurityModeSuccess, args.(nas := Registering, eap := None, ausf := false));
      } else if args.eap.None? {
        stopped := true;
      } else if !args.answers.algorithms {
        SendEvent(at, SecurityModeFail, args.(nas := NoNas, eap := None, ausf := false));
      } else {
        match args.answers.command
        case NotBuilt =>
        case EncodingFailed => securityContextAvailable := false;
        case Sent => securityContextAvailable := true;
      }
    }

    method WhenSecuring(at: AccessType, m: Message, args: Args)
      modifies this
      ensures View() == Gmm.WhenSecuring(old(View()), at, m, args)
      decreases 11, 0
    {
      hide Gmm.SendEvent, Gmm.HandleSecurityModeComplete;
      match m
      case SecurityModeComplete(peiDecoded, contents) => HandleSecurityModeComplete(args.an, peiDecoded, contents, args);
      case SecurityModeReject => SendEvent(at, SecurityModeFail, args.(nas := NoNas, eap := None, ausf := false));
      case _ =>
    }

    method HandleSecurityModeComplete(an: AccessType, peiDecoded: bool, contents: CompleteContents, args: Args)
      modifies this
      ensures View() == Gmm.HandleSecurityModeComplete(old(View()), an, peiDecoded, contents, args)
      decreases 10, 0
    {
      hide Gmm.SendEvent;
      if macFailed || !peiDecoded || contents.Undecodable? || contents.OtherInside? { return; }
      var event, nas := SecurityModeSuccess, Registering;
      if contents.ServiceInside? {
        nas := Servicing(NoContainer);
        if state.At(an) != Registered {
          event := SecurityModeFail;
        }
      }
      SendEvent(an, event, args.(nas := nas, eap := None, ausf := false));
    }

    // ----- ContextSetup -----

    method SetUp(at: AccessType, args: Args)
      modifies this
      ensures View() == Gmm.SetUp(old(View()), at, args)
      decreases 4, 2
    {
      hide Gmm.Register, Gmm.HandleServiceRequest;
      match args.nas
      case Registering => Register(at, args);
      case Servicing(container) => HandleServiceRequest(container);
      case _ =>
    }

    method Register(at: AccessType, args: Args)
      modifies this
      ensures View() == Gmm.Register(old(View()), at, args)
      decreases 4, 1
    {
      hide Gmm.SendEvent;
      if registrationType5GS == Initial || registrationType5GS == Mobility || registrationType5GS == Periodic {
        match args.answers.setup
        case SetupFails => SendEvent(at, ContextSetupFail, args.(nas := NoNas, eap := None, ausf := false));
        case SetupWaits =>
        case SetupAccepts(timer) => if timer { t3550 := true; }
      }
    }

    method WhenSettingUp(at: AccessType, m: Message, args: Args)
      modifies this
      ensures View() == Gmm.WhenSettingUp(old(View()), at, m, args)
      decreases 11, 0
    {
      hide Gmm.SendEvent, Gmm.Register;
      match m
      case IdentityResponse(accepted, identity) =>
        var ok := HandleIdentityResponse(accepted, identity);
        if ok { Register(at, args); }
      case RegistrationComplete =>
        if t3550 {
          t3550 := false;
          SendEvent(args.an, ContextSetupSuccess, args.(nas := NoNas, eap := None, ausf := false));
        }
      case _ =>
    }

    method HandleServiceRequest(container: Container)
      modifies this
      ensures View() == Gmm.HandleServiceRequest(old(View()), container)
    {
      LookAtValidity();
      if SecurityContextIsValid() && container == CipherError {
        securityContextAvailable := false;
      }
    }

    // ----- Deregistered and Registered -----

    method HandleRegistrationRequest(an: AccessType, r: Registration) returns (ok: bool)
      modifies this
      ensures Handled(View(), ok) == Gmm.HandleRegistrationRequest(old(View()), an, r)
    {
      hide Gmm.HandleIdentityAndKeySet, Gmm.OpenContainer, Gmm.SetRegistrationType, Gmm.UseIdentity, TypeAllowed, View;
      if !r.connected { return false; }
      ok := OpenContainer(r.container);
      if !ok { return; }
      ok := SetRegistrationType(an, r.kind);
      if !ok || r.identity.None? { return false; }
      UseIdentity(r.identity.value);
      ok := HandleIdentityAndKeySet(r);
    }

    method OpenContainer(container: Container) returns (ok: bool)
      modifies this
      ensures View() == Gmm.OpenContainer(old(View()), container)
      ensures ok == !(container == WrongContents && !old(View()).macFailed)
      ensures forall an, kind :: TypeAllowed(View(), an, kind) == TypeAllowed(old(View()), an, kind)
    {
      if !macFailed {
        if container == CipherError { securityContextAvailable := false; }
        if container == WrongContents { return false; }
      }
      ok := true;
    }

    method SetRegistrationType(an: AccessType, kind: Kind) returns (ok: bool)
      modifies this
      ensures View() == Gmm.SetRegistrationType(old(View()), kind)
      ensures ok == TypeAllowed(old(View()), an, kind)
    {
      registrationType5GS := kind;
      match kind {
        case Initial => securityContextAvailable := false;
        case Mobility => if state.At(an) == Deregistered { return false; }
        case Periodic => if state.At(an) == Deregistered { return false; }
        case Emergency => return false;
        case _ => registrationType5GS := Initial;
      }
      ok := true;
    }

    method UseIdentity(identity: Identity)
      modifies this
      ensures View() == Gmm.UseIdentity(old(View()), identity)
    {
      identityTypeUsedForRegistration := identity;
    }

    method HandleIdentityAndKeySet(r: Registration) returns (ok: bool)
      requires r.identity.Some?
      modifies this
      ensures Handled(View(), ok) == Gmm.HandleIdentityAndKeySet(old(View()), r)
    {
      if !r.identityDecoded { return false; }
      if r.identity.value == Suci { identified := true; }
      ngKsi := if r.native && r.ksi != NO_KEY_IS_AVAILABLE then r.ksi else 0;
      if !r.admitted { return false; }
      if r.transfer.Some? {
        securityContextAvailable, macFailed := r.transfer.value.available, false;
        ngKsi := r.transfer.value.ksi;
        identified := identified || r.transfer.value.identified;
      }
      ok := true;
    }

    method RequestRegistration(at: AccessType, r: Registration, args: Args)
      modifies this
      ensures View() == Gmm.RequestRegistration(old(View()), at, r, args)
      decreases 10, 0
    {
      hide Gmm.SendEvent, Gmm.HandleRegistrationRequest;
      var ok := HandleRegistrationRequest(args.an, r);
      if ok {
        SendEvent(at, StartAuth, args.(nas := NoNas, eap := None, ausf := false));
      }
    }

    method WhenDeregistered(at: AccessType, m: Message, args: Args)
      modifies this
      ensures View() == Gmm.WhenDeregistered(old(View()), at, m, args)
      decreases 11, 0
    {
      hide Gmm.RequestRegistration, Gmm.HandleServiceRequest;
      match m
      case RegistrationRequest(r) => RequestRegistration(at, r, args);
      case ServiceRequest(container) => HandleServiceRequest(container);
      case _ =>
    }

    method WhenRegistered(at: AccessType, m: Message, args: Args)
      modifies this
      ensures View() == Gmm.WhenRegistered(old(View()), at, m, args)
      decreases 11, 0
    {
      hide Gmm.RequestRegistration, Gmm.HandleServiceRequest, Gmm.SendEvent;
      match m
      case RegistrationRequest(r) => RequestRegistration(at, r, args);
      case ServiceRequest(container) => HandleServiceRequest(container);
      case DeregistrationRequest(targets) =>
        SendEvent(at, InitDeregistration, args.(nas := Deregistering(targets), eap := None, ausf := false));
      case _ =>
    }

    method HandleDeregistrationRequest(targets: Targets, args: Args)
      modifies this
      ensures View() == Deregister(old(View()), targets, args)
      decreases 2, 0
    {
      hide Gmm.SendEvent;
      var args1 := args.(nas := NoNas, eap := None, ausf := false);
      match targets
      case Target(an) => SendEvent(an, DeregistrationAccept, args1);
      case Both =>
        SendEvent(ThreeGpp, DeregistrationAccept, args1);
        SendEvent(NonThreeGpp, DeregistrationAccept, args1);
    }
  }
}
