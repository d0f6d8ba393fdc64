// The GMM state machine of one UE: the transition table, the callbacks of its six
// states and the handlers they call. A callback may send further events; each
// function below that does so lists a rank that goes down with every nested event.
// What other functions and the UE decide comes in with the message.

module Gmm {
  import opened Basics
  import opened Context

  datatype GmmState = Deregistered | Authentication | SecurityMode | ContextSetup | Registered | DeregistrationInitiated

  datatype PerAccess<T> = PerAccess(threeGpp: T, nonThreeGpp: T) {
    function At(an: AccessType): T {
      match an case ThreeGpp => threeGpp case NonThreeGpp => nonThreeGpp
    }

    function With(an: AccessType, x: T): (p: PerAccess<T>)
      ensures forall a: AccessType :: p.At(a) == if a == an then x else At(a)
    {
      match an case ThreeGpp => this.(threeGpp := x) case NonThreeGpp => this.(nonThreeGpp := x)
    }
  }

  datatype AuthType = Aka | EapAkaPrime

  datatype Identity = NoIdentity | Suci | Guti | OtherIdentity

  // RegistrationType5GS, with None for the cleared value
  datatype Kind = NoKind | Initial | Mobility | Periodic | Emergency | UnknownKind

  // GmmStateGauge, by access and state label
  datatype Label = Label(an: AccessType, state: GmmState)

  // What happened, in order, and to which access: the states it entered (and MacFailed at
  // that time), on what grounds it left Authentication for SecurityMode, each time its UE was
  // asked for the SUCI because there was no identity, and each time because authentication
  // with a GUTI had failed.
  datatype Mark =
    | Enters(state: GmmState, macFailed: bool)
    | Evidence(ausf: bool, validContext: bool)
    | Asks
    | FallsBack

  datatype Noted = Noted(an: AccessType, mark: Mark)

  // The fields of an AmfUe that the callbacks and handlers change; stopped says that one of
  // them failed a type assertion. The log is history.
  datatype Ue = Ue(
    state: PerAccess<GmmState>,
    available: bool, ksi: int, macFailed: bool,
    identified: bool,               // a SUPI or SUCI is known
    identityType: Identity, kind: Kind,
    authCtx: Option<AuthType>, synchFailures: nat, identityRequests: nat,
    t3550: bool,
    gauge: map<Label, int>,
    log: seq<Noted>,
    stopped: bool)

  const NEW := Ue(PerAccess(Deregistered, Deregistered), false, 0, false, false, NoIdentity, NoKind, None, 0, 0, false,
                  map[], [], false)

  predicate Valid(u: Ue) {
    u.available && u.ksi != NO_KEY_IS_AVAILABLE && !u.macFailed
  }

  // ----- messages, with the outcomes that are decided elsewhere -----

  // The NAS message container: absent or undecipherable or with other contents
  datatype Container = NoContainer | CipherError | WrongContents | Deciphered

  datatype Transfer = Transfer(available: bool, ksi: int, identified: bool)

  datatype Registration = Registration(
    connected: bool, container: Container, kind: Kind,
    identity: Option<Identity>,     // None: the mobile identity is empty
    identityDecoded: bool, native: bool, ksi: int,
    admitted: bool,                 // tracking area and security capability
    transfer: Option<Transfer>)     // the old AMF's answer, where it is asked and gives one

  datatype Confirmation = Unanswered | Success | Failure | Ongoing

  datatype Response = Response(wellFormed: bool, hresMatches: bool, eapMessage: bool, confirmation: Confirmation)

  datatype Cause = MacFailure | Non5GUnacceptable | KsiInUse | SynchFailure | OtherCause

  datatype Resync = Malformed | NoVector | Vector(authType: AuthType)

  datatype CompleteContents = Undecodable | NoMessage | RegistrationInside | ServiceInside | OtherInside

  datatype Targets = Target(an: AccessType) | Both

  datatype Message =
    | RegistrationRequest(registration: Registration)
    | ServiceRequest(container: Container)
    | IdentityResponse(accepted: bool, identity: Identity)
    | AuthenticationResponse(response: Response)
    | AuthenticationFailure(cause: Cause, resync: Resync)
    | SecurityModeComplete(peiDecoded: bool, contents: CompleteContents)
    | SecurityModeReject
    | RegistrationComplete
    | DeregistrationRequest(targets: Targets)
    | OtherMessage

  datatype Command = NotBuilt | EncodingFailed | Sent

  datatype Setup = SetupFails | SetupWaits | SetupAccepts(timer: bool)

  // Answers for the procedures a message may start, each at most once
  datatype Answers = Answers(
    ausf: Option<AuthType>,  // the authentication vector's type, or an error
    algorithms: bool,        // SelectSecurityAlg finds a pair
    command: Command,        // what becomes of the SecurityModeCommand
    setup: Setup)            // how the registration handlers end

  datatype NasArg = NoNas | Registering | Servicing(container: Container) | Deregistering(targets: Targets)

  // an is ArgAccessType, eap ArgEAPSuccess; ausf says that the AUSF has confirmed.
  datatype Args = Args(an: AccessType, nas: NasArg, eap: Option<bool>, ausf: bool, answers: Answers)

  datatype Event =
    | GmmMessage(message: Message)
    | StartAuth | AuthSuccess | AuthError | AuthRestart | AuthFail
    | SecurityModeSuccess | SecurityModeFail
    | ContextSetupSuccess | ContextSetupFail
    | InitDeregistration | DeregistrationAccept

  // ----- the transition table -----

  function Next(e: Event, from: GmmState): Option<GmmState> {
    match (e, from)
    case (GmmMessage(_), DeregistrationInitiated) => None
    case (GmmMessage(_), _) => Some(from)
    case (StartAuth, Deregistered) => Some(Authentication)
    case (StartAuth, Registered) => Some(Authentication)
    case (AuthRestart, Authentication) => Some(Authentication)
    case (AuthSuccess, Authentication) => Some(SecurityMode)
    case (AuthFail, Authentication) => Some(Deregistered)
    case (AuthError, Authentication) => Some(Deregistered)
    case (SecurityModeSuccess, SecurityMode) => Some(ContextSetup)
    case (SecurityModeFail, SecurityMode) => Some(Deregistered)
    case (ContextSetupSuccess, ContextSetup) => Some(Registered)
    case (ContextSetupFail, ContextSetup) => Some(Deregistered)
    case (InitDeregistration, Registered) => Some(DeregistrationInitiated)
    case (DeregistrationAccept, DeregistrationInitiated) => Some(Deregistered)
    case _ => None
  }

  function Rank(e: Event): nat {
    match e
    case GmmMessage(_) => 11
    case StartAuth | AuthRestart => 9
    case AuthSuccess => 7
    case SecurityModeSuccess => 5
    case InitDeregistration => 3
    case _ => 1
  }

  function EntryRank(s: GmmState): nat {
    match s
    case Authentication => 8
    case SecurityMode => 6
    case ContextSetup => 4
    case DeregistrationInitiated => 2
    case _ => 0
  }

  // ----- small steps -----

  function GaugeAt(u: Ue, an: AccessType, s: GmmState): int {
    if Label(an, s) in u.gauge then u.gauge[Label(an, s)] else 0
  }

  function Count(u: Ue, an: AccessType, s: GmmState, d: int): Ue {
    u.(gauge := u.gauge[Label(an, s) := GaugeAt(u, an, s) + d])
  }

  function Note(u: Ue, at: AccessType, m: Mark): Ue {
    u.(log := u.log + [Noted(at, m)])
  }

  // The marks of one access
  function Of(log: seq<Noted>, an: AccessType): seq<Mark> {
    if log == [] then []
    else
      var last := log[|log| - 1];
      Of(log[..|log| - 1], an) + if last.an == an then [last.mark] else []
  }

  function Path(u: Ue, an: AccessType): seq<Mark> {
    Of(u.log, an)
  }

  function Set(u: Ue, at: AccessType, s: GmmState): Ue {
    Note(u.(state := u.state.With(at, s)), at, Enters(s, u.macFailed))
  }

  function ClearRegistrationRequestData(u: Ue): Ue {
    u.(kind := NoKind, identityType := NoIdentity, synchFailures := 0, identityRequests := 0)
  }

  // ----- fsm.SendEvent -----

  function SendEvent(u: Ue, at: AccessType, e: Event, args: Args): Ue
    decreases Rank(e), 2
  {
    var from := u.state.At(at);
    match Next(e, from)
    case None => u
    case Some(to) =>
      var u1 := OnEvent(u, at, from, e, args);
      if from == to then u1 else OnEntry(Set(OnExit(u1, from, args), at, to), at, to, args)
  }

  // The callback of the state the event arrives in
  function OnEvent(u: Ue, at: AccessType, from: GmmState, e: Event, args: Args): Ue
    decreases Rank(e), 1
  {
    match e
    case GmmMessage(m) =>
      (match from
       case Deregistered => WhenDeregistered(u, at, m, args)
       case Authentication => WhenAuthenticating(u, at, m, args)
       case SecurityMode => WhenSecuring(u, at, m, args)
       case ContextSetup => WhenSettingUp(u, at, m, args)
       case Registered => WhenRegistered(u, at, m, args)
       case DeregistrationInitiated => u)
    case AuthRestart => Authenticate(u, at, args)
    case AuthSuccess => Note(u, at, Evidence(args.ausf, Valid(u)))
    case AuthFail => u.(t3550 := false)  // the UE context is removed
    case _ => u
  }

  function OnExit(u: Ue, from: GmmState, args: Args): Ue {
    if from == Deregistered then u
    else
      var u1 := if from == Authentication then u.(authCtx := None, synchFailures := 0, identityRequests := 0) else u;
      Count(u1, args.an, from, -1)
  }

  function OnEntry(u: Ue, at: AccessType, to: GmmState, args: Args): Ue
    decreases EntryRank(to), 3
  {
    if to == Deregistered then ClearRegistrationRequestData(u)
    else
      var u1 := Count(u, args.an, to, 1);
      match to
      case Registered => ClearRegistrationRequestData(u1)
      case Authentication => Authenticate(u1, at, args)
      case SecurityMode => Secure(u1, at, args)
      case ContextSetup => SetUp(u1, at, args)
      case DeregistrationInitiated => if args.nas.Deregistering? then Deregister(u1, args.nas.targets, args) else u1
      case Deregistered => u1
  }

  // ----- Authentication -----

  datatype Started = Started(ue: Ue, pass: bool, error: bool)

  function AuthenticationProcedure(u: Ue, at: AccessType, answers: Answers): Started {
    if !u.identified then Started(Note(u.(identityRequests := u.identityRequests + 1), at, Asks), false, false)
    else if Valid(u) then Started(u, true, false)
    else if answers.ausf.None? then Started(u, false, true)
    else Started(u.(authCtx := answers.ausf), false, false)
  }

  function Authenticate(u: Ue, at: AccessType, args: Args): Ue
    decreases 8, 2
  {
    var s := AuthenticationProcedure(u, at, args.answers);
    if s.error then SendEvent(s.ue, at, AuthError, args.(nas := NoNas, eap := None, ausf := false))
    else if s.pass then SendEvent(s.ue, at, AuthSuccess, args.(nas := NoNas, eap := None, ausf := false))
    else s.ue
  }

  function WhenAuthenticating(u: Ue, at: AccessType, m: Message, args: Args): Ue
    decreases 11, 0
  {
    match m
    case IdentityResponse(accepted, identity) =>
      var u1 := HandleIdentityResponse(u, accepted, identity);
      if !IdentityAccepted(u, accepted, identity) then u
      else SendEvent(u1.(identityType := identity), at, AuthRestart, args.(nas := NoNas, eap := None, ausf := false))
    case AuthenticationResponse(r) => HandleAuthenticationResponse(u, args.an, r, args)
    case AuthenticationFailure(cause, resync) => HandleAuthenticationFailure(u, args.an, cause, resync, args)
    case _ => u
  }

  predicate IdentityAccepted(u: Ue, accepted: bool, identity: Identity) {
    accepted && (identity == Suci || identity == NoIdentity || !u.macFailed)
  }

  function HandleIdentityResponse(u: Ue, accepted: bool, identity: Identity): Ue {
    if IdentityAccepted(u, accepted, identity) && identity == Suci then u.(identified := true) else u
  }

  // Failed authentication: ask for the SUCI once if a GUTI was used, else give up.
  function FallBackOrFail(u: Ue, an: AccessType, args: Args): Ue
    decreases 2, 0
  {
    if u.identityType == Guti && u.identityRequests == 0 then
      Note(u.(identityRequests := 1), an, FallsBack)
    else SendEvent(u, an, AuthFail, args.(nas := NoNas, eap := None, ausf := false))
  }

  function HandleAuthenticationResponse(u: Ue, an: AccessType, r: Response, args: Args): Ue
    decreases 10, 0
  {
    match u.authCtx
    case None => u
    case Some(Aka) =>
      if !r.wellFormed then u
      else if !r.hresMatches then FallBackOrFail(u, an, args)
      else
        (match r.confirmation
         case Success => SendEvent(u.(identified := true), an, AuthSuccess, args.(nas := NoNas, eap := Some(false), ausf := true))
         case Failure => FallBackOrFail(u, an, args)
         case _ => u)
    case Some(EapAkaPrime) =>
      if !r.eapMessage then SendEvent(u, an, AuthFail, args.(nas := NoNas, eap := None, ausf := false))
      else
        match r.confirmation
        case Success => SendEvent(u.(identified := true), an, AuthSuccess, args.(nas := NoNas, eap := Some(true), ausf := true))
        case Failure => FallBackOrFail(u, an, args)
        case _ => u
  }

  function NextKsi(ksi: int): int {
    if ksi < 6 then ksi + 1 else 0
  }

  function HandleAuthenticationFailure(u: Ue, an: AccessType, cause: Cause, resync: Resync, args: Args): Ue
    decreases 10, 0
  {
    match u.authCtx
    case None => u
    case Some(EapAkaPrime) => if cause == KsiInUse then u.(ksi := NextKsi(u.ksi)) else u
    case Some(Aka) =>
      match cause
      case MacFailure | Non5GUnacceptable => SendEvent(u, an, AuthFail, args.(nas := NoNas, eap := None, ausf := false))
      case KsiInUse => u.(synchFailures := 0, ksi := NextKsi(u.ksi))
      case SynchFailure =>
        var u1 := u.(synchFailures := u.synchFailures + 1);
        if u1.synchFailures >= 2 then SendEvent(u1, an, AuthFail, args.(nas := NoNas, eap := None, ausf := false))
        else if resync.Vector? then u1.(authCtx := Some(resync.authType))
        else u1
      case OtherCause => u
  }

  // ----- SecurityMode -----

  function Secure(u: Ue, at: AccessType, args: Args): Ue
    decreases 6, 2
  {
    if Valid(u) then SendEvent(u, at, SecurityModeSuccess, args.(nas := Registering, eap := None, ausf := false))
    else if args.eap.None? then u.(stopped := true)
    else if !args.answers.algorithms then SendEvent(u, at, SecurityModeFail, args.(nas := NoNas, eap := None, ausf := false))
    else
      match args.answers.command
      case NotBuilt => u
      case EncodingFailed => u.(available := false)
      case Sent => u.(available := true)
  }

  function WhenSecuring(u: Ue, at: AccessType, m: Message, args: Args): Ue
    decreases 11, 0
  {
    match m
    case SecurityModeComplete(peiDecoded, contents) => HandleSecurityModeComplete(u, args.an, peiDecoded, contents, args)
    case SecurityModeReject => SendEvent(u, at, SecurityModeFail, args.(nas := NoNas, eap := None, ausf := false))
    case _ => u
  }

  function HandleSecurityModeComplete(u: Ue, an: AccessType, peiDecoded: bool, contents: CompleteContents, args: Args): Ue
    decreases 10, 0
  {
    if u.macFailed || !peiDecoded then u
    else
      match contents
      case Undecodable | OtherInside => u
      case NoMessage | RegistrationInside =>
        SendEvent(u, an, SecurityModeSuccess, args.(nas := Registering, eap := None, ausf := false))
      case ServiceInside =>
        var e := if u.state.At(an) == Registered then SecurityModeSuccess else SecurityModeFail;
        SendEvent(u, an, e, args.(nas := Servicing(NoContainer), eap := None, ausf := false))
  }

  // ----- ContextSetup -----

  function SetUp(u: Ue, at: AccessType, args: Args): Ue
    decreases 4, 2
  {
    match args.nas
    case Registering => Register(u, at, args)
    case Servicing(container) => HandleServiceRequest(u, container)
    case _ => u
  }

  // HandleInitialRegistration or HandleMobilityAndPeriodicRegistrationUpdating
  function Register(u: Ue, at: AccessType, args: Args): Ue
    decreases 4, 1
  {
    if u.kind != Initial && u.kind != Mobility && u.kind != Periodic then u
    else
      match args.answers.setup
      case SetupFails => SendEvent(u, at, ContextSetupFail, args.(nas := NoNas, eap := None, ausf := false))
      case SetupWaits => u
      case SetupAccepts(timer) => if timer then u.(t3550 := true) else u
  }

  function WhenSettingUp(u: Ue, at: AccessType, m: Message, args: Args): Ue
    decreases 11, 0
  {
    match m
    case IdentityResponse(accepted, identity) =>
      if !IdentityAccepted(u, accepted, identity) then u
      else Register(HandleIdentityResponse(u, accepted, identity), at, args)
    case RegistrationComplete =>
      if !u.t3550 then u
      else SendEvent(u.(t3550 := false), args.an, ContextSetupSuccess, args.(nas := NoNas, eap := None, ausf := false))
    case _ => u
  }

  function HandleServiceRequest(u: Ue, container: Container): Ue {
    if Valid(u) && container == CipherError then u.(available := false) else u
  }

  // ----- Deregistered and Registered -----

  datatype Handled = Handled(ue: Ue, ok: bool)

  // HandleRegistrationRequest, in the order of its early returns
  function HandleRegistrationRequest(u: Ue, an: AccessType, r: Registration): Handled {
    if !r.connected then Handled(u, false)
    else
      var u1 := OpenContainer(u, r.container);
      if r.container == WrongContents && !u.macFailed then Handled(u1, false)
      else
        var u2 := SetRegistrationType(u1, r.kind);
        if !TypeAllowed(u, an, r.kind) || r.identity.None? then Handled(u2, false)
        else HandleIdentityAndKeySet(UseIdentity(u2, r.identity.value), r)
  }

  function OpenContainer(u: Ue, container: Container): Ue {
    if container == CipherError && !u.macFailed then u.(available := false) else u
  }

  // An initial registration gives up the security context.
  function SetRegistrationType(u: Ue, kind: Kind): Ue {
    u.(kind := if kind == UnknownKind || kind == NoKind then Initial else kind, available := u.available && kind != Initial)
  }

  predicate TypeAllowed(u: Ue, an: AccessType, kind: Kind) {
    kind != Emergency && (kind == Mobility || kind == Periodic ==> u.state.At(an) != Deregistered)
  }

  function UseIdentity(u: Ue, identity: Identity): Ue {
    u.(identityType := identity)
  }

  function HandleIdentityAndKeySet(u: Ue, r: Registration): Handled
    requires r.identity.Some?
  {
    if !r.identityDecoded then Handled(u, false)
    else
      var u1 := u.(identified := u.identified || r.identity.value == Suci,
                   ksi := if r.native && r.ksi != NO_KEY_IS_AVAILABLE then r.ksi else 0);
      if !r.admitted then Handled(u1, false)
      else
        match r.transfer
        case None => Handled(u1, true)
        case Some(t) =>
          Handled(u1.(available := t.available, ksi := t.ksi, macFailed := false, identified := u1.identified || t.identified),
                  true)
  }

  function WhenDeregistered(u: Ue, at: AccessType, m: Message, args: Args): Ue
    decreases 11, 0
  {
    match m
    case RegistrationRequest(r) => RequestRegistration(u, at, r, args)
    case ServiceRequest(container) => HandleServiceRequest(u, container)
    case _ => u
  }

  function RequestRegistration(u: Ue, at: AccessType, r: Registration, args: Args): Ue
    decreases 10, 0
  {
    var h := HandleRegistrationRequest(u, args.an, r);
    if h.ok then SendEvent(h.ue, at, StartAuth, args.(nas := NoNas, eap := None, ausf := false)) else h.ue
  }

  function WhenRegistered(u: Ue, at: AccessType, m: Message, args: Args): Ue
    decreases 11, 0
  {
    match m
    case RegistrationRequest(r) => RequestRegistration(u, at, r, args)
    case ServiceRequest(container) => HandleServiceRequest(u, container)
    case DeregistrationRequest(targets) =>
      SendEvent(u, at, InitDeregistration, args.(nas := Deregistering(targets), eap := None, ausf := false))
    case _ => u
  }

  // HandleDeregistrationRequest: the event goes to the target's state but names the
  // access the request came by.
  function Deregister(u: Ue, targets: Targets, args: Args): Ue
    decreases 2, 0
  {
    var args1 := args.(nas := NoNas, eap := None, ausf := false);
    match targets
    case Target(an) => SendEvent(u, an, DeregistrationAccept, args1)
    case Both => SendEvent(SendEvent(u, ThreeGpp, DeregistrationAccept, args1), NonThreeGpp, DeregistrationAccept, args1)
  }
}
