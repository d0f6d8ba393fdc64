// What the GMM state machine keeps in every run: gauges, authentication data and the
// order of the states.

module GmmRuns {
  import opened Basics
  import opened Context
  import opened Gmm

  // ----- the invariant -----

  function Occupancy(u: Ue, s: GmmState): nat {
    (if u.state.threeGpp == s then 1 else 0) + if u.state.nonThreeGpp == s then 1 else 0
  }

  function GaugeSum(u: Ue, s: GmmState): int {
    GaugeAt(u, ThreeGpp, s) + GaugeAt(u, NonThreeGpp, s)
  }

  // Summed over the access labels, the gauge of a state counts the accesses in it;
  // pending is a state that has been entered but not counted yet.
  ghost predicate GaugesCount(u: Ue, pending: Option<GmmState>) {
    forall s: GmmState {:trigger GaugeSum(u, s)} :: s != Deregistered ==>
      GaugeSum(u, s) == Occupancy(u, s) - if pending == Some(s) then 1 else 0
  }

  // The SUCI is asked for.
  predicate Requests(m: Mark) {
    m.Asks? || m.FallsBack?
  }

  predicate Authenticating(m: Mark) {
    Requests(m) || (m.Enters? && m.state == Authentication)
  }

  predicate In(m: Mark, s: GmmState) {
    m.Enters? && m.state == s
  }

  // How each mark follows the one before it
  predicate Follows(path: seq<Mark>, i: nat)
    requires i < |path|
  {
    match path[i]
    case Asks => i > 0 && Authenticating(path[i - 1])
    case FallsBack => i > 0 && Authenticating(path[i - 1])
    case Evidence(ausf, valid) => (ausf || valid) && i > 0 && Authenticating(path[i - 1])
    case Enters(Deregistered, _) =>
      i > 0 && (Authenticating(path[i - 1]) || In(path[i - 1], SecurityMode) || In(path[i - 1], ContextSetup)
                || In(path[i - 1], DeregistrationInitiated))
    case Enters(Authentication, _) => i == 0 || In(path[i - 1], Deregistered) || In(path[i - 1], Registered)
    case Enters(SecurityMode, _) => i > 0 && path[i - 1].Evidence?
    case Enters(ContextSetup, macFailed) => !macFailed && i > 0 && In(path[i - 1], SecurityMode)
    case Enters(Registered, _) => i > 0 && In(path[i - 1], ContextSetup)
    case Enters(DeregistrationInitiated, _) => i > 0 && In(path[i - 1], Registered)
  }

  predicate Trail(path: seq<Mark>) {
    forall i {:trigger Follows(path, i)} :: 0 <= i < |path| ==> Follows(path, i)
  }

  // The last mark tells the state.
  predicate EndsIn(path: seq<Mark>, s: GmmState) {
    if path == [] then s == Deregistered
    else
      var last := path[|path| - 1];
      In(last, s) || (Requests(last) && s == Authentication)
  }

  // The marks at which the counter of identity requests goes back to zero
  predicate Resets(m: Mark) {
    m.Enters? && (m.state == SecurityMode || m.state == Registered || m.state == Deregistered)
  }

  // Has the SUCI been asked for, on either access, since either last reset the counter?
  predicate Asked(log: seq<Noted>) {
    if log == [] then false
    else
      var m := log[|log| - 1].mark;
      !Resets(m) && (Requests(m) || Asked(log[..|log| - 1]))
  }

  // Nobody falls back on the SUCI who has been asked for it.
  ghost predicate FallsBackUnasked(log: seq<Noted>) {
    forall i {:trigger log[i]} :: 0 <= i < |log| && log[i].mark.FallsBack? ==> !Asked(log[..i])
  }

  // The path of one access: it follows the table, ends in the current state, and is empty
  // while nothing has come from that access.
  ghost predicate PathOk(heard: set<AccessType>, u: Ue, an: AccessType) {
    Trail(Path(u, an)) && EndsIn(Path(u, an), u.state.At(an)) && (an !in heard ==> Path(u, an) == [])
  }

  // The counter tells whether the SUCI has been asked for; counted is false while the
  // entry into a state that resets the counter is logged and not carried out yet.
  ghost predicate Counts(u: Ue, counted: bool) {
    if counted then u.identityRequests > 0 <==> Asked(u.log) else !Asked(u.log)
  }

  ghost predicate Sound(heard: set<AccessType>, u: Ue, pending: Option<GmmState>, synchLimit: nat, counted: bool) {
    && GaugesCount(u, pending)
    && (u.authCtx.Some? ==> Occupancy(u, Authentication) > 0)
    && u.synchFailures <= synchLimit
    && !u.stopped
    && (forall an: AccessType {:trigger PathOk(heard, u, an)} :: PathOk(heard, u, an))
    && FallsBackUnasked(u.log) && Counts(u, counted)
  }

  ghost predicate Inv(heard: set<AccessType>, u: Ue) {
    Sound(heard, u, None, 1, true)
  }

  lemma NewIsSound()
    ensures Inv({}, NEW)
  {
  }

  // ----- the small steps -----

  lemma OfAppend(log: seq<Noted>, x: Noted, an: AccessType)
    ensures Of(log + [x], an) == Of(log, an) + if x.an == an then [x.mark] else []
  {
    assert (log + [x])[..|log|] == log;
  }

  lemma AskedAppend(log: seq<Noted>, x: Noted)
    ensures Asked(log + [x]) <==> !Resets(x.mark) && (Requests(x.mark) || Asked(log))
  {
    assert (log + [x])[..|log|] == log;
  }

  lemma UnaskedAppend(log: seq<Noted>, x: Noted)
    requires FallsBackUnasked(log) && (x.mark.FallsBack? ==> !Asked(log))
    ensures FallsBackUnasked(log + [x])
  {
    forall i | 0 <= i < |log| + 1 && (log + [x])[i].mark.FallsBack? ensures !Asked((log + [x])[..i]) {
      assert (log + [x])[..i] == log[..i];
      assert log[..|log|] == log;
    }
  }

  // Steps that leave states, gauges and history alone and set no authentication context.
  predicate Minor(u: Ue, u': Ue) {
    && u'.state == u.state && u'.gauge == u.gauge && u'.log == u.log && u'.stopped == u.stopped
    && u'.identityRequests == u.identityRequests
    && (u'.authCtx.Some? ==> u.authCtx.Some? || Occupancy(u, Authentication) > 0)
  }

  lemma MinorKeepsSound(heard: set<AccessType>, u: Ue, u': Ue, pending: Option<GmmState>, limit: nat, limit': nat)
    requires Sound(heard, u, pending, limit, true) && Minor(u, u') && u'.synchFailures <= limit'
    ensures Sound(heard, u', pending, limit', true)
  {
    PathsDependOnLog(heard, u, u');
    forall s: GmmState | s != Deregistered
      ensures GaugeSum(u', s) == Occupancy(u', s) - if pending == Some(s) then 1 else 0
    {
      assert GaugeSum(u, s) == GaugeSum(u', s) && Occupancy(u, s) == Occupancy(u', s);
    }
  }

  lemma PathsDependOnLog(heard: set<AccessType>, u: Ue, u': Ue)
    requires u'.state == u.state && u'.log == u.log
    ensures forall an {:trigger PathOk(heard, u', an)} :: PathOk(heard, u, an) ==> PathOk(heard, u', an)
  {
  }

  lemma CountKeepsSound(heard: set<AccessType>, u: Ue, an: AccessType, s: GmmState, limit: nat, counted: bool)
    requires Sound(heard, u, Some(s), limit, counted)
    ensures Sound(heard, Count(u, an, s, 1), None, limit, counted)
  {
    var u' := Count(u, an, s, 1);
    PathsDependOnLog(heard, u, u');
    forall t: GmmState | t != Deregistered
      ensures GaugeSum(u', t) == Occupancy(u', t)
    {
      assert GaugeSum(u', t) == GaugeSum(u, t) + (if t == s then 1 else 0) && Occupancy(u', t) == Occupancy(u, t);
    }
  }

  lemma NoteExtends(path: seq<Mark>, m: Mark)
    requires Trail(path) && Follows(path + [m], |path|)
    ensures Trail(path + [m])
  {
    forall i | 0 <= i < |path| + 1 ensures Follows(path + [m], i) {
      if i < |path| { assert Follows(path, i); }
    }
  }

  // What a state-changing event needs of the moment it is sent
  predicate Ready(heard: set<AccessType>, u: Ue, at: AccessType, e: Event, args: Args) {
    && (e.GmmMessage? ==> args.an == at)
    && (e.GmmMessage? || e.StartAuth? ==> at in heard)
    && (e.AuthFail? || e.AuthSuccess? ==> u.state.At(at) == Authentication)
    && (e.AuthSuccess? ==> (args.ausf || Valid(u)) && (args.eap.None? ==> Valid(u)))
    && (e.SecurityModeSuccess? ==> !u.macFailed)
  }

  // A change of state without the entry callback: the event's own callback, the exit
  // callback and the new state.
  function Change(u: Ue, at: AccessType, e: Event, to: GmmState, args: Args): Ue {
    Set(OnExit(Leaving(u, at, e, args), u.state.At(at), args), at, to)
  }

  // The event's own callback and the exit callback of a state-changing event send no
  // events: when the new state is set, no state has changed since the event was sent.
  lemma NothingIsOverwritten(u: Ue, at: AccessType, e: Event, args: Args)
    requires var to := Next(e, u.state.At(at)); to.Some? && to.value != u.state.At(at)
    ensures var to := Next(e, u.state.At(at)).value;
      && OnExit(OnEvent(u, at, u.state.At(at), e, args), u.state.At(at), args).state == u.state
      && SendEvent(u, at, e, args) == OnEntry(Change(u, at, e, to, args), at, to, args)
  {
    hide WhenDeregistered, WhenAuthenticating, WhenSecuring, WhenSettingUp, WhenRegistered, Authenticate, OnEntry;
  }

  // ----- what single steps do to the fields -----

  predicate SameButGauge(u: Ue, u': Ue) {
    u' == u.(gauge := u'.gauge)
  }

  lemma CountFields(u: Ue, an: AccessType, s: GmmState, d: int)
    ensures var u' := Count(u, an, s, d);
      && SameButGauge(u, u')
      && forall t {:trigger GaugeSum(u', t)} ::
           GaugeSum(u', t)
           == GaugeSum(u, t) + if t == s then d else 0
  {
  }

  lemma ExitFields(u: Ue, from: GmmState, args: Args)
    ensures var u' := OnExit(u, from, args);
      && u'.state == u.state && u'.log == u.log && u'.stopped == u.stopped
      && u'.macFailed == u.macFailed && Valid(u') == Valid(u)
      && (if from == Authentication then u'.authCtx == None && u'.synchFailures == 0 && u'.identityRequests == 0
          else u'.authCtx == u.authCtx && u'.synchFailures == u.synchFailures && u'.identityRequests == u.identityRequests)
      && forall t {:trigger GaugeSum(u', t)} ::
           GaugeSum(u', t)
           == GaugeSum(u, t) - if t == from && t != Deregistered then 1 else 0
  {
    hide Count, GaugeSum;
    if from == Authentication {
      var u1 := u.(authCtx := None, synchFailures := 0, identityRequests := 0);
      GaugesDependOnGauge(u, u1);
      CountFields(u1, args.an, from, -1);
    } else {
      CountFields(u, args.an, from, -1);
    }
  }

  lemma GaugesDependOnGauge(u: Ue, u': Ue)
    requires u'.gauge == u.gauge
    ensures forall t {:trigger GaugeSum(u', t)} :: GaugeSum(u', t) == GaugeSum(u, t)
  {
  }

  lemma SetFields(u: Ue, at: AccessType, s: GmmState)
    ensures var u' := Set(u, at, s);
      && u' == u.(state := u'.state, log := u.log + [Noted(at, Enters(s, u.macFailed))])
      && (forall an {:trigger u'.state.At(an)} :: u'.state.At(an) == if an == at then s else u.state.At(an))
      && (forall t :: Occupancy(u', t) ==
            Occupancy(u, t) - (if t == u.state.At(at) then 1 else 0) + if t == s then 1 else 0)
  {
  }

  // From the moment the event is sent to the entry callback of the new state
  lemma ChangeKeepsSound(heard: set<AccessType>, u: Ue, at: AccessType, e: Event, to: GmmState, args: Args)
    requires Sound(heard, u, None, if e.AuthFail? then 2 else 1, true) && Ready(heard, u, at, e, args)
    requires Next(e, u.state.At(at)) == Some(to) != Some(u.state.At(at))
    ensures var u' := Change(u, at, e, to, args);
      && Sound(heard, u', if to == Deregistered then None else Some(to), 1, to != Registered && to != Deregistered)
      && u'.state.At(at) == to && Valid(u') == Valid(u)
  {
    hide PathOk, Count, GaugeSum, GaugesCount, FallsBackUnasked, Counts, Ready, Change;
    ChangeAsks(u, at, e, to, args);
    ChangeCounts(u, at, e, to, args);
    ChangeExtends(heard, u, at, e, to, args);
    ChangeLeavesAuthentication(u, at, e, to, args);
  }

  // What a change adds to the log, and what it makes of the counter
  lemma ChangeLogs(u: Ue, at: AccessType, e: Event, to: GmmState, args: Args)
    ensures var u' := Change(u, at, e, to, args);
      && u'.log == u.log + (if e.AuthSuccess? then [Noted(at, Evidence(args.ausf, Valid(u)))] else [])
                   + [Noted(at, Enters(to, u.macFailed))]

      && u'.identityRequests == (if u.state.At(at) == Authentication then 0 else u.identityRequests)
      && (forall an {:trigger u'.state.At(an)} :: u'.state.At(an) == if an == at then to else u.state.At(an))
  {
    hide OnExit, Set, Note, Leaving, Valid;
    var u1 := Leaving(u, at, e, args);
    LeavingFields(u, at, e, args);
    ExitFields(u1, u.state.At(at), args);
    SetFields(OnExit(u1, u.state.At(at), args), at, to);
  }

  lemma ChangeAsks(u: Ue, at: AccessType, e: Event, to: GmmState, args: Args)
    requires FallsBackUnasked(u.log) && Counts(u, true)
    requires Next(e, u.state.At(at)) == Some(to) != Some(u.state.At(at))
    ensures var u' := Change(u, at, e, to, args);
      FallsBackUnasked(u'.log) && Counts(u', to != Registered && to != Deregistered)
  {
    hide Change, Asked, FallsBackUnasked, Valid;
    ChangeLogs(u, at, e, to, args);
    var x, y := Noted(at, Evidence(args.ausf, Valid(u))), Noted(at, Enters(to, u.macFailed));
    var log := if e.AuthSuccess? then u.log + [x] else u.log;
    assert u.log + [] == u.log;
    UnaskedAppend(u.log, x);
    AskedAppend(u.log, x);
    UnaskedAppend(log, y);
    AskedAppend(log, y);
  }

  // The state as it is left, before the exit callback
  function Leaving(u: Ue, at: AccessType, e: Event, args: Args): Ue {
    if e.AuthSuccess? then Note(u, at, Evidence(args.ausf, Valid(u)))
    else if e.AuthFail? then u.(t3550 := false)
    else u
  }

  lemma LeavingFields(u: Ue, at: AccessType, e: Event, args: Args)
    ensures var u' := Leaving(u, at, e, args);
      && u'.state == u.state && u'.gauge == u.gauge && u'.stopped == u.stopped && u'.macFailed == u.macFailed
      && Valid(u') == Valid(u) && u'.authCtx == u.authCtx && u'.synchFailures == u.synchFailures
      && u'.identityRequests == u.identityRequests
      && u'.log == u.log + if e.AuthSuccess? then [Noted(at, Evidence(args.ausf, Valid(u)))] else []
  {
    assert u.log + [] == u.log;
  }

  lemma ChangeCounts(u: Ue, at: AccessType, e: Event, to: GmmState, args: Args)
    requires GaugesCount(u, None) && to != u.state.At(at)
    ensures GaugesCount(Change(u, at, e, to, args), if to == Deregistered then None else Some(to))
  {
    hide OnExit, Set, GaugeSum, Note, Leaving, Occupancy;
    var u1 := Leaving(u, at, e, args);
    var u2, u' := OnExit(u1, u.state.At(at), args), Change(u, at, e, to, args);
    LeavingFields(u, at, e, args);
    ExitFields(u1, u.state.At(at), args);
    SetFields(u2, at, to);
    GaugesDependOnGauge(u, u1);
    GaugesDependOnGauge(u2, u');
    OccupancyDependsOnState(u, u1);
    OccupancyDependsOnState(u1, u2);
    forall s: GmmState | s != Deregistered
      ensures GaugeSum(u', s) == Occupancy(u', s) - if to == s then 1 else 0
    {
      assert Occupancy(u, s) == Occupancy(u1, s) == Occupancy(u2, s);
    }
  }

  lemma OccupancyDependsOnState(u: Ue, u': Ue)
    requires u'.state == u.state
    ensures forall t {:trigger Occupancy(u', t)} :: Occupancy(u', t) == Occupancy(u, t)
  {
  }

  lemma ChangeExtends(heard: set<AccessType>, u: Ue, at: AccessType, e: Event, to: GmmState, args: Args)
    requires (forall an {:trigger PathOk(heard, u, an)} :: PathOk(heard, u, an)) && Ready(heard, u, at, e, args)
    requires Next(e, u.state.At(at)) == Some(to) != Some(u.state.At(at))
    ensures var u' := Change(u, at, e, to, args);
      forall an {:trigger PathOk(heard, u', an)} :: PathOk(heard, u', an)
  {
    hide Change, Trail, Of, Valid;
    var u' := Change(u, at, e, to, args);
    ChangeLogs(u, at, e, to, args);
    var x, y := Noted(at, Evidence(args.ausf, Valid(u))), Noted(at, Enters(to, u.macFailed));
    var log := if e.AuthSuccess? then u.log + [x] else u.log;
    assert u.log + [] == u.log;
    var path := Path(u, at);
    assert PathOk(heard, u, at);
    if e.AuthSuccess? {
      NoteExtends(path, x.mark);
      NoteExtends(path + [x.mark], y.mark);
    } else {
      NoteExtends(path, y.mark);
    }
    forall an ensures PathOk(heard, u', an) {
      assert PathOk(heard, u, an);
      OfAppend(u.log, x, an);
      OfAppend(log, y, an);
      assert Path(u, an) + [] == Path(u, an);
    }
  }

  lemma ChangeLeavesAuthentication(u: Ue, at: AccessType, e: Event, to: GmmState, args: Args)
    requires u.authCtx.Some? ==> Occupancy(u, Authentication) > 0
    requires Next(e, u.state.At(at)) == Some(to) != Some(u.state.At(at))
    ensures var u' := Change(u, at, e, to, args);
      && (u'.authCtx.Some? ==> Occupancy(u', Authentication) > 0)
      && u'.synchFailures <= (if e.AuthFail? then 0 else u.synchFailures)
      && u'.state.At(at) == to && Valid(u') == Valid(u) && u'.stopped == u.stopped
  {
    hide OnExit, Set, Note, Leaving, Occupancy;
    var u1 := Leaving(u, at, e, args);
    var u2, u' := OnExit(u1, u.state.At(at), args), Change(u, at, e, to, args);
    LeavingFields(u, at, e, args);
    ExitFields(u1, u.state.At(at), args);
    SetFields(u2, at, to);
    OccupancyDependsOnState(u, u1);
    OccupancyDependsOnState(u1, u2);
  }

  // ----- the callbacks and handlers, along the nested events -----

  lemma SendEventKeepsInv(heard: set<AccessType>, u: Ue, at: AccessType, e: Event, args: Args)
    requires Sound(heard, u, None, if e.AuthFail? then 2 else 1, true) && Ready(heard, u, at, e, args)
    ensures Inv(heard, SendEvent(u, at, e, args))
    decreases Rank(e), 2
  {
    hide Sound, Valid;
    var from := u.state.At(at);
    match Next(e, from)
    case None =>
    case Some(to) =>
      if from == to {
        OnEventKeepsInv(heard, u, at, e, args);
      } else {
        NothingIsOverwritten(u, at, e, args);
        ChangeKeepsSound(heard, u, at, e, to, args);
        OnEntryKeepsInv(heard, Change(u, at, e, to, args), at, to, args);
      }
  }

  lemma OnEventKeepsInv(heard: set<AccessType>, u: Ue, at: AccessType, e: Event, args: Args)
    requires Inv(heard, u) && Ready(heard, u, at, e, args) && Next(e, u.state.At(at)) == Some(u.state.At(at))
    ensures Inv(heard, OnEvent(u, at, u.state.At(at), e, args))
    decreases Rank(e), 1
  {
    hide Inv;
    match e
    case GmmMessage(m) => MessageKeepsInv(heard, u, at, m, args);
    case AuthRestart => AuthenticateKeepsInv(heard, u, at, args);
    case _ =>
  }

  lemma OnEntryKeepsInv(heard: set<AccessType>, u: Ue, at: AccessType, to: GmmState, args: Args)
    requires Sound(heard, u, if to == Deregistered then None else Some(to), 1, to != Registered && to != Deregistered)
    requires u.state.At(at) == to
    requires to == SecurityMode && args.eap.None? ==> Valid(u)
    requires to == ContextSetup ==> !u.macFailed
    ensures Inv(heard, OnEntry(u, at, to, args))
    decreases EntryRank(to), 3
  {
    if to == Deregistered {
      ClearKeepsInv(heard, u);
    } else {
      var u1 := Count(u, args.an, to, 1);
      CountKeepsSound(heard, u, args.an, to, 1, to != Registered);
      CountFields(u, args.an, to, 1);
      hide Sound, Count, Inv;
      assert to != Registered ==> Inv(heard, u1) by { InvIsSound(heard, u1); }
      match to
      case Registered => ClearKeepsInv(heard, u1);
      case Authentication => AuthenticateKeepsInv(heard, u1, at, args);
      case SecurityMode => SecureKeepsInv(heard, u1, at, args);
      case ContextSetup => SetUpKeepsInv(heard, u1, at, args);
      case DeregistrationInitiated =>
        if args.nas.Deregistering? { DeregisterKeepsInv(heard, u1, args.nas.targets, args); }
      case Deregistered =>
    }
  }

  lemma InvIsSound(heard: set<AccessType>, u: Ue)
    ensures Inv(heard, u) == Sound(heard, u, None, 1, true)
  {
  }

  lemma ClearKeepsInv(heard: set<AccessType>, u: Ue)
    requires Sound(heard, u, None, 1, false)
    ensures Inv(heard, ClearRegistrationRequestData(u))
  {
    var u' := ClearRegistrationRequestData(u);
    PathsDependOnLog(heard, u, u');
    forall s: GmmState | s != Deregistered ensures GaugeSum(u', s) == Occupancy(u', s) {
      assert GaugeSum(u', s) == GaugeSum(u, s) && Occupancy(u', s) == Occupancy(u, s);
    }
  }

  lemma AuthenticateKeepsInv(heard: set<AccessType>, u: Ue, at: AccessType, args: Args)
    requires Inv(heard, u) && u.state.At(at) == Authentication
    ensures Inv(heard, Authenticate(u, at, args))
    decreases 8, 2
  {
    hide Sound, Valid, Note;
    var s := AuthenticationProcedure(u, at, args.answers);
    InAuthentication(u, at);
    var args1 := args.(nas := NoNas, eap := None, ausf := false);
    if !u.identified {
      RequestKeepsInv(heard, u, at, Asks, u.identityRequests + 1);
    } else {
      MinorKeepsSound(heard, u, s.ue, None, 1, 1) by { SynchLimit(heard, u); }
      if s.error {
        SendEventKeepsInv(heard, s.ue, at, AuthError, args1);
      } else if s.pass {
        SendEventKeepsInv(heard, s.ue, at, AuthSuccess, args1);
      }
    }
  }

  lemma InAuthentication(u: Ue, at: AccessType)
    requires u.state.At(at) == Authentication
    ensures Occupancy(u, Authentication) > 0
  {
  }

  lemma SynchLimit(heard: set<AccessType>, u: Ue)
    requires Inv(heard, u)
    ensures u.synchFailures <= 1
  {
  }

  lemma SecureKeepsInv(heard: set<AccessType>, u: Ue, at: AccessType, args: Args)
    requires Inv(heard, u) && u.state.At(at) == SecurityMode && (args.eap.None? ==> Valid(u))
    ensures Inv(heard, Secure(u, at, args))
    decreases 6, 2
  {
    hide Sound;
    SynchLimit(heard, u);
    if Valid(u) {
      SendEventKeepsInv(heard, u, at, SecurityModeSuccess, args.(nas := Registering, eap := None, ausf := false));
    } else if !args.answers.algorithms {
      SendEventKeepsInv(heard, u, at, SecurityModeFail, args.(nas := NoNas, eap := None, ausf := false));
    } else {
      MinorKeepsSound(heard, u, Secure(u, at, args), None, 1, 1);
    }
  }

  lemma SetUpKeepsInv(heard: set<AccessType>, u: Ue, at: AccessType, args: Args)
    requires Inv(heard, u)
    ensures Inv(heard, SetUp(u, at, args))
    decreases 4, 2
  {
    hide Sound;
    SynchLimit(heard, u);
    match args.nas
    case Registering => RegisterKeepsInv(heard, u, at, args);
    case Servicing(container) => MinorKeepsSound(heard, u, HandleServiceRequest(u, container), None, 1, 1);
    case _ =>
  }

  lemma RegisterKeepsInv(heard: set<AccessType>, u: Ue, at: AccessType, args: Args)
    requires Inv(heard, u)
    ensures Inv(heard, Register(u, at, args))
    decreases 4, 1
  {
    hide Sound;
    SynchLimit(heard, u);
    if u.kind == Initial || u.kind == Mobility || u.kind == Periodic {
      if args.answers.setup.SetupFails? {
        SendEventKeepsInv(heard, u, at, ContextSetupFail, args.(nas := NoNas, eap := None, ausf := false));
      } else {
        MinorKeepsSound(heard, u, Register(u, at, args), None, 1, 1);
      }
    }
  }

  lemma DeregisterKeepsInv(heard: set<AccessType>, u: Ue, targets: Targets, args: Args)
    requires Inv(heard, u)
    ensures Inv(heard, Deregister(u, targets, args))
    decreases 2, 0
  {
    hide Sound;
    var args1 := args.(nas := NoNas, eap := None, ausf := false);
    match targets
    case Target(an) => SendEventKeepsInv(heard, u, an, DeregistrationAccept, args1);
    case Both =>
      SendEventKeepsInv(heard, u, ThreeGpp, DeregistrationAccept, args1);
      SendEventKeepsInv(heard, SendEvent(u, ThreeGpp, DeregistrationAccept, args1), NonThreeGpp, DeregistrationAccept, args1);
  }

  lemma MessageKeepsInv(heard: set<AccessType>, u: Ue, at: AccessType, m: Message, args: Args)
    requires Inv(heard, u) && args.an == at && at in heard
    ensures Inv(heard, OnEvent(u, at, u.state.At(at), GmmMessage(m), args))
    decreases 11, 0
  {
    hide Sound;
    SynchLimit(heard, u);
    match u.state.At(at)
    case Deregistered =>
      if m.RegistrationRequest? { RequestRegistrationKeepsInv(heard, u, at, m.registration, args); }
      if m.ServiceRequest? { MinorKeepsSound(heard, u, HandleServiceRequest(u, m.container), None, 1, 1); }
    case Registered =>
      if m.RegistrationRequest? { RequestRegistrationKeepsInv(heard, u, at, m.registration, args); }
      if m.ServiceRequest? { MinorKeepsSound(heard, u, HandleServiceRequest(u, m.container), None, 1, 1); }
      if m.DeregistrationRequest? {
        SendEventKeepsInv(heard, u, at, InitDeregistration, args.(nas := Deregistering(m.targets), eap := None, ausf := false));
      }
    case Authentication => AuthenticatingKeepsInv(heard, u, at, m, args);
    case SecurityMode =>
      if m.SecurityModeComplete? { SecurityModeCompleteKeepsInv(heard, u, at, m.peiDecoded, m.contents, args); }
      if m.SecurityModeReject? {
        SendEventKeepsInv(heard, u, at, SecurityModeFail, args.(nas := NoNas, eap := None, ausf := false));
      }
    case ContextSetup => SettingUpKeepsInv(heard, u, at, m, args);
    case DeregistrationInitiated =>
  }

  lemma RequestRegistrationKeepsInv(heard: set<AccessType>, u: Ue, at: AccessType, r: Registration, args: Args)
    requires Inv(heard, u) && args.an == at && at in heard
    ensures Inv(heard, RequestRegistration(u, at, r, args))
    decreases 10, 0
  {
    hide Sound;
    SynchLimit(heard, u);
    var h := HandleRegistrationRequest(u, args.an, r);
    MinorKeepsSound(heard, u, h.ue, None, 1, 1) by { RegistrationIsMinor(u, args.an, r); }
    if h.ok {
      SendEventKeepsInv(heard, h.ue, at, StartAuth, args.(nas := NoNas, eap := None, ausf := false));
    }
  }

  lemma RegistrationIsMinor(u: Ue, an: AccessType, r: Registration)
    ensures var u' := HandleRegistrationRequest(u, an, r).ue;
      Minor(u, u') && u'.synchFailures == u.synchFailures
  {
    hide OpenContainer, SetRegistrationType, UseIdentity, HandleIdentityAndKeySet, TypeAllowed;
    var u1 := OpenContainer(u, r.container);
    var u2 := SetRegistrationType(u1, r.kind);
    OpeningIsMinor(u, r.container);
    TypeIsMinor(u1, r.kind);
    if r.identity.Some? {
      IdentityIsMinor(u2, r);
    }
  }

  lemma OpeningIsMinor(u: Ue, container: Container)
    ensures var u' := OpenContainer(u, container); Minor(u, u') && u'.synchFailures == u.synchFailures
  {
  }

  lemma TypeIsMinor(u: Ue, kind: Kind)
    ensures var u' := SetRegistrationType(u, kind); Minor(u, u') && u'.synchFailures == u.synchFailures
  {
  }

  lemma IdentityIsMinor(u: Ue, r: Registration)
    requires r.identity.Some?
    ensures var u' := HandleIdentityAndKeySet(UseIdentity(u, r.identity.value), r).ue;
      Minor(u, u') && u'.synchFailures == u.synchFailures
  {
  }

  lemma AuthenticatingKeepsInv(heard: set<AccessType>, u: Ue, at: AccessType, m: Message, args: Args)
    requires Inv(heard, u) && args.an == at && at in heard && u.state.At(at) == Authentication
    ensures Inv(heard, WhenAuthenticating(u, at, m, args))
    decreases 10, 1
  {
    hide Sound;
    SynchLimit(heard, u);
    match m
    case IdentityResponse(accepted, identity) =>
      if IdentityAccepted(u, accepted, identity) {
        var u1 := HandleIdentityResponse(u, accepted, identity).(identityType := identity);
        MinorKeepsSound(heard, u, u1, None, 1, 1);
        SendEventKeepsInv(heard, u1, at, AuthRestart, args.(nas := NoNas, eap := None, ausf := false));
      }
    case AuthenticationResponse(r) => ResponseKeepsInv(heard, u, at, r, args);
    case AuthenticationFailure(cause, resync) => FailureKeepsInv(heard, u, at, cause, resync, args);
    case _ =>
  }

  lemma FallBackOrFailKeepsInv(heard: set<AccessType>, u: Ue, an: AccessType, args: Args)
    requires Inv(heard, u) && u.state.At(an) == Authentication
    ensures Inv(heard, FallBackOrFail(u, an, args))
    decreases 2, 0
  {
    hide Sound, Note;
    if u.identityType == Guti && u.identityRequests == 0 {
      RequestKeepsInv(heard, u, an, FallsBack, 1);
    } else {
      SendEventKeepsInv(heard, u, an, AuthFail, args.(nas := NoNas, eap := None, ausf := false)) by { Wider(heard, u); }
    }
  }

  lemma Wider(heard: set<AccessType>, u: Ue)
    requires Inv(heard, u)
    ensures Sound(heard, u, None, 2, true)
  {
  }

  // One more request for the SUCI; a fall back finds the counter at zero, so that there
  // has been none since the last reset.
  lemma RequestKeepsInv(heard: set<AccessType>, u: Ue, an: AccessType, m: Mark, times: nat)
    requires Inv(heard, u) && u.state.At(an) == Authentication
    requires Requests(m) && times > 0 && (m.FallsBack? ==> u.identityRequests == 0)
    ensures Inv(heard, Note(u.(identityRequests := times), an, m))
  {
    hide Trail, Of, Asked, FallsBackUnasked, GaugeSum;
    var u' := Note(u.(identityRequests := times), an, m);
    var x := Noted(an, m);
    AskedAppend(u.log, x);
    UnaskedAppend(u.log, x);
    assert PathOk(heard, u, an);
    NoteExtends(Path(u, an), m);
    forall a ensures PathOk(heard, u', a) {
      assert PathOk(heard, u, a);
      OfAppend(u.log, x, a);
      assert Path(u, a) + [] == Path(u, a);
    }
    GaugesDependOnGauge(u, u');
    forall s: GmmState | s != Deregistered ensures GaugeSum(u', s) == Occupancy(u', s) {
      assert GaugeSum(u', s) == GaugeSum(u, s) && Occupancy(u', s) == Occupancy(u, s);
    }
  }

  lemma ResponseKeepsInv(heard: set<AccessType>, u: Ue, an: AccessType, r: Response, args: Args)
    requires Inv(heard, u) && u.state.At(an) == Authentication
    ensures Inv(heard, HandleAuthenticationResponse(u, an, r, args))
    decreases 10, 0
  {
    hide Sound, SendEvent, FallBackOrFail, Inv;
    if u.authCtx.Some? {
      var eap := u.authCtx.value == EapAkaPrime;
      SuccessKeepsInv(heard, u, an, args.(nas := NoNas, eap := Some(eap), ausf := true));
      AuthFailKeepsInv(heard, u, an, args.(nas := NoNas, eap := None, ausf := false));
      FallBackOrFailKeepsInv(heard, u, an, args);
    }
  }

  lemma SuccessKeepsInv(heard: set<AccessType>, u: Ue, an: AccessType, args: Args)
    requires Inv(heard, u) && u.state.At(an) == Authentication && args.ausf && args.eap.Some?
    ensures Inv(heard, SendEvent(u.(identified := true), an, AuthSuccess, args))
    decreases 9, 0
  {
    hide Sound;
    SynchLimit(heard, u);
    MinorKeepsSound(heard, u, u.(identified := true), None, 1, 1);
    SendEventKeepsInv(heard, u.(identified := true), an, AuthSuccess, args);
  }

  lemma AuthFailKeepsInv(heard: set<AccessType>, u: Ue, an: AccessType, args: Args)
    requires Inv(heard, u) && u.state.At(an) == Authentication
    ensures Inv(heard, SendEvent(u, an, AuthFail, args))
    decreases 9, 0
  {
    hide Sound;
    Wider(heard, u);
    SendEventKeepsInv(heard, u, an, AuthFail, args);
  }

  // A second synchronisation failure in a row ends the authentication.
  lemma FailureKeepsInv(heard: set<AccessType>, u: Ue, an: AccessType, cause: Cause, resync: Resync, args: Args)
    requires Inv(heard, u) && u.state.At(an) == Authentication
    ensures Inv(heard, HandleAuthenticationFailure(u, an, cause, resync, args))
    decreases 10, 0
  {
    hide Sound, Occupancy, SendEvent;
    SynchLimit(heard, u);
    InAuthentication(u, an);
    var failed := args.(nas := NoNas, eap := None, ausf := false);
    if u.authCtx == Some(Aka) && (cause == MacFailure || cause == Non5GUnacceptable) {
      SendEventKeepsInv(heard, u, an, AuthFail, failed) by { Wider(heard, u); }
    } else if u.authCtx == Some(Aka) && cause == SynchFailure && u.synchFailures == 1 {
      var u1 := u.(synchFailures := 2);
      MinorKeepsSound(heard, u, u1, None, 1, 2);
      SendEventKeepsInv(heard, u1, an, AuthFail, failed);
    } else {
      MinorKeepsSound(heard, u, HandleAuthenticationFailure(u, an, cause, resync, args), None, 1, 1);
    }
  }

  lemma SecurityModeCompleteKeepsInv(heard: set<AccessType>, u: Ue, an: AccessType, peiDecoded: bool, contents: CompleteContents, args: Args)
    requires Inv(heard, u)
    ensures Inv(heard, HandleSecurityModeComplete(u, an, peiDecoded, contents, args))
    decreases 10, 0
  {
    hide Sound;
    if !u.macFailed && peiDecoded {
      SendEventKeepsInv(heard, u, an, SecurityModeSuccess, args.(nas := Registering, eap := None, ausf := false));
      SendEventKeepsInv(heard, u, an, SecurityModeSuccess, args.(nas := Servicing(NoContainer), eap := None, ausf := false));
      SendEventKeepsInv(heard, u, an, SecurityModeFail, args.(nas := Servicing(NoContainer), eap := None, ausf := false));
    }
  }

  lemma SettingUpKeepsInv(heard: set<AccessType>, u: Ue, at: AccessType, m: Message, args: Args)
    requires Inv(heard, u) && args.an == at && at in heard
    ensures Inv(heard, WhenSettingUp(u, at, m, args))
    decreases 10, 1
  {
    hide Sound;
    SynchLimit(heard, u);
    match m
    case IdentityResponse(accepted, identity) =>
      var u1 := HandleIdentityResponse(u, accepted, identity);
      MinorKeepsSound(heard, u, u1, None, 1, 1);
      RegisterKeepsInv(heard, u1, at, args);
    case RegistrationComplete =>
      MinorKeepsSound(heard, u, u.(t3550 := false), None, 1, 1);
      SendEventKeepsInv(heard, u.(t3550 := false), at, ContextSetupSuccess, args.(nas := NoNas, eap := None, ausf := false));
    case _ =>
  }

  // ----- runs -----

  // One NAS message that was let through for a UE (HandleNAS has settled MacFailed), or
  // the stop of its timers when a connection is replaced.
  datatype Input =
    | Nas(an: AccessType, macFailed: bool, message: Message, answers: Answers)
    | TimersStop

  function Step(u: Ue, i: Input): Ue {
    match i
    case Nas(an, macFailed, m, answers) =>
      SendEvent(u.(macFailed := macFailed), an, GmmMessage(m), Args(an, NoNas, None, false, answers))
    case TimersStop => u.(t3550 := false)
  }

  function Run(inputs: seq<Input>): Ue {
    if inputs == [] then NEW else Step(Run(inputs[..|inputs| - 1]), inputs[|inputs| - 1])
  }

  // The accesses that messages have come from
  function From(i: Input): set<AccessType> {
    if i.Nas? then {i.an} else {}
  }

  function Heard(inputs: seq<Input>): set<AccessType> {
    if inputs == [] then {} else Heard(inputs[..|inputs| - 1]) + From(inputs[|inputs| - 1])
  }

  lemma StepKeepsInv(heard: set<AccessType>, u: Ue, i: Input)
    requires Inv(heard, u)
    ensures Inv(heard + From(i), Step(u, i))
  {
    var heard1 := heard + From(i);
    HearingKeepsInv(heard, heard1, u);
    hide Sound;
    SynchLimit(heard, u);
    match i
    case Nas(an, macFailed, m, answers) =>
      MinorKeepsSound(heard1, u, u.(macFailed := macFailed), None, 1, 1);
      SendEventKeepsInv(heard1, u.(macFailed := macFailed), an, GmmMessage(m), Args(an, NoNas, None, false, answers));
    case TimersStop => MinorKeepsSound(heard1, u, u.(t3550 := false), None, 1, 1);
  }

  lemma MessageStep(u: Ue, an: AccessType, macFailed: bool, m: Message, answers: Answers)
    ensures Step(u, Nas(an, macFailed, m, answers))
            == SendEvent(u.(macFailed := macFailed), an, GmmMessage(m), Args(an, NoNas, None, false, answers))
    ensures From(Nas(an, macFailed, m, answers)) == {an}
  {
    hide SendEvent;
  }

  lemma HearingKeepsInv(heard: set<AccessType>, heard': set<AccessType>, u: Ue)
    requires Inv(heard, u) && heard <= heard'
    ensures Inv(heard', u)
  {
    forall an ensures PathOk(heard', u, an) { assert PathOk(heard, u, an); }
  }

  lemma {:induction false} RunKeepsInv(inputs: seq<Input>)
    ensures Inv(Heard(inputs), Run(inputs))
  {
    hide Inv, Step, From;
    if inputs == [] {
      NewIsSound();
    } else {
      RunKeepsInv(inputs[..|inputs| - 1]);
      StepKeepsInv(Heard(inputs[..|inputs| - 1]), Run(inputs[..|inputs| - 1]), inputs[|inputs| - 1]);
    }
  }

  // Between messages: the gauges count the accesses, an authentication context exists only
  // while some access is in Authentication, at most one synchronisation failure is pending,
  // the counter of identity requests is zero exactly if the SUCI has not been asked for
  // since the last reset, and no type assertion has failed.
  ghost predicate Between(u: Ue) {
    && (forall s: GmmState {:trigger GaugeSum(u, s)} :: s != Deregistered ==> GaugeSum(u, s) == Occupancy(u, s))
    && (u.authCtx.Some? ==> u.state.threeGpp == Authentication || u.state.nonThreeGpp == Authentication)
    && u.synchFailures <= 1 && (u.identityRequests == 0 <==> !Asked(u.log)) && !u.stopped
  }

  // A stay in Authentication comes to an end with the mark at i.
  ghost predicate AfterAuthentication(path: seq<Mark>, i: int) {
    exists j {:trigger path[j]} :: 0 <= j < |path| && j < i && In(path[j], Authentication) && forall k :: j < k < i && k < |path| ==> Requests(path[k])
  }

  // An entry into ContextSetup: MacFailed is false, SecurityMode came before, and in this
  // pass either the AUSF has confirmed or the context was valid.
  ghost predicate EarnedSetup(path: seq<Mark>, i: int)
    requires 0 <= i < |path|
  {
    && path[i].Enters? && !path[i].macFailed && i >= 3 && In(path[i - 1], SecurityMode)
    && path[i - 2].Evidence? && (path[i - 2].ausf || path[i - 2].validContext)
    && AfterAuthentication(path, i - 2)
  }

  ghost predicate EarnedAt(path: seq<Mark>, i: int)
    requires 0 <= i < |path|
  {
    && (In(path[i], ContextSetup) ==> EarnedSetup(path, i))
    && (In(path[i], Registered) ==> i > 0 && In(path[i - 1], ContextSetup) && EarnedSetup(path, i - 1))
  }

  ghost predicate Earned(path: seq<Mark>) {
    forall i {:trigger EarnedAt(path, i)} :: 0 <= i < |path| ==> EarnedAt(path, i)
  }

  lemma SetupIsEarned(path: seq<Mark>, i: nat)
    requires Trail(path) && i < |path| && In(path[i], ContextSetup)
    ensures EarnedSetup(path, i)
  {
    assert Follows(path, i);
    assert Follows(path, i - 1);
    assert Follows(path, i - 2);
    var j := StartOfStay(path, i - 3);
  }

  lemma TrailIsEarned(path: seq<Mark>)
    requires Trail(path)
    ensures Earned(path)
  {
    hide EarnedSetup;
    forall i | 0 <= i < |path| ensures EarnedAt(path, i) {
      assert Follows(path, i);
      if In(path[i], ContextSetup) { SetupIsEarned(path, i); }
      if In(path[i], Registered) { SetupIsEarned(path, i - 1); }
    }
  }

  // What the invariant says between messages
  lemma InvHolds(heard: set<AccessType>, u: Ue)
    requires Inv(heard, u)
    ensures Between(u) && forall an: AccessType :: Earned(Path(u, an))
  {
    hide Trail, Earned;
    forall s: GmmState | s != Deregistered ensures GaugeSum(u, s) == Occupancy(u, s) {}
    forall an: AccessType ensures Earned(Path(u, an)) {
      assert PathOk(heard, u, an);
      TrailIsEarned(Path(u, an));
    }
  }

  lemma BetweenMessages(inputs: seq<Input>)
    ensures Between(Run(inputs))
  {
    RunKeepsInv(inputs);
    InvHolds(Heard(inputs), Run(inputs));
  }

  // Every entry into ContextSetup, in any run, is earned.
  lemma ContextSetupIsEarned(inputs: seq<Input>, an: AccessType, i: nat)
    requires i < |Path(Run(inputs), an)| && In(Path(Run(inputs), an)[i], ContextSetup)
    ensures EarnedSetup(Path(Run(inputs), an), i)
  {
    RunKeepsInv(inputs);
    assert PathOk(Heard(inputs), Run(inputs), an);
    SetupIsEarned(Path(Run(inputs), an), i);
  }

  // Where a stay in Authentication began
  lemma {:induction false} StartOfStay(path: seq<Mark>, i: nat) returns (j: nat)
    requires Trail(path) && i < |path| && Authenticating(path[i])
    ensures j <= i && In(path[j], Authentication) && forall k :: j < k <= i ==> Requests(path[k])
  {
    if Requests(path[i]) {
      assert Follows(path, i);
      j := StartOfStay(path, i - 1);
    } else {
      j := i;
    }
  }

  // An access enters Registered only through Authentication, SecurityMode and
  // ContextSetup, in that order and without another state in between.
  lemma RegisteredIsEarned(inputs: seq<Input>, an: AccessType, i: nat)
    requires i < |Path(Run(inputs), an)| && In(Path(Run(inputs), an)[i], Registered)
    ensures var path := Path(Run(inputs), an);
      i > 0 && In(path[i - 1], ContextSetup) && EarnedSetup(path, i - 1)
  {
    RunKeepsInv(inputs);
    assert PathOk(Heard(inputs), Run(inputs), an);
    assert Follows(Path(Run(inputs), an), i);
    ContextSetupIsEarned(inputs, an, i - 1);
  }

  // Every state an access enters follows the one before it by a transition of the table,
  // and the first is Authentication.
  lemma PathFollowsTheTable(inputs: seq<Input>, an: AccessType, i: nat)
    requires i < |Path(Run(inputs), an)|
    ensures var path := Path(Run(inputs), an);
      match path[i]
      case Enters(Authentication, _) => i == 0 || In(path[i - 1], Deregistered) || In(path[i - 1], Registered)
      case Enters(SecurityMode, _) => i > 1 && path[i - 1].Evidence? && Authenticating(path[i - 2])
      case Enters(ContextSetup, _) => i > 0 && In(path[i - 1], SecurityMode)
      case Enters(Registered, _) => i > 0 && In(path[i - 1], ContextSetup)
      case Enters(DeregistrationInitiated, _) => i > 0 && In(path[i - 1], Registered)
      case Enters(Deregistered, _) =>
        i > 0 && (Authenticating(path[i - 1])
                  || (path[i - 1].Enters? && path[i - 1].state in {SecurityMode, ContextSetup, DeregistrationInitiated}))
      case Asks => i > 0 && Authenticating(path[i - 1])
      case FallsBack => i > 0 && Authenticating(path[i - 1])
      case Evidence(_, _) => i > 0 && Authenticating(path[i - 1])
  {
    RunKeepsInv(inputs);
    var path := Path(Run(inputs), an);
    assert PathOk(Heard(inputs), Run(inputs), an);
    assert Follows(path, i);
    if i > 0 {
      assert Follows(path, i - 1);
    }
  }

  // An access is in a state exactly when that is the last one it entered.
  lemma StateIsLastEntered(inputs: seq<Input>, an: AccessType)
    ensures var u := Run(inputs);
      var path := Path(u, an);
      if path == [] then u.state.At(an) == Deregistered
      else if Requests(path[|path| - 1]) then u.state.At(an) == Authentication
      else In(path[|path| - 1], u.state.At(an))
  {
    RunKeepsInv(inputs);
    assert PathOk(Heard(inputs), Run(inputs), an);
  }

  // ----- how often the SUCI is asked for -----

  ghost predicate ResetBetween(log: seq<Noted>, i: int, j: int) {
    exists k {:trigger log[k]} :: 0 <= k < |log| && i < k < j && Resets(log[k].mark)
  }

  lemma {:induction false} LastRequest(log: seq<Noted>) returns (i: nat)
    requires Asked(log)
    ensures i < |log| && Requests(log[i].mark) && !ResetBetween(log, i, |log|)
  {
    var front, last := log[..|log| - 1], |log| - 1;
    if Requests(log[last].mark) {
      i := last;
    } else {
      i := LastRequest(front);
      forall k | i < k < |log| ensures !Resets(log[k].mark) { if k < last { assert log[k] == front[k]; } }
    }
  }

  lemma {:induction false} RequestedIsAsked(log: seq<Noted>, i: nat)
    requires i < |log| && Requests(log[i].mark) && !ResetBetween(log, i, |log|)
    ensures Asked(log)
  {
    var front, last := log[..|log| - 1], |log| - 1;
    if i < last {
      assert !Resets(log[last].mark);
      forall k | i < k < |front| ensures !Resets(front[k].mark) { assert log[k] == front[k]; }
      RequestedIsAsked(front, i);
    }
  }

  lemma {:induction false} AskedSinceReset(log: seq<Noted>)
    ensures Asked(log) <==> exists i {:trigger log[i]} :: 0 <= i < |log| && Requests(log[i].mark) && !ResetBetween(log, i, |log|)
  {
    if Asked(log) {
      var i := LastRequest(log);
    } else {
      forall i | 0 <= i < |log| && Requests(log[i].mark) ensures ResetBetween(log, i, |log|) {
        if !ResetBetween(log, i, |log|) { RequestedIsAsked(log, i); }
      }
    }
  }

  // In any run, after the SUCI has been asked for, it is asked for because of a failed
  // authentication only if since then an access has left Authentication or entered
  // Registered or Deregistered; within one stay of an access that is the other access.
  lemma SecondFallBackNeedsReset(inputs: seq<Input>, i: nat, j: nat)
    requires i < j < |Run(inputs).log| && Requests(Run(inputs).log[i].mark) && Run(inputs).log[j].mark.FallsBack?
    ensures var log := Run(inputs).log;
      exists k {:trigger log[k]} :: i < k < j && Resets(log[k].mark)
        && (SameStay(log, log[j].an, i, j) ==> log[k].an == Other(log[j].an))
  {
    RunKeepsInv(inputs);
    var log := Run(inputs).log;
    var before := log[..j];
    AskedSinceReset(before);
    assert !Asked(before) by { assert log[j].mark.FallsBack?; }
    assert Requests(before[i].mark);
    assert ResetBetween(before, i, |before|);
    var k :| 0 <= k < |before| && i < k < |before| && Resets(before[k].mark);
    assert log[k] == before[k];
  }

  // The access enters no state between the two marks.
  ghost predicate SameStay(log: seq<Noted>, an: AccessType, i: int, j: int) {
    forall k {:trigger log[k]} :: 0 <= k < |log| && i < k < j && log[k].an == an ==> !log[k].mark.Enters?
  }

  // With messages from one access only, the SUCI is asked for because of a failed
  // authentication at most once in a stay, and not if it was asked for before.
  lemma OneAccessFallsBackOnce(inputs: seq<Input>, an: AccessType, i: nat, j: nat)
    requires Heard(inputs) <= {an} && i < j < |Run(inputs).log|
    requires Requests(Run(inputs).log[i].mark) && SameStay(Run(inputs).log, Run(inputs).log[j].an, i, j)
    ensures !Run(inputs).log[j].mark.FallsBack?
  {
    RunKeepsInv(inputs);
    var u := Run(inputs);
    if u.log[j].mark.FallsBack? {
      SecondFallBackNeedsReset(inputs, i, j);
      var k :| i < k < j && u.log[k].an == Other(u.log[j].an);
      assert PathOk(Heard(inputs), u, Other(an));
      NothingOf(u.log, Other(an), k);
      NothingOf(u.log, Other(an), j);
    }
  }

  lemma {:induction false} NothingOf(log: seq<Noted>, an: AccessType, k: nat)
    requires Of(log, an) == [] && k < |log|
    ensures log[k].an != an
  {
    var front := log[..|log| - 1];
    if k < |front| {
      NothingOf(front, an, k);
      assert front[k] == log[k];
    }
  }

  // A response that fails the authentication that is going on
  predicate Fails(authType: AuthType, r: Response) {
    match authType
    case Aka => r.wellFormed && (!r.hresMatches || r.confirmation.Failure?)
    case EapAkaPrime => r.eapMessage && r.confirmation.Failure?
  }

  // A failed authentication with a GUTI asks for the SUCI exactly if it has not been asked
  // for, on either access, since either last reset the counter; otherwise the access is
  // deregistered.
  lemma FailedAuthenticationAsksExactly(inputs: seq<Input>, an: AccessType, macFailed: bool, r: Response, answers: Answers)
    requires var u := Run(inputs);
      u.state.At(an) == Authentication && u.authCtx.Some? && Fails(u.authCtx.value, r) && u.identityType == Guti
    ensures var u := Run(inputs);
      var u' := Step(u, Nas(an, macFailed, AuthenticationResponse(r), answers));
      && (u'.log == u.log + [Noted(an, FallsBack)] <==> !Asked(u.log))
      && u'.state.At(an) == if Asked(u.log) then Deregistered else Authentication
  {
    hide SendEvent, Change, Note, Asked;
    RunKeepsInv(inputs);
    assert Counts(Run(inputs), true);
    var u, args := Run(inputs).(macFailed := macFailed), Args(an, NoNas, None, false, answers);
    FailedResponse(u, an, r, args);
    NothingIsOverwritten(u, an, AuthFail, args);
    ChangeLogs(u, an, AuthFail, Deregistered, args);
    var fallen := u.log + [Noted(an, FallsBack)];
    var deregistered := u.log + [] + [Noted(an, Enters(Deregistered, u.macFailed))];
    assert fallen[|u.log|] != deregistered[|u.log|];
    FallingBack(u.(identityRequests := 1), an);
  }

  lemma FallingBack(u: Ue, an: AccessType)
    ensures var u' := Note(u, an, FallsBack); u'.log == u.log + [Noted(an, FallsBack)] && u'.state == u.state
  {
  }

  lemma FailedResponse(u: Ue, an: AccessType, r: Response, args: Args)
    requires u.state.At(an) == Authentication && u.authCtx.Some? && Fails(u.authCtx.value, r) && u.identityType == Guti
    requires args == Args(an, NoNas, None, false, args.answers)
    ensures SendEvent(u, an, GmmMessage(AuthenticationResponse(r)), args)
            == if u.identityRequests == 0 then Note(u.(identityRequests := 1), an, FallsBack) else SendEvent(u, an, AuthFail, args)
  {
    hide Note;
    var m := AuthenticationResponse(r);
    assert SendEvent(u, an, GmmMessage(m), args) == WhenAuthenticating(u, an, m, args);
    assert WhenAuthenticating(u, an, m, args) == HandleAuthenticationResponse(u, an, r, args);
    assert HandleAuthenticationResponse(u, an, r, args) == FallBackOrFail(u, an, args);
    assert args.(nas := NoNas, eap := None, ausf := false) == args;
  }

  // ----- a run in which the SUCI is asked for twice in one stay -----

  function RegistrationWith(identity: Identity): Message {
    RegistrationRequest(Registration(true, NoContainer, Initial, Some(identity), true, true, 0, true, None))
  }

  const WRONG := AuthenticationResponse(Response(true, false, false, Unanswered))

  function WithAusf(ausf: Option<AuthType>): Answers {
    Answers(ausf, true, Sent, SetupWaits)
  }

  // A registration whose authentication vector cannot be had ends where it began and
  // resets the counter; with a vector the access waits for the UE.
  lemma RegistrationAttempt(u: Ue, an: AccessType, identity: Identity, ausf: Option<AuthType>)
    requires u.state.At(an) == Deregistered && (u.identified || identity == Suci)
    ensures var u' := Step(u, Nas(an, false, RegistrationWith(identity), WithAusf(ausf)));
      && u'.identified
      && u'.state.At(an) == (if ausf.Some? then Authentication else Deregistered)
      && u'.state.At(Other(an)) == u.state.At(Other(an))
      && u'.log == u.log + [Noted(an, Enters(Authentication, false))]
                   + (if ausf.Some? then [] else [Noted(an, Enters(Deregistered, false))])
      && (if ausf.Some? then u'.authCtx == ausf && u'.identityType == identity && u'.identityRequests == u.identityRequests
          else u'.identityRequests == 0)
  {
    hide Change, OnEntry, Count;
    var args := Args(an, NoNas, None, false, WithAusf(ausf));
    var m := RegistrationWith(identity);
    var u0 := u.(macFailed := false);
    var h := HandleRegistrationRequest(u0, an, m.registration).ue;
    RequestAttempt(u0, an, identity, args);
    ChangeFields(h, an, StartAuth, Authentication, args);
    AuthenticationAttempt(Change(h, an, StartAuth, Authentication, args), an, args);
  }

  lemma RequestAttempt(u: Ue, an: AccessType, identity: Identity, args: Args)
    requires u.state.At(an) == Deregistered && (u.identified || identity == Suci) && !u.macFailed
    requires args == Args(an, NoNas, None, false, args.answers)
    ensures var m := RegistrationWith(identity);
      var h := HandleRegistrationRequest(u, an, m.registration).ue;
      && SendEvent(u, an, GmmMessage(m), args) == OnEntry(Change(h, an, StartAuth, Authentication, args), an, Authentication, args)
      && h == u.(available := false, kind := Initial, identityType := identity, identified := true, ksi := 0)
  {
    hide Change, OnEntry;
    var m := RegistrationWith(identity);
    var h := HandleRegistrationRequest(u, an, m.registration).ue;
    assert SendEvent(u, an, GmmMessage(m), args) == WhenDeregistered(u, an, m, args);
    assert WhenDeregistered(u, an, m, args) == RequestRegistration(u, an, m.registration, args);
    assert RequestRegistration(u, an, m.registration, args) == SendEvent(h, an, StartAuth, args);
    NothingIsOverwritten(h, an, StartAuth, args);
  }

  lemma AuthenticationAttempt(u: Ue, an: AccessType, args: Args)
    requires u.state.At(an) == Authentication && !u.available && u.identified
    requires args == Args(an, NoNas, None, false, args.answers)
    ensures var u' := OnEntry(u, an, Authentication, args);
      var ausf := args.answers.ausf;
      && u'.identified
      && u'.state.At(an) == (if ausf.Some? then Authentication else Deregistered)
      && u'.state.At(Other(an)) == u.state.At(Other(an))
      && u'.log == u.log + (if ausf.Some? then [] else [Noted(an, Enters(Deregistered, u.macFailed))])
      && (if ausf.Some? then u'.authCtx == ausf && u'.identityType == u.identityType && u'.identityRequests == u.identityRequests
          else u'.identityRequests == 0)
  {
    hide Change, Count;
    CountFields(u, args.an, Authentication, 1);
    var u1 := Count(u, args.an, Authentication, 1);
    assert OnEntry(u, an, Authentication, args) == Authenticate(u1, an, args);
    if args.answers.ausf.None? {
      assert Authenticate(u1, an, args) == SendEvent(u1, an, AuthError, args);
      NothingIsOverwritten(u1, an, AuthError, args);
      ChangeFields(u1, an, AuthError, Deregistered, args);
    } else {
      assert Authenticate(u1, an, args) == u1.(authCtx := args.answers.ausf);
    }
  }

  lemma ChangeFields(u: Ue, at: AccessType, e: Event, to: GmmState, args: Args)
    requires e == StartAuth || e == AuthError
    ensures var u' := Change(u, at, e, to, args);
      && u'.state.At(at) == to && u'.state.At(Other(at)) == u.state.At(Other(at))
      && u'.log == u.log + [Noted(at, Enters(to, u.macFailed))]
      && u'.identified == u.identified && u'.available == u.available && u'.macFailed == u.macFailed
      && (u.state.At(at) == Deregistered ==>
            u'.identityType == u.identityType && u'.identityRequests == u.identityRequests)
  {
    hide OnExit, Set;
    var u1 := OnExit(u, u.state.At(at), args);
    ExitFields(u, u.state.At(at), args);
    ExitKeepsIdentity(u, u.state.At(at), args);
    SetFields(u1, at, to);
  }

  lemma ExitKeepsIdentity(u: Ue, from: GmmState, args: Args)
    ensures var u' := OnExit(u, from, args);
      && u'.identified == u.identified && u'.available == u.available
      && (from == Deregistered ==> u' == u)
  {
  }

  lemma WrongResponse(u: Ue, an: AccessType)
    requires u.state.At(an) == Authentication && u.authCtx == Some(Aka) && u.identityType == Guti && u.identityRequests == 0
    ensures Step(u, Nas(an, false, WRONG, WithAusf(None)))
            == Note(u.(macFailed := false, identityRequests := 1), an, FallsBack)
  {
    hide Note;
    var u0, args := u.(macFailed := false), Args(an, NoNas, None, false, WithAusf(None));
    assert SendEvent(u0, an, GmmMessage(WRONG), args) == WhenAuthenticating(u0, an, WRONG, args);
    assert WhenAuthenticating(u0, an, WRONG, args) == HandleAuthenticationResponse(u0, an, WRONG.response, args);
    assert HandleAuthenticationResponse(u0, an, WRONG.response, args) == FallBackOrFail(u0, an, args);
  }

  lemma SecondFallBackHappens()
    ensures exists inputs, i: nat, j: nat ::
              && i < j < |Run(inputs).log| && SameStay(Run(inputs).log, ThreeGpp, i, j)
              && Run(inputs).log[i] == Noted(ThreeGpp, FallsBack) == Run(inputs).log[j]
  {
    hide Step;
    var i1 := Nas(ThreeGpp, false, RegistrationWith(Suci), WithAusf(None));
    var i2 := Nas(ThreeGpp, false, RegistrationWith(Guti), WithAusf(Some(Aka)));
    var i3 := Nas(ThreeGpp, false, WRONG, WithAusf(None));
    var i4 := Nas(NonThreeGpp, false, RegistrationWith(Guti), WithAusf(None));
    var i5 := Nas(NonThreeGpp, false, RegistrationWith(Guti), WithAusf(Some(Aka)));
    RegistrationAttempt(NEW, ThreeGpp, Suci, None);
    var u1 := Step(NEW, i1);
    RegistrationAttempt(u1, ThreeGpp, Guti, Some(Aka));
    var u2 := Step(u1, i2);
    WrongResponse(u2, ThreeGpp);
    var u3 := Step(u2, i3);
    RegistrationAttempt(u3, NonThreeGpp, Guti, None);
    var u4 := Step(u3, i4);
    RegistrationAttempt(u4, NonThreeGpp, Guti, Some(Aka));
    var u5 := Step(u4, i5);
    WrongResponse(u5, ThreeGpp);
    var u6 := Step(u5, i3);
    var inputs := [i1, i2, i3, i4, i5, i3];
    RunOfSix(inputs);
    var log := u6.log;
    assert log[|u3.log| - 1] == Noted(ThreeGpp, FallsBack) == log[|log| - 1];
    assert SameStay(log, ThreeGpp, |u3.log| - 1, |log| - 1);
  }

  // Unrolls a run of six messages.
  lemma RunOfSix(inputs: seq<Input>)
    requires |inputs| == 6
    ensures Run(inputs)
            == Step(Step(Step(Step(Step(Step(NEW, inputs[0]), inputs[1]), inputs[2]), inputs[3]), inputs[4]), inputs[5])
  {
    hide Step;
    assert inputs[..5][..4] == inputs[..4] && inputs[..4][..3] == inputs[..3] && inputs[..3][..2] == inputs[..2]
        && inputs[..2][..1] == inputs[..1] && inputs[..1][..0] == [];
    assert Run(inputs[..1]) == Step(NEW, inputs[0]);
    assert Run(inputs[..2]) == Step(Run(inputs[..1]), inputs[1]);
    assert Run(inputs[..3]) == Step(Run(inputs[..2]), inputs[2]);
    assert Run(inputs[..4]) == Step(Run(inputs[..3]), inputs[3]);
    assert Run(inputs[..5]) == Step(Run(inputs[..4]), inputs[4]);
  }
}
