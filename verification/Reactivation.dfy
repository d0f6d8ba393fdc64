// Re-activating the PDU sessions with pending uplink data: a loop over the UE's SM
// contexts that sorts each session by the SMF's answer.

module Reactivation {
  import opened Basics

  const PSI_ARRAY_SIZE := 16

  const SERVICE_TYPE_MOBILE_TERMINATED_SERVICES: Byte := 2

  // 5GMM causes, numbered as in 3GPP TS 24.501, section 9.11.3.2
  const CAUSE_RESTRICTED_SERVICE_AREA: Byte := 28
  const CAUSE_LADN_NOT_AVAILABLE: Byte := 43
  const CAUSE_INSUFFICIENT_USER_PLANE_RESOURCES: Byte := 92
  const CAUSE_SEMANTICALLY_INCORRECT_MESSAGE: Byte := 95
  const CAUSE_PROTOCOL_ERROR_UNSPECIFIED: Byte := 111

  // What SendUpdateSmContextActivateUpCnxState returns: an error, no response (with the
  // cause in the error response, if there is one), or a response.
  datatype Answer = Error | NoResponse(error: Option<string>) | Activated

  function CauseOf(error: Option<string>): Byte {
    match error
    case None => CAUSE_PROTOCOL_ERROR_UNSPECIFIED
    case Some(text) =>
      if text == "OUT_OF_LADN_SERVICE_AREA" then CAUSE_LADN_NOT_AVAILABLE
      else if text == "PRIORITIZED_SERVICES_ONLY" then CAUSE_RESTRICTED_SERVICE_AREA
      else if text == "DNN_CONGESTION" || text == "S-NSSAI_CONGESTION" then CAUSE_INSUFFICIENT_USER_PLANE_RESOURCES
      else CAUSE_PROTOCOL_ERROR_UNSPECIFIED
  }

  // The pending bits, the session of the downlink data and the service type; psi are
  // the ids that IsPduSessionIdInPsiRange accepts.
  datatype Request = Request(psi: set<int>, pending: seq<bool>, dlId: int, serviceType: Byte)

  predicate WellFormed(q: Request) {
    |q.pending| == PSI_ARRAY_SIZE && forall id :: id in q.psi ==> 0 <= id < PSI_ARRAY_SIZE
  }

  // Where one session ends up
  datatype Outcome = SetUp | FlagWithCause(cause: Byte) | FlagOnly | CauseOnly(cause: Byte) | Untouched

  function OutcomeOf(q: Request, id: int, a: Answer): Outcome
    requires WellFormed(q)
  {
    if id !in q.psi then CauseOnly(CAUSE_SEMANTICALLY_INCORRECT_MESSAGE)
    else if !q.pending[id] || (id == q.dlId && q.serviceType == SERVICE_TYPE_MOBILE_TERMINATED_SERVICES) then Untouched
    else
      match a
      case Error => FlagOnly
      case NoResponse(error) => FlagWithCause(CauseOf(error))
      case Activated => SetUp
  }

  predicate Flagged(o: Outcome) {
    o.FlagWithCause? || o.FlagOnly?
  }

  // uint8(id)
  function AsU8(id: int): Byte {
    id % 0x100
  }

  // The setup list and the two error lists, for the order in which the map is visited
  function SetupList(q: Request, answers: map<int, Answer>, order: seq<int>): seq<int>
    requires WellFormed(q) && forall id :: id in order ==> id in answers
  {
    if order == [] then []
    else
      var id := order[|order| - 1];
      SetupList(q, answers, order[..|order| - 1]) + if OutcomeOf(q, id, answers[id]) == SetUp then [id] else []
  }

  function Errors(q: Request, answers: map<int, Answer>, order: seq<int>): seq<(Byte, Byte)>
    requires WellFormed(q) && forall id :: id in order ==> id in answers
  {
    if order == [] then []
    else
      var id := order[|order| - 1];
      var o := OutcomeOf(q, id, answers[id]);
      Errors(q, answers, order[..|order| - 1])
      + if o.FlagWithCause? || o.CauseOnly? then [(AsU8(id), o.cause)] else []
  }

  function Ids(errors: seq<(Byte, Byte)>): (r: seq<Byte>)
    ensures |r| == |errors|
  {
    seq(|errors|, i requires 0 <= i < |errors| => errors[i].0)
  }

  function Causes(errors: seq<(Byte, Byte)>): (r: seq<Byte>)
    ensures |r| == |errors|
  {
    seq(|errors|, i requires 0 <= i < |errors| => errors[i].1)
  }

  // order visits each session once.
  ghost predicate Visits(order: seq<int>, sessions: set<int>) {
    && (forall id :: id in order <==> id in sessions)
    && (forall i, j :: 0 <= i < j < |order| ==> order[i] != order[j])
  }

  method ReactivatePendingULDataPDUSession(
    q: Request, answers: map<int, Answer>, reactivationResult: array<bool>,
    setupList: seq<int>, errPduSessionId: seq<Byte>, errCause: seq<Byte>)
    returns (setupList': seq<int>, errPduSessionId': seq<Byte>, errCause': seq<Byte>, ghost order: seq<int>)
    requires WellFormed(q) && reactivationResult.Length == PSI_ARRAY_SIZE
    modifies reactivationResult
    ensures Visits(order, answers.Keys)
    ensures setupList' == setupList + SetupList(q, answers, order)
    ensures errPduSessionId' == errPduSessionId + Ids(Errors(q, answers, order))
    ensures errCause' == errCause + Causes(Errors(q, answers, order))
    ensures forall i :: 0 <= i < PSI_ARRAY_SIZE ==>
              reactivationResult[i] ==
                (old(reactivationResult[i])
                 || (i in answers && i in q.psi && q.pending[i] && !(i == q.dlId && q.serviceType == 2)
                     && (answers[i].Error? || answers[i].NoResponse?)))
  {
    hide CauseOf;
    setupList', errPduSessionId', errCause', order := setupList, errPduSessionId, errCause, [];
    var left := answers.Keys;
    while left != {}
      invariant left <= answers.Keys && Visits(order, answers.Keys - left)
      invariant setupList' == setupList + SetupList(q, answers, order)
      invariant errPduSessionId' == errPduSessionId + Ids(Errors(q, answers, order))
      invariant errCause' == errCause + Causes(Errors(q, answers, order))
      invariant forall i :: 0 <= i < PSI_ARRAY_SIZE ==>
                  reactivationResult[i]
                  == (old(reactivationResult[i]) || (i in answers && i !in left && Flagged(OutcomeOf(q, i, answers[i]))))
      decreases left
    {
      var id := AnyOf(left);
      OneMore(q, answers, order, id);
      left := left - {id};
      order := order + [id];
      if id !in q.psi {
        errPduSessionId' := errPduSessionId' + [AsU8(id)];
        errCause' := errCause' + [CAUSE_SEMANTICALLY_INCORRECT_MESSAGE];
      } else if !q.pending[id] || (id == q.dlId && q.serviceType == SERVICE_TYPE_MOBILE_TERMINATED_SERVICES) {
      } else {
        match answers[id]
        case Error =>
          reactivationResult[id] := true;
        case NoResponse(error) =>
          reactivationResult[id] := true;
          errPduSessionId' := errPduSessionId' + [AsU8(id)];
          errCause' := errCause' + [CauseOf(error)];
        case Activated =>
          setupList' := setupList' + [id];
      }
    }
  }

  lemma OneMore(q: Request, answers: map<int, Answer>, order: seq<int>, id: int)
    requires WellFormed(q) && id in answers && forall i :: i in order ==> i in answers
    ensures var o := OutcomeOf(q, id, answers[id]);
      var more := if o.FlagWithCause? || o.CauseOnly? then [(AsU8(id), o.cause)] else [];
      && SetupList(q, answers, order + [id]) == SetupList(q, answers, order) + (if o == SetUp then [id] else [])
      && Ids(Errors(q, answers, order + [id])) == Ids(Errors(q, answers, order)) + Ids(more)
      && Causes(Errors(q, answers, order + [id])) == Causes(Errors(q, answers, order)) + Causes(more)
  {
    assert (order + [id])[..|order|] == order;
  }

  // The setup list holds exactly the sessions that were activated: those in range with a
  // pending bit, save the one the UE was paged for, for which the SMF has given a response.
  // Each is in it once.
  lemma {:induction false} SetupListIsExact(q: Request, answers: map<int, Answer>, order: seq<int>)
    requires WellFormed(q) && (forall id :: id in order ==> id in answers)
    requires forall i, j :: 0 <= i < j < |order| ==> order[i] != order[j]
    ensures forall id :: multiset(SetupList(q, answers, order))[id]
                         == if id in order && id in q.psi && q.pending[id] && !(id == q.dlId && q.serviceType == 2)
                               && answers[id] == Activated
                            then 1 else 0
  {
    if order != [] {
      var front, last := order[..|order| - 1], order[|order| - 1];
      assert order == front + [last];
      SetupListIsExact(q, answers, front);
      assert last !in front;
    }
  }

  // The entry that a session adds to the error lists: its id as an octet, and 95 if it is
  // out of range, or else the cause that goes with the SMF's error response.
  predicate Adds(q: Request, answers: map<int, Answer>, id: int, e: (Byte, Byte))
    requires WellFormed(q) && id in answers
  {
    && e.0 == id % 256
    && if id !in q.psi then e.1 == 95
       else
         && q.pending[id] && !(id == q.dlId && q.serviceType == 2)
         && match answers[id] {
              case NoResponse(None) => e.1 == 111
              case NoResponse(Some("OUT_OF_LADN_SERVICE_AREA")) => e.1 == 43
              case NoResponse(Some("PRIORITIZED_SERVICES_ONLY")) => e.1 == 28
              case NoResponse(Some(text)) => e.1 == if text in {"DNN_CONGESTION", "S-NSSAI_CONGESTION"} then 92 else 111
              case _ => false
            }
  }

  lemma AddsIsOutcome(q: Request, answers: map<int, Answer>, id: int, e: (Byte, Byte))
    requires WellFormed(q) && id in answers
    ensures var o := OutcomeOf(q, id, answers[id]);
      Adds(q, answers, id, e) <==> (o.FlagWithCause? || o.CauseOnly?) && e == (AsU8(id), o.cause)
  {
  }

  // Exactly these sessions add to the error lists. A session for which the call itself
  // failed is only flagged.
  lemma {:induction false} ErrorsAreExact(q: Request, answers: map<int, Answer>, order: seq<int>, e: (Byte, Byte))
    requires WellFormed(q) && forall id :: id in order ==> id in answers
    ensures e in Errors(q, answers, order) <==>
              exists id :: id in order && Adds(q, answers, id, e)
  {
    hide OutcomeOf, Adds;
    if order != [] {
      var front, last := order[..|order| - 1], order[|order| - 1];
      assert order == front + [last];
      ErrorsAreExact(q, answers, front, e);
      AddsIsOutcome(q, answers, last, e);
      assert forall id :: id in order <==> id in front || id == last;
      assert e in Errors(q, answers, order) <==> e in Errors(q, answers, front) || Adds(q, answers, last, e);
    }
  }

  // Setup list and errors are made piece by piece, in the order of visit.
  lemma {:induction false} ListsOfPieces(q: Request, answers: map<int, Answer>, a: seq<int>, b: seq<int>)
    requires WellFormed(q) && forall id :: id in a + b ==> id in answers
    ensures SetupList(q, answers, a + b) == SetupList(q, answers, a) + SetupList(q, answers, b)
    ensures Errors(q, answers, a + b) == Errors(q, answers, a) + Errors(q, answers, b)
  {
    hide OutcomeOf;
    if b == [] {
      assert a + b == a;
    } else {
      ListsOfPieces(q, answers, a, b[..|b| - 1]);
      assert (a + b)[..|a + b| - 1] == a + b[..|b| - 1];
    }
  }

  // Each of these sessions adds one entry.
  lemma ErrorsCount(q: Request, answers: map<int, Answer>, order: seq<int>)
    requires WellFormed(q) && (forall id :: id in order ==> id in answers)
    requires forall i, j :: 0 <= i < j < |order| ==> order[i] != order[j]
    ensures |Errors(q, answers, order)|
            == |set id | id in order
                         && (id !in q.psi || (q.pending[id] && !(id == q.dlId && q.serviceType == 2) && answers[id].NoResponse?))|
  {
    assert (set id | id in order
                     && (id !in q.psi || (q.pending[id] && !(id == q.dlId && q.serviceType == 2) && answers[id].NoResponse?)))
        == set id | id in order && (OutcomeOf(q, id, answers[id]).FlagWithCause? || OutcomeOf(q, id, answers[id]).CauseOnly?);
    ErrorsCountOutcomes(q, answers, order);
  }

  lemma {:induction false} ErrorsCountOutcomes(q: Request, answers: map<int, Answer>, order: seq<int>)
    requires WellFormed(q) && (forall id :: id in order ==> id in answers)
    requires forall i, j :: 0 <= i < j < |order| ==> order[i] != order[j]
    ensures |Errors(q, answers, order)|
            == |set id | id in order && (OutcomeOf(q, id, answers[id]).FlagWithCause? || OutcomeOf(q, id, answers[id]).CauseOnly?)|
  {
    if order != [] {
      var front, last := order[..|order| - 1], order[|order| - 1];
      assert order == front + [last];
      ErrorsCountOutcomes(q, answers, front);
      assert last !in front;
      var o := OutcomeOf(q, last, answers[last]);
      var a := set id | id in front && (OutcomeOf(q, id, answers[id]).FlagWithCause? || OutcomeOf(q, id, answers[id]).CauseOnly?);
      var b := set id | id in order && (OutcomeOf(q, id, answers[id]).FlagWithCause? || OutcomeOf(q, id, answers[id]).CauseOnly?);
      assert b == if o.FlagWithCause? || o.CauseOnly? then a + {last} else a;
    }
  }
}
