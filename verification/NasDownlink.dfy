// The downlink under one set of keys: Encode is called any number of times, for either
// access, with or without the security context being marked as available. Which COUNT
// a message goes out at follows from the calls before it alone, and a UE that keeps
// track of the COUNT opens it (3GPP TS 24.501, sections 4.4.3.1 and 4.4.3.3).

module NasDownlink {
  import opened Basics
  import opened NasCount
  import opened NasSecurity

  // One call and what came of it.
  datatype Call = Call(access: AccessType, msg: NasMessage, available: bool, result: Result<seq<Byte>, NasError>)

  datatype State = State(sec: Security, calls: seq<Call>)

  datatype Event =
    | Send(access: AccessType, msg: NasMessage)
    | Mark(available: bool)      // SecurityContextAvailable is set or cleared
    | Accept(ulCount: Count)     // Decode stores an uplink COUNT

  function Step(lib: Library, s: State, e: Event): State {
    match e
    case Send(access, msg) =>
      var out := Encoding(lib, s.sec, access, msg);
      State(s.sec.(ulCount := out.ulCount, dlCount := out.dlCount),
            s.calls + [Call(access, msg, s.sec.available, out.result)])
    case Mark(available) => s.(sec := s.sec.(available := available))
    case Accept(ulCount) => s.(sec := s.sec.(ulCount := ulCount))
  }

  function Run(lib: Library, start: Security, events: seq<Event>): State {
    if events == [] then State(start, [])
    else Step(lib, Run(lib, start, events[..|events| - 1]), events[|events| - 1])
  }

  // A message that went out protected, and a call that starts the COUNT over.
  predicate Protected(c: Call) {
    c.available && c.result.Ok?
  }

  predicate Restarts(c: Call) {
    c.available && c.msg.header == 3
  }

  // The octets carry the message under this COUNT: its low octet and a downlink MAC made
  // with it, over the message as it is or, under header 2, ciphered with it.
  ghost predicate FramedAt(lib: Library, keys: Keys, c: Call, count: nat) {
    && c.result.Ok? && c.msg.octets.Some? && c.msg.header in {1, 2, 3}
    && var pdu, octets := c.result.value, c.msg.octets.value;
       var bearer: Byte := if c.access == ThreeGpp then 1 else 2;
       && |pdu| >= 7 && pdu[0] == c.msg.epd && pdu[1] == c.msg.header && pdu[6] == count % 0x100
       && lib.mac(CryptoInput(keys.integrityAlg, keys.knasInt, count, bearer, 1), pdu[6..]) == Some(pdu[2..6])
       && if c.msg.header == 2
          then lib.cipher(CryptoInput(keys.cipheringAlg, keys.knasEnc, count, bearer, 1), octets) == Some(pdu[7..])
          else pdu[7..] == octets
  }

  // Without a context these messages go out as they are, and no other does.
  lemma PlainExactly(lib: Library, sec: Security, access: AccessType, msg: NasMessage)
    requires !sec.available
    ensures var out := Encoding(lib, sec, access, msg);
      && out.ulCount == sec.ulCount && out.dlCount == sec.dlCount
      && (out.result.Ok? <==>
            msg.octets.Some? && msg.gmm in {
              Some(IdentityRequest(Some(true))), Some(AuthenticationRequest), Some(AuthenticationResult),
              Some(AuthenticationReject), Some(RegistrationReject), Some(DeregistrationAcceptUeOriginating),
              Some(ServiceReject)})
      && (out.result.Ok? ==> Some(out.result.value) == msg.octets)
  {
  }

  // With one, a message goes out exactly if its header is one of three, it can be encoded,
  // and cipher and MAC work; and then under the stored COUNT, or under 0 if it starts over.
  lemma ProtectedExactly(lib: Library, sec: Security, access: AccessType, msg: NasMessage)
    requires Lawful(lib) && sec.available
    ensures var out := Encoding(lib, sec, access, msg);
      var at := if msg.header == 3 then 0 else Value(sec.dlCount);
      var bearer: Byte := if access == ThreeGpp then 1 else 2;
      var cipher := CryptoInput(sec.keys.cipheringAlg, sec.keys.knasEnc, at, bearer, 1);
      var mac := CryptoInput(sec.keys.integrityAlg, sec.keys.knasInt, at, bearer, 1);
      && (out.result.Ok? <==>
            && msg.header in {1, 2, 3} && msg.octets.Some?
            && (msg.header == 2 ==> lib.cipher(cipher, msg.octets.value).Some?)
            && lib.mac(mac, [at % 0x100] + (if msg.header == 2 then lib.cipher(cipher, msg.octets.value).value
                                             else msg.octets.value)).Some?)
      && (out.result.Ok? ==> FramedAt(lib, sec.keys, Call(access, msg, true, out.result), at))
      && Value(out.dlCount) == (if out.result.Ok? then (at + 1) % 0x100_0000 else at)
      && out.ulCount == (if msg.header == 3 then ZERO else sec.ulCount)
  {
    hide Frame, FramedAt, Lawful, Encoding, Value, AddOne;
    var out, dl := Encoding(lib, sec, access, msg), StartFrom(msg.header, sec.dlCount);
    EncodingIsFrame(lib, sec, access, msg);
    AddOneGoesRound(dl);
    ValueOfZero();
    if msg.header in {1, 2, 3} && msg.octets.Some? {
      FrameExactly(lib, sec.keys, Call(access, msg, true, out.result), dl);
    }
  }

  // Why a message does not go out. Where none of these is the reason the MAC is.
  lemma RefusedExactly(lib: Library, sec: Security, access: AccessType, msg: NasMessage)
    requires Lawful(lib)
    ensures var result := Encoding(lib, sec, access, msg).result;
      var cipher := CryptoInput(sec.keys.cipheringAlg, sec.keys.knasEnc, if msg.header == 3 then 0 else Value(sec.dlCount),
                                if access == ThreeGpp then 1 else 2, 1);
      if sec.available then
        && (result == Err(WrongHeaderType) <==> msg.header !in {1, 2, 3})
        && (result == Err(PlainEncoding) <==> msg.header in {1, 2, 3} && msg.octets == None)
        && (result == Err(Encryption) <==>
              msg.header == 2 && msg.octets.Some? && lib.cipher(cipher, msg.octets.value) == None)
      else
        && (result == Err(GmmIsNil) <==> msg.gmm == None)
        && (result == Err(NeedsSecurity) <==>
              msg.gmm in {Some(IdentityRequest(None)), Some(IdentityRequest(Some(false))), Some(OtherDownlink)})
  {
    hide Frame, FramedAt, Lawful, Encoding, Value, AddOne;
    ValueOfZero();
    if sec.available {
      EncodingIsFrame(lib, sec, access, msg);
      if msg.header in {1, 2, 3} && msg.octets.Some? {
        FrameExactly(lib, sec.keys, Call(access, msg, true, Err(MacCalculation)), StartFrom(msg.header, sec.dlCount));
      }
    } else {
      PlainRefusedExactly(lib, sec, access, msg);
    }
  }

  lemma PlainRefusedExactly(lib: Library, sec: Security, access: AccessType, msg: NasMessage)
    requires !sec.available
    ensures var result := Encoding(lib, sec, access, msg).result;
      && (result == Err(GmmIsNil) <==> msg.gmm == None)
      && (result == Err(NeedsSecurity) <==>
            msg.gmm in {Some(IdentityRequest(None)), Some(IdentityRequest(Some(false))), Some(OtherDownlink)})
  {
    match msg.gmm
    case Some(IdentityRequest(Some(true))) =>
    case Some(IdentityRequest(Some(false))) =>
    case _ =>
  }

  lemma AddOneGoesRound(c: Count)
    ensures Value(AddOne(c)) == (Value(c) + 1) % 0x100_0000
  {
    hide *;
    GoingRound(Value(c), Value(AddOne(c)));
  }

  lemma GoingRound(v: nat, w: nat)
    requires v < COUNT_LIMIT && w == if v == COUNT_LIMIT - 1 then 0 else v + 1
    ensures w == (v + 1) % 0x100_0000
  {
  }

  lemma ValueOfZero()
    ensures Value(ZERO) == 0
  {
  }

  lemma EncodingIsFrame(lib: Library, sec: Security, access: AccessType, msg: NasMessage)
    requires sec.available
    ensures var out, dl := Encoding(lib, sec, access, msg), StartFrom(msg.header, sec.dlCount);
      && out.ulCount == StartFrom(msg.header, sec.ulCount)
      && if msg.header in {1, 2, 3} && msg.octets.Some? then
           && out.result == Frame(lib, sec.keys, access, DOWNLINK, msg.epd, msg.header, dl, msg.octets.value)
           && out.dlCount == if out.result.Ok? then AddOne(dl) else dl
         else out.result == Err(if msg.header in {1, 2, 3} then PlainEncoding else WrongHeaderType) && out.dlCount == dl
  {
    hide Frame;
  }

  lemma FrameExactly(lib: Library, keys: Keys, c: Call, count: Count)
    requires Lawful(lib) && c.msg.header in {1, 2, 3} && c.msg.octets.Some?
    ensures var bearer: Byte := if c.access == ThreeGpp then 1 else 2;
      var cipher := lib.cipher(CryptoInput(keys.cipheringAlg, keys.knasEnc, Value(count), bearer, 1), c.msg.octets.value);
      var framed := Frame(lib, keys, c.access, DOWNLINK, c.msg.epd, c.msg.header, count, c.msg.octets.value);
      && (framed.Ok? <==>
            && (c.msg.header == 2 ==> cipher.Some?)
            && lib.mac(CryptoInput(keys.integrityAlg, keys.knasInt, Value(count), bearer, 1),
                       [Value(count) % 0x100] + (if c.msg.header == 2 then cipher.value else c.msg.octets.value)).Some?)
      && (framed.Err? ==> framed == Err(if c.msg.header == 2 && cipher == None then Encryption else MacCalculation))
      && (framed.Ok? && c.result == framed ==> FramedAt(lib, keys, c, Value(count)))
  {
    var framed := Frame(lib, keys, c.access, DOWNLINK, c.msg.epd, c.msg.header, count, c.msg.octets.value);
    assert Value(count) % 0x100 == count.sqn;
    if framed.Ok? {
      var pdu := framed.value;
      var sent := if c.msg.header == 2
        then lib.cipher(CipherInput(keys, c.access, DOWNLINK, count), c.msg.octets.value).value else c.msg.octets.value;
      var mac := lib.mac(MacInput(keys, c.access, DOWNLINK, count), [count.sqn] + sent).value;
      assert pdu == [c.msg.epd, c.msg.header] + (mac + ([count.sqn] + sent));
      assert pdu[2..6] == mac && pdu[6..] == [count.sqn] + sent && pdu[7..] == sent;
    }
  }

  // ----- whole runs -----

  // The calls from r on, before k, that sent a protected message.
  ghost function ProtectedIn(calls: seq<Call>, r: int, k: nat): (n: set<nat>)
    requires k <= |calls|
    ensures forall j: nat :: j in n <==> r <= j < k && Protected(calls[j])
  {
    set j: nat | r <= j < k && Protected(calls[j])
  }

  // Call r is the last of the first k calls that starts the COUNT over; -1 if none does.
  ghost predicate LastRestart(calls: seq<Call>, r: int, k: nat)
    requires k <= |calls|
  {
    && -1 <= r < k
    && (r >= 0 ==> Restarts(calls[r]))
    && forall j :: r < j < k ==> !Restarts(calls[j])
  }

  function Origin(start: Security, r: int): nat {
    if r == -1 then Value(start.dlCount) else 0
  }

  // As many steps on from there as messages have gone out since.
  ghost function CountAfter(start: Security, calls: seq<Call>, r: int, k: nat): nat
    requires k <= |calls|
  {
    (Origin(start, r) + |ProtectedIn(calls, r, k)|) % 0x100_0000
  }

  ghost predicate FramedInTurn(lib: Library, start: Security, calls: seq<Call>, k: nat)
    requires k < |calls|
  {
    forall r {:trigger LastRestart(calls, r, k + 1)} ::
      LastRestart(calls, r, k + 1) ==> FramedAt(lib, start.keys, calls[k], CountAfter(start, calls, r, k))
  }

  ghost predicate StandsAt(start: Security, s: State) {
    forall r {:trigger LastRestart(s.calls, r, |s.calls|)} ::
      LastRestart(s.calls, r, |s.calls|) ==> Value(s.sec.dlCount) == CountAfter(start, s.calls, r, |s.calls|)
  }

  ghost predicate Inv(lib: Library, start: Security, s: State) {
    && s.sec.keys == start.keys && StandsAt(start, s)
    && forall k {:trigger FramedInTurn(lib, start, s.calls, k)} ::
         0 <= k < |s.calls| && Protected(s.calls[k]) ==> FramedInTurn(lib, start, s.calls, k)
  }

  lemma OneMore(start: Security, calls: seq<Call>, c: Call, r: int, k: nat)
    requires r <= |calls| && k <= |calls|
    ensures LastRestart(calls + [c], r, k) <==> LastRestart(calls, r, k)
    ensures CountAfter(start, calls + [c], r, k) == CountAfter(start, calls, r, k)
    ensures |ProtectedIn(calls + [c], r, |calls| + 1)|
            == |ProtectedIn(calls, r, |calls|)| + if Protected(c) then 1 else 0
  {
    assert ProtectedIn(calls + [c], r, k) == ProtectedIn(calls, r, k);
    var before, after := ProtectedIn(calls, r, |calls|), ProtectedIn(calls + [c], r, |calls| + 1);
    if Protected(c) {
      assert after == before + {|calls|};
    } else {
      assert after == before;
    }
  }

  lemma Plus1(a: nat)
    ensures (a + 1) % 0x100_0000 == (a % 0x100_0000 + 1) % 0x100_0000
  {
  }

  lemma SendOutcome(lib: Library, s: State, access: AccessType, msg: NasMessage)
    requires Lawful(lib)
    ensures var s' := Step(lib, s, Send(access, msg));
      && |s'.calls| == |s.calls| + 1 && s'.calls == s.calls + [s'.calls[|s.calls|]]
      && var c := s'.calls[|s.calls|];
         var at := if Restarts(c) then 0 else Value(s.sec.dlCount);
         && (Protected(c) ==> FramedAt(lib, s.sec.keys, c, at))
         && Value(s'.sec.dlCount) == if Protected(c) then (at + 1) % 0x100_0000 else at
  {
    hide Encoding, FramedAt, Lawful, Value;
    if s.sec.available {
      ProtectedExactly(lib, s.sec, access, msg);
    } else {
      PlainExactly(lib, s.sec, access, msg);
    }
  }

  // The call that is added is framed where the COUNT stands, and moves it on by one at most.
  lemma CallInTurn(lib: Library, start: Security, s: State, access: AccessType, msg: NasMessage, r: int)
    requires Lawful(lib) && Inv(lib, start, s)
    requires var s' := Step(lib, s, Send(access, msg)); LastRestart(s'.calls, r, |s'.calls|)
    ensures var s' := Step(lib, s, Send(access, msg));
      && Value(s'.sec.dlCount) == CountAfter(start, s'.calls, r, |s'.calls|)
      && (Protected(s'.calls[|s.calls|]) ==>
            FramedAt(lib, start.keys, s'.calls[|s.calls|], CountAfter(start, s'.calls, r, |s.calls|)))
  {
    hide Encoding, FramedAt, Lawful, ProtectedIn, Step, Value;
    SendOutcome(lib, s, access, msg);
    var s' := Step(lib, s, Send(access, msg));
    var n, c := |s.calls|, s'.calls[|s.calls|];
    OneMore(start, s.calls, c, r, n);
    if r == n {
      assert ProtectedIn(s'.calls, n, n) == {} == ProtectedIn(s.calls, n, n);
    } else {
      assert LastRestart(s.calls, r, n);
      Plus1(Origin(start, r) + |ProtectedIn(s.calls, r, n)|);
    }
  }

  lemma StepKeepsInv(lib: Library, start: Security, s: State, e: Event)
    requires Lawful(lib) && Inv(lib, start, s)
    ensures Inv(lib, start, Step(lib, s, e))
  {
    hide Encoding, FramedAt, LastRestart, CountAfter;
    if e.Send? {
      var s' := Step(lib, s, e);
      var n, c := |s.calls|, s'.calls[|s.calls|];
      forall r | LastRestart(s'.calls, r, |s'.calls|)
        ensures Value(s'.sec.dlCount) == CountAfter(start, s'.calls, r, |s'.calls|)
        ensures Protected(c) ==> FramedAt(lib, start.keys, c, CountAfter(start, s'.calls, r, n))
      {
        CallInTurn(lib, start, s, e.access, e.msg, r);
      }
      if Protected(c) {
        assert FramedInTurn(lib, start, s'.calls, n);
      }
      forall k | 0 <= k < n && Protected(s'.calls[k]) ensures FramedInTurn(lib, start, s'.calls, k) {
        assert FramedInTurn(lib, start, s.calls, k);
        forall r | LastRestart(s'.calls, r, k + 1)
          ensures FramedAt(lib, start.keys, s'.calls[k], CountAfter(start, s'.calls, r, k))
        {
          LastRestartIsBefore(s'.calls, r, k + 1);
          OneMore(start, s.calls, c, r, k + 1);
          OneMore(start, s.calls, c, r, k);
        }
      }
    }
  }

  lemma LastRestartIsBefore(calls: seq<Call>, r: int, k: nat)
    requires k <= |calls| && LastRestart(calls, r, k)
    ensures -1 <= r < k
  {
  }

  lemma {:induction false} RunKeepsInv(lib: Library, start: Security, events: seq<Event>)
    requires Lawful(lib)
    ensures Inv(lib, start, Run(lib, start, events))
  {
    hide Encoding, FramedAt;
    if events == [] {
      assert ProtectedIn([], -1, 0) == {};
    } else {
      RunKeepsInv(lib, start, events[..|events| - 1]);
      StepKeepsInv(lib, start, Run(lib, start, events[..|events| - 1]), events[|events| - 1]);
    }
  }

  // In every run the n-th message that goes out protected after a restart, or from the start
  // on, is framed n COUNTs on, modulo 2^24. Failed calls and plain messages take no COUNT.
  lemma NthIsFramedAtN(lib: Library, start: Security, events: seq<Event>, r: int, k: nat)
    requires Lawful(lib)
    requires var calls := Run(lib, start, events).calls;
      k < |calls| && Protected(calls[k]) && LastRestart(calls, r, k + 1)
    ensures var calls := Run(lib, start, events).calls;
      var n := |set j: nat | r <= j < k && calls[j].available && calls[j].result.Ok?|;
      FramedAt(lib, start.keys, calls[k], ((if r == -1 then Value(start.dlCount) else 0) + n) % 0x100_0000)
  {
    hide Encoding, FramedAt, LastRestart;
    RunKeepsInv(lib, start, events);
    var calls := Run(lib, start, events).calls;
    assert FramedInTurn(lib, start, calls, k);
    assert ProtectedIn(calls, r, k) == set j: nat | r <= j < k && calls[j].available && calls[j].result.Ok?;
  }

  // Two messages with no restart between them go out at COUNTs that differ by the number
  // of messages between them, so they share one exactly if 2^24 or a multiple has gone out.
  lemma SharesCountExactly(lib: Library, start: Security, events: seq<Event>, j: nat, k: nat)
    requires Lawful(lib)
    requires var calls := Run(lib, start, events).calls;
      && j < k < |calls| && Protected(calls[j]) && Protected(calls[k])
      && forall i :: j < i <= k ==> !Restarts(calls[i])
    ensures var calls := Run(lib, start, events).calls;
      exists c: nat, d: nat | c < 0x100_0000 && d < 0x100_0000 ::
        && FramedAt(lib, start.keys, calls[j], c) && FramedAt(lib, start.keys, calls[k], d)
        && d == (c + |ProtectedIn(calls, j, k)|) % 0x100_0000
        && (c == d <==> |ProtectedIn(calls, j, k)| % 0x100_0000 == 0)
  {
    hide Encoding, FramedAt, Run, Lawful, SentAt, ProtectedIn;
    var calls := Run(lib, start, events).calls;
    IsFramedAt(lib, start, events, j);
    IsFramedAt(lib, start, events, k);
    var c, d, n := SentAt(start, calls, j), SentAt(start, calls, k), |ProtectedIn(calls, j, k)|;
    SentFurtherOn(start, calls, j, k);
    Whole(c, n);
    assert FramedAt(lib, start.keys, calls[j], c) && FramedAt(lib, start.keys, calls[k], d);
  }

  lemma Whole(c: nat, n: nat)
    requires c < 0x100_0000
    ensures c == (c + n) % 0x100_0000 <==> n % 0x100_0000 == 0
  {
  }

  lemma Apart(a: nat, n: nat)
    ensures (a + n) % 0x100_0000 == (a % 0x100_0000 + n) % 0x100_0000
  {
  }

  ghost function FindRestart(calls: seq<Call>, k: nat): (r: int)
    requires k <= |calls|
    ensures LastRestart(calls, r, k)
  {
    if k == 0 then -1 else if Restarts(calls[k - 1]) then k - 1 else FindRestart(calls, k - 1)
  }

  // ----- the UE's side -----

  // What a UE with these keys that stores this COUNT makes of a message: the COUNT it
  // finds and the octets inside.
  function Open(lib: Library, keys: Keys, access: AccessType, stored: Count, pdu: seq<Byte>): Option<(Count, seq<Byte>)> {
    if |pdu| < HEADER_LENGTH then None
    else
      var count := Estimate(if pdu[1] == INTEGRITY_NEW_CONTEXT then ZERO else stored, pdu[6]);
      if lib.mac(MacInput(keys, access, DOWNLINK, count), pdu[6..]) != Some(pdu[2..6]) then None
      else if pdu[1] != INTEGRITY_CIPHERED then Some((count, pdu[HEADER_LENGTH..]))
      else
        match lib.cipher(CipherInput(keys, access, DOWNLINK, count), pdu[HEADER_LENGTH..])
        case None => None
        case Some(octets) => Some((count, octets))
  }

  // It opens a message sent at a COUNT exactly within the window of 256 from its own.
  lemma OpensExactly(lib: Library, keys: Keys, c: Call, count: Count, stored: Count)
    requires Lawful(lib) && BindsCount(lib) && FramedAt(lib, keys, c, Value(count))
    ensures Open(lib, keys, c.access, stored, c.result.value) ==
      if Ahead(if c.msg.header == INTEGRITY_NEW_CONTEXT then ZERO else stored, count) <= 0xff
      then Some((count, c.msg.octets.value)) else None
  {
    hide Lawful, BindsCount, Ahead, Estimate, Value;
    var base := if c.msg.header == INTEGRITY_NEW_CONTEXT then ZERO else stored;
    EstimateWindow(base, count);
    LowOctet(count);
    MacTellsCount(lib, keys, c.access, count, Estimate(base, count.sqn), c.result.value);
    CipherBack(lib, CipherInput(keys, c.access, DOWNLINK, count), c.msg.octets.value);
  }

  lemma LowOctet(c: Count)
    ensures Value(c) % 0x100 == c.sqn
  {
  }

  lemma MacTellsCount(lib: Library, keys: Keys, access: AccessType, count: Count, guess: Count, pdu: seq<Byte>)
    requires BindsCount(lib) && |pdu| >= HEADER_LENGTH
    requires lib.mac(MacInput(keys, access, DOWNLINK, count), pdu[6..]) == Some(pdu[2..6])
    ensures lib.mac(MacInput(keys, access, DOWNLINK, guess), pdu[6..]) == Some(pdu[2..6]) <==> guess == count
  {
    var input := MacInput(keys, access, DOWNLINK, count);
    assert MacInput(keys, access, DOWNLINK, guess) == input.(count := Value(guess));
    assert input == input.(count := Value(count));
    if lib.mac(input.(count := Value(guess)), pdu[6..]) == Some(pdu[2..6]) {
      ValueInjective(guess, count);
    }
  }

  lemma CipherBack(lib: Library, input: CryptoInput, d: seq<Byte>)
    requires Lawful(lib)
    ensures lib.cipher(input, d).Some? ==> lib.cipher(input, lib.cipher(input, d).value) == Some(d)
  {
  }

  // After call j, call k may be the next to reach the UE: it starts over, or nothing has
  // since and no more than 255 messages were lost or are on their way.
  ghost predicate MayFollow(calls: seq<Call>, j: nat, k: nat) {
    && j < k < |calls| && Protected(calls[j]) && Protected(calls[k])
    && (|| Restarts(calls[k])
        || ((forall i :: j < i < k ==> !Restarts(calls[i])) && |ProtectedIn(calls, j, k)| <= 0xff))
  }

  ghost predicate Delivery(calls: seq<Call>, ks: seq<nat>) {
    && (ks != [] ==> ks[0] < |calls| && Protected(calls[ks[0]]) && Restarts(calls[ks[0]]))
    && forall i :: 0 < i < |ks| ==> MayFollow(calls, ks[i - 1], ks[i])
  }

  // The UE opens these messages one after the other: its COUNT and what it has read,
  // or None if one of them could not be opened.
  function Reads(lib: Library, keys: Keys, calls: seq<Call>, ks: seq<nat>): Option<(Count, seq<seq<Byte>>)>
    requires forall i :: 0 <= i < |ks| ==> ks[i] < |calls| && calls[ks[i]].result.Ok?
  {
    if ks == [] then Some((ZERO, []))
    else
      match Reads(lib, keys, calls, ks[..|ks| - 1])
      case None => None
      case Some((stored, read)) =>
        var c := calls[ks[|ks| - 1]];
        match Open(lib, keys, c.access, stored, c.result.value)
        case None => None
        case Some((count, octets)) => Some((count, read + [octets]))
  }

  lemma {:induction false} DeliveredAreProtected(calls: seq<Call>, ks: seq<nat>, i: nat)
    requires Delivery(calls, ks) && i < |ks|
    ensures ks[i] < |calls| && Protected(calls[ks[i]])
  {
    if i > 0 {
      assert MayFollow(calls, ks[i - 1], ks[i]);
    }
  }

  // Where call k is framed: by the last restart up to it.
  ghost function SentAt(start: Security, calls: seq<Call>, k: nat): (v: nat)
    requires k < |calls|
    ensures v < COUNT_LIMIT
  {
    CountAfter(start, calls, FindRestart(calls, k + 1), k)
  }

  lemma LastRestartIsOne(calls: seq<Call>, r: int, r': int, k: nat)
    requires k <= |calls| && LastRestart(calls, r, k) && LastRestart(calls, r', k)
    ensures r == r'
  {
  }

  lemma SentFurtherOn(start: Security, calls: seq<Call>, j: nat, k: nat)
    requires j < k < |calls| && Protected(calls[j]) && forall i :: j < i <= k ==> !Restarts(calls[i])
    ensures SentAt(start, calls, k) == (SentAt(start, calls, j) + |ProtectedIn(calls, j, k)|) % 0x100_0000
  {
    hide Protected, Restarts;
    var r := FindRestart(calls, j + 1);
    assert LastRestart(calls, r, k + 1);
    LastRestartIsOne(calls, r, FindRestart(calls, k + 1), k + 1);
    assert ProtectedIn(calls, r, k) == ProtectedIn(calls, r, j) + ProtectedIn(calls, j, k);
    Apart(Origin(start, r) + |ProtectedIn(calls, r, j)|, |ProtectedIn(calls, j, k)|);
  }

  lemma SentAtStep(start: Security, calls: seq<Call>, j: nat, k: nat)
    requires j < k < |calls| && Protected(calls[j]) && forall i :: j < i <= k ==> !Restarts(calls[i])
    ensures Ahead(FromValue(SentAt(start, calls, j)), FromValue(SentAt(start, calls, k)))
            == |ProtectedIn(calls, j, k)| % 0x100_0000
  {
    hide Ahead, FromValue, SentAt, ProtectedIn;
    SentFurtherOn(start, calls, j, k);
    AheadBy(FromValue(SentAt(start, calls, j)), FromValue(SentAt(start, calls, k)), |ProtectedIn(calls, j, k)|);
  }

  lemma AheadBy(c: Count, d: Count, n: nat)
    requires Value(d) == (Value(c) + n) % 0x100_0000
    ensures Ahead(c, d) == n % 0x100_0000
  {
  }

  // In every run of calls a UE that is given a message which starts the COUNT over, and
  // from then on any of the messages in their order, reads the octets of each of them,
  // provided it does not miss 256 in a row nor a restart.
  lemma {:induction false} UeReadsAll(lib: Library, start: Security, events: seq<Event>, ks: seq<nat>)
    requires Lawful(lib) && BindsCount(lib)
    requires Delivery(Run(lib, start, events).calls, ks)
    ensures var calls := Run(lib, start, events).calls;
      && (forall i :: 0 <= i < |ks| ==> ks[i] < |calls| && calls[ks[i]].result.Ok? && calls[ks[i]].msg.octets.Some?)
      && var got := Reads(lib, start.keys, calls, ks);
         && got.Some? && |got.value.1| == |ks|
         && (ks != [] ==> got.value.0 == FromValue(SentAt(start, calls, ks[|ks| - 1])))
         && forall i :: 0 <= i < |ks| ==> got.value.1[i] == calls[ks[i]].msg.octets.value
  {
    hide Run, Encoding, FramedAt, Open, SentAt, Lawful, BindsCount, Ahead;
    var calls := Run(lib, start, events).calls;
    if ks != [] {
      var before, k := ks[..|ks| - 1], ks[|ks| - 1];
      UeReadsAll(lib, start, events, before);
      DeliveredAreProtected(calls, ks, |ks| - 1);
      if before != [] {
        assert MayFollow(calls, before[|before| - 1], k);
        if !Restarts(calls[k]) {
          SentAtStep(start, calls, before[|before| - 1], k);
        }
      }
      OpensHere(lib, start, events, k, Reads(lib, start.keys, calls, before).value.0);
    }
  }

  lemma RestartIsAtZero(start: Security, calls: seq<Call>, k: nat)
    requires k < |calls|
    ensures Restarts(calls[k]) ==> SentAt(start, calls, k) == 0
  {
    if Restarts(calls[k]) {
      LastRestartIsOne(calls, k, FindRestart(calls, k + 1), k + 1);
      assert ProtectedIn(calls, k, k) == {};
    }
  }

  lemma OpensHere(lib: Library, start: Security, events: seq<Event>, k: nat, stored: Count)
    requires Lawful(lib) && BindsCount(lib)
    requires var calls := Run(lib, start, events).calls;
      && k < |calls| && Protected(calls[k])
      && (Restarts(calls[k]) || Ahead(stored, FromValue(SentAt(start, calls, k))) <= 0xff)
    ensures var calls := Run(lib, start, events).calls;
      && calls[k].msg.octets.Some?
      && Open(lib, start.keys, calls[k].access, stored, calls[k].result.value)
         == Some((FromValue(SentAt(start, calls, k)), calls[k].msg.octets.value))
  {
    hide Run, Encoding, Open, Lawful, BindsCount, SentAt, Ahead, FromValue, Value;
    var calls := Run(lib, start, events).calls;
    IsFramedAt(lib, start, events, k);
    RestartIsAtZero(start, calls, k);
    NothingIsAhead();
    OpensExactly(lib, start.keys, calls[k], FromValue(SentAt(start, calls, k)), stored);
  }

  lemma NothingIsAhead()
    ensures FromValue(0) == ZERO && Ahead(ZERO, ZERO) == 0
  {
    hide Value, FromValue;
    ValueOfZero();
    ValueInjective(FromValue(0), ZERO);
  }

  // With no restart since the message it read last, a UE opens the next one to reach it
  // exactly if fewer than 256 COUNTs lie between them, going round the counter.
  lemma NextIsReadExactly(lib: Library, start: Security, events: seq<Event>, j: nat, k: nat)
    requires Lawful(lib) && BindsCount(lib)
    requires var calls := Run(lib, start, events).calls;
      && j < k < |calls| && Protected(calls[j]) && Protected(calls[k])
      && forall i :: j < i <= k ==> !Restarts(calls[i])
    ensures var calls := Run(lib, start, events).calls;
      && calls[k].msg.octets.Some?
      && Open(lib, start.keys, calls[k].access, FromValue(SentAt(start, calls, j)), calls[k].result.value)
         == if |ProtectedIn(calls, j, k)| % 0x100_0000 <= 0xff
            then Some((FromValue(SentAt(start, calls, k)), calls[k].msg.octets.value)) else None
  {
    hide Run, Encoding, Open, Lawful, BindsCount, Ahead, SentAt, FromValue;
    var calls := Run(lib, start, events).calls;
    SentAtStep(start, calls, j, k);
    IsFramedAt(lib, start, events, k);
    OpensExactly(lib, start.keys, calls[k], FromValue(SentAt(start, calls, k)), FromValue(SentAt(start, calls, j)));
  }

  lemma IsFramedAt(lib: Library, start: Security, events: seq<Event>, k: nat)
    requires Lawful(lib)
    requires var calls := Run(lib, start, events).calls; k < |calls| && Protected(calls[k])
    ensures var calls := Run(lib, start, events).calls; FramedAt(lib, start.keys, calls[k], SentAt(start, calls, k))
  {
    hide Run, Encoding, Lawful, FramedAt;
    RunKeepsInv(lib, start, events);
    assert FramedInTurn(lib, start, Run(lib, start, events).calls, k);
  }
}
