// NAS message security: Encode protects a downlink message, Decode checks an
// uplink one, estimates its COUNT and decides whether it may be processed
// (3GPP TS 24.501, sections 4.4.3.1, 4.4.4.3 and 9.1.1).
// Decoding and Encoding specify the two methods.

module NasSecurity {
  import opened Basics
  import opened NasCount
  import opened Context

  // ----- cryptography and message contents, kept abstract -----

  const UPLINK: Byte := 0
  const DOWNLINK: Byte := 1

  function BearerType(access: AccessType): Byte {
    match access
    case ThreeGpp => 1
    case NonThreeGpp => 2
  }

  datatype CryptoInput = CryptoInput(alg: Byte, key: seq<Byte>, count: nat, bearer: Byte, direction: Byte)

  // The contents of an uplink message, as far as the acceptance rules look at them.
  datatype Plain =
    | NonGmm
    | RegistrationRequest
    | DeregistrationRequest
    | ServiceRequest
    | IdentityResponse(suci: bool)
    | AuthenticationResponse
    | AuthenticationFailure
    | SecurityModeReject
    | DeregistrationAccept
    | SecurityModeComplete
    | OtherGmm

  // NASMacCalculate, NASEncrypt and PlainNasDecode; None is their error return.
  datatype Library = Library(
    mac: (CryptoInput, seq<Byte>) -> Option<seq<Byte>>,
    cipher: (CryptoInput, seq<Byte>) -> Option<seq<Byte>>,
    plainDecode: seq<Byte> -> Option<Plain>)

  // A MAC has four octets and exists whatever the COUNT; a cipher is its own inverse.
  ghost predicate Lawful(lib: Library) {
    && (forall i: CryptoInput, d, c: nat {:trigger lib.mac(i.(count := c), d)} ::
          lib.mac(i.(count := c), d).Some? == lib.mac(i, d).Some?)
    && (forall i, d :: lib.mac(i, d).Some? ==> |lib.mac(i, d).value| == 4)
    && (forall i, d :: lib.cipher(i, d).Some? ==> |lib.cipher(i, d).value| == |d|)
    && (forall i, d {:trigger lib.cipher(i, lib.cipher(i, d).value)} ::
          lib.cipher(i, d).Some? ==> lib.cipher(i, lib.cipher(i, d).value) == Some(d))
  }

  // Ideal MAC: the same octets never carry the same MAC under two COUNTs.
  ghost predicate BindsCount(lib: Library) {
    forall i: CryptoInput, d, c: nat, c': nat {:trigger lib.mac(i.(count := c), d), lib.mac(i.(count := c'), d)} ::
      (c < COUNT_LIMIT && c' < COUNT_LIMIT && lib.mac(i.(count := c), d).Some?
       && lib.mac(i.(count := c), d) == lib.mac(i.(count := c'), d)) ==> c == c'
  }

  // ----- security header types -----

  const PLAIN: Byte := 0
  const INTEGRITY: Byte := 1
  const INTEGRITY_CIPHERED: Byte := 2
  const INTEGRITY_NEW_CONTEXT: Byte := 3
  const INTEGRITY_CIPHERED_NEW_CONTEXT: Byte := 4

  const HEADER_LENGTH := 7  // discriminator, header type, MAC (4), sequence number
  const MIN_PROTECTED_LENGTH := 10

  // The part of an AmfUe that Decode and Encode read.
  datatype Keys = Keys(knasInt: seq<Byte>, knasEnc: seq<Byte>, integrityAlg: Byte, cipheringAlg: Byte)

  datatype Security = Security(available: bool, keys: Keys, ulCount: Count, dlCount: Count)

  function KeysOf(ue: AmfUe): Keys
    reads ue`knasInt, ue`knasEnc, ue`integrityAlg, ue`cipheringAlg
  {
    Keys(ue.knasInt, ue.knasEnc, ue.integrityAlg, ue.cipheringAlg)
  }

  function SecurityOf(ue: AmfUe): Security
    reads ue`securityContextAvailable, ue`knasInt, ue`knasEnc, ue`integrityAlg, ue`cipheringAlg, ue`ulCount, ue`dlCount
  {
    Security(ue.securityContextAvailable, KeysOf(ue), ue.ulCount, ue.dlCount)
  }

  function MacInput(keys: Keys, access: AccessType, direction: Byte, count: Count): CryptoInput {
    CryptoInput(keys.integrityAlg, keys.knasInt, Value(count), BearerType(access), direction)
  }

  function CipherInput(keys: Keys, access: AccessType, direction: Byte, count: Count): CryptoInput {
    CryptoInput(keys.cipheringAlg, keys.knasEnc, Value(count), BearerType(access), direction)
  }

  datatype NasError =
    | UeIsNil | PayloadIsNil | TooShort | WrongHeaderType | CipheredWithoutContext
    | MacCalculation | CipheredMacFailed | Decryption | PlainDecoding
    | NoSecurityContext | WrongSecurityHeader | MacVerificationFailed
    | MessageIsNil | GmmIsNil | NeedsSecurity | PlainEncoding | Encryption

  // ----- Decode -----

  predicate Ciphered(header: Byte) {
    header == INTEGRITY_CIPHERED || header == INTEGRITY_CIPHERED_NEW_CONTEXT
  }

  // The COUNT under which a message with this header and sequence number is checked.
  function CountFor(stored: Count, header: Byte, sqn: Byte): Count {
    Estimate(if header == INTEGRITY_CIPHERED_NEW_CONTEXT then ZERO else stored, sqn)
  }

  // The header a message must carry once a security context exists; the three
  // errors are tried in this order.
  function Require(required: Byte, sec: Security, header: Byte, intact: bool): Option<NasError> {
    if !sec.available then Some(NoSecurityContext)
    else if header != required then Some(WrongSecurityHeader)
    else if !intact then Some(MacVerificationFailed)
    else None
  }

  function RequireIfAvailable(required: Byte, sec: Security, header: Byte, intact: bool): Option<NasError> {
    if sec.available then Require(required, sec, header, intact) else None
  }

  // Which decoded messages go on to be processed; None lets the message through.
  function Refusal(plain: Plain, sec: Security, header: Byte, initial: bool, intact: bool): Option<NasError> {
    match plain
    case RegistrationRequest | DeregistrationRequest =>
      if initial then (if Ciphered(header) then Some(WrongSecurityHeader) else None)
      else RequireIfAvailable(INTEGRITY_CIPHERED, sec, header, intact)
    case ServiceRequest =>
      if initial then (if header != INTEGRITY then Some(WrongSecurityHeader) else None)
      else Require(INTEGRITY_CIPHERED, sec, header, intact)
    case IdentityResponse(true) => RequireIfAvailable(INTEGRITY_CIPHERED, sec, header, intact)
    case AuthenticationResponse | AuthenticationFailure | SecurityModeReject | DeregistrationAccept =>
      RequireIfAvailable(INTEGRITY_CIPHERED, sec, header, intact)
    case SecurityModeComplete => Require(INTEGRITY_CIPHERED_NEW_CONTEXT, sec, header, intact)
    case NonGmm | IdentityResponse(false) | OtherGmm => Require(INTEGRITY_CIPHERED, sec, header, intact)
  }

  datatype Accepted = Accepted(header: Byte, plain: Plain, integrityProtected: bool)

  // What Decode returns, the uplink COUNT it leaves and the buffer it leaves.
  datatype Decoded = Decoded(result: Result<Accepted, NasError>, ulCount: Count, pdu: seq<Byte>)

  // Header and MAC of a protected message: the error, or whether the MAC matched.
  function CheckMac(lib: Library, sec: Security, access: AccessType, pdu: seq<Byte>): Result<bool, NasError>
    requires |pdu| >= 2
  {
    var header := pdu[1] % 0x10;
    if |pdu| < MIN_PROTECTED_LENGTH then Err(TooShort)
    else if header !in {INTEGRITY, INTEGRITY_CIPHERED, INTEGRITY_CIPHERED_NEW_CONTEXT} then Err(WrongHeaderType)
    else if Ciphered(header) && !sec.available then Err(CipheredWithoutContext)
    else if !sec.available then Ok(false)
    else
      match lib.mac(MacInput(sec.keys, access, UPLINK, CountFor(sec.ulCount, header, pdu[6])), pdu[6..])
      case None => Err(MacCalculation)
      case Some(mac) => Ok(mac == pdu[2..6])
  }

  // The octets after the header, deciphered where the header says so.
  function OpenBody(lib: Library, sec: Security, access: AccessType, pdu: seq<Byte>, intact: bool)
    : Result<seq<Byte>, NasError>
    requires |pdu| >= HEADER_LENGTH
  {
    var header := pdu[1] % 0x10;
    if !Ciphered(header) then Ok(pdu[HEADER_LENGTH..])
    else if !intact then Err(CipheredMacFailed)
    else
      match lib.cipher(CipherInput(sec.keys, access, UPLINK, CountFor(sec.ulCount, header, pdu[6])), pdu[HEADER_LENGTH..])
      case None => Err(Decryption)
      case Some(body) => Ok(body)
  }

  function Judge(lib: Library, sec: Security, header: Byte, body: seq<Byte>, initial: bool, intact: bool)
    : Result<Accepted, NasError>
  {
    match lib.plainDecode(body)
    case None => Err(PlainDecoding)
    case Some(plain) =>
      match Refusal(plain, sec, header, initial, intact)
      case Some(e) => Err(e)
      case None => Ok(Accepted(header, plain, intact))
  }

  function Decoding(lib: Library, sec: Security, access: AccessType, pdu: seq<Byte>, initial: bool): Decoded {
    if |pdu| < 2 then Decoded(Err(TooShort), sec.ulCount, pdu)
    else if pdu[1] % 0x10 == PLAIN then
      Decoded(Judge(lib, sec, PLAIN, pdu, initial, false), sec.ulCount, pdu)
    else
      match CheckMac(lib, sec, access, pdu)
      case Err(e) => Decoded(Err(e), sec.ulCount, pdu)
      case Ok(intact) =>
        var header := pdu[1] % 0x10;
        match OpenBody(lib, sec, access, pdu, intact)
        case Err(e) => Decoded(Err(e), sec.ulCount, pdu)
        case Ok(body) =>
          var result := Judge(lib, sec, header, body, initial, intact);
          Decoded(result,
                  if result.Ok? && intact then CountFor(sec.ulCount, header, pdu[6]) else sec.ulCount,
                  pdu[..HEADER_LENGTH] + body)
  }

  // NASEncrypt on payload[7..]: the octets are replaced in the caller's buffer.
  method DecipherInPlace(lib: Library, input: CryptoInput, payload: array<Byte>) returns (done: bool)
    requires Lawful(lib) && payload.Length >= HEADER_LENGTH
    modifies payload
    ensures done <==> lib.cipher(input, old(payload[HEADER_LENGTH..])).Some?
    ensures payload[..HEADER_LENGTH] == old(payload[..HEADER_LENGTH])
    ensures payload[HEADER_LENGTH..]
            == if done then lib.cipher(input, old(payload[HEADER_LENGTH..])).value else old(payload[HEADER_LENGTH..])
  {
    var output := lib.cipher(input, payload[HEADER_LENGTH..]);
    done := output.Some?;
    if done {
      forall i | HEADER_LENGTH <= i < payload.Length {
        payload[i] := output.value[i - HEADER_LENGTH];
      }
      assert payload[HEADER_LENGTH..] == output.value;
    }
  }

  // The branch for protected messages: COUNT estimate, MAC check and deciphering.
  method Unprotect(lib: Library, ue: AmfUe, access: AccessType, payload: array<Byte>)
    returns (result: Result<bool, NasError>, ulCountNew: Count)
    requires Lawful(lib) && payload.Length >= 2 && payload[1] % 0x10 != PLAIN
    modifies payload
    ensures var check := old(CheckMac(lib, SecurityOf(ue), access, payload[..]));
      check.Err? ==> result == Err(check.error) && payload[..] == old(payload[..])
    ensures var sec, pdu := old(SecurityOf(ue)), old(payload[..]);
      var check := CheckMac(lib, sec, access, pdu);
      check.Ok? ==>
        var body := OpenBody(lib, sec, access, pdu, check.value);
        if body.Err? then result == Err(body.error) && payload[..] == pdu
        else result == check && payload[..] == pdu[..HEADER_LENGTH] + body.value
             && (check.value ==> ulCountNew == CountFor(sec.ulCount, pdu[1] % 0x10, pdu[6]))
  {
    ulCountNew := ue.ulCount;
    var header: Byte := payload[1] % 0x10;
    if payload.Length < MIN_PROTECTED_LENGTH { return Err(TooShort), ulCountNew; }
    var sequenceNumber, receivedMac := payload[6], payload[2..6];

    var ciphered := false;
    if header == INTEGRITY {
    } else if header == INTEGRITY_CIPHERED {
      ciphered := true;
    } else if header == INTEGRITY_CIPHERED_NEW_CONTEXT {
      ciphered := true;
      ulCountNew := ZERO;
    } else {
      return Err(WrongHeaderType), ulCountNew;
    }
    if ciphered && !ue.securityContextAvailable { return Err(CipheredWithoutContext), ulCountNew; }

    var integrityProtected := false;
    if ue.securityContextAvailable {
      if ulCountNew.sqn > sequenceNumber {
        ulCountNew := ulCountNew.(overflow := Next16(ulCountNew.overflow));
      }
      ulCountNew := ulCountNew.(sqn := sequenceNumber);
      var mac := lib.mac(
        CryptoInput(ue.integrityAlg, ue.knasInt, Value(ulCountNew), BearerType(access), UPLINK), payload[6..]);
      if mac.None? { return Err(MacCalculation), ulCountNew; }
      integrityProtected := mac.value == receivedMac;
    }

    ghost var pdu := payload[..];
    assert pdu[6..] == payload[6..] && pdu[2..6] == receivedMac;
    assert pdu[HEADER_LENGTH..] == payload[HEADER_LENGTH..];
    if ciphered {
      if !integrityProtected { return Err(CipheredMacFailed), ulCountNew; }
      var input := CryptoInput(ue.cipheringAlg, ue.knasEnc, Value(ulCountNew), BearerType(access), UPLINK);
      var done := DecipherInPlace(lib, input, payload);
      assert done <==> lib.cipher(input, pdu[HEADER_LENGTH..]).Some?;
      assert payload[..] == payload[..HEADER_LENGTH] + payload[HEADER_LENGTH..];
      assert pdu == pdu[..HEADER_LENGTH] + pdu[HEADER_LENGTH..];
      if !done {
        assert CheckMac(lib, old(SecurityOf(ue)), access, pdu) == Ok(true);
        assert input == CipherInput(KeysOf(ue), access, UPLINK, CountFor(old(ue.ulCount), header, pdu[6]));
        assert OpenBody(lib, old(SecurityOf(ue)), access, pdu, true) == Err(Decryption);
        return Err(Decryption), ulCountNew;
      }
    } else {
      assert pdu == pdu[..HEADER_LENGTH] + pdu[HEADER_LENGTH..];
    }
    result := Ok(integrityProtected);
  }

  // Decode works on a copy of the stored COUNT, re-slices the payload, deciphers
  // it in place and commits the COUNT only at the end, after an intact MAC.
  method Decode(lib: Library, ue: AmfUe?, access: AccessType, payload: array?<Byte>, initial: bool)
    returns (result: Result<Accepted, NasError>)
    requires Lawful(lib)
    modifies (if ue == null then {} else {ue})`ulCount, if payload == null then {} else {payload}
    ensures ue == null ==> result == Err(UeIsNil)
    ensures ue != null && payload == null ==> result == Err(PayloadIsNil)
    ensures ue == null && payload != null ==> payload[..] == old(payload[..])
    ensures ue != null && payload == null ==> ue.ulCount == old(ue.ulCount)
    ensures ue != null && payload != null ==>
              Decoded(result, ue.ulCount, payload[..]) == old(Decoding(lib, SecurityOf(ue), access, payload[..], initial))
  {
    if ue == null { return Err(UeIsNil); }
    if payload == null { return Err(PayloadIsNil); }
    if payload.Length < 2 { return Err(TooShort); }

    var header: Byte := payload[1] % 0x10;
    var start, integrityProtected, ulCountNew := 0, false, ue.ulCount;
    if header != PLAIN {
      var unprotected, count := Unprotect(lib, ue, access, payload);
      if unprotected.Err? { return Err(unprotected.error); }
      start, integrityProtected, ulCountNew := HEADER_LENGTH, unprotected.value, count;
    }

    var plain := lib.plainDecode(payload[start..]);
    if plain.None? { return Err(PlainDecoding); }
    var refusal := Refusal(plain.value, SecurityOf(ue), header, initial, integrityProtected);
    if refusal.Some? { return Err(refusal.value); }
    if integrityProtected {
      ue.ulCount := ulCountNew;
    }
    result := Ok(Accepted(header, plain.value, integrityProtected));
  }

  // ----- Encode -----

  // The message types Encode lets out without a security context, and the rest.
  datatype Downlink =
    | IdentityRequest(suci: Option<bool>)  // None: the message body is missing
    | AuthenticationRequest | AuthenticationResult | AuthenticationReject
    | RegistrationReject | DeregistrationAcceptUeOriginating | ServiceReject
    | OtherDownlink

  // octets is what PlainNasEncode returns, None being its error.
  datatype NasMessage = NasMessage(epd: Byte, header: Byte, gmm: Option<Downlink>, octets: Option<seq<Byte>>)

  predicate MayGoPlain(gmm: Downlink) {
    gmm != OtherDownlink && (gmm.IdentityRequest? ==> gmm.suci == Some(true))
  }

  // A protected message: discriminator, header type, MAC, sequence number, body.
  // The MAC covers the sequence number and the body as sent.
  function Frame(lib: Library, keys: Keys, access: AccessType, direction: Byte, epd: Byte, header: Byte,
                 count: Count, body: seq<Byte>): Result<seq<Byte>, NasError>
  {
    match (if Ciphered(header) then lib.cipher(CipherInput(keys, access, direction, count), body) else Some(body))
    case None => Err(Encryption)
    case Some(sent) =>
      match lib.mac(MacInput(keys, access, direction, count), [count.sqn] + sent)
      case None => Err(MacCalculation)
      case Some(mac) => Ok([epd, header] + (mac + ([count.sqn] + sent)))
  }

  datatype Encoded = Encoded(result: Result<seq<Byte>, NasError>, ulCount: Count, dlCount: Count)

  function EncodePlain(gmm: Option<Downlink>, octets: Option<seq<Byte>>): Result<seq<Byte>, NasError> {
    match gmm
    case None => Err(GmmIsNil)
    case Some(m) =>
      if !MayGoPlain(m) then Err(NeedsSecurity)
      else if octets.None? then Err(PlainEncoding)
      else Ok(octets.value)
  }

  // What a protected message leaves, starting from these COUNTs.
  function EncodeFrom(lib: Library, keys: Keys, access: AccessType, msg: NasMessage, ul: Count, dl: Count): Encoded {
    if msg.octets.None? then Encoded(Err(PlainEncoding), ul, dl)
    else
      var framed := Frame(lib, keys, access, DOWNLINK, msg.epd, msg.header, dl, msg.octets.value);
      Encoded(framed, ul, if framed.Ok? then AddOne(dl) else dl)
  }

  // A header for a new security context resets the COUNT.
  function StartFrom(header: Byte, count: Count): Count {
    if header == INTEGRITY_NEW_CONTEXT then ZERO else count
  }

  function EncodeProtected(lib: Library, sec: Security, access: AccessType, msg: NasMessage): Encoded {
    if msg.header in {INTEGRITY, INTEGRITY_CIPHERED, INTEGRITY_NEW_CONTEXT} then
      EncodeFrom(lib, sec.keys, access, msg, StartFrom(msg.header, sec.ulCount), StartFrom(msg.header, sec.dlCount))
    else Encoded(Err(WrongHeaderType), sec.ulCount, sec.dlCount)
  }

  function Encoding(lib: Library, sec: Security, access: AccessType, msg: NasMessage): Encoded {
    if sec.available then EncodeProtected(lib, sec, access, msg)
    else Encoded(EncodePlain(msg.gmm, msg.octets), sec.ulCount, sec.dlCount)
  }

  method Encode(lib: Library, ue: AmfUe?, msg: Option<NasMessage>, access: AccessType)
    returns (result: Result<seq<Byte>, NasError>)
    modifies (if ue == null then {} else {ue})`ulCount, (if ue == null then {} else {ue})`dlCount
    ensures msg.None? ==> result == Err(MessageIsNil)
    ensures msg.Some? && ue == null ==> result == EncodePlain(msg.value.gmm, msg.value.octets)
    ensures msg.None? && ue != null ==> ue.ulCount == old(ue.ulCount) && ue.dlCount == old(ue.dlCount)
    ensures msg.Some? && ue != null ==>
              Encoded(result, ue.ulCount, ue.dlCount) == old(Encoding(lib, SecurityOf(ue), access, msg.value))
  {
    if msg.None? { return Err(MessageIsNil); }
    var m := msg.value;
    if ue == null || !ue.securityContextAvailable {
      if m.gmm.None? { return Err(GmmIsNil); }
      if !MayGoPlain(m.gmm.value) { return Err(NeedsSecurity); }
      return if m.octets.None? then Err(PlainEncoding) else Ok(m.octets.value);
    }

    result := EncodeSecured(lib, ue, m, access);
  }

  method EncodeSecured(lib: Library, ue: AmfUe, m: NasMessage, access: AccessType)
    returns (result: Result<seq<Byte>, NasError>)
    modifies ue`ulCount, ue`dlCount
    ensures Encoded(result, ue.ulCount, ue.dlCount) == old(EncodeProtected(lib, SecurityOf(ue), access, m))
  {
    var needCiphering := SelectProtection(ue, m.header);
    if needCiphering.Err? { return Err(needCiphering.error); }
    result := EncodeAndCount(lib, ue, m, access, needCiphering.value);
  }

  // The switch over the header type. The COUNTs are reset here, before anything can fail.
  method SelectProtection(ue: AmfUe, header: Byte) returns (needCiphering: Result<bool, NasError>)
    modifies ue`ulCount, ue`dlCount
    ensures ue.ulCount == StartFrom(header, old(ue.ulCount)) && ue.dlCount == StartFrom(header, old(ue.dlCount))
    ensures needCiphering == if header in {INTEGRITY, INTEGRITY_CIPHERED, INTEGRITY_NEW_CONTEXT}
                             then Ok(Ciphered(header)) else Err(WrongHeaderType)
  {
    if header == INTEGRITY {
      needCiphering := Ok(false);
    } else if header == INTEGRITY_CIPHERED {
      needCiphering := Ok(true);
    } else if header == INTEGRITY_NEW_CONTEXT {
      needCiphering := Ok(false);
      ue.ulCount, ue.dlCount := ZERO, ZERO;
    } else {
      needCiphering := Err(WrongHeaderType);
    }
  }

  method EncodeAndCount(lib: Library, ue: AmfUe, m: NasMessage, access: AccessType, needCiphering: bool)
    returns (result: Result<seq<Byte>, NasError>)
    requires needCiphering == Ciphered(m.header)
    modifies ue`dlCount
    ensures Encoded(result, ue.ulCount, ue.dlCount)
            == old(EncodeFrom(lib, KeysOf(ue), access, m, ue.ulCount, ue.dlCount))
  {
    if m.octets.None? { return Err(PlainEncoding); }
    result := Protect(lib, KeysOf(ue), access, m.epd, m.header, ue.dlCount, needCiphering, m.octets.value);
    if result.Ok? {
      ue.dlCount := AddOne(ue.dlCount);
    }
  }

  // Ciphering, sequence number, MAC and header, each put in front of the last.
  method Protect(lib: Library, keys: Keys, access: AccessType, epd: Byte, header: Byte, count: Count,
                 needCiphering: bool, plain: seq<Byte>) returns (result: Result<seq<Byte>, NasError>)
    requires needCiphering == Ciphered(header)
    ensures result == Frame(lib, keys, access, DOWNLINK, epd, header, count, plain)
  {
    var payload := plain;
    if needCiphering {
      var sent := lib.cipher(CipherInput(keys, access, DOWNLINK, count), payload);
      if sent.None? { return Err(Encryption); }
      payload := sent.value;
    }
    payload := [count.sqn] + payload;
    var mac := lib.mac(MacInput(keys, access, DOWNLINK, count), payload);
    if mac.None? { return Err(MacCalculation); }
    payload := mac.value + payload;
    payload := [epd, header] + payload;
    result := Ok(payload);
  }

  // ----- what Encode and Decode promise together -----

  lemma FrameLayout(lib: Library, keys: Keys, access: AccessType, epd: Byte, header: Byte, count: Count,
                    body: seq<Byte>, pdu: seq<Byte>)
    requires Lawful(lib)
    requires Frame(lib, keys, access, UPLINK, epd, header, count, body) == Ok(pdu)
    ensures |pdu| == HEADER_LENGTH + |body|
    ensures pdu[0] == epd && pdu[1] == header && pdu[6] == count.sqn
    ensures lib.mac(MacInput(keys, access, UPLINK, count), pdu[6..]) == Some(pdu[2..6])
    ensures if Ciphered(header) then
              lib.cipher(CipherInput(keys, access, UPLINK, count), pdu[HEADER_LENGTH..]) == Some(body)
            else pdu[HEADER_LENGTH..] == body
  {
    var sent := if Ciphered(header) then lib.cipher(CipherInput(keys, access, UPLINK, count), body).value else body;
    var mac := lib.mac(MacInput(keys, access, UPLINK, count), [count.sqn] + sent).value;
    assert pdu == [epd, header] + (mac + ([count.sqn] + sent));
    assert pdu[2..6] == mac;
    assert pdu[6..] == [count.sqn] + sent;
    assert pdu[HEADER_LENGTH..] == sent;
  }

  // Under an ideal MAC a frame passes the integrity check exactly when the
  // receiver's estimate is the COUNT the sender used.
  lemma MacMeansSameCount(lib: Library, rcv: Security, access: AccessType, epd: Byte, header: Byte,
                          count: Count, body: seq<Byte>, pdu: seq<Byte>)
    requires Lawful(lib) && BindsCount(lib) && rcv.available
    requires header in {INTEGRITY, INTEGRITY_CIPHERED, INTEGRITY_CIPHERED_NEW_CONTEXT} && |body| >= 3
    requires Frame(lib, rcv.keys, access, UPLINK, epd, header, count, body) == Ok(pdu)
    ensures |pdu| >= MIN_PROTECTED_LENGTH && pdu[1] == header
    ensures CheckMac(lib, rcv, access, pdu) == Ok(CountFor(rcv.ulCount, header, count.sqn) == count)
  {
    FrameLayout(lib, rcv.keys, access, epd, header, count, body, pdu);
    var guess := CountFor(rcv.ulCount, header, count.sqn);
    var input := MacInput(rcv.keys, access, UPLINK, count);
    assert MacInput(rcv.keys, access, UPLINK, guess) == input.(count := Value(guess));
    assert input == input.(count := Value(count));
    assert lib.mac(input.(count := Value(guess)), pdu[6..]).Some?;
    if guess != count && lib.mac(input.(count := Value(guess)), pdu[6..]) == Some(pdu[2..6]) {
      ValueInjective(guess, count);
    }
  }

  // What Decode makes of a frame that Encode's framing produced for the uplink,
  // for every body, COUNT and header: opened under the right estimate, and
  // otherwise refused or treated as unprotected, with the COUNT left alone.
  lemma DecodeOfFrame(lib: Library, rcv: Security, access: AccessType, epd: Byte, header: Byte,
                      count: Count, body: seq<Byte>, pdu: seq<Byte>, initial: bool)
    requires Lawful(lib) && BindsCount(lib) && rcv.available
    requires header in {INTEGRITY, INTEGRITY_CIPHERED, INTEGRITY_NEW_CONTEXT, INTEGRITY_CIPHERED_NEW_CONTEXT}
    requires Frame(lib, rcv.keys, access, UPLINK, epd, header, count, body) == Ok(pdu)
    ensures var right := CountFor(rcv.ulCount, header, count.sqn) == count;
      var judged := Judge(lib, rcv, header, body, initial, right);
      Decoding(lib, rcv, access, pdu, initial) ==
      if |body| < 3 then Decoded(Err(TooShort), rcv.ulCount, pdu)
      else if header == INTEGRITY_NEW_CONTEXT then Decoded(Err(WrongHeaderType), rcv.ulCount, pdu)
      else if right then
        Decoded(judged, if judged.Ok? then count else rcv.ulCount, pdu[..HEADER_LENGTH] + body)
      else if Ciphered(header) then Decoded(Err(CipheredMacFailed), rcv.ulCount, pdu)
      else Decoded(judged, rcv.ulCount, pdu)
  {
    FrameLayout(lib, rcv.keys, access, epd, header, count, body, pdu);
    if |body| >= 3 && header != INTEGRITY_NEW_CONTEXT {
      MacMeansSameCount(lib, rcv, access, epd, header, count, body, pdu);
      var right := CountFor(rcv.ulCount, header, count.sqn) == count;
      assert pdu[..HEADER_LENGTH] + pdu[HEADER_LENGTH..] == pdu;
      if right {
        assert OpenBody(lib, rcv, access, pdu, true) == Ok(body);
      }
    }
  }

  // A plain Registration or Deregistration Request, or one of these or a Service Request
  // whose MAC does not match
  predicate PassesUnprotected(lib: Library, sec: Security, access: AccessType, pdu: seq<Byte>)
    requires |pdu| >= 2
  {
    var header := pdu[1] % 0x10;
    || (header == PLAIN && lib.plainDecode(pdu) in {Some(RegistrationRequest), Some(DeregistrationRequest)})
    || (header == INTEGRITY && CheckMac(lib, sec, access, pdu) == Ok(false)
        && lib.plainDecode(pdu[HEADER_LENGTH..])
           in {Some(RegistrationRequest), Some(DeregistrationRequest), Some(ServiceRequest)})
  }

  // TS 24.501, section 4.4.4.3: with a security context, these messages, sent as initial
  // messages, are exactly the ones processed without integrity protection. The COUNT
  // changes only with it, to the estimate.
  lemma UnprotectedExactlyIfInitial(lib: Library, sec: Security, access: AccessType, pdu: seq<Byte>, initial: bool)
    requires sec.available
    ensures var d := Decoding(lib, sec, access, pdu, initial);
      && (d.result.Ok? && !d.result.value.integrityProtected
          <==> initial && |pdu| >= 2 && PassesUnprotected(lib, sec, access, pdu))
      && (d.ulCount != sec.ulCount ==> d.result.Ok? && d.result.value.integrityProtected)
      && (d.result.Ok? && d.result.value.integrityProtected ==>
            |pdu| > 6 && d.ulCount == CountFor(sec.ulCount, d.result.value.header, pdu[6]))
  {
    if |pdu| >= 2 && pdu[1] % 0x10 != PLAIN && CheckMac(lib, sec, access, pdu).Ok? {
      assert OpenBody(lib, sec, access, pdu, false)
          == if pdu[1] % 0x10 == INTEGRITY then Ok(pdu[HEADER_LENGTH..]) else Err(CipheredMacFailed);
    }
  }

  // Only a SecurityModeComplete is accepted under the header that restarts the COUNT.
  lemma NewContextHeaderOnlyCompletesSecurityMode(
    lib: Library, sec: Security, access: AccessType, pdu: seq<Byte>, initial: bool)
    ensures var d := Decoding(lib, sec, access, pdu, initial);
      d.result.Ok? && d.result.value.header == INTEGRITY_CIPHERED_NEW_CONTEXT ==>
        d.result.value.plain == SecurityModeComplete && d.result.value.integrityProtected
  {
  }
}
