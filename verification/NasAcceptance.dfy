// Which uplink messages Decode accepts, said of the octets received: the message
// types a UE may send before it has a security context, and the header, COUNT and
// MAC every type must come with afterwards (3GPP TS 24.501, sections 4.4.4.2 and 4.4.4.3).

module NasAcceptance {
  import opened Basics
  import opened NasCount
  import opened NasSecurity

  // The messages that get a UE as far as a security context, or away without one.
  const NEED_NO_CONTEXT: set<Option<Plain>> := {
    Some(RegistrationRequest), Some(DeregistrationRequest), Some(IdentityResponse(true)),
    Some(AuthenticationResponse), Some(AuthenticationFailure), Some(SecurityModeReject), Some(DeregistrationAccept)
  }

  // Before there is a context a message is accepted exactly if it is one of these, plain or
  // under the integrity header, or an initial Service Request under that header. Its MAC is
  // not looked at, and neither COUNT nor buffer change.
  lemma WithoutContextExactly(lib: Library, sec: Security, access: AccessType, pdu: seq<Byte>, initial: bool)
    requires !sec.available
    ensures var d := Decoding(lib, sec, access, pdu, initial);
      && d.ulCount == sec.ulCount && d.pdu == pdu
      && forall header, plain, protected {:trigger Accepted(header, plain, protected)} ::
           d.result == Ok(Accepted(header, plain, protected)) <==>
           !protected &&
           (|| (|pdu| >= 2 && pdu[1] % 16 == 0 == header
                && lib.plainDecode(pdu) == Some(plain) && Some(plain) in NEED_NO_CONTEXT)
            || (|pdu| >= 10 && pdu[1] % 16 == 1 == header && lib.plainDecode(pdu[7..]) == Some(plain)
                && (Some(plain) in NEED_NO_CONTEXT || (initial && plain == ServiceRequest))))
  {
    if |pdu| >= 10 {
      assert pdu[..7] + pdu[7..] == pdu;
    }
  }

  // Of the messages refused for want of a context, the ciphered ones are never decoded.
  lemma RefusedWithoutContextExactly(lib: Library, sec: Security, access: AccessType, pdu: seq<Byte>, initial: bool)
    requires !sec.available && |pdu| >= 10
    ensures var result := Decoding(lib, sec, access, pdu, initial).result;
      && (result == Err(CipheredWithoutContext) <==> pdu[1] % 16 in {2, 4})
      && (result == Err(NoSecurityContext) <==>
            pdu[1] % 16 in {0, 1} &&
            var plain := lib.plainDecode(if pdu[1] % 16 == 0 then pdu else pdu[7..]);
            plain in {Some(NonGmm), Some(IdentityResponse(false)), Some(SecurityModeComplete), Some(OtherGmm)}
            || (!initial && plain == Some(ServiceRequest)))
  {
  }

  // The header each message type must carry once there is a context, to count as protected.
  function HeaderOf(plain: Plain, initial: bool): Byte {
    match plain
    case SecurityModeComplete => 4
    case RegistrationRequest | DeregistrationRequest | ServiceRequest => if initial then 1 else 2
    case _ => 2
  }

  // The COUNT a message is checked at, as a number: the security mode starts over.
  function CheckedAt(stored: Count, header: Byte, sqn: Byte): (v: nat)
    ensures v % 0x100 == sqn
    ensures header != 4 && v >= Value(stored) ==> v - Value(stored) < 0x100
  {
    if header == 4 then sqn
    else if sqn >= stored.sqn then stored.overflow * 0x100 + sqn
    else (stored.overflow + 1) % 0x1_0000 * 0x100 + sqn
  }

  // The MAC of the octets from the sequence number on, with that COUNT and for the uplink
  function MacOf(lib: Library, sec: Security, access: AccessType, pdu: seq<Byte>): Option<seq<Byte>>
    requires |pdu| >= 10
  {
    lib.mac(CryptoInput(sec.keys.integrityAlg, sec.keys.knasInt, CheckedAt(sec.ulCount, pdu[1] % 16, pdu[6]),
                        if access == ThreeGpp then 1 else 2, 0), pdu[6..])
  }

  // The message inside, deciphered at that COUNT unless it has the integrity header.
  function Inside(lib: Library, sec: Security, access: AccessType, pdu: seq<Byte>): Option<seq<Byte>>
    requires |pdu| >= 10
  {
    if pdu[1] % 16 == 1 then Some(pdu[7..])
    else
      lib.cipher(CryptoInput(sec.keys.cipheringAlg, sec.keys.knasEnc, CheckedAt(sec.ulCount, pdu[1] % 16, pdu[6]),
                             if access == ThreeGpp then 1 else 2, 0), pdu[7..])
  }

  lemma CountIsCheckedAt(stored: Count, header: Byte, sqn: Byte)
    ensures Value(CountFor(stored, header, sqn)) == CheckedAt(stored, header, sqn)
  {
  }

  lemma MacOfCheckedAt(lib: Library, sec: Security, access: AccessType, pdu: seq<Byte>)
    requires sec.available && |pdu| >= 10 && pdu[1] % 16 in {1, 2, 4}
    ensures CheckMac(lib, sec, access, pdu)
            == match MacOf(lib, sec, access, pdu) { case Some(mac) => Ok(mac == pdu[2..6]) case None => Err(MacCalculation) }
    ensures OpenBody(lib, sec, access, pdu, true)
            == match Inside(lib, sec, access, pdu) { case Some(body) => Ok(body) case None => Err(Decryption) }
  {
    CountIsCheckedAt(sec.ulCount, pdu[1] % 16, pdu[6]);
  }

  // With a context a message is accepted as protected exactly if it carries the header of
  // its type, the MAC matches, and the octets inside decode to it. The COUNT becomes the
  // one it was checked at, and the buffer holds the deciphered message.
  lemma ProtectedExactly(lib: Library, sec: Security, access: AccessType, pdu: seq<Byte>, initial: bool,
                         header: Byte, plain: Plain)
    requires sec.available
    ensures var d := Decoding(lib, sec, access, pdu, initial);
      && (d.result == Ok(Accepted(header, plain, true)) <==>
            && |pdu| >= 10 && pdu[1] % 16 == header == HeaderOf(plain, initial)
            && MacOf(lib, sec, access, pdu) == Some(pdu[2..6])
            && Inside(lib, sec, access, pdu).Some?
            && lib.plainDecode(Inside(lib, sec, access, pdu).value) == Some(plain))
      && (d.result == Ok(Accepted(header, plain, true)) ==>
            && Value(d.ulCount) == CheckedAt(sec.ulCount, header, pdu[6])
            && d.pdu == pdu[..7] + Inside(lib, sec, access, pdu).value)
  {
    hide MacOf, Inside, CheckMac, OpenBody, CheckedAt, CountFor;
    if |pdu| >= 10 && pdu[1] % 16 in {1, 2, 4} {
      MacOfCheckedAt(lib, sec, access, pdu);
      CountIsCheckedAt(sec.ulCount, pdu[1] % 16, pdu[6]);
    } else {
      NotProtected(lib, sec, access, pdu);
    }
  }

  lemma NotProtected(lib: Library, sec: Security, access: AccessType, pdu: seq<Byte>)
    requires |pdu| < 10 || pdu[1] % 16 !in {1, 2, 4}
    ensures |pdu| >= 2 ==> CheckMac(lib, sec, access, pdu).Err?
  {
  }

  // What else becomes of a protected message when there is a context: which error it is
  // refused with. One whose MAC does not match is refused as ciphered or for its header, so
  // no refusal names the MAC.
  lemma RefusedExactly(lib: Library, sec: Security, access: AccessType, pdu: seq<Byte>, initial: bool)
    requires sec.available && |pdu| >= 10 && pdu[1] % 16 in {1, 2, 4}
    ensures var result, header := Decoding(lib, sec, access, pdu, initial).result, pdu[1] % 16;
      var mac, inside := MacOf(lib, sec, access, pdu), Inside(lib, sec, access, pdu);
      var plain := if inside.Some? then lib.plainDecode(inside.value) else None;
      var readable := mac.Some? && inside.Some? && (header == 1 || mac.value == pdu[2..6]);
      && (result == Err(MacCalculation) <==> mac == None)
      && (result == Err(CipheredMacFailed) <==> header != 1 && mac.Some? && mac.value != pdu[2..6])
      && (result == Err(Decryption) <==> header != 1 && mac == Some(pdu[2..6]) && inside == None)
      && (result == Err(PlainDecoding) <==> readable && plain == None)
      && (result == Err(WrongSecurityHeader) <==> readable && plain.Some? && HeaderOf(plain.value, initial) != header)
      && result != Err(MacVerificationFailed)
  {
    hide MacOf, Inside, CheckMac, OpenBody, CheckedAt, CountFor;
    MacOfCheckedAt(lib, sec, access, pdu);
    ClearBody(lib, sec, access, pdu);
  }

  lemma ClearBody(lib: Library, sec: Security, access: AccessType, pdu: seq<Byte>)
    requires sec.available && |pdu| >= 10
    ensures OpenBody(lib, sec, access, pdu, false) == if pdu[1] % 16 in {2, 4} then Err(CipheredMacFailed) else Ok(pdu[7..])
    ensures pdu[1] % 16 == 1 ==> Inside(lib, sec, access, pdu) == Some(pdu[7..])
  {
  }
}
