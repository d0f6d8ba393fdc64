// The mutable entities of the AMF: a RAN node, one logical NG connection of a
// UE (RanUe) and the UE context itself (AmfUe).

module Context {
  import opened Basics
  import opened NasCount

  // RanUeNgapIdUnspecified: the RAN has not assigned its id yet.
  const UNSPECIFIED: int := 0xffffffff

  // nasMessage.NasKeySetIdentifierNoKeyIsAvailable
  const NO_KEY_IS_AVAILABLE: int := 7

  datatype RelAction = N2NormalRelease | ReleaseHandover | ReleaseUeContext

  class AmfRan {
    var anType: AccessType
    var ranUeList: map<int, RanUe>

    constructor (an: AccessType)
      ensures anType == an && ranUeList == map[]
    {
      anType := an;
      ranUeList := map[];
    }
  }

  class RanUe {
    var ranUeNgapId: int
    var amfUeNgapId: int
    var ran: AmfRan
    var amfUe: AmfUe?
    var holdingAmfUe: AmfUe?
    var sourceUe: RanUe?
    var targetUe: RanUe?
    var releaseAction: RelAction
    var successPduSessionId: seq<int>

    constructor (ran: AmfRan, ranUeNgapId: int, amfUeNgapId: int)
      ensures this.ran == ran && this.ranUeNgapId == ranUeNgapId && this.amfUeNgapId == amfUeNgapId
      ensures amfUe == null && holdingAmfUe == null && sourceUe == null && targetUe == null
      ensures releaseAction == N2NormalRelease && successPduSessionId == []
    {
      this.ran, this.ranUeNgapId, this.amfUeNgapId := ran, ranUeNgapId, amfUeNgapId;
      amfUe, holdingAmfUe, sourceUe, targetUe := null, null, null, null;
      releaseAction, successPduSessionId := N2NormalRelease, [];
    }
  }

  class AmfUe {
    /* Related Context */
    var ranUe: map<AccessType, RanUe>
    var anTypeFlags: set<AccessType>
    /* Security Context */
    var securityContextAvailable: bool
    var ngKsi: int
    var macFailed: bool
    var knasInt: seq<Byte>
    var knasEnc: seq<Byte>
    var integrityAlg: Byte
    var cipheringAlg: Byte
    var ulCount: Count
    var dlCount: Count
    var nasPduValue: array?<Byte>
    /* Temporary identity */
    var tmsi: int
    var guti: string
    /* Access network keys */
    var kamf: Option<seq<Byte>>  // None when the stored text is not hexadecimal
    var kgnb: seq<Byte>
    var kn3iwf: seq<Byte>
    var nh: seq<Byte>
    var ncc: Byte

    constructor ()
      ensures ranUe == map[] && anTypeFlags == {}
      ensures !securityContextAvailable && !macFailed && ulCount == ZERO && dlCount == ZERO
    {
      ranUe, anTypeFlags := map[], {};
      securityContextAvailable, ngKsi, macFailed := false, 0, false;
      knasInt, knasEnc, integrityAlg, cipheringAlg := [], [], 0, 0;
      ulCount, dlCount, nasPduValue := ZERO, ZERO, null;
      tmsi, guti := 0, "";
      kamf, kgnb, kn3iwf, nh, ncc := Some([]), [], [], [], 0;
    }

    predicate CmConnect(an: AccessType)
      reads this
    {
      an in ranUe
    }

    predicate SecurityContextIsValid()
      reads this
    {
      securityContextAvailable && ngKsi != NO_KEY_IS_AVAILABLE && !macFailed
    }
  }
}
