// The messages for which ExtractUEID finds a key, with the IEs that their generated
// handlers know (ids, presence and criticality as in the ASN.1 of 3GPP TS 38.413).

module NgapSchemas {
  import opened NgapDecoder

  datatype Kind =
    | InitialUEMessage | UplinkNASTransport | NASNonDeliveryIndication | HandoverRequired | HandoverRequest
    | HandoverNotify | PathSwitchRequest | HandoverCancel | UplinkRANStatusTransfer | ErrorIndication
    | UEContextReleaseRequest | PDUSessionResourceNotify | PDUSessionResourceModifyIndication
    | UERadioCapabilityInfoIndication | RRCInactiveTransitionReport | LocationReport | CellTrafficTrace
    | LocationReportingFailureIndication | SecondaryRATDataUsageReport | TraceFailureIndication
    | UplinkUEAssociatedNRPPaTransport | InitialContextSetupResponse | PDUSessionResourceSetupResponse
    | PDUSessionResourceReleaseResponse | PDUSessionResourceModifyResponse | UEContextModificationResponse
    | UEContextReleaseComplete | HandoverRequestAcknowledge | PathSwitchRequestAcknowledge
    | UERadioCapabilityCheckResponse | InitialContextSetupFailure | HandoverFailure | PathSwitchRequestFailure
    | UEContextModificationFailure

  function MI(id: nat): IeSpec { IeSpec(id, Mandatory, Ignore) }
  function MR(id: nat): IeSpec { IeSpec(id, Mandatory, Reject) }
  function OI(id: nat): IeSpec { IeSpec(id, Optional, Ignore) }
  function OR(id: nat): IeSpec { IeSpec(id, Optional, Reject) }

  // An initiating message other than the error indication
  predicate IsRequest(kind: Kind) {
    match kind
    case ErrorIndication | InitialContextSetupResponse | PDUSessionResourceSetupResponse |
       PDUSessionResourceReleaseResponse | PDUSessionResourceModifyResponse | UEContextModificationResponse |
       UEContextReleaseComplete | HandoverRequestAcknowledge | PathSwitchRequestAcknowledge |
       UERadioCapabilityCheckResponse | InitialContextSetupFailure | HandoverFailure |
       PathSwitchRequestFailure | UEContextModificationFailure => false
    case _ => true
  }

  // The IE whose value ExtractUEID returns
  function KeyOf(kind: Kind): nat {
    match kind
    case InitialUEMessage => RAN_UE_NGAP_ID
    case PathSwitchRequest => SOURCE_AMF_UE_NGAP_ID
    case _ => AMF_UE_NGAP_ID
  }

  function SchemaOf(kind: Kind): seq<IeSpec> {
    match kind
    case InitialUEMessage => [MR(RAN_UE_NGAP_ID), MR(38), MR(121), MI(90), OR(26), OI(3), OI(112), OR(0)]
    case UplinkNASTransport => [MR(AMF_UE_NGAP_ID), MR(RAN_UE_NGAP_ID), MR(38), MI(121)]
    case NASNonDeliveryIndication => [MR(AMF_UE_NGAP_ID), MR(RAN_UE_NGAP_ID), MI(38), MI(15)]
    case HandoverRequired => [MR(AMF_UE_NGAP_ID), MR(RAN_UE_NGAP_ID), MR(29), MI(15), MR(105), OI(22), MR(61),
        MR(101)]
    case HandoverRequest => [MR(AMF_UE_NGAP_ID), MR(29), MI(15), MR(110), OI(18), MR(119), MR(93), OR(41), OR(37),
        MR(73), MR(0), OI(108), OI(34), MR(101), OI(36), OI(33), OI(91), MR(28), OI(146)]
    case HandoverNotify => [MR(AMF_UE_NGAP_ID), MR(RAN_UE_NGAP_ID), MI(121)]
    case PathSwitchRequest => [MR(RAN_UE_NGAP_ID), MR(SOURCE_AMF_UE_NGAP_ID), MI(121), MI(119), MR(76), OI(57)]
    case HandoverCancel => [MR(AMF_UE_NGAP_ID), MR(RAN_UE_NGAP_ID), MI(15)]
    case UplinkRANStatusTransfer => [MR(AMF_UE_NGAP_ID), MR(RAN_UE_NGAP_ID), MR(84)]
    case ErrorIndication => [OI(AMF_UE_NGAP_ID), OI(RAN_UE_NGAP_ID), OI(15), OI(19)]
    case UEContextReleaseRequest => [MR(AMF_UE_NGAP_ID), MR(RAN_UE_NGAP_ID), OR(133), MI(15)]
    case PDUSessionResourceNotify => [MR(AMF_UE_NGAP_ID), MR(RAN_UE_NGAP_ID), OR(66), OI(67), OI(121)]
    case PDUSessionResourceModifyIndication => [MR(AMF_UE_NGAP_ID), MR(RAN_UE_NGAP_ID), MR(63)]
    case UERadioCapabilityInfoIndication => [MR(AMF_UE_NGAP_ID), MR(RAN_UE_NGAP_ID), MI(117), OI(118)]
    case RRCInactiveTransitionReport => [MR(AMF_UE_NGAP_ID), MR(RAN_UE_NGAP_ID), MI(92), MI(121)]
    case LocationReport => [MR(AMF_UE_NGAP_ID), MR(RAN_UE_NGAP_ID), MI(121), OI(116), MI(33)]
    case CellTrafficTrace => [MR(AMF_UE_NGAP_ID), MR(RAN_UE_NGAP_ID), MI(44), MI(43), MI(109)]
    case LocationReportingFailureIndication => [MR(AMF_UE_NGAP_ID), MR(RAN_UE_NGAP_ID), MI(15)]
    case SecondaryRATDataUsageReport => [MI(AMF_UE_NGAP_ID), MI(RAN_UE_NGAP_ID), MI(142), OI(143)]
    case TraceFailureIndication => [MR(AMF_UE_NGAP_ID), MR(RAN_UE_NGAP_ID), MI(44), MI(15)]
    case UplinkUEAssociatedNRPPaTransport => [MR(AMF_UE_NGAP_ID), MR(RAN_UE_NGAP_ID), MR(89), MR(46)]
    case InitialContextSetupResponse => [MI(AMF_UE_NGAP_ID), MI(RAN_UE_NGAP_ID), OI(72), OI(55), OI(19)]
    case PDUSessionResourceSetupResponse => [MI(AMF_UE_NGAP_ID), MI(RAN_UE_NGAP_ID), OI(75), OI(58), OI(19)]
    case PDUSessionResourceReleaseResponse => [MI(AMF_UE_NGAP_ID), MI(RAN_UE_NGAP_ID), MI(70), OI(121), OI(19)]
    case PDUSessionResourceModifyResponse => [MI(AMF_UE_NGAP_ID), MI(RAN_UE_NGAP_ID), OI(65), OI(54), OI(121),
        OI(19)]
    case UEContextModificationResponse => [MI(AMF_UE_NGAP_ID), MI(RAN_UE_NGAP_ID), OI(92), OI(121), OI(19)]
    case UEContextReleaseComplete => [MI(AMF_UE_NGAP_ID), MI(RAN_UE_NGAP_ID), OI(121), OI(32), OR(60), OI(19)]
    case HandoverRequestAcknowledge => [MI(AMF_UE_NGAP_ID), MI(RAN_UE_NGAP_ID), MI(53), OI(56), MR(106), OI(19)]
    case PathSwitchRequestAcknowledge => [MI(AMF_UE_NGAP_ID), MI(RAN_UE_NGAP_ID), OR(119), MR(93), OR(41), MI(77),
        OI(68), MR(0), OI(18), OI(91), OI(19), OI(146)]
    case UERadioCapabilityCheckResponse => [MI(AMF_UE_NGAP_ID), MI(RAN_UE_NGAP_ID), MR(30), OI(19)]
    case InitialContextSetupFailure => [MI(AMF_UE_NGAP_ID), MI(RAN_UE_NGAP_ID), OI(132), MI(15), OI(19)]
    case HandoverFailure => [MI(AMF_UE_NGAP_ID), MI(15), OI(19)]
    case PathSwitchRequestFailure => [MI(AMF_UE_NGAP_ID), MI(RAN_UE_NGAP_ID), MI(69), OI(19)]
    case UEContextModificationFailure => [MI(AMF_UE_NGAP_ID), MI(RAN_UE_NGAP_ID), MI(15), OI(19)]
  }

  // Every handler knows the key's IE.
  lemma KeyIsKnown(kind: Kind)
    ensures Known(SchemaOf(kind), KeyOf(kind))
  {
    var i :=
      match kind
      case PathSwitchRequest => 1
      case _ => 0;
    assert SchemaOf(kind)[i].id == KeyOf(kind);
  }
}
