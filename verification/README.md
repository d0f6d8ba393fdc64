# A verified model of the AMF's core

The AMF keeps an association between a UE, its connections to RAN nodes and its
security context while messages arrive out of order, twice, or not at all. This
project models the code that does this and proves what it keeps, in Dafny:

- **NAS security** (`NasCount`, `NasSecurity`, `NasAcceptance`, `NasChannel`, `NasDownlink`,
  `HandleNas`): framing, COUNT estimation, MAC and cipher order, which message types are
  accepted when, the uplink of one UE over a channel that loses, repeats and reorders, and
  the downlink to it over any sequence of calls.
- **The association registry** (`Context`, `Registry`, `Links`, `RegistryOps`, `ApId`,
  `Handover`, `RegistrySteps`, `RegistryRuns`, `HandoverRuns`): UE contexts, connections, the two
  indexes, the id generator and the CM gauges; the search by AP ids with its local releases; N2
  handover from preparation to the release of the source.
- **The per-UE scheduler** (`Scheduler`): workers with bounded channels, a stop signal,
  draining and shutdown, as interleaved steps.
- **The GMM state machine** (`Gmm`, `GmmOps`, `GmmRuns`, `GmmProgress`, `GmmLedger`): the
  transition table, callbacks that send further events, what every message does in every
  state, and whole runs for a UE with two accesses.
- **The generated NGAP decoder and the routing key** (`NgapDecoder`, `NgapSchemas`,
  `UeRouting`): the emitted IE loop and its error report, and the UE id by which a message is
  routed before it is decoded.
- **Smaller pieces**: GUTI text (`Guti`), access network keys (`KeyChain`), re-activation of
  PDU sessions (`Reactivation`).

Code that updates objects is modelled by classes and methods. Each such method is
proved against a specification function on values (`AmfContext.View()` is the registry as
one value, `GmmUe.View()` a UE's GMM side); the lemmas about runs are about those functions.
Answers of other network functions, ASN.1 and NAS codecs, MAC, cipher and KDF are parameters.

What does not hold of the code is stated where it arises, with the exact condition or a
counterexample:

- An accepted COUNT goes back exactly on a message with the new-context header and a low
  sequence number, such as a repeated SecurityModeComplete, or when the overflow counter wraps
  (`AcceptedCountsGoUp`, `DuplicateGoesBack`).
- The last accepted message is accepted again when it is repeated (`RepeatIsAccepted`), and an
  earlier one only after the COUNT has gone back (`AcceptedTwiceExactly`).
- A body of fewer than three octets is framed but not decoded (`DecodeOfFrame`).
- No protected message with a known header is refused with the error for a wrong MAC
  (`NasAcceptance.RefusedExactly`).
- A downlink message for a new context starts the COUNTs over even if it cannot be sent
  (`NasDownlink.ProtectedExactly`).
- The path switch keeps the indexes exactly when the RAN id does not change.
- Links, back pointers and gauges agree in a run exactly if every event meets its condition
  (`RunIsGoodExactly`). Among the events that need not: removing or replacing a target in
  preparation, letting go of a held context that has a connection, and attaching a connection
  that is attached to another UE, as the release complete after a handover can; a run of that
  kind ends with a wrong gauge (`RemovalAfterReattachmentMiscounts`).
- A notify moves the UE without looking at the source: gauges and links stay right exactly if
  the UE is still connected by the source (`HandOverKeepsLinksExactly`); a run that removes the
  source during the preparation is `NotifyAfterRemovalOfSource`.
- A handover acknowledge without a RAN id IE can be processed again
  (`AcknowledgeClosesTargetExactly`), and a path switch on a target lets a notify overtake its
  acknowledge (`PathSwitchKeepsInvExactly`, `NotifyAfterPathSwitch`).
- The source's release takes the target from its UE exactly if the source has been given
  another UE (`SourceReleaseSparesTheUeExactly`), which a NAS non-delivery indication does
  (`SourceReleaseTakesTheTarget`).
- After a failure or cancel the target's release complete stops at a nil pointer exactly if its
  ids are consistent; with other ids the target is removed (`AbandonedStopsExactly`).
- A task is accepted and not handled exactly if its worker has left (`ShutdownHandlesExactly`).
- The SUCI can be asked for twice in one stay in Authentication, exactly if the other access
  has reset the counter in between (`FailedAuthenticationAsksExactly`, `SecondFallBackHappens`).
- The GMM gauges go wrong label by label exactly when a registered access deregisters the
  other one that has initiated its deregistration and was left in it (`LabelsCountExactly`),
  which happens if each asks for the deregistration of the other
  (`CrossDeregistrationMiscounts`); their sums over the accesses stay right.
- The GUTI is found again exactly when the configured AMF id is in lower case.

Where names or comments and the code differ, the model follows the code: `RemoveAllRanUe`, for
one, ignores its argument.

## Model

| member | source | states |
|---|---|---|
| NasCount.EstimateWindow | internal/nas/nas_security/security.go:183-187 | the receiver's estimate of the COUNT is the sender's exactly for the 256 COUNTs from the stored one on, going round the 24-bit counter |
| NasCount.EstimateFallsExactlyOnWrap | internal/nas/nas_security/security.go:183-187 | the estimate is below the stored COUNT exactly when the 16-bit overflow counter wraps |
| NasSecurity.Decode | internal/nas/nas_security/security.go:120-352 | updates the UE context and the caller's buffer as the step-by-step specification says: errors in order, COUNT estimate, MAC before deciphering in place, gate by message type, COUNT committed only at the end after an intact MAC |
| NasSecurity.Unprotect | internal/nas/nas_security/security.go:139-220 | the protected branch: too short, unknown header, ciphered without context, MAC error, ciphered with a wrong MAC, decryption error, in this order |
| NasSecurity.DecipherInPlace | internal/nas/nas_security/security.go:205-216 | only the octets after the header are replaced, and only if the cipher succeeds |
| NasSecurity.Encode | internal/nas/nas_security/security.go:17-114 | plain octets for the messages allowed without a security context, otherwise the protected frame and the COUNTs it leaves |
| NasSecurity.SelectProtection | internal/nas/nas_security/security.go:49-65 | the COUNTs are reset by a new-context header before anything can fail; other headers are refused |
| NasSecurity.Protect | internal/nas/nas_security/security.go:73-108 | ciphered body, sequence number, MAC over both, then the two header octets |
| NasSecurity.FrameLayout | internal/nas/nas_security/security.go:73-108 | where each field of a frame lies, and that MAC and cipher refer to exactly those octets |
| NasSecurity.MacMeansSameCount | internal/nas/nas_security/security.go:183-205 | under an ideal MAC a frame is judged intact exactly when the estimated COUNT is the sender's |
| NasSecurity.DecodeOfFrame | internal/nas/nas_security/security.go:139-352 | for every body, COUNT and header type, a frame made as Encode does and mirrored to the uplink decodes to its body with integrity when the estimate is right, and otherwise to the stated refusal with the COUNT left alone |
| NasSecurity.UnprotectedExactlyIfInitial | internal/nas/nas_security/security.go:244-351 | with a security context, the messages processed without integrity are exactly the initial Registration, Deregistration and Service Requests of the stated headers, and the stored COUNT moves only with integrity |
| NasSecurity.NewContextHeaderOnlyCompletesSecurityMode | internal/nas/nas_security/security.go:325-334 | the header that restarts the COUNT is accepted only on a SecurityModeComplete with an intact MAC |
| NasAcceptance.WithoutContextExactly | internal/nas/nas_security/security.go:120-352 | without a security context a message is accepted exactly if it is plain, or of ten octets at least under the integrity header, and a Registration or Deregistration Request, an Identity Response with a SUCI, an Authentication Response or Failure, a Security Mode Reject or a Deregistration Accept, or an initial Service Request under that header; never as protected, with COUNT and buffer as they were |
| NasAcceptance.RefusedWithoutContextExactly | internal/nas/nas_security/security.go:160-165 | which messages are then refused as ciphered, and which for want of a context |
| NasAcceptance.ProtectedExactly | internal/nas/nas_security/security.go:139-352 | with a context a message is accepted as protected exactly if it carries the header of its type, the MAC over the octets from the sequence number on is that of the COUNT estimated for it, and the octets inside, deciphered at that COUNT unless only integrity protected, decode to it; the COUNT becomes that one and the buffer holds the deciphered message |
| NasAcceptance.RefusedExactly | internal/nas/nas_security/security.go:194-346 | which error each other protected message is refused with; none with the one for a wrong MAC |
| NasChannel.RunKeepsInv | internal/nas/nas_security/security.go:120-352 | over any run with loss, duplication and reordering, every accepted message is accepted at the COUNT its sender used |
| NasChannel.AcceptedCountsGoUp | internal/nas/nas_security/security.go:183-187 | one accepted COUNT is below the one before it exactly when the message has the new-context header with a low sequence number or the overflow counter wraps |
| NasChannel.AcceptedCountsSorted | internal/nas/nas_security/security.go:348-350 | over any stretch of a run without these two cases the accepted COUNTs never decrease |
| NasChannel.AcceptedTwiceExactly | internal/nas/nas_security/security.go:183-187 | between two acceptances of one message there is nothing but further acceptances of it, exactly if the COUNT has not gone back between them |
| NasChannel.RepeatIsAccepted | internal/nas/nas_security/security.go:183-201 | in every run a message that has just been accepted is accepted again when it is delivered again |
| NasChannel.WindowIsAccepted | internal/nas/nas_security/security.go:133-201 | in every run a message 0 to 255 COUNTs ahead of the stored one (of zero, under the new-context header) is accepted at its own COUNT if its type may be processed, and outside the window nothing changes |
| NasChannel.DuplicateGoesBack | internal/nas/nas_security/security.go:167-170 | a run in which a repeated SecurityModeComplete is accepted at COUNTs 0, 1 and 0 |
| NasChannel.SampleIsUsable | internal/nas/nas_security/security.go:194-216 | a MAC and cipher with the assumed laws exist, so the runs are not vacuous |
| NasDownlink.PlainExactly | internal/nas/nas_security/security.go:22-48 | without a context a message goes out, as it is, exactly if it can be encoded and is an Identity Request for the SUCI, an Authentication Request, Result or Reject, a Registration Reject, a Deregistration Accept or a Service Reject; no COUNT changes |
| NasDownlink.ProtectedExactly | internal/nas/nas_security/security.go:49-112 | with one it goes out exactly if its header is one of three, it can be encoded, and cipher and MAC work; then framed at the stored COUNT, or at 0 under the new-context header, which moves on by one; the new-context header starts both COUNTs over in any case |
| NasDownlink.RefusedExactly | internal/nas/nas_security/security.go:17-104 | which error it is refused with otherwise |
| NasDownlink.NthIsFramedAtN | internal/nas/nas_security/security.go:60-112 | in every run of calls, with or without a context and with failures, the message that goes out protected as the n-th after a restart, or after the start, is framed n COUNTs on from there modulo 2^24: plain and failed ones take no COUNT |
| NasDownlink.SharesCountExactly | internal/nas/nas_security/security.go:111 | two of them with no restart in between share a COUNT exactly if a multiple of 2^24 messages has gone out since the first |
| NasDownlink.OpensExactly | internal/nas/nas_security/security.go:73-108 | a UE that stores a COUNT opens a frame to its octets, at its own COUNT, exactly within the window of 256 |
| NasDownlink.UeReadsAll | internal/nas/nas_security/security.go:60-112 | in every run a UE that is given a message that starts over and from then on any of the messages in order reads the octets of each, provided it misses neither 256 in a row nor a restart |
| NasDownlink.NextIsReadExactly | internal/nas/nas_security/security.go:60-112 | with no restart since the last message it has read it opens the next one exactly if fewer than 256 COUNTs lie between them, going round the counter |
| HandleNas.HandleNas | internal/nas/handler.go:14-68 | attach decision, Decode, MacFailed set to the negation of integrity exactly for messages that go on, the held context let go if the security context is valid |
| HandleNas.DecodeFor | internal/nas/handler.go:52-62 | a refused message leaves MacFailed and the stored PDU alone |
| HandleNas.AttachOnArrival | internal/nas/handler.go:37-50 | a connection without a UE gets the held context if that one is idle, else a new one |
| HandleNas.ClearHoldingRanUe | internal/gmm/common/user_profile.go:100-110 | detaches the old connection from its own side only and asks for its release |
| HandleNas.LetGoExactly | internal/gmm/common/user_profile.go:100-110 | the connection of the held context loses its UE and is to release the context, nothing is held any longer, and every link and every other connection stays |
| HandleNas.ArriveAttaches | internal/nas/handler.go:37-50 | the connection ends up attached to the chosen context, the held one exactly if it is idle on this access, and indexes, links and gauges stay in agreement |
| HandleNas.ArriveExactly | internal/nas/handler.go:37-50 | which context it is, in terms of the connection and the links: its own, or the held one if that is not connected on this access, which it then holds no longer, or a new one |
| HandleNas.ArriveKeepsGoodExactly | internal/nas/handler.go:37-50 | they stay in agreement exactly if the context that is attached has not been removed, which only a held one can have been |
| RegistrySteps.LetGoKeepsLinksExactly | internal/nas/handler.go:64-67 | letting go of the held context keeps links and pointers in agreement exactly when that context had no connection on this access |
| HandleNas.ClearedContextStaysConnected | internal/gmm/common/user_profile.go:100-110 | after the release of that connection the held context is still linked to it although it is gone |
| RegistryOps.AmfContext.AllocateAmfUeNgapId | internal/context/context.go:213-215 | an unused id in range, or an error only when there is none |
| RegistryOps.AmfContext.NewRanUe | internal/context/amf_ran.go:58-80 | a fresh connection under a fresh id; listed only under a RAN id that is not the reserved one; an error only when every id is taken, and then nothing changes |
| RegistryOps.AmfContext.Remove | internal/context/ran_ue.go:74-93 | the whole new state after detaching the UE, and deleting list entry, pool entry and id |
| RegistryOps.AmfContext.SwitchToRan | internal/context/ran_ue.go:99-125 | the old entry is deleted and the new one stored under the new RAN and id |
| RegistryOps.AmfContext.PathSwitch | internal/ngap/handler.go:1304-1383 | the id is written in any case, the lists are changed only if a session could be switched |
| RegistryOps.AmfContext.RemoveAllRanUe | internal/context/amf_ran.go:82-91 | the loop over the shrinking list terminates with the list empty, whatever order it visits |
| RegistryOps.AmfContext.StoreRanId | internal/ngap/handler.go:1433-1436 | the acknowledge stores the RAN id in the connection and lists it |
| RegistryOps.AmfContext.DetachRanUe | internal/context/amf_ue.go:341-356 | drops the link of one access and moves one UE from connected to idle |
| RegistryOps.AmfContext.DetachAmfUe | internal/context/ran_ue.go:95-97 | clears the pointer to the UE |
| RegistryOps.AmfContext.AttachRanUe | internal/context/amf_ue.go:359-363 | links UE and connection in both directions, and nothing else |
| RegistryOps.AmfContext.RemoveAmfUe | internal/context/amf_ue.go:312-339 | removes the UE's connections in either order and gives up its idle marks |
| RegistryOps.AmfContext.AttachRanUeToAmfUeAndReleaseOldIfAny | internal/gmm/common/user_profile.go:58-79 | replaces the old connection without touching the gauges, or counts a newly connected UE |
| RegistryOps.AmfContext.AttachRanUeToAmfUeAndReleaseOldHandover | internal/gmm/common/user_profile.go:81-98 | detaches the source, asks for its release and attaches the target |
| RegistryOps.AmfContext.AttachSourceUeTargetUe | internal/context/common_function.go:54-71 | pairs source and target and gives the target the UE, unless the source has none |
| RegistryOps.AmfContext.SendUEContextReleaseCommand | internal/ngap/message/send.go:236-267 | records why the release was asked for |
| RegistryOps.AmfContext.ReplaceRanUe | internal/ngap/handler.go:439-460 | an old connection under the same RAN id is detached and removed before the new one is made; what this guarantees is stated by the next three members |
| RegistrySteps.ForgetIsRemove | internal/ngap/handler.go:439-455 | the double detach amounts to one removal of the listed connection, after which the RAN id is free |
| RegistryRuns.ReplacementKeepsIndexes | internal/ngap/handler.go:439-460 | so an initial message with any RAN id, in use or not, keeps the indexes and the full listing: here is where freshness comes from |
| RegistryRuns.ReplacementKeepsLinksExactly | internal/ngap/handler.go:439-460 | it keeps links, pointers and gauges exactly if the replaced connection is not a handover target in preparation, acknowledged and not notified yet |
| Registry.NewRanUeKeepsIndexes | internal/context/amf_ran.go:58-80 | pool keyed by own ids, pool keys equal to the allocated ids, listed connections under their own id, and every connection with an id listed if the id is fresh |
| Registry.RemoveKeepsIndexes | internal/context/ran_ue.go:74-93 | the same after a removal, which takes away exactly one connection |
| Registry.SwitchToRanKeepsIndexes | internal/context/ran_ue.go:99-125 | the same after a switch, with full listing if the new slot is free |
| Registry.StoreRanIdKeepsIndexes | internal/ngap/handler.go:1433-1436 | the same after the acknowledge's store |
| Registry.PathSwitchKeepsIndexesExactly | internal/ngap/handler.go:1304-1306 | the path switch, which writes the new id before SwitchToRan, keeps the indexes exactly when the id does not change, whether it goes on to switch or not |
| Registry.RemoveAllEmptiesTheList | internal/context/amf_ran.go:82-91 | for any order of visit exactly the visited entries are gone |
| Links.AttachAndReleaseOldKeepsLinksExactly | internal/gmm/common/user_profile.go:58-79 | attaching a live connection keeps links, back pointers and gauges in agreement exactly if the UE context has not been removed and the connection is not attached to another one |
| Links.AttachAndReleaseOldKeepsLinks | internal/gmm/common/user_profile.go:58-79 | then, in a first attach and in a replacement, the link is the new connection's and the indexes stay |
| Links.AttachLetsTheOldGo | internal/gmm/common/user_profile.go:58-79 | in every state: the connection gets the UE, the one before it loses it and is to release it, or else one UE more is connected, and one less idle if it was seen before; no other connection changes |
| Links.HandOverReleasesSource | internal/gmm/common/user_profile.go:81-98 | in every state the link moves, the source loses its UE and is to release for a handover, and no gauge changes |
| Links.HandOverKeepsLinksExactly | internal/gmm/common/user_profile.go:81-98 | a handover keeps links, pointers and gauges in agreement exactly if the UE is connected on the target's access by the source, or by the target already and by the source nowhere |
| Links.HandOverKeepsGaugesExactly | internal/gmm/common/user_profile.go:81-98 | the gauges alone stay right exactly if the UE is connected on the target's access before, by whatever connection, or is not live |
| Links.AttachAndReleaseSourceKeepsLinks | internal/gmm/common/user_profile.go:81-98 | in the good case the link moves to the target and the indexes stay |
| Links.PairSourceTargetKeepsLinksExactly | internal/context/common_function.go:54-71 | preparing a target keeps them in agreement exactly if the source has no UE, so that nothing happens, or the target is not attached |
| Links.RemoveKeepsLinksExactly | internal/context/ran_ue.go:74-93 | the removal of a live connection keeps links, pointers and gauges in agreement exactly if the connection has no UE or is attached to it |
| Links.RemoveKeepsLinks | internal/context/ran_ue.go:74-93 | in that case it does |
| Links.RemoveOfPreparedTargetBreaksLinks | internal/context/ran_ue.go:82-85 | every other connection is a target in preparation, and its removal takes away the link of another connection that goes on pointing to the UE, or a count that is not there |
| Links.RemoveUeKeepsLinks | internal/context/amf_ue.go:312-339 | removal of a UE context keeps them in agreement: its connected and idle counts go with it |
| Links.RemoveUeKeepsLinksExactly | internal/context/amf_ue.go:312-339 | removal of a context that was removed before keeps them exactly if the context was never connected |
| RegistryRuns.RunKeepsIndexes | internal/context/amf_ran.go:58-91 | in every run of index operations the two indexes and the allocator agree at every point |
| RegistryRuns.RunKeepsGood | internal/gmm/common/user_profile.go:58-110 | in every orderly run of new connections, initial messages with a used id, removals, switches, path switches, removals of all, acknowledges, searches by AP ids, new contexts, held and let go contexts, attachments, preparations, notifies, unpairings, release commands, release completes and removals of contexts, at every point: indexes complete, links and pointers agree but for targets in preparation, and for each access the CM gauges are the numbers of live UEs connected and live UEs once connected |
| RegistryRuns.RunIsGoodExactly | internal/gmm/common/user_profile.go:58-110 | a run from a good state stays good at every point if and only if it is orderly |
| RegistryRuns.OrderlyIsExact | internal/gmm/common/user_profile.go:58-110 | for every kind of event: it keeps all this if and only if its condition on the state before holds |
| RegistrySteps.ReleaseKeepsGoodExactly | internal/ngap/handler.go:234-355 | the condition of a release complete, branch by branch; after a handover: the source is attached and the target not to another UE, or the source is not attached and the target is the connection whose link its removal takes away |
| RegistrySteps.SwitchKeepsGoodExactly | internal/context/ran_ue.go:99-125 | that of a switch: the new slot is free, and an attached connection keeps its access type |
| RegistrySteps.PathSwitchKeepsGoodExactly | internal/ngap/handler.go:1304-1383 | that of a path switch: moreover the id stays, or there was none, the handler goes on to switch, and the id is not used on the old RAN |
| RegistryRuns.RemovalAfterReattachmentMiscounts | internal/ngap/handler.go:340-350 | from every good state: notify, a new context attached to the source, its release complete, removal of the first context; the steps before the release complete are in order and the last state counts one connected UE too many |
| RegistryRuns.NotifyAfterRemovalOfSource | internal/ngap/handler.go:1213-1244 | from every good state: prepare, remove the source, notify; the last state has the UE connected and not counted |
| RegistrySteps.RemovalOfAllKeepsLinksExactly | internal/context/amf_ran.go:82-91 | for any order of visit: links, pointers and gauges stay in agreement exactly if no visited connection is a target in preparation, acknowledged and not notified yet |
| ApId.RanUeFind | internal/ngap/handler.go:2267-2347 | the outcome, the error indication and the whole new state of the search |
| ApId.RemoveRanUeByInvalidUe | internal/ngap/handler.go:2249-2260 | releases by AMF id first and then by RAN id |
| ApId.RemoveRanUeByInvalidId | internal/ngap/handler.go:2224-2242 | detaches the UE only if it is linked to this very connection, then removes the connection |
| ApId.LocalRelease | internal/ngap/handler.go:2249-2260 | afterwards exactly the connections of this RAN with either id are gone with their own links, and everything else is as it was |
| ApId.FindIsRight | internal/ngap/handler.go:2267-2347 | section 10.6 of TS 38.413: it succeeds exactly when this RAN has a connection with the pair, returns the only one, changes nothing then, and otherwise leaves no connection of this RAN with either id and every other RAN's connections and links unchanged; if an error is to be indicated, it is the unknown local id exactly if no connection of this RAN has it, and the inconsistent remote id exactly if one has it but not the RAN id |
| Handover.SendHandoverRequest | internal/ngap/message/send.go:648-693 | a target is created and paired exactly if the source has a UE and no target yet, the list has at most 256 sessions, the container is not empty and an id is free; otherwise nothing changes |
| Handover.HandleHandoverRequestAcknowledge | internal/ngap/handler.go:1433-1528 | the stored id, the appended sessions, and exactly when a HandoverCommand, a preparation failure or nothing is sent; the command hands over the sessions of the items with an SM context and a response, and releases those with an SM context and an error response, one for each item and in their order |
| Handover.PrepareSessions | internal/ngap/handler.go:1450-1483 | the loop makes these two lists and appends the first to the sessions of the target |
| Handover.HandleHandoverNotify | internal/ngap/handler.go:1213-1244 | the reported sessions are those of the target that have an SM context, in order, and the UE moves to the target |
| Handover.HandleUEContextReleaseComplete | internal/ngap/handler.go:234-355 | the new state for each release action, and where a nil pointer stops it |
| Handover.NormalReleaseExactly | internal/ngap/handler.go:234-334 | a connection without a UE, or released normally, goes, and no other connection and no UE context changes |
| Handover.ContextReleaseExactly | internal/ngap/handler.go:335-339 | for the action that releases the UE context that context goes with exactly its own links and the connections they name |
| Handover.SourceReleaseExactly | internal/ngap/handler.go:340-350 | after a handover the source goes and its target, if it is there, gets the UE and has no source any longer; without one it stops and nothing changes |
| Handover.DetachSourceUeTargetUe | internal/context/common_function.go:73-89 | clears both pointers of the pair from either side |
| Handover.HandleHandoverCancel | internal/ngap/handler.go:1731-1758 | the target of the source, if any, is asked to release for a handover, and nothing else changes |
| Handover.UnpairUndoesPairing | internal/context/common_function.go:54-89 | detaching undoes attaching from either side, except that the target keeps its UE pointer |
| HandoverRuns.RunKeepsInv | internal/context/common_function.go:54-89 | in every run source and target name each other, a target has its sessions from its one acknowledge, and a source that a UE was moved away from has none until one is attached to it |
| HandoverRuns.AcknowledgedOnce | internal/ngap/ngap_generator.go:492-494 | in every run, failures, cancels and releases included, a target's acknowledge is processed at most once |
| HandoverRuns.NotifyFollowsItsAcknowledge | internal/ngap/handler.go:1203-1248 | in every run, failures, cancels and releases included, a notify completes a handover only after the one acknowledge of its target, for exactly the sessions of the HandoverCommand that still have an SM context, in order |
| HandoverRuns.PathSwitchKeepsInvExactly | internal/ngap/handler.go:1304-1306 | a path switch keeps what these runs rely on exactly if its connection is no target or an acknowledged one |
| HandoverRuns.NotifyAfterPathSwitch | internal/ngap/handler.go:1203-1248 | after a path switch on a target a notify with the new id completes the handover, acknowledged or not |
| Handover.HavingFilters | internal/ngap/handler.go:1226-1233 | that list is filtered piece by piece: order and repetitions are kept |
| Handover.HavingHolds | internal/ngap/handler.go:1226-1233 | and holds exactly the sessions with an SM context |
| Handover.ListsExactly | internal/ngap/handler.go:1455-1483 | a session is handed over exactly if it has an SM context and an item with its id has a response, and released exactly if one has an error response; the lists are the ids of these items at ascending positions, as many as there are |
| Handover.ListsOfPieces | internal/ngap/handler.go:1450-1483 | both lists are made piece by piece: order and repetitions are kept |
| HandoverRuns.CommandIsExact | internal/ngap/handler.go:1450-1516 | in these runs a HandoverCommand carries exactly those sessions |
| HandoverRuns.NotifyMovesTheUe | internal/gmm/common/user_profile.go:81-98 | after a notify the UE is attached to the target and the source has none |
| HandoverRuns.SourceReleaseSparesTheUe | internal/ngap/handler.go:234-242 | in every run the release complete of a source changes no link, no other connection and no gauge if no UE was attached to it since the notify |
| HandoverRuns.SourceReleaseSparesTheUeExactly | internal/ngap/handler.go:340-350 | in every run the release asked for by the notify leaves the target with its UE exactly if no UE was attached to the source since, or the source has lost it again, or it is the target's own |
| HandoverRuns.SourceReleaseTakesTheTarget | internal/ngap/handler.go:1781-1792 | from every state with a notify: a NAS non-delivery indication on the source makes a new context and attaches it, and the source's release complete then gives the target to that context |
| Handover.ReleaseSparesTargetExactly | internal/ngap/handler.go:340-350 | when a UE has been attached to the source again, the target keeps its UE exactly if the source has none or the same |
| Handover.AcknowledgeClosesTargetExactly | internal/ngap/handler.go:1433-1436 | an acknowledge closes the target to a second one exactly when it carries a RAN id other than the reserved one |
| HandoverRuns.AbandonedStopsExactly | internal/ngap/handler.go:340-350 | the release complete of a target that was told to release for a handover stops at the missing target pointer, with nothing changed, exactly if its ids are consistent with those known; otherwise the search in front of the handler removes the target |
| HandoverRuns.FailedTargetStopsExactly | internal/ngap/handler.go:1531-1593 | after request and failure it stops exactly for a missing or reserved RAN id |
| HandoverRuns.CancelledTargetStopsExactly | internal/ngap/handler.go:1722-1758 | after a cancel, before or after the acknowledge, it stops exactly for the RAN id known of the target, or none if none is known |
| HandoverRuns.HandoverGoesThrough | internal/ngap/handler.go:1405-1529 | a prepared, acknowledged and notified handover completes for exactly the sessions of the items with an SM context and a response, one for each and in their order |
| Scheduler.Worker.Submit | internal/ngap/scheduler.go:86-96 | true only with the task in the buffer or in the worker's hands, false only after the stop signal |
| Scheduler.Worker.Select | internal/ngap/scheduler.go:54-66 | takes the first task or, if stopped, begins to drain |
| Scheduler.Worker.SelectOrExit | internal/ngap/scheduler.go:70-82 | leaves only with an empty buffer |
| Scheduler.Worker.DrainAndExit | internal/ngap/scheduler.go:70-82 | handles everything in the buffer in order and leaves |
| Scheduler.Worker.Stop | internal/ngap/scheduler.go:99-103 | the signal may be given again without effect |
| Scheduler.KeysAreSequential | internal/ngap/scheduler.go:45-96 | in every interleaving the handled tasks of a key are a prefix of its accepted ones in order, and at most one call for a key is open |
| Scheduler.BuffersAreBounded | internal/ngap/scheduler.go:33-43 | in every run no channel holds more than its capacity |
| Scheduler.StoppedExactly | internal/ngap/scheduler.go:86-103 | in every run a worker has been given the stop signal exactly if it was stopped before |
| Scheduler.KeysGoRound | internal/ngap/scheduler.go:133-146 | each worker has the key of its own number, and keys go round the workers from there |
| Scheduler.NoKeyOnTwoWorkers | internal/ngap/scheduler.go:133-146 | two workers never handle the same key |
| Scheduler.ExitedHandledAll | internal/ngap/scheduler.go:45-82 | a worker that has left by itself has handled, in order, everything it was given up to any point at which it was still there |
| Scheduler.ShutdownHandledAll | internal/ngap/scheduler.go:149-159 | once Shutdown has returned, every task of a worker that did not panic that was accepted before the worker had left, so every one accepted before Shutdown began, is handled exactly once, each key's in order |
| Scheduler.ShutdownIsNeverStuck | internal/ngap/scheduler.go:149-159 | stopped workers always have a next step until Shutdown can return |
| Scheduler.WorkersWindDown | internal/ngap/scheduler.go:45-82 | each such step brings its worker closer to its end |
| Scheduler.AcceptedIsHandledExactly | internal/ngap/scheduler.go:45-96 | the call for an accepted task has ended when its worker has left exactly if the worker had not left when the task was accepted; otherwise there never is one |
| Scheduler.ShutdownHandlesExactly | internal/ngap/scheduler.go:86-159 | so of the tasks that Submit accepts for a worker that does not panic Shutdown loses exactly those accepted when the worker had left |
| Scheduler.AcceptedAfterStopIsLost | internal/ngap/scheduler.go:86-96 | a run in which that happens |
| GmmOps.GmmUe.Dispatch | internal/nas/dispatch.go:16-34 | each incoming message is one step of the runs and keeps their invariant: gauges, counters and authentication data are in order afterwards and every entry into ContextSetup or Registered is earned |
| GmmOps.GmmUe.StopT3550 | internal/context/amf_ue.go:965-973 | so does the stop of the timer |
| GmmOps.GmmUe.SendEvent | internal/gmm/init.go:36-63 | look up, callback, and on a change exit, new state and entry; nested sends terminate by the rank of the event |
| GmmOps.GmmUe.OnEvent | internal/gmm/sm.go:21-498 | what each state's callback does with a message or event, nested events included |
| GmmOps.GmmUe.OnEntry | internal/gmm/sm.go:65-343 | the entry callbacks |
| GmmOps.GmmUe.OnExit | internal/gmm/sm.go:247-254 | the exit callbacks: authentication data cleared, gauge lowered |
| GmmOps.GmmUe.ClearRegistrationRequestData | internal/context/amf_ue.go:652-667 | which fields an entry into Registered or Deregistered clears |
| GmmOps.GmmUe.AuthenticationProcedure | internal/gmm/handler.go:1661-1734 | pass with a valid context, identity request, error, or a new authentication context |
| GmmOps.GmmUe.HandleAuthenticationResponse | internal/gmm/handler.go:1972-2112 | success, fall back to the SUCI, failure or nothing, for both methods |
| GmmOps.GmmUe.HandleAuthenticationFailure | internal/gmm/handler.go:2123-2234 | failure, a new key set identifier, resynchronisation, or the end after two in a row |
| GmmOps.GmmUe.Secure | internal/gmm/sm.go:262-297 | skip with a valid context, failed selection, or a command |
| GmmOps.GmmUe.HandleSecurityModeComplete | internal/gmm/handler.go:2291-2351 | nothing with MacFailed, otherwise success or failure by the message container |
| GmmOps.GmmUe.HandleIdentityResponse | internal/gmm/handler.go:1535-1609 | which identities are accepted without integrity |
| GmmOps.GmmUe.HandleRegistrationRequest | internal/gmm/handler.go:380-577 | what the early returns leave behind, and what a context transfer sets |
| GmmOps.GmmUe.HandleDeregistrationRequest | internal/gmm/handler.go:2406-2455 | the event goes to the target access but names the access of the request |
| GmmOps.GmmUe.Register | internal/gmm/sm.go:360-391 | the registration handlers' end: failure event, waiting, or the accept with its timer |
| GmmOps.GmmUe.WhenSettingUp | internal/gmm/sm.go:391-437 | an identity response resumes the registration, and a RegistrationComplete counts only while T3550 runs |
| GmmRuns.NothingIsOverwritten | internal/gmm/sm.go:21-498 | own and exit callbacks of a state-changing event send nothing: when the new state is set, no state has changed since the event was sent |
| GmmRuns.RunKeepsInv | internal/gmm/init.go:36-63 | every run of messages keeps gauges, authentication data and the order of states sound |
| GmmRuns.BetweenMessages | internal/gmm/sm.go:247-254 | the gauges summed over access labels count the accesses of each state but Deregistered, an authentication context exists only while an access is in Authentication, at most one synchronisation failure is pending, the counter of identity requests is zero exactly if the SUCI has not been asked for on either access since either last reset it, no type assertion fails |
| GmmRuns.ContextSetupIsEarned | internal/gmm/sm.go:260-343 | every entry into ContextSetup has MacFailed false, comes from SecurityMode, and in this pass follows an AUSF success or an already valid security context |
| GmmRuns.RegisteredIsEarned | internal/gmm/init.go:36-54 | an access enters Registered only through Authentication, SecurityMode and ContextSetup, in that order |
| GmmRuns.PathFollowsTheTable | internal/gmm/init.go:36-54 | every state an access enters follows the one before it by a transition of the table, and the first is Authentication |
| GmmRuns.StateIsLastEntered | internal/gmm/sm.go:21-498 | the current state is the last one entered |
| GmmRuns.FailedAuthenticationAsksExactly | internal/gmm/handler.go:2009-2019 | in every run a failed authentication with a GUTI asks for the SUCI exactly if it has not been asked for on either access since either last left Authentication or entered Registered or Deregistered; otherwise the access is deregistered |
| GmmRuns.AskedSinceReset | internal/gmm/handler.go:1673-1675 | what that condition means: a request with no reset after it |
| GmmRuns.SecondFallBackNeedsReset | internal/gmm/handler.go:2009-2019 | between a request and a later fall back on the SUCI there is a reset, and within one stay it is the other access's |
| GmmRuns.OneAccessFallsBackOnce | internal/gmm/handler.go:2009-2019 | with messages from one access only the SUCI is asked for because of a failed authentication at most once per stay |
| GmmRuns.SecondFallBackHappens | internal/gmm/handler.go:2009-2019 | a run with two accesses in which that happens |
| GmmRuns.FailureKeepsInv | internal/gmm/handler.go:2174-2190 | a second synchronisation failure in a row ends the authentication |
| GmmProgress.RegistrationRequestExactly | internal/gmm/handler.go:380-577 | in Deregistered and Registered, in every state of the UE: which requests are taken up, and whether the access then waits in Authentication, goes on to ContextSetup or back to Deregistered, by identity, context, kind and the answers |
| GmmProgress.DeregisteredStays | internal/gmm/sm.go:21-60 | no other message leads out of Deregistered |
| GmmProgress.AuthenticationResponseExactly | internal/gmm/handler.go:1972-2112 | the response the AUSF confirms leads to SecurityMode, with a valid context to ContextSetup, without algorithms to Deregistered; one that fails to Deregistered unless the SUCI can be asked for; and no other anywhere |
| GmmProgress.AuthenticationExactly | internal/gmm/sm.go:150-250 | an accepted identity starts the authentication again, certain failures reported by the UE end it, and no other message leads out of Authentication |
| GmmProgress.SecurityModeExactly | internal/gmm/sm.go:260-343 | exactly a completion with integrity that carries nothing or a registration request leads to ContextSetup, or back if the handlers fail at once; one with a service request and a rejection lead to Deregistered; no other message leads out |
| GmmProgress.ContextSetupExactly | internal/gmm/sm.go:345-460 | exactly a RegistrationComplete with T3550 running leads to Registered, and an accepted identity to where the handlers end; no other message leads out |
| GmmProgress.DeregistrationExactly | internal/gmm/handler.go:2406-2455 | where a deregistration request leaves either access, by its targets and the state of the other; no message but this and a registration request leads out of Registered |
| GmmProgress.InitiatedStays | internal/gmm/init.go:36-54 | no message is processed in DeregistrationInitiated |
| GmmProgress.OtherAccessStays | internal/gmm/sm.go:21-498 | a message changes the state of the other access exactly if it deregisters it in DeregistrationInitiated |
| GmmProgress.RegisteredExactly | internal/gmm/handler.go:2241-2287 | in every state: an access becomes registered by exactly one kind of input, a RegistrationComplete that comes by it in ContextSetup while T3550 is running |
| GmmProgress.RegistrationCompletes | internal/gmm/init.go:36-54 | from every run with the access deregistered: registration request of a known UE, confirmed response by either method, completion with integrity and RegistrationComplete, with answers that go well, end in Registered with the other access unchanged |
| GmmProgress.UnknownUeCompletes | internal/gmm/handler.go:1661-1734 | so does the registration of an unknown UE that is asked for its SUCI and gives it |
| GmmProgress.AvailableExactly | internal/gmm/sm.go:262-297 | after every message: when the security context is available, by command, transfer, kind of registration and container |
| GmmProgress.KsiGoesRound | internal/gmm/handler.go:2136-2170 | a key set identifier in use is followed by the next modulo 7, never by the one for no key |
| GmmProgress.SecondSynchFailureEnds | internal/gmm/handler.go:2174-2230 | of two synchronisation failures in a row the second ends the authentication exactly if the first was not answered with a vector for the other method |
| GmmProgress.KsiInUseForgives | internal/gmm/handler.go:2136-2170 | a key set identifier in use in between makes the count start again |
| GmmProgress.TimerExactly | internal/gmm/handler.go:2241-2287 | after every message: T3550 runs exactly if the handlers have now accepted with a timer, or it ran before and the message neither completed the registration nor failed the authentication |
| GmmLedger.GaugesFollowExactly | internal/gmm/sm.go:65-498 | label by label the gauges of the access a message comes by follow it from state to state, and no other moves |
| GmmLedger.LabelsCountExactly | internal/gmm/handler.go:2406-2455 | they go on counting label by label exactly if the message does not deregister the other access from DeregistrationInitiated |
| GmmLedger.LabelsCountInRuns | internal/gmm/sm.go:65-498 | so in every run without such a message each gauge is 1 for the state of its access and 0 for every other |
| GmmLedger.CrossDeregistrationMiscounts | internal/gmm/handler.go:2406-2455 | from every run with both accesses registered each asks for the deregistration of the other: the last state counts wrongly |
| GmmLedger.DataExactly | internal/context/amf_ue.go:652-667 | registration kind and identity type after every message: what the request said, as far as it was read, and the accepted identity; cleared exactly when the access becomes registered or deregistered |
| GmmLedger.KsiExactly | internal/gmm/handler.go:470-577 | the key set identifier after a registration request: the transferred one, or the UE's own native one, or 0, or unchanged if the request is not read as far |
| NgapDecoder.ScanIes | internal/ngap/ngap_generator.go:332-379 | the loop keeps the first value of each known IE, goes on after a duplicate, and reports unknown IEs by criticality |
| NgapDecoder.FirstValueIsFirst | internal/ngap/ngap_generator.go:332-358 | the value kept is that of an IE with this id that no other with a value comes before |
| NgapDecoder.DecodeIes | internal/ngap/ngap_generator.go:332-475 | the checks are passed exactly without a repeated known IE, a missing mandatory reject IE and, in a request, an unknown reject IE; the diagnostics, the report and the variables are exactly as stated |
| NgapDecoder.UnknownsAreReported | internal/ngap/ngap_generator.go:359-381 | which unknown IEs are reported, with their own criticality and id |
| NgapDecoder.UnknownsInMessageOrder | internal/ngap/ngap_generator.go:359-381 | in message order |
| NgapDecoder.MissingsAreReported | internal/ngap/ngap_generator.go:383-397 | the missing ones are the mandatory reject IEs without a value |
| NgapDecoder.MissingsInSchemaOrder | internal/ngap/ngap_generator.go:383-397 | in schema order |
| NgapDecoder.PassingMeansOnlyNotifications | internal/ngap/ngap_generator.go:359-397 | a request without duplicates passes exactly when its diagnostics are notifications only |
| UeRouting.ExtractUeId | internal/ngap/ue_id_extractor.go:51-255 | the first value of the message's key IE as a 64-bit key, or none |
| UeRouting.Route | internal/ngap/service/service.go:251-272 | the worker of that key, or of key 0 |
| UeRouting.RouteAndDecode | internal/ngap/ue_id_extractor.go:51-400 | for every list of IEs of every covered message the worker is the one of the id its handler ends up with: the RAN's id (IE 85) for an initial message, the source AMF's (100) for a path switch, and the AMF's (10) otherwise, as a 64-bit number modulo the workers; a request that passes its checks has it |
| UeRouting.KeyIsRequired | internal/ngap/handler_generated.go:11508-11640 | in all covered requests but one the key is a mandatory reject IE |
| NgapSchemas.KeyIsKnown | internal/ngap/handler_generated.go:1718-1815 | the key of every covered message is among the IEs its handler knows |
| KeyChain.ChainAfterRefresh | internal/context/amf_ue.go:567-601 | after n updates the counter is n + 1 modulo 8; with a valid key NH is the derivation applied n + 1 times to the fresh access key, otherwise it is still the old NH |
| KeyChain.ChainByDerivation | internal/context/amf_ue.go:537-601 | in terms of the derivation function alone: the access key from Kamf, 0x6e, the octets of the uplink COUNT and of the access, the first NH from it and every next one from the NH before with 0x6f; the other access keeps its key |
| KeyChain.DerivateAnKey | internal/context/amf_ue.go:537-564 | the key of the access and no other, or nothing with an invalid Kamf |
| KeyChain.DerivateNH | internal/context/amf_ue.go:567-581 | NH derived from the given input, or nothing with an invalid Kamf |
| KeyChain.UpdateSecurityContext | internal/context/amf_ue.go:583-592 | access key, first hop and counter 1 |
| KeyChain.UpdateNH | internal/context/amf_ue.go:594-601 | 8-bit increment, three bits kept, next hop |
| Reactivation.ReactivatePendingULDataPDUSession | internal/gmm/handler.go:1330-1399 | for any order of visit: setup list, two error lists of equal growth and flags, with no other entry of the flags touched |
| Reactivation.SetupListIsExact | internal/gmm/handler.go:1390-1395 | the setup list gains exactly the sessions in range with a pending bit that the SMF has activated, save the one the UE was paged for, each once |
| Reactivation.ErrorsAreExact | internal/gmm/handler.go:1335-1388 | the error lists gain exactly the sessions without a response, with the cause that goes with the text of the error response, and those out of range, with cause 95; a failed call only sets the flag |
| Reactivation.ErrorsCount | internal/gmm/handler.go:1335-1388 | one entry for each of these sessions |
| Reactivation.ListsOfPieces | internal/gmm/handler.go:1330-1399 | the lists keep the order of visit |
| Guti.PagingFindsTheUe | internal/ngap/message/build.go:2238-2255 | the identity cut out by paging and brought back rebuilds the stored GUTI exactly when the AMF id is in lower case; the text of a failed TMSI allocation has no identity |
| Guti.RebuiltIsReencoded | internal/ngap/handler.go:477-488 | the three bit strings of the AMF id are put together again without loss |
| Guti.EncodeOfDecode | internal/ngap/message/build.go:2247-2255 | text is decoded and encoded back to itself exactly when it is in lower case |
| Guti.GutisAreDistinct | internal/context/context.go:217-224 | different TMSIs give different GUTIs |
| Guti.TmsiPool.Allocate | internal/context/context.go:200-207 | an unused TMSI, or -1 exactly when there is none |
| Guti.TmsiPool.AllocateGutiToUe | internal/context/context.go:217-224 | the UE gets a fresh TMSI and the GUTI text made of it |

## Left out

- SCTP, HTTP and the clients of other network functions: their answers are parameters, and their retry loops are taken to return.
- ASN.1 and NAS codecs, real cryptography, and the message builders apart from the GUTI slicing: `PlainNasDecode`, MAC, cipher and KDF are functions, with the laws that a lemma needs stated where it needs them; errors of the KDF are not modelled.
- One AmfUe is modelled in two parts: registry and security fields in `Context`, GMM fields in `Gmm`; calls from one part into another (a failed authentication removes the UE context) show only in the part they belong to.
- A RanUe without a RAN: `RanUe.ran` is never nil in the code that is modelled.
- UePool, lookups by SUPI, SUCI and GUTI, and the UE-connectivity and PDU-session gauges, which the code does not update symmetrically.
- Timers, except that T3550 runs or not; the states that timers and reattachment set by force are outside the runs of `GmmRuns`.
- `AMFContext.Reset`, which clears the pool without freeing ids.
- RegistryRuns.RunKeepsGood: for runs in which each event meets its condition in `Orderly`, which reads the state before the event: a RAN's ids are fresh on it; removals, replacements and releases do not hit a target in preparation; an attached connection keeps its access type and its UE; a path switch keeps the id or gives the first one; a notify finds its UE connected by the source; a context is let go only without a connection; and contexts that are attached or removed have not been removed. RegistryRuns.RunIsGoodExactly says that the statement is false for every other run.
- HandoverRuns.NotifyFollowsItsAcknowledge: for RANs that give an id other than the reserved one in acknowledge and notify, lists of at most 256 items, and no path switch on a target that is not acknowledged; the lemmas named above say what happens without them.
- HandoverRuns.AcknowledgedOnce: for the same runs.
- HandoverRuns.SourceReleaseSparesTheUe: for the same runs.
- The preparation in `handleHandoverRequiredMain` before the request is sent, and handover between AMFs, which is not implemented.
- NasChannel.RunKeepsInv: one access and one security context.
- NasDownlink.UeReadsAll: the keys stay the same over a run; the UE that opens the messages is the receiver of the standard, not code of the repository.
- Gmm: one UE, whose messages are processed one at a time; the outcomes of codecs and services come with the message, `RegistrationRequest` being nil is not modelled, and registrations over a transferred context take the transferred values as they come.
- GmmOps.GmmUe.Register: the bodies of HandleInitialRegistration and HandleMobilityAndPeriodicRegistrationUpdating are reduced to how they end.
- Scheduler: blocked senders appear when their task is accepted.
- NgapDecoder.DecodeIes: criticality values outside the three that ASN.1 allows, and the contents of the reports.
- UeRouting.ExtractUeId: the outer PDU and its nil checks; messages it does not cover have no kind.
- Reactivation.ReactivatePendingULDataPDUSession: the range check of session ids belongs to a library that is not part of this model and appears as a set.
- KeyChain: DerivateKamf, DerivateAlgKey and the selection of algorithms.
- Guti.PagingFindsTheUe: the TAI list and the other IEs of the paging message; TMSIs supplied by the UE or kept over an AMF change.
- Inter-AMF handover, SSC mode 3 and emergency services: not implemented in the repository.
