// The uplink as a protocol: a UE numbers and protects its messages under one
// security context, and the channel delivers any of them any number of times, in
// any order or never. The AMF decodes each delivery with NasSecurity.Decoding.

module NasChannel {
  import opened Basics
  import opened NasCount
  import opened NasSecurity

  datatype Config = Config(lib: Library, keys: Keys, access: AccessType)

  datatype Sent = Sent(header: Byte, count: Count, body: seq<Byte>, pdu: seq<Byte>)

  // index: which sent message was accepted; count: the COUNT it was accepted at
  datatype Acceptance = Acceptance(index: nat, count: Count)

  datatype State = State(sent: seq<Sent>, next: nat, stored: Count, accepted: seq<Acceptance>)

  datatype Event =
    | Transmit(epd: Byte, header: Byte, body: seq<Byte>)
    | Deliver(index: nat, initial: bool)

  const START := State([], 0, ZERO, [])

  ghost predicate Ideal(cfg: Config) {
    Lawful(cfg.lib) && BindsCount(cfg.lib)
  }

  function Receiver(cfg: Config, s: State): Security {
    Security(true, cfg.keys, s.stored, ZERO)
  }

  function Record(s: State, index: nat, d: Decoded): State {
    if d.result.Ok? && d.result.value.integrityProtected then
      s.(stored := d.ulCount, accepted := s.accepted + [Acceptance(index, d.ulCount)])
    else s.(stored := d.ulCount)
  }

  function Step(cfg: Config, s: State, e: Event): State {
    match e
    case Transmit(epd, header, body) =>
      if s.next >= COUNT_LIMIT || header !in {INTEGRITY, INTEGRITY_CIPHERED, INTEGRITY_CIPHERED_NEW_CONTEXT} then s
      else
        var count := FromValue(s.next);
        var frame := Frame(cfg.lib, cfg.keys, cfg.access, UPLINK, epd, header, count, body);
        if frame.Err? then s
        else s.(sent := s.sent + [Sent(header, count, body, frame.value)], next := s.next + 1)
    case Deliver(index, initial) =>
      if index >= |s.sent| then s
      else Record(s, index, Decoding(cfg.lib, Receiver(cfg, s), cfg.access, s.sent[index].pdu, initial))
  }

  function Run(cfg: Config, events: seq<Event>): State {
    if events == [] then START
    else Step(cfg, Run(cfg, events[..|events| - 1]), events[|events| - 1])
  }

  // A stored COUNT and the message that follows it: the two ways the next one can be lower.
  predicate GoesBack(stored: Count, header: Byte, sqn: Byte) {
    if header == INTEGRITY_CIPHERED_NEW_CONTEXT then stored.overflow > 0 || sqn < stored.sqn
    else stored.overflow == OVERFLOW_LIMIT - 1 && sqn < stored.sqn
  }

  ghost predicate WasSent(cfg: Config, m: Sent) {
    && m.header in {INTEGRITY, INTEGRITY_CIPHERED, INTEGRITY_CIPHERED_NEW_CONTEXT}
    && exists epd :: Frame(cfg.lib, cfg.keys, cfg.access, UPLINK, epd, m.header, m.count, m.body) == Ok(m.pdu)
  }

  // The k-th acceptance is of a sent message, at that message's own COUNT, which
  // is what the receiver estimated from the acceptance before it.
  ghost predicate Follows(s: State, k: nat)
    requires k < |s.accepted|
  {
    var previous := if k == 0 then ZERO else s.accepted[k - 1].count;
    && s.accepted[k].index < |s.sent|
    && var m := s.sent[s.accepted[k].index];
       && s.accepted[k].count == m.count
       && m.count == CountFor(previous, m.header, m.count.sqn)
  }

  ghost predicate Inv(cfg: Config, s: State) {
    && s.next == |s.sent| <= COUNT_LIMIT
    && (forall i :: 0 <= i < |s.sent| ==> WasSent(cfg, s.sent[i]) && Value(s.sent[i].count) == i)
    && (forall k {:trigger Follows(s, k)} :: 0 <= k < |s.accepted| ==> Follows(s, k))
    && s.stored == (if s.accepted == [] then ZERO else s.accepted[|s.accepted| - 1].count)
  }

  // One delivery, with the frame's anatomy filled in.
  lemma DeliverOutcome(cfg: Config, s: State, index: nat, initial: bool)
    requires Ideal(cfg) && Inv(cfg, s) && index < |s.sent|
    ensures var m := s.sent[index];
      var d := Decoding(cfg.lib, Receiver(cfg, s), cfg.access, m.pdu, initial);
      var right := CountFor(s.stored, m.header, m.count.sqn) == m.count;
      && (d.result.Ok? && d.result.value.integrityProtected
          <==> |m.body| >= 3 && right && Judge(cfg.lib, Receiver(cfg, s), m.header, m.body, initial, true).Ok?)
      && d.ulCount == (if d.result.Ok? && d.result.value.integrityProtected then m.count else s.stored)
  {
    var m := s.sent[index];
    assert WasSent(cfg, m);
    var epd :| Frame(cfg.lib, cfg.keys, cfg.access, UPLINK, epd, m.header, m.count, m.body) == Ok(m.pdu);
    DecodeOfFrame(cfg.lib, Receiver(cfg, s), cfg.access, epd, m.header, m.count, m.body, m.pdu, initial);
  }

  lemma RecordKeepsInv(cfg: Config, s: State, index: nat, d: Decoded)
    requires Inv(cfg, s) && index < |s.sent|
    requires var m := s.sent[index];
      if d.result.Ok? && d.result.value.integrityProtected then
        d.ulCount == m.count == CountFor(s.stored, m.header, m.count.sqn)
      else d.ulCount == s.stored
    ensures Inv(cfg, Record(s, index, d))
  {
    var s' := Record(s, index, d);
    forall k | 0 <= k < |s'.accepted| ensures Follows(s', k) {
      if k < |s.accepted| {
        assert Follows(s, k);
      }
    }
  }

  lemma TransmitKeepsInv(cfg: Config, s: State, m: Sent)
    requires Inv(cfg, s) && s.next < COUNT_LIMIT && WasSent(cfg, m) && Value(m.count) == s.next
    ensures Inv(cfg, s.(sent := s.sent + [m], next := s.next + 1))
  {
    var s' := s.(sent := s.sent + [m], next := s.next + 1);
    forall k | 0 <= k < |s'.accepted| ensures Follows(s', k) {
      assert Follows(s, k);
    }
  }

  lemma StepKeepsInv(cfg: Config, s: State, e: Event)
    requires Ideal(cfg) && Inv(cfg, s)
    ensures Inv(cfg, Step(cfg, s, e))
  {
    match e
    case Transmit(epd, header, body) =>
      if Step(cfg, s, e) != s {
        var count := FromValue(s.next);
        var frame := Frame(cfg.lib, cfg.keys, cfg.access, UPLINK, epd, header, count, body);
        TransmitKeepsInv(cfg, s, Sent(header, count, body, frame.value));
      }
    case Deliver(index, initial) =>
      if index < |s.sent| {
        DeliverOutcome(cfg, s, index, initial);
        RecordKeepsInv(cfg, s, index, Decoding(cfg.lib, Receiver(cfg, s), cfg.access, s.sent[index].pdu, initial));
      }
  }

  // In every run, each accepted message is accepted at the COUNT its sender used.
  lemma {:induction false} RunKeepsInv(cfg: Config, events: seq<Event>)
    requires Ideal(cfg)
    ensures Inv(cfg, Run(cfg, events))
  {
    if events != [] {
      RunKeepsInv(cfg, events[..|events| - 1]);
      StepKeepsInv(cfg, Run(cfg, events[..|events| - 1]), events[|events| - 1]);
    }
  }

  lemma GoesBackExactly(stored: Count, header: Byte, sqn: Byte)
    ensures Value(CountFor(stored, header, sqn)) < Value(stored) <==> GoesBack(stored, header, sqn)
  {
    EstimateFallsExactlyOnWrap(stored, sqn);
    if header == INTEGRITY_CIPHERED_NEW_CONTEXT {
      assert Value(CountFor(stored, header, sqn)) == sqn;
    }
  }

  // One accepted COUNT is below the one before it exactly when the message carries
  // the new-context header with a low sequence number, or the overflow counter wraps.
  lemma AcceptedCountsGoUp(cfg: Config, events: seq<Event>, k: nat)
    requires Ideal(cfg)
    requires var s := Run(cfg, events); 0 < k < |s.accepted|
    ensures var s := Run(cfg, events);
      var previous, current := s.accepted[k - 1].count, s.accepted[k];
      current.index < |s.sent| &&
      (Value(previous) <= Value(current.count)
       <==> !GoesBack(previous, s.sent[current.index].header, current.count.sqn))
  {
    RunKeepsInv(cfg, events);
    var s := Run(cfg, events);
    assert Follows(s, k);
    GoesBackExactly(s.accepted[k - 1].count, s.sent[s.accepted[k].index].header, s.accepted[k].count.sqn);
  }

  predicate GoesBackAt(s: State, k: nat)
    requires 0 < k < |s.accepted|
  {
    var current := s.accepted[k];
    current.index < |s.sent| ==> GoesBack(s.accepted[k - 1].count, s.sent[current.index].header, current.count.sqn)
  }

  // Whole runs: over any stretch without these two cases the accepted COUNTs are sorted.
  lemma {:induction false} AcceptedCountsSorted(cfg: Config, events: seq<Event>, i: nat, j: nat)
    requires Ideal(cfg)
    requires var s := Run(cfg, events);
      && i <= j < |s.accepted|
      && forall k {:trigger GoesBackAt(s, k)} :: i < k <= j ==> !GoesBackAt(s, k)
    ensures var s := Run(cfg, events); Value(s.accepted[i].count) <= Value(s.accepted[j].count)
    decreases j - i
  {
    if i < j {
      AcceptedCountsSorted(cfg, events, i, j - 1);
      AcceptedCountsGoUp(cfg, events, j);
      assert !GoesBackAt(Run(cfg, events), j);
    }
  }

  // ----- messages that are accepted more than once -----

  ghost predicate OnlyItself(s: State, i: nat, j: nat)
    requires i <= j < |s.accepted|
  {
    forall k {:trigger s.accepted[k]} :: i <= k <= j ==> s.accepted[k].index == s.accepted[i].index
  }

  // In any run, between two acceptances of one message there is either nothing but itself,
  // or one of the two cases in which a COUNT goes back; never both.
  lemma AcceptedTwiceExactly(cfg: Config, events: seq<Event>, i: nat, j: nat)
    requires Ideal(cfg)
    requires var s := Run(cfg, events); i < j < |s.accepted| && s.accepted[i].index == s.accepted[j].index
    ensures var s := Run(cfg, events);
      OnlyItself(s, i, j) <==> forall k {:trigger GoesBackAt(s, k)} :: i < k <= j ==> !GoesBackAt(s, k)
  {
    RunKeepsInv(cfg, events);
    var s := Run(cfg, events);
    if forall k {:trigger GoesBackAt(s, k)} :: i < k <= j ==> !GoesBackAt(s, k) {
      forall k | i <= k <= j ensures s.accepted[k].index == s.accepted[i].index {
        AcceptedCountsSorted(cfg, events, i, k);
        AcceptedCountsSorted(cfg, events, k, j);
        IndexIsCount(cfg, s, i);
        IndexIsCount(cfg, s, j);
        IndexIsCount(cfg, s, k);
      }
    } else if OnlyItself(s, i, j) {
      forall k | i < k <= j ensures !GoesBackAt(s, k) {
        assert s.accepted[k - 1].index == s.accepted[i].index == s.accepted[k].index;
        IndexIsCount(cfg, s, k);
        IndexIsCount(cfg, s, k - 1);
        ValueInjective(s.accepted[k].count, s.accepted[k - 1].count);
        AcceptedCountsGoUp(cfg, events, k);
      }
    }
  }

  lemma IndexIsCount(cfg: Config, s: State, k: nat)
    requires Inv(cfg, s) && k < |s.accepted|
    ensures Value(s.accepted[k].count) == s.accepted[k].index
  {
    assert Follows(s, k);
  }

  // And the first of the two does happen: in any run, a message that has just been accepted
  // is accepted again when it is delivered again.
  lemma RepeatIsAccepted(cfg: Config, events: seq<Event>, index: nat, initial: bool)
    requires Ideal(cfg)
    requires var s := Run(cfg, events); Step(cfg, s, Deliver(index, initial)).accepted != s.accepted
    ensures var s1 := Step(cfg, Run(cfg, events), Deliver(index, initial));
      && s1.accepted != [] && s1.accepted[|s1.accepted| - 1].index == index
      && Step(cfg, s1, Deliver(index, initial)) == s1.(accepted := s1.accepted + [s1.accepted[|s1.accepted| - 1]])
  {
    hide Decoding, Judge;
    RunKeepsInv(cfg, events);
    var s := Run(cfg, events);
    DeliverOutcome(cfg, s, index, initial);
    StepKeepsInv(cfg, s, Deliver(index, initial));
    var s1 := Step(cfg, s, Deliver(index, initial));
    DeliverOutcome(cfg, s1, index, initial);
    JudgeIgnoresCount(cfg, s, s1, s.sent[index], initial);
  }

  lemma JudgeIgnoresCount(cfg: Config, s: State, s1: State, m: Sent, initial: bool)
    ensures Judge(cfg.lib, Receiver(cfg, s1), m.header, m.body, initial, true)
            == Judge(cfg.lib, Receiver(cfg, s), m.header, m.body, initial, true)
  {
  }

  // The COUNT a header and the stored COUNT start the estimate from.
  function Base(stored: Count, header: Byte): Count {
    if header == INTEGRITY_CIPHERED_NEW_CONTEXT then ZERO else stored
  }

  // Loss never locks the receiver out: in every run, a message 0 to 255 COUNTs ahead
  // of the stored one is accepted at its own COUNT, if its type may be processed;
  // and outside that window nothing is accepted.
  lemma WindowIsAccepted(cfg: Config, events: seq<Event>, index: nat, initial: bool)
    requires Ideal(cfg)
    ensures var s := Run(cfg, events);
      index < |s.sent| && |s.sent[index].body| >= 3 ==>
        var m := s.sent[index];
        Step(cfg, s, Deliver(index, initial)) ==
        if Ahead(Base(s.stored, m.header), m.count) <= 0xff
           && Judge(cfg.lib, Receiver(cfg, s), m.header, m.body, initial, true).Ok?
        then s.(stored := m.count, accepted := s.accepted + [Acceptance(index, m.count)])
        else s
  {
    RunKeepsInv(cfg, events);
    var s := Run(cfg, events);
    if index < |s.sent| && |s.sent[index].body| >= 3 {
      WindowStep(cfg, s, index, initial);
    }
  }

  lemma WindowStep(cfg: Config, s: State, index: nat, initial: bool)
    requires Ideal(cfg) && Inv(cfg, s) && index < |s.sent| && |s.sent[index].body| >= 3
    ensures var m := s.sent[index];
      Step(cfg, s, Deliver(index, initial)) ==
      if Ahead(Base(s.stored, m.header), m.count) <= 0xff
         && Judge(cfg.lib, Receiver(cfg, s), m.header, m.body, initial, true).Ok?
      then s.(stored := m.count, accepted := s.accepted + [Acceptance(index, m.count)])
      else s
  {
    var m := s.sent[index];
    EstimateWindow(Base(s.stored, m.header), m.count);
    DeliverOutcome(cfg, s, index, initial);
  }

  // ----- a run in which the accepted COUNT goes back -----

  // No algorithm reports an error.
  ghost predicate Usable(cfg: Config) {
    && Ideal(cfg)
    && (forall i, d :: cfg.lib.mac(i, d).Some?)
    && (forall i, d :: cfg.lib.cipher(i, d).Some?)
  }

  // The UE completes the security mode with the first and carries on with the second.
  ghost predicate Completes(cfg: Config, e: Event) {
    e.Transmit? && e.header == INTEGRITY_CIPHERED_NEW_CONTEXT
    && |e.body| >= 3 && cfg.lib.plainDecode(e.body) == Some(SecurityModeComplete)
  }

  ghost predicate CarriesOn(cfg: Config, e: Event) {
    e.Transmit? && e.header == INTEGRITY_CIPHERED && |e.body| >= 3 && cfg.lib.plainDecode(e.body) == Some(OtherGmm)
  }

  lemma TransmitStep(cfg: Config, s: State, e: Event)
    requires Usable(cfg) && Inv(cfg, s) && s.next < 0x100
    requires Completes(cfg, e) || CarriesOn(cfg, e)
    ensures var s' := Step(cfg, s, e);
      && Inv(cfg, s')
      && |s'.sent| == |s.sent| + 1 && (forall i :: 0 <= i < |s.sent| ==> s'.sent[i] == s.sent[i])
      && s'.sent[|s.sent|].header == e.header && s'.sent[|s.sent|].body == e.body
      && s'.sent[|s.sent|].count == Count(0, s.next)
      && s'.stored == s.stored && s'.accepted == s.accepted && s'.next == s.next + 1
  {
    StepKeepsInv(cfg, s, e);
    ValueInjective(FromValue(s.next), Count(0, s.next));
  }

  lemma AcceptStep(cfg: Config, s: State, index: nat, e: Event)
    requires Usable(cfg) && Inv(cfg, s) && index < |s.sent|
    requires Completes(cfg, e) || CarriesOn(cfg, e)
    requires var m := s.sent[index];
      && m.header == e.header && m.body == e.body
      && m.count.overflow == 0 == s.stored.overflow
      && (Completes(cfg, e) || s.stored.sqn <= m.count.sqn)
    ensures var s' := Step(cfg, s, Deliver(index, false));
      && Inv(cfg, s')
      && s' == s.(stored := s.sent[index].count, accepted := s.accepted + [Acceptance(index, s.sent[index].count)])
  {
    hide Decoding, Frame;
    StepKeepsInv(cfg, s, Deliver(index, false));
    assert Ahead(Base(s.stored, s.sent[index].header), s.sent[index].count) <= 0xff;
    WindowStep(cfg, s, index, false);
  }

  lemma StartInv(cfg: Config)
    ensures Inv(cfg, START)
  {
  }

  // Let the channel deliver the completion twice, before and after the next
  // message: the COUNT is accepted at 0, 1 and 0, whatever the library and keys.
  lemma DuplicateGoesBack(cfg: Config, e1: Event, e2: Event)
    requires Usable(cfg) && Completes(cfg, e1) && CarriesOn(cfg, e2)
    ensures Run(cfg, [e1, e2, Deliver(0, false), Deliver(1, false), Deliver(0, false)]).accepted
            == [Acceptance(0, Count(0, 0)), Acceptance(1, Count(0, 1)), Acceptance(0, Count(0, 0))]
  {
    hide Step, Run, Inv, Usable;
    StartInv(cfg);
    TransmitStep(cfg, START, e1);
    var s1 := Step(cfg, START, e1);
    TransmitStep(cfg, s1, e2);
    var s2 := Step(cfg, s1, e2);
    AcceptStep(cfg, s2, 0, e1);
    var s3 := Step(cfg, s2, Deliver(0, false));
    AcceptStep(cfg, s3, 1, e2);
    var s4 := Step(cfg, s3, Deliver(1, false));
    AcceptStep(cfg, s4, 0, e1);
    RunOfFive(cfg, [e1, e2, Deliver(0, false), Deliver(1, false), Deliver(0, false)]);
  }

  // Such a library exists: let the MAC be the COUNT and cipher nothing.
  function CountAsMac(i: CryptoInput, d: seq<Byte>): Option<seq<Byte>> {
    Some([i.count / 0x1_0000 % 0x100, i.count / 0x100 % 0x100, i.count % 0x100, 0])
  }

  function NoCipher(i: CryptoInput, d: seq<Byte>): Option<seq<Byte>> {
    Some(d)
  }

  function ByFirstOctet(d: seq<Byte>): Option<Plain> {
    if d == [] then None else if d[0] == 0x5e then Some(SecurityModeComplete) else Some(OtherGmm)
  }

  lemma Digits(c: nat)
    requires c < COUNT_LIMIT
    ensures c == c / 0x1_0000 % 0x100 * 0x1_0000 + c / 0x100 % 0x100 * 0x100 + c % 0x100
  {
    assert c / 0x1_0000 < 0x100;
    assert c / 0x100 == c / 0x1_0000 * 0x100 + c / 0x100 % 0x100;
  }

  lemma SampleIsUsable(keys: Keys, access: AccessType)
    ensures Usable(Config(Library(CountAsMac, NoCipher, ByFirstOctet), keys, access))
  {
    forall i: CryptoInput, d, c: nat, c': nat
      | c < COUNT_LIMIT && c' < COUNT_LIMIT && CountAsMac(i.(count := c), d) == CountAsMac(i.(count := c'), d)
      ensures c == c'
    {
      Digits(c);
      Digits(c');
      var m, m' := CountAsMac(i.(count := c), d).value, CountAsMac(i.(count := c'), d).value;
      assert m[0] == m'[0] && m[1] == m'[1] && m[2] == m'[2];
    }
  }

  // Unrolls a run of five events.
  lemma RunOfFive(cfg: Config, events: seq<Event>)
    requires |events| == 5
    ensures Run(cfg, events)
            == Step(cfg, Step(cfg, Step(cfg, Step(cfg, Step(cfg, START, events[0]), events[1]), events[2]), events[3]), events[4])
  {
    assert events[..4][..3] == events[..3] && events[..3][..2] == events[..2] && events[..2][..1] == events[..1];
    assert events[..1][..0] == [];
    assert Run(cfg, events[..1]) == Step(cfg, START, events[0]);
    assert Run(cfg, events[..2]) == Step(cfg, Run(cfg, events[..1]), events[1]);
    assert Run(cfg, events[..3]) == Step(cfg, Run(cfg, events[..2]), events[2]);
    assert Run(cfg, events[..4]) == Step(cfg, Run(cfg, events[..3]), events[3]);
  }
}
