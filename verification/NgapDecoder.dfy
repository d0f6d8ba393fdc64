// The IE decoding loop that ngap_generator.go emits for every message, and the error
// report that follows it (3GPP TS 38.413, section 10.3). A schema is what the
// generator reads from the ASN.1 table: the message's known IEs in order.

module NgapDecoder {
  import opened Basics

  datatype Criticality = Reject | Ignore | Notify
  datatype Presence = Mandatory | Conditional | Optional

  datatype IeSpec = IeSpec(id: nat, presence: Presence, criticality: Criticality)

  // One IE as received; value is the field of its own kind, None where it is nil.
  datatype Ie = Ie(id: nat, criticality: Criticality, value: Option<int>)

  datatype TypeOfError = NotUnderstood | Missing

  datatype Diagnostic = Diagnostic(criticality: Criticality, id: nat, error: TypeOfError)

  const AMF_UE_NGAP_ID: nat := 10
  const RAN_UE_NGAP_ID: nat := 85
  const SOURCE_AMF_UE_NGAP_ID: nat := 100

  predicate Known(schema: seq<IeSpec>, id: nat) {
    exists i :: 0 <= i < |schema| && schema[i].id == id
  }

  // ----- specification: what a list of IEs says -----

  // The first value given for an IE
  function FirstValue(ies: seq<Ie>, id: nat): Option<int> {
    if ies == [] then None
    else
      var before := FirstValue(ies[..|ies| - 1], id);
      var last := ies[|ies| - 1];
      if before.Some? then before else if last.id == id then last.value else None
  }

  // An IE that comes after a value of the same known IE
  predicate Repeats(schema: seq<IeSpec>, ies: seq<Ie>, j: nat)
    requires j < |ies|
  {
    Known(schema, ies[j].id) && exists i :: 0 <= i < j && ies[i].id == ies[j].id && ies[i].value.Some?
  }

  predicate HasDuplicate(schema: seq<IeSpec>, ies: seq<Ie>) {
    exists j :: 0 <= j < |ies| && Repeats(schema, ies, j)
  }

  predicate UnknownAt(schema: seq<IeSpec>, ies: seq<Ie>, j: nat, criticality: Criticality)
    requires j < |ies|
  {
    !Known(schema, ies[j].id) && ies[j].criticality == criticality
  }

  predicate HasUnknownReject(schema: seq<IeSpec>, ies: seq<Ie>) {
    exists j :: 0 <= j < |ies| && UnknownAt(schema, ies, j, Reject)
  }

  predicate MissingAt(schema: seq<IeSpec>, ies: seq<Ie>, k: nat)
    requires k < |schema|
  {
    schema[k].presence == Mandatory && schema[k].criticality == Reject && FirstValue(ies, schema[k].id).None?
  }

  predicate LacksMandatoryReject(schema: seq<IeSpec>, ies: seq<Ie>) {
    exists k :: 0 <= k < |schema| && MissingAt(schema, ies, k)
  }

  // The unknown IEs that are reported, in message order
  function Unknowns(schema: seq<IeSpec>, ies: seq<Ie>, isRequest: bool): seq<Diagnostic> {
    if ies == [] then []
    else
      var last := ies[|ies| - 1];
      Unknowns(schema, ies[..|ies| - 1], isRequest)
      + if !Known(schema, last.id) && (last.criticality == Notify || (isRequest && last.criticality == Reject))
        then [Diagnostic(last.criticality, last.id, NotUnderstood)] else []
  }

  // The first n specified IEs' share of the missing mandatory ones, in schema order
  function Missings(schema: seq<IeSpec>, ies: seq<Ie>, n: nat): seq<Diagnostic>
    requires n <= |schema|
  {
    if n == 0 then []
    else Missings(schema, ies, n - 1) + if MissingAt(schema, ies, n - 1) then [Diagnostic(Reject, schema[n - 1].id, Missing)] else []
  }

  // ----- the emitted code -----

  // Which message reports an error, and when
  datatype Reporting = ByErrorIndication | ByHandoverPreparationFailure | ByFailureWhenAborted

  datatype Report = NoReport | ErrorIndication | HandoverPreparationFailure | Failure

  // vars: the generated variables that are not nil. proceeds: control reaches the code
  // after the IE checks.
  datatype Decoded = Decoded(
    vars: map<nat, int>, falselyConstructed: bool, diagnostics: seq<Diagnostic>, report: Report, proceeds: bool)

  datatype Scan = Scan(vars: map<nat, int>, falselyConstructed: bool, diagnostics: seq<Diagnostic>, abort: bool)

  // The loop over the IEs. A break in Go leaves the switch, not the loop.
  method ScanIes(schema: seq<IeSpec>, isRequest: bool, ies: seq<Ie>) returns (s: Scan)
    ensures forall id :: id in s.vars <==> Known(schema, id) && FirstValue(ies, id).Some?
    ensures forall id :: id in s.vars ==> FirstValue(ies, id) == Some(s.vars[id])
    ensures s.falselyConstructed <==> isRequest && HasDuplicate(schema, ies)
    ensures s.diagnostics == Unknowns(schema, ies, isRequest)
    ensures s.abort <==> HasDuplicate(schema, ies) || (isRequest && HasUnknownReject(schema, ies))
  {
    s := Scan(map[], false, [], false);
    for j := 0 to |ies|
      invariant forall id :: id in s.vars <==> Known(schema, id) && FirstValue(ies[..j], id).Some?
      invariant forall id :: id in s.vars ==> FirstValue(ies[..j], id) == Some(s.vars[id])
      invariant s.falselyConstructed <==> isRequest && HasDuplicate(schema, ies[..j])
      invariant s.diagnostics == Unknowns(schema, ies[..j], isRequest)
      invariant s.abort <==> HasDuplicate(schema, ies[..j]) || (isRequest && HasUnknownReject(schema, ies[..j]))
    {
      var ie := ies[j];
      OneMoreIe(schema, ies, j);
      if Known(schema, ie.id) {
        if ie.id in s.vars {
          s := s.(falselyConstructed := s.falselyConstructed || isRequest, abort := true);
        } else if ie.value.Some? {
          s := s.(vars := s.vars[ie.id := ie.value.value]);
        }
      } else if ie.criticality == Notify || (isRequest && ie.criticality == Reject) {
        s := s.(diagnostics := s.diagnostics + [Diagnostic(ie.criticality, ie.id, NotUnderstood)],
                abort := s.abort || ie.criticality == Reject);
      }
    }
    assert ies[..|ies|] == ies;
  }

  // What one more IE adds to each of the notions above
  lemma OneMoreIe(schema: seq<IeSpec>, ies: seq<Ie>, j: nat)
    requires j < |ies|
    ensures ies[..j + 1][..j] == ies[..j] && ies[..j + 1][j] == ies[j]
    ensures HasDuplicate(schema, ies[..j + 1])
            <==> HasDuplicate(schema, ies[..j]) || (Known(schema, ies[j].id) && FirstValue(ies[..j], ies[j].id).Some?)
    ensures HasUnknownReject(schema, ies[..j + 1])
            <==> HasUnknownReject(schema, ies[..j]) || (!Known(schema, ies[j].id) && ies[j].criticality == Reject)
    ensures forall id :: FirstValue(ies[..j + 1], id)
                         == if FirstValue(ies[..j], id).Some? then FirstValue(ies[..j], id)
                            else if ies[j].id == id then ies[j].value else None
  {
    var before, now := ies[..j], ies[..j + 1];
    assert now[..j] == before;
    forall i: nat | i < j ensures Repeats(schema, now, i) == Repeats(schema, before, i) {}
    forall i: nat | i < j ensures UnknownAt(schema, now, i, Reject) == UnknownAt(schema, before, i, Reject) {}
    FirstValueIsSome(before, ies[j].id);
    assert Repeats(schema, now, j) <==> Known(schema, ies[j].id) && FirstValue(before, ies[j].id).Some?;
    assert UnknownAt(schema, now, j, Reject) <==> !Known(schema, ies[j].id) && ies[j].criticality == Reject;
    if HasDuplicate(schema, before) {
      var i :| 0 <= i < |before| && Repeats(schema, before, i);
      assert Repeats(schema, now, i);
    }
    if HasUnknownReject(schema, before) {
      var i :| 0 <= i < |before| && UnknownAt(schema, before, i, Reject);
      assert UnknownAt(schema, now, i, Reject);
    }
  }

  lemma {:induction false} FirstValueIsSome(ies: seq<Ie>, id: nat)
    ensures FirstValue(ies, id).Some? <==> exists i :: 0 <= i < |ies| && ies[i].id == id && ies[i].value.Some?
  {
    if ies != [] {
      var front := ies[..|ies| - 1];
      FirstValueIsSome(front, id);
      forall i | 0 <= i < |front| ensures front[i] == ies[i] {}
      if FirstValue(front, id).Some? {
        var i :| 0 <= i < |front| && front[i].id == id && front[i].value.Some?;
        assert ies[i].id == id;
      }
    }
  }

  // It is the value of an IE with this id that no other with a value comes before.
  lemma {:induction false} FirstValueIsFirst(ies: seq<Ie>, id: nat, v: int)
    ensures FirstValue(ies, id) == Some(v) <==>
              exists i :: && 0 <= i < |ies| && ies[i].id == id && ies[i].value == Some(v)
                          && forall j :: 0 <= j < i ==> ies[j].id == id ==> ies[j].value == None
  {
    if ies != [] {
      var front, n := ies[..|ies| - 1], |ies| - 1;
      FirstValueIsFirst(front, id, v);
      FirstValueIsSome(front, id);
      assert forall i :: 0 <= i < n ==> front[i] == ies[i];
      if FirstValue(front, id) == Some(v) {
        var i :| && 0 <= i < |front| && front[i].id == id && front[i].value == Some(v)
                 && forall j :: 0 <= j < i ==> front[j].id == id ==> front[j].value == None;
        assert ies[i].id == id && ies[i].value == Some(v);
      }
    }
  }

  // A generated handler up to the end of its IE checks.
  method DecodeIes(schema: seq<IeSpec>, isRequest: bool, reporting: Reporting, ies: seq<Ie>) returns (d: Decoded)
    ensures forall id :: id in d.vars <==> Known(schema, id) && FirstValue(ies, id).Some?
    ensures forall id :: id in d.vars ==> FirstValue(ies, id) == Some(d.vars[id])
    ensures d.diagnostics == Unknowns(schema, ies, isRequest) + if isRequest then Missings(schema, ies, |schema|) else []
    ensures d.falselyConstructed <==> isRequest && HasDuplicate(schema, ies)
    // The checks are passed exactly when no known IE is repeated, no mandatory reject IE
    // is missing and, in a request, no IE with criticality reject is unknown.
    ensures d.proceeds <==>
              && !HasDuplicate(schema, ies) && !LacksMandatoryReject(schema, ies)
              && !(isRequest && HasUnknownReject(schema, ies))
    // What is reported: any diagnostics or duplicates in a request, but for two messages
    // only what stops their handler.
    ensures d.report == NoReport <==>
              if reporting.ByFailureWhenAborted? then
                !HasDuplicate(schema, ies) && !(isRequest && (HasUnknownReject(schema, ies) || LacksMandatoryReject(schema, ies)))
              else !d.falselyConstructed && d.diagnostics == []
    ensures d.report != NoReport ==>
              d.report == match reporting
                          case ByErrorIndication => ErrorIndication
                          case ByFailureWhenAborted => Failure
                          case ByHandoverPreparationFailure =>
                            if AMF_UE_NGAP_ID in d.vars && RAN_UE_NGAP_ID in d.vars then HandoverPreparationFailure
                            else ErrorIndication
  {
    var s := ScanIes(schema, isRequest, ies);
    var diagnostics, abort := s.diagnostics, s.abort;
    if isRequest {
      for n := 0 to |schema|
        invariant diagnostics == s.diagnostics + Missings(schema, ies, n)
        invariant abort <==> s.abort || exists k :: 0 <= k < n && MissingAt(schema, ies, k)
      {
        Knows(schema, n);
        if schema[n].presence == Mandatory && schema[n].criticality == Reject && schema[n].id !in s.vars {
          assert MissingAt(schema, ies, n);
          diagnostics := diagnostics + [Diagnostic(Reject, schema[n].id, Missing)];
          abort := true;
        }
      }
      assert s.diagnostics + Missings(schema, ies, |schema|) == diagnostics;
    } else {
      assert s.diagnostics + [] == s.diagnostics;
    }

    var failed := if reporting.ByFailureWhenAborted? then abort else s.falselyConstructed || |diagnostics| > 0;
    var report := NoReport;
    if failed {
      match reporting
      case ByErrorIndication => report := ErrorIndication;
      case ByFailureWhenAborted => report := Failure;
      case ByHandoverPreparationFailure =>
        report := if AMF_UE_NGAP_ID in s.vars && RAN_UE_NGAP_ID in s.vars then HandoverPreparationFailure else ErrorIndication;
    }
    if abort { return Decoded(s.vars, s.falselyConstructed, diagnostics, report, false); }

    // The checks after the report, emitted for every message
    for n := 0 to |schema|
      invariant forall k :: 0 <= k < n ==> !MissingAt(schema, ies, k)
    {
      Knows(schema, n);
      if schema[n].presence == Mandatory && schema[n].criticality == Reject && schema[n].id !in s.vars {
        assert MissingAt(schema, ies, n);
        return Decoded(s.vars, s.falselyConstructed, diagnostics, report, false);
      }
    }
    d := Decoded(s.vars, s.falselyConstructed, diagnostics, report, true);
  }

  lemma Knows(schema: seq<IeSpec>, n: nat)
    requires n < |schema|
    ensures Known(schema, schema[n].id)
  {
  }

  // ----- what the diagnostics are -----

  // An unknown IE is reported exactly when it is not to be ignored (and, outside
  // requests, only if it is to be notified), with its own criticality and id.
  lemma {:induction false} UnknownsAreReported(schema: seq<IeSpec>, ies: seq<Ie>, isRequest: bool, d: Diagnostic)
    ensures d in Unknowns(schema, ies, isRequest) <==>
              && d.error == NotUnderstood && !Known(schema, d.id)
              && (d.criticality == Notify || (isRequest && d.criticality == Reject))
              && exists j :: 0 <= j < |ies| && ies[j].id == d.id && ies[j].criticality == d.criticality
  {
    if ies != [] {
      var front := ies[..|ies| - 1];
      UnknownsAreReported(schema, front, isRequest, d);
      assert forall j :: 0 <= j < |front| ==> front[j] == ies[j];
      if exists j :: 0 <= j < |front| && front[j].id == d.id && front[j].criticality == d.criticality {
        var j :| 0 <= j < |front| && front[j].id == d.id && front[j].criticality == d.criticality;
        assert ies[j].id == d.id && ies[j].criticality == d.criticality;
      }
    }
  }

  // Two reported IEs come in the order of the message: the list of a longer message
  // extends that of its beginning.
  lemma {:induction false} UnknownsInMessageOrder(schema: seq<IeSpec>, a: seq<Ie>, b: seq<Ie>, isRequest: bool)
    ensures Unknowns(schema, a + b, isRequest) == Unknowns(schema, a, isRequest) + Unknowns(schema, b, isRequest)
  {
    if b == [] {
      assert a + b == a;
    } else {
      UnknownsInMessageOrder(schema, a, b[..|b| - 1], isRequest);
      assert (a + b)[..|a + b| - 1] == a + b[..|b| - 1];
    }
  }

  // A request's checks are passed exactly when it has no diagnostics but notifications
  // and no duplicate.
  lemma PassingMeansOnlyNotifications(schema: seq<IeSpec>, ies: seq<Ie>)
    ensures !HasUnknownReject(schema, ies) && !LacksMandatoryReject(schema, ies) <==>
              forall d :: d in Unknowns(schema, ies, true) + Missings(schema, ies, |schema|) ==> d.criticality == Notify
  {
    if HasUnknownReject(schema, ies) {
      var j :| 0 <= j < |ies| && UnknownAt(schema, ies, j, Reject);
      var d := Diagnostic(Reject, ies[j].id, NotUnderstood);
      UnknownsAreReported(schema, ies, true, d);
      assert d in Unknowns(schema, ies, true) + Missings(schema, ies, |schema|);
    }
    if LacksMandatoryReject(schema, ies) {
      var k :| 0 <= k < |schema| && MissingAt(schema, ies, k);
      var d := Diagnostic(Reject, schema[k].id, Missing);
      MissingsAreReported(schema, ies, |schema|, d);
      assert d in Unknowns(schema, ies, true) + Missings(schema, ies, |schema|);
    }
    if !HasUnknownReject(schema, ies) && !LacksMandatoryReject(schema, ies) {
      forall d | d in Unknowns(schema, ies, true) + Missings(schema, ies, |schema|) ensures d.criticality == Notify {
        UnknownsAreReported(schema, ies, true, d);
        MissingsAreReported(schema, ies, |schema|, d);
        if d in Unknowns(schema, ies, true) && d.criticality == Reject {
          var j :| 0 <= j < |ies| && ies[j].id == d.id && ies[j].criticality == d.criticality;
          assert UnknownAt(schema, ies, j, Reject);
        }
      }
    }
  }

  // The missing IEs come in the order of the schema.
  lemma {:induction false} MissingsInSchemaOrder(a: seq<IeSpec>, b: seq<IeSpec>, ies: seq<Ie>)
    ensures Missings(a + b, ies, |a + b|) == Missings(a, ies, |a|) + Missings(b, ies, |b|)
  {
    if b == [] {
      assert a + b == a;
    } else {
      var front := b[..|b| - 1];
      MissingsInSchemaOrder(a, front, ies);
      MissingsOfPrefix(a + b, a + front, ies, |a + front|);
      MissingsOfPrefix(b, front, ies, |front|);
    }
  }

  lemma {:induction false} MissingsOfPrefix(schema: seq<IeSpec>, front: seq<IeSpec>, ies: seq<Ie>, n: nat)
    requires n <= |front| && front <= schema
    ensures Missings(schema, ies, n) == Missings(front, ies, n)
  {
    if n > 0 {
      MissingsOfPrefix(schema, front, ies, n - 1);
    }
  }

  lemma {:induction false} MissingsAreReported(schema: seq<IeSpec>, ies: seq<Ie>, n: nat, d: Diagnostic)
    requires n <= |schema|
    ensures d in Missings(schema, ies, n) <==>
              exists k :: 0 <= k < n && MissingAt(schema, ies, k) && d == Diagnostic(Reject, schema[k].id, Missing)
  {
    if n > 0 {
      MissingsAreReported(schema, ies, n - 1, d);
    }
  }
}
