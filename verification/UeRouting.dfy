// Which worker a received message goes to, and that this is settled by the very id
// its handler later looks up.

module UeRouting {
  import opened Basics
  import opened NgapDecoder
  import opened NgapSchemas
  import opened Scheduler

  const U64_LIMIT: int := 0x1_0000_0000_0000_0000

  // uint64(v)
  function AsU64(v: int): (u: U64)
    ensures 0 <= v < U64_LIMIT ==> u == v
  {
    v % U64_LIMIT
  }

  // ExtractUEID on a decoded message; kind is None for messages it does not cover.
  method ExtractUeId(kind: Option<Kind>, ies: seq<Ie>) returns (ueId: Option<U64>)
    ensures kind.None? ==> ueId == None
    ensures kind.Some? ==>
              var first := FirstValue(ies, KeyOf(kind.value));
              ueId == if first.Some? then Some(AsU64(first.value)) else None
  {
    if kind.None? { return None; }
    var key := KeyOf(kind.value);
    for j := 0 to |ies|
      invariant FirstValue(ies[..j], key).None?
    {
      OneMoreIe([], ies, j);
      if ies[j].id == key && ies[j].value.Some? {
        FirstValueStays(ies, j + 1, key);
        return Some(AsU64(ies[j].value.value));
      }
    }
    assert ies[..|ies|] == ies;
    ueId := None;
  }

  lemma {:induction false} FirstValueStays(ies: seq<Ie>, n: nat, id: nat)
    requires n <= |ies| && FirstValue(ies[..n], id).Some?
    ensures FirstValue(ies, id) == FirstValue(ies[..n], id)
    decreases |ies|
  {
    if n == |ies| {
      assert ies[..n] == ies;
    } else {
      var front := ies[..|ies| - 1];
      assert front[..n] == ies[..n];
      FirstValueStays(front, n, id);
    }
  }

  // dispatchToWorkerPool and DispatchTask: messages without a key go to the worker of id 0.
  method Route(kind: Option<Kind>, ies: seq<Ie>, numWorkers: nat) returns (worker: nat)
    requires numWorkers > 0
    ensures worker < numWorkers
    ensures worker == Hash(if kind.Some? && FirstValue(ies, KeyOf(kind.value)).Some?
                           then AsU64(FirstValue(ies, KeyOf(kind.value)).value) else 0, numWorkers)
  {
    var ueId := ExtractUeId(kind, ies);
    var key: U64 := 0;
    if ueId.Some? {
      key := ueId.value;
    }
    worker := Hash(key, numWorkers);
  }

  // For every list of IEs, also one with duplicates or unknown IEs, the worker is the one
  // of the id that the message's own handler ends up with.
  method RouteAndDecode(kind: Kind, reporting: Reporting, ies: seq<Ie>, numWorkers: nat)
    returns (worker: nat, d: Decoded)
    requires numWorkers > 0
    // The RAN's id in the message of a UE that has no other yet, the old AMF's in a path
    // switch, and this AMF's in every other message
    ensures var id := if kind == InitialUEMessage then 85 else if kind == PathSwitchRequest then 100 else 10;
      && (id in d.vars ==> worker == d.vars[id] % 0x1_0000_0000_0000_0000 % numWorkers)
      && (id !in d.vars ==> worker == 0)
      // A request that passes its checks has the id.
      && (d.proceeds && IsRequest(kind) && kind != SecondaryRATDataUsageReport ==> id in d.vars)
  {
    worker := Route(Some(kind), ies, numWorkers);
    d := DecodeIes(SchemaOf(kind), IsRequest(kind), reporting, ies);
    KeyIsKnown(kind);
    if IsRequest(kind) && kind != SecondaryRATDataUsageReport {
      KeyIsRequired(kind, ies);
    }
  }

  // In all requests but one the key is a mandatory reject IE.
  lemma KeyIsRequired(kind: Kind, ies: seq<Ie>)
    requires IsRequest(kind) && kind != SecondaryRATDataUsageReport
    ensures FirstValue(ies, KeyOf(kind)).None? ==> LacksMandatoryReject(SchemaOf(kind), ies)
  {
    var k: nat := if kind == PathSwitchRequest then 1 else 0;
    assert SchemaOf(kind)[k] == MR(KeyOf(kind));
    if FirstValue(ies, KeyOf(kind)).None? {
      assert MissingAt(SchemaOf(kind), ies, k);
    }
  }
}
