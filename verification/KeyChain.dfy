// The access network keys of a UE: the key for the gNB or N3IWF and the chain of next
// hop keys with its 3-bit counter (3GPP TS 33.501, section 6.9.2.1.1 and Annex A.10).

module KeyChain {
  import opened Basics
  import opened NasCount
  import opened Context

  const FC_FOR_KGNB_KN3IWF_DERIVATION: Byte := 0x6e
  const FC_FOR_NH_DERIVATION: Byte := 0x6f

  // GetKDFValue: key, function code, parameters
  type Kdf = (seq<Byte>, Byte, seq<seq<Byte>>) -> seq<Byte>

  // security.AccessType3GPP, security.AccessTypeNon3GPP
  function AccessTypeOctet(an: AccessType): Byte {
    match an case ThreeGpp => 1 case NonThreeGpp => 2
  }

  // binary.BigEndian.PutUint32
  function BigEndian32(v: nat): seq<Byte>
    requires v < COUNT_LIMIT
  {
    [0, v / 0x1_0000, v / 0x100 % 0x100, v % 0x100]
  }

  // ----- specification -----

  datatype AccessKeys = AccessKeys(kgnb: seq<Byte>, kn3iwf: seq<Byte>, nh: seq<Byte>, ncc: Byte)

  function KeysOf(ue: AmfUe): AccessKeys
    reads ue`kgnb, ue`kn3iwf, ue`nh, ue`ncc
  {
    AccessKeys(ue.kgnb, ue.kn3iwf, ue.nh, ue.ncc)
  }

  function AccessKey(kdf: Kdf, kamf: seq<Byte>, an: AccessType, count: Count): seq<Byte> {
    kdf(kamf, FC_FOR_KGNB_KN3IWF_DERIVATION, [BigEndian32(Value(count)), [AccessTypeOctet(an)]])
  }

  function Hop(kdf: Kdf, kamf: seq<Byte>, sync: seq<Byte>): seq<Byte> {
    kdf(kamf, FC_FOR_NH_DERIVATION, [sync])
  }

  function AnKey(k: AccessKeys, an: AccessType): seq<Byte> {
    match an case ThreeGpp => k.kgnb case NonThreeGpp => k.kn3iwf
  }

  // A derivation with a key that is not hexadecimal leaves its target as it was.
  function DeriveAn(kdf: Kdf, kamf: Option<seq<Byte>>, k: AccessKeys, an: AccessType, count: Count): AccessKeys {
    if kamf.None? then k
    else
      match an
      case ThreeGpp => k.(kgnb := AccessKey(kdf, kamf.value, an, count))
      case NonThreeGpp => k.(kn3iwf := AccessKey(kdf, kamf.value, an, count))
  }

  function DeriveNh(kdf: Kdf, kamf: Option<seq<Byte>>, k: AccessKeys, sync: seq<Byte>): AccessKeys {
    if kamf.None? then k else k.(nh := Hop(kdf, kamf.value, sync))
  }

  function Refresh(kdf: Kdf, kamf: Option<seq<Byte>>, k: AccessKeys, an: AccessType, count: Count): AccessKeys {
    var k1 := DeriveAn(kdf, kamf, k, an, count);
    DeriveNh(kdf, kamf, k1, AnKey(k1, an)).(ncc := 1)
  }

  function NextHop(kdf: Kdf, kamf: Option<seq<Byte>>, k: AccessKeys): AccessKeys {
    DeriveNh(kdf, kamf, k.(ncc := (k.ncc + 1) % 0x100 % 8), k.nh)
  }

  function NextHops(kdf: Kdf, kamf: Option<seq<Byte>>, k: AccessKeys, n: nat): AccessKeys {
    if n == 0 then k else NextHop(kdf, kamf, NextHops(kdf, kamf, k, n - 1))
  }

  // The n-th member of the chain that starts from an access key
  function Chain(kdf: Kdf, kamf: seq<Byte>, start: seq<Byte>, n: nat): seq<Byte> {
    if n == 0 then start else Hop(kdf, kamf, Chain(kdf, kamf, start, n - 1))
  }

  // After n steps from a refresh the counter is n + 1 modulo 8 whatever happens; NH is
  // the derivation applied n + 1 times to the fresh access key if the key is valid, and
  // otherwise still the old NH.
  lemma {:induction false} ChainAfterRefresh(
    kdf: Kdf, kamf: Option<seq<Byte>>, k: AccessKeys, an: AccessType, count: Count, n: nat)
    ensures var k' := NextHops(kdf, kamf, Refresh(kdf, kamf, k, an, count), n);
      && k'.ncc == (n + 1) % 8
      && (kamf.Some? ==>
            && AnKey(k', an) == AccessKey(kdf, kamf.value, an, count)
            && k'.nh == Chain(kdf, kamf.value, AnKey(k', an), n + 1))
      && (kamf.None? ==> k' == k.(ncc := k'.ncc))
  {
    hide AccessKey, Hop;
    if n == 0 {
      ChainStarts(kdf, kamf, k, an, count);
    } else {
      ChainAfterRefresh(kdf, kamf, k, an, count, n - 1);
      NextCounter(n);
    }
  }

  // In terms of the derivation function alone: the access key is derived from the AMF's key,
  // function code 0x6e, the four octets of the uplink COUNT and the octet of the access, the
  // first NH from that access key and every later one from the NH before it, with function
  // code 0x6f. The other access keeps its key.
  lemma {:induction false} ChainByDerivation(
    kdf: Kdf, kamf: seq<Byte>, k: AccessKeys, an: AccessType, count: Count, n: nat)
    ensures var p0: seq<Byte> := [0, count.overflow / 0x100, count.overflow % 0x100, count.sqn];
      var first := Refresh(kdf, Some(kamf), k, an, count);
      var before := NextHops(kdf, Some(kamf), first, n);
      var after := NextHops(kdf, Some(kamf), first, n + 1);
      && (an == ThreeGpp ==> after.kgnb == kdf(kamf, 0x6e, [p0, [1]]) && first.nh == kdf(kamf, 0x6f, [after.kgnb])
                             && after.kn3iwf == k.kn3iwf)
      && (an == NonThreeGpp ==> after.kn3iwf == kdf(kamf, 0x6e, [p0, [2]]) && first.nh == kdf(kamf, 0x6f, [after.kn3iwf])
                                && after.kgnb == k.kgnb)
      && after.nh == kdf(kamf, 0x6f, [before.nh])
  {
    hide BigEndian32, Value;
    OctetsOfCount(count);
    if n > 0 {
      ChainByDerivation(kdf, kamf, k, an, count, n - 1);
    }
  }

  lemma OctetsOfCount(count: Count)
    ensures BigEndian32(Value(count)) == [0, count.overflow / 0x100, count.overflow % 0x100, count.sqn]
  {
    Octets(count.overflow, count.sqn);
  }

  lemma Octets(overflow: nat, sqn: nat)
    requires sqn < 0x100
    ensures var v := overflow * 0x100 + sqn;
      v / 0x1_0000 == overflow / 0x100 && v / 0x100 % 0x100 == overflow % 0x100 && v % 0x100 == sqn
  {
    var high, low := overflow / 0x100, overflow % 0x100;
    assert overflow * 0x100 + sqn == high * 0x1_0000 + (low * 0x100 + sqn);
  }

  lemma ChainStarts(kdf: Kdf, kamf: Option<seq<Byte>>, k: AccessKeys, an: AccessType, count: Count)
    ensures var k' := Refresh(kdf, kamf, k, an, count);
      && k'.ncc == 1
      && (kamf.Some? ==> AnKey(k', an) == AccessKey(kdf, kamf.value, an, count)
                         && k'.nh == Chain(kdf, kamf.value, AnKey(k', an), 1))
      && (kamf.None? ==> k' == k.(ncc := 1))
  {
    hide AccessKey, Hop;
    if kamf.Some? {
      var start := AccessKey(kdf, kamf.value, an, count);
      assert Chain(kdf, kamf.value, start, 1) == Hop(kdf, kamf.value, Chain(kdf, kamf.value, start, 0));
    }
  }

  // 8-bit increment and mask, counted modulo 8
  lemma NextCounter(n: nat)
    requires n > 0
    ensures (n % 8 + 1) % 0x100 % 8 == (n + 1) % 8
  {
  }

  // ----- the methods of AmfUe -----

  method DerivateAnKey(kdf: Kdf, ue: AmfUe, an: AccessType)
    modifies ue`kgnb, ue`kn3iwf
    ensures KeysOf(ue) == DeriveAn(kdf, ue.kamf, old(KeysOf(ue)), an, ue.ulCount)
  {
    var p0, p1 := BigEndian32(Value(ue.ulCount)), [AccessTypeOctet(an)];
    if ue.kamf.None? { return; }
    var key := kdf(ue.kamf.value, FC_FOR_KGNB_KN3IWF_DERIVATION, [p0, p1]);
    match an
    case ThreeGpp => ue.kgnb := key;
    case NonThreeGpp => ue.kn3iwf := key;
  }

  method DerivateNH(kdf: Kdf, ue: AmfUe, syncInput: seq<Byte>)
    modifies ue`nh
    ensures KeysOf(ue) == DeriveNh(kdf, ue.kamf, old(KeysOf(ue)), syncInput)
  {
    if ue.kamf.None? { return; }
    ue.nh := kdf(ue.kamf.value, FC_FOR_NH_DERIVATION, [syncInput]);
  }

  method UpdateSecurityContext(kdf: Kdf, ue: AmfUe, an: AccessType)
    modifies ue`kgnb, ue`kn3iwf, ue`nh, ue`ncc
    ensures KeysOf(ue) == Refresh(kdf, ue.kamf, old(KeysOf(ue)), an, ue.ulCount)
  {
    DerivateAnKey(kdf, ue, an);
    match an {
      case ThreeGpp => DerivateNH(kdf, ue, ue.kgnb);
      case NonThreeGpp => DerivateNH(kdf, ue, ue.kn3iwf);
    }
    ue.ncc := 1;
  }

  method UpdateNH(kdf: Kdf, ue: AmfUe)
    modifies ue`nh, ue`ncc
    ensures KeysOf(ue) == NextHop(kdf, ue.kamf, old(KeysOf(ue)))
  {
    ue.ncc := (ue.ncc + 1) % 0x100;
    ue.ncc := ue.ncc % 8;
    DerivateNH(kdf, ue, ue.nh);
  }
}
