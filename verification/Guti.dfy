// The 5G-GUTI as the text the AMF stores, its 5G-S-TMSI as paging cuts it out and as an
// InitialUEMessage brings it back (3GPP TS 23.003, section 2.10).

module Guti {
  import opened Basics
  import opened Context

  // ----- hexadecimal text -----

  function HexDigit(n: nat): (c: char)
    requires n < 16
  {
    if n < 10 then '0' + n as char else 'a' + (n - 10) as char
  }

  function HexValue(c: char): (v: Option<nat>)
    ensures v.Some? ==> v.value < 16
  {
    if '0' <= c <= '9' then Some((c - '0') as nat)
    else if 'a' <= c <= 'f' then Some((c - 'a') as nat + 10)
    else if 'A' <= c <= 'F' then Some((c - 'A') as nat + 10)
    else None
  }

  predicate IsHex(s: string) {
    forall i :: 0 <= i < |s| ==> HexValue(s[i]).Some?
  }

  predicate IsLower(s: string) {
    forall i :: 0 <= i < |s| ==> !('A' <= s[i] <= 'F')
  }

  // hex.EncodeToString
  function Encode(bytes: seq<Byte>): (s: string)
    ensures |s| == 2 * |bytes|
  {
    if bytes == [] then "" else [HexDigit(bytes[0] / 16), HexDigit(bytes[0] % 16)] + Encode(bytes[1..])
  }

  // hex.DecodeString, where None is its error
  function Decode(s: string): (bytes: Option<seq<Byte>>)
    ensures bytes.Some? ==> |s| == 2 * |bytes.value|
  {
    if s == "" then Some([])
    else if |s| == 1 || HexValue(s[0]).None? || HexValue(s[1]).None? then None
    else
      var rest := Decode(s[2..]);
      if rest.None? then None else Some([HexValue(s[0]).value * 16 + HexValue(s[1]).value] + rest.value)
  }

  lemma DigitOfValue(c: char)
    requires HexValue(c).Some?
    ensures HexDigit(HexValue(c).value) == c <==> !('A' <= c <= 'F')
  {
  }

  lemma ValueOfDigit(n: nat)
    requires n < 16
    ensures HexValue(HexDigit(n)) == Some(n) && !('A' <= HexDigit(n) <= 'F')
  {
  }

  // Decoding and encoding again gives the text back exactly when it is in lower case.
  lemma {:induction false} EncodeOfDecode(s: string)
    requires IsHex(s) && |s| % 2 == 0
    ensures Decode(s).Some? && (Encode(Decode(s).value) == s <==> IsLower(s))
  {
    if s != "" {
      assert IsHex(s[2..]);
      EncodeOfDecode(s[2..]);
      DigitOfValue(s[0]);
      DigitOfValue(s[1]);
      var hi, lo := HexValue(s[0]).value, HexValue(s[1]).value;
      var rest := Decode(s[2..]).value;
      assert (hi * 16 + lo) / 16 == hi && (hi * 16 + lo) % 16 == lo;
      assert Decode(s).value == [hi * 16 + lo] + rest;
      assert Encode(Decode(s).value) == [HexDigit(hi), HexDigit(lo)] + Encode(rest);
      assert s == [s[0], s[1]] + s[2..];
      assert Encode(Decode(s).value)[2..] == Encode(rest);
      assert IsLower(s) <==> !('A' <= s[0] <= 'F') && !('A' <= s[1] <= 'F') && IsLower(s[2..]) by {
        LowerTail(s);
      }
    }
  }

  lemma LowerTail(s: string)
    requires |s| >= 2
    ensures IsLower(s) <==> !('A' <= s[0] <= 'F') && !('A' <= s[1] <= 'F') && IsLower(s[2..])
  {
    if IsLower(s[2..]) && !('A' <= s[0] <= 'F') && !('A' <= s[1] <= 'F') {
      forall i | 0 <= i < |s| ensures !('A' <= s[i] <= 'F') {
        if i >= 2 { assert s[i] == s[2..][i - 2]; }
      }
    }
  }

  // ----- the text of a TMSI -----

  // TmsiAllocate gives a positive 31-bit number, or -1 when there is none left.
  type Tmsi = x: int | -1 <= x < 0x8000_0000

  // The last n hexadecimal digits
  function Digits(v: nat, n: nat): (s: string)
    ensures |s| == n
  {
    if n == 0 then "" else Digits(v / 16, n - 1) + [HexDigit(v % 16)]
  }

  // fmt.Sprintf("%08x"): eight characters, a minus sign among them
  function Format08x(tmsi: Tmsi): (s: string)
    ensures |s| == 8
  {
    if tmsi >= 0 then Digits(tmsi, 8) else "-" + Digits(-tmsi, 7)
  }

  lemma {:induction false} DigitsAreLowerHex(v: nat, n: nat)
    ensures IsHex(Digits(v, n)) && IsLower(Digits(v, n))
  {
    if n > 0 {
      DigitsAreLowerHex(v / 16, n - 1);
      ValueOfDigit(v % 16);
    }
  }

  // ----- GUTI and 5G-S-TMSI -----

  datatype Guami = Guami(mcc: string, mnc: string, amfId: string)

  predicate WellFormed(g: Guami) {
    |g.mcc| == 3 && (|g.mnc| == 2 || |g.mnc| == 3) && |g.amfId| == 6 && IsHex(g.amfId)
  }

  function GutiOf(g: Guami, tmsi: Tmsi): string {
    g.mcc + g.mnc + g.amfId + Format08x(tmsi)
  }

  // The three bit strings of an AMF identifier: 8, 10 and 6 bits, left aligned in octets
  datatype NgapAmfId = NgapAmfId(region: Byte, set0: Byte, set1: Byte, pointer: Byte)

  // AmfIdToNgap
  function AmfIdToNgap(amfId: string): NgapAmfId
    requires |amfId| == 6 && IsHex(amfId)
  {
    var b := Decode(amfId);
    EncodeOfDecodeSome(amfId);
    var last: Byte := b.value[2];
    NgapAmfId(b.value[0], b.value[1], last - last % 0x40, last * 4 % 0x100)
  }

  lemma EncodeOfDecodeSome(s: string)
    requires IsHex(s) && |s| % 2 == 0
    ensures Decode(s).Some?
  {
    EncodeOfDecode(s);
  }

  datatype FiveGSTmsi = FiveGSTmsi(set0: Byte, set1: Byte, pointer: Byte, tmsi: seq<Byte>)

  // BuildPaging: the identity cut out of a stored GUTI; None where the TMSI is no hexadecimal text.
  function PagingIdentity(guti: string): Option<FiveGSTmsi>
    requires |guti| >= 19
    requires var cut := if |guti| == 19 then 5 else 6; IsHex(guti[cut..cut + 6])
  {
    var cut := if |guti| == 19 then 5 else 6;
    var id := AmfIdToNgap(guti[cut..cut + 6]);
    var tmsi := Decode(guti[cut + 6..]);
    if tmsi.None? then None else Some(FiveGSTmsi(id.set0, id.set1, id.pointer, tmsi.value))
  }

  // handleInitialUEMessageMain and findAmfUe: the GUTI that is looked up for a 5G-S-TMSI
  function RebuiltGuti(g: Guami, s: FiveGSTmsi): string
    requires WellFormed(g)
  {
    var setAndPointer := Encode([s.set0, s.set1 - s.set1 % 0x40 + s.pointer / 4]);
    var id := setAndPointer + Encode(s.tmsi);
    g.mcc + g.mnc + Encode([AmfIdToNgap(g.amfId).region]) + id
  }

  // The 8/10/6 split loses nothing.
  lemma SplitRejoins(b: Byte)
    ensures var set1: Byte := b - b % 0x40; set1 - set1 % 0x40 + b * 4 % 0x100 / 4 == b
  {
    assert b * 4 % 0x100 == b % 0x40 * 4;
  }

  lemma EncodeThree(a: Byte, b: Byte, c: Byte)
    ensures Encode([a, b, c]) == Encode([a]) + Encode([b, c])
  {
    assert [a, b, c][1..] == [b, c] && [a][1..] == [] && [b, c][1..] == [c] && [c][1..] == [];
  }

  // For every served GUAMI and every allocated TMSI: the identity that paging sends, when
  // it comes back in an InitialUEMessage, rebuilds the stored GUTI exactly when the AMF
  // id is in lower case; the text of a failed allocation has no identity.
  lemma PagingFindsTheUe(g: Guami, tmsi: Tmsi)
    requires WellFormed(g)
    ensures var guti := GutiOf(g, tmsi);
      var cut := if |guti| == 19 then 5 else 6;
      && |guti| >= 19 && IsHex(guti[cut..cut + 6])
      && (PagingIdentity(guti).Some? <==> tmsi >= 0)
      && (tmsi >= 0 ==> (RebuiltGuti(g, PagingIdentity(guti).value) == guti <==> IsLower(g.amfId)))
  {
    var guti := GutiOf(g, tmsi);
    var cut := if |guti| == 19 then 5 else 6;
    assert guti[cut..cut + 6] == g.amfId && guti[cut + 6..] == Format08x(tmsi) && guti[..cut] == g.mcc + g.mnc;
    if tmsi >= 0 {
      DigitsAreLowerHex(tmsi, 8);
      EncodeOfDecode(Format08x(tmsi));
      RebuiltIsReencoded(g, Decode(Format08x(tmsi)).value);
      EncodeOfDecode(g.amfId);
      var rebuilt := RebuiltGuti(g, PagingIdentity(guti).value);
      assert rebuilt == guti[..cut] + Encode(Decode(g.amfId).value) + Format08x(tmsi);
      assert rebuilt[cut..cut + 6] == Encode(Decode(g.amfId).value);
    } else {
      assert Format08x(tmsi)[0] == '-';
    }
  }

  lemma RebuiltIsReencoded(g: Guami, tmsi: seq<Byte>)
    requires WellFormed(g)
    ensures var id := AmfIdToNgap(g.amfId);
      Decode(g.amfId).Some? &&
      RebuiltGuti(g, FiveGSTmsi(id.set0, id.set1, id.pointer, tmsi))
      == g.mcc + g.mnc + Encode(Decode(g.amfId).value) + Encode(tmsi)
  {
    EncodeOfDecodeSome(g.amfId);
    var b := Decode(g.amfId).value;
    SplitRejoins(b[2]);
    EncodeThree(b[0], b[1], b[2]);
    assert b == [b[0], b[1], b[2]];
  }

  // Different UEs of one AMF have different GUTIs.
  lemma GutisAreDistinct(g: Guami, t: Tmsi, u: Tmsi)
    requires GutiOf(g, t) == GutiOf(g, u)
    ensures t == u
  {
    var n := |g.mcc + g.mnc + g.amfId|;
    assert GutiOf(g, t)[n..] == Format08x(t) && GutiOf(g, u)[n..] == Format08x(u);
    SignShows(t);
    SignShows(u);
    if t >= 0 && u >= 0 {
      DigitsAreInjective(t, u, 8);
    }
  }

  lemma SignShows(t: Tmsi)
    ensures HexValue(Format08x(t)[0]).Some? <==> t >= 0
  {
    if t >= 0 { DigitsAreLowerHex(t, 8); }
  }

  function Power16(n: nat): nat {
    if n == 0 then 1 else 16 * Power16(n - 1)
  }

  lemma {:induction false} DigitsAreInjective(v: nat, w: nat, n: nat)
    requires Digits(v, n) == Digits(w, n) && v < 0x1_0000_0000 && w < 0x1_0000_0000 && n <= 8
    requires n == 8 || (v < Power16(n) && w < Power16(n))
    ensures v == w
  {
    assert Power16(8) == 0x1_0000_0000;
    if n > 0 {
      var a, b := Digits(v, n), Digits(w, n);
      assert a[..n - 1] == Digits(v / 16, n - 1) && b[..n - 1] == Digits(w / 16, n - 1);
      assert a[n - 1] == HexDigit(v % 16) && b[n - 1] == HexDigit(w % 16);
      ValueOfDigit(v % 16);
      ValueOfDigit(w % 16);
      assert v < 16 * Power16(n - 1) && w < 16 * Power16(n - 1);
      DigitsAreInjective(v / 16, w / 16, n - 1);
    }
  }

  // ----- allocation -----

  // The TMSIs that are in use
  class TmsiPool {
    var used: set<int>

    // TmsiAllocate
    method Allocate() returns (tmsi: Tmsi)
      modifies this
      ensures tmsi != -1 ==> tmsi > 0 && tmsi !in old(used) && used == old(used) + {tmsi}
      ensures tmsi == -1 ==> used == old(used) && forall i :: 0 < i < 0x8000_0000 ==> i in used
    {
      if i :| 0 < i < 0x8000_0000 && i !in used {
        used := used + {i};
        return i;
      }
      tmsi := -1;
    }

    // AllocateGutiToUe
    method AllocateGutiToUe(ue: AmfUe, served: Guami)
      modifies this, ue`tmsi, ue`guti
      ensures -1 <= ue.tmsi < 0x8000_0000 && ue.guti == GutiOf(served, ue.tmsi)
      ensures ue.tmsi != -1 ==> ue.tmsi > 0 && ue.tmsi !in old(used) && used == old(used) + {ue.tmsi}
      ensures ue.tmsi == -1 ==> used == old(used)
    {
      var tmsi := Allocate();
      ue.tmsi := tmsi;
      var plmnId := served.mcc + served.mnc;
      var tmsiStr := Format08x(tmsi);
      ue.guti := plmnId + served.amfId + tmsiStr;
    }
  }
}
