// The 24-bit NAS COUNT: a 16-bit overflow counter followed by the 8-bit
// sequence number that travels in the message (3GPP TS 24.501, section 4.4.3.1).
// The receiver sees only the sequence number and estimates the rest.

module NasCount {
  import opened Basics

  const OVERFLOW_LIMIT: int := 0x1_0000
  const COUNT_LIMIT: int := 0x100_0000

  type U16 = x: int | 0 <= x < 0x1_0000

  // security.Count, a value: Go copies it on assignment.
  datatype Count = Count(overflow: U16, sqn: Byte)

  const ZERO := Count(0, 0)

  // Get()
  function Value(c: Count): (v: nat)
    ensures v < COUNT_LIMIT
  {
    c.overflow * 0x100 + c.sqn
  }

  function FromValue(v: nat): (c: Count)
    requires v < COUNT_LIMIT
    ensures Value(c) == v
  {
    Count(v / 0x100, v % 0x100)
  }

  // uint16 arithmetic: one more, going round to zero.
  function Next16(o: U16): U16 {
    if o == OVERFLOW_LIMIT - 1 then 0 else o + 1
  }

  // AddOne(), masked to 24 bits
  function AddOne(c: Count): (r: Count)
    ensures Value(r) == if Value(c) == COUNT_LIMIT - 1 then 0 else Value(c) + 1
  {
    if c.sqn < 0xff then Count(c.overflow, c.sqn + 1)
    else Count(Next16(c.overflow), 0)
  }

  lemma ValueInjective(c: Count, d: Count)
    requires Value(c) == Value(d)
    ensures c == d
  {
    assert c.overflow == Value(c) / 0x100;
    assert d.overflow == Value(d) / 0x100;
  }

  // The receiver's estimate: a sequence number below the stored one means that
  // the overflow counter has moved on. SetOverflow takes a uint16, so it wraps.
  function Estimate(stored: Count, sqn: Byte): Count {
    Count(if stored.sqn > sqn then Next16(stored.overflow) else stored.overflow, sqn)
  }

  // How far c lies ahead of stored, going round the 24-bit counter.
  function Ahead(stored: Count, c: Count): (d: nat)
    ensures d < COUNT_LIMIT
  {
    if Value(stored) <= Value(c) then Value(c) - Value(stored) else Value(c) - Value(stored) + COUNT_LIMIT
  }

  // The estimate is right exactly for the 256 counts from the stored one on.
  lemma EstimateWindow(stored: Count, c: Count)
    ensures Estimate(stored, c.sqn) == c <==> Ahead(stored, c) <= 0xff
  {
  }

  // The estimate falls below the stored count exactly when the overflow counter wraps.
  lemma EstimateFallsExactlyOnWrap(stored: Count, sqn: Byte)
    ensures Value(Estimate(stored, sqn)) < Value(stored) <==> stored.overflow == OVERFLOW_LIMIT - 1 && sqn < stored.sqn
  {
    if stored.sqn > sqn && stored.overflow < OVERFLOW_LIMIT - 1 {
      assert Estimate(stored, sqn).overflow == stored.overflow + 1;
    }
  }
}
