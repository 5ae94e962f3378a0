/** The slot bitmap of a dentry group: single-bit operations on bytes, the two
    forward searches, and the first-fit allocator built on them.
    Everything above single bits is stated on the bitmap's bits, a seq<bool>. */
module Bitmap {

  /** 1 << k for a bit number within a byte. */
  function Mask(k: nat): bv8
    requires k < 8
  {
    if k == 0 then 1 else if k == 1 then 2 else if k == 2 then 4 else if k == 3 then 8
    else if k == 4 then 16 else if k == 5 then 32 else if k == 6 then 64 else 128
  }

  predicate ByteBit(b: bv8, k: nat)
    requires k < 8
  {
    b & Mask(k) != 0
  }

  function ByteWith(b: bv8, k: nat, on: bool): bv8
    requires k < 8
  {
    if on then b | Mask(k) else b & !Mask(k)
  }

  /** Testing by mask is testing by shifting the bit down to the bottom. */
  lemma MaskIsShift(b: bv8, k: nat)
    requires k < 8
    ensures Mask(k) == 1 << k
    ensures ByteBit(b, k) == (1 & (b >> k) == 1)
  {
    assert k == 0 || k == 1 || k == 2 || k == 3 || k == 4 || k == 5 || k == 6 || k == 7;
  }

  /** One byte: writing bit k changes bit k and no other. */
  lemma ByteBitChanges(b: bv8, k: nat, on: bool, j: nat)
    requires k < 8 && j < 8
    ensures ByteBit(ByteWith(b, k, on), j) == if j == k then on else ByteBit(b, j)
  {
  }

  /** The bits of a byte string, least significant bit of each byte first. */
  function Bits(bm: seq<bv8>): (r: seq<bool>)
    ensures |r| == 8 * |bm|
  {
    seq(8 * |bm|, i requires 0 <= i < 8 * |bm| => ByteBit(bm[i / 8], i % 8))
  }

  /** Writing one bit of one byte writes one bit of the whole. */
  lemma WriteBit(bm: seq<bv8>, nr: nat, on: bool)
    requires nr < 8 * |bm|
    ensures Bits(bm[nr / 8 := ByteWith(bm[nr / 8], nr % 8, on)]) == Bits(bm)[nr := on]
  {
    var changed := bm[nr / 8 := ByteWith(bm[nr / 8], nr % 8, on)];
    forall j | 0 <= j < 8 * |bm| ensures Bits(changed)[j] == Bits(bm)[nr := on][j] {
      BitOfWritten(bm, nr, on, j);
    }
  }

  lemma BitOfWritten(bm: seq<bv8>, nr: nat, on: bool, j: nat)
    requires nr < 8 * |bm| && j < 8 * |bm|
    ensures ByteBit(bm[nr / 8 := ByteWith(bm[nr / 8], nr % 8, on)][j / 8], j % 8)
            == if j == nr then on else ByteBit(bm[j / 8], j % 8)
  {
    assert nr == 8 * (nr / 8) + nr % 8 && j == 8 * (j / 8) + j % 8;
    if j / 8 == nr / 8 {
      ByteBitChanges(bm[nr / 8], nr % 8, on, j % 8);
    }
  }

  /** Bits lo .. hi-1 given the value `on`. */
  function WithRun(bits: seq<bool>, lo: nat, hi: nat, on: bool): (r: seq<bool>)
    ensures |r| == |bits|
  {
    seq(|bits|, j requires 0 <= j < |bits| => if lo <= j < hi then on else bits[j])
  }

  lemma RunExtends(bits: seq<bool>, lo: nat, hi: nat, on: bool)
    requires lo <= hi < |bits|
    ensures WithRun(bits, lo, lo, on) == bits
    ensures WithRun(bits, lo, hi, on)[hi := on] == WithRun(bits, lo, hi + 1, on)
  {
  }

  /** Positions lo .. hi-1 are all clear. */
  predicate Clear(bits: seq<bool>, lo: nat, hi: nat)
    requires hi <= |bits|
  {
    forall j :: lo <= j < hi ==> !bits[j]
  }

  /** `p` starts a run of `slots` clear bits below `max`. An empty request asks for one bit. */
  predicate Fits(bits: seq<bool>, slots: nat, max: nat, p: nat)
    requires max <= |bits|
  {
    var need := if slots == 0 then 1 else slots;
    p + need <= max && Clear(bits, p, p + need)
  }

  /** r is the least fitting position, or max when there is none. */
  ghost predicate FirstFit(bits: seq<bool>, slots: nat, max: nat, r: nat)
    requires max <= |bits|
  {
    && r <= max
    && (r < max ==> Fits(bits, slots, max, r))
    && forall p: nat :: p < r ==> !Fits(bits, slots, max, p)
  }

  /** First fit determines its answer, and says max exactly when nothing fits. */
  lemma FirstFitExact(bits: seq<bool>, slots: nat, max: nat, r: nat, s: nat)
    requires max <= |bits|
    requires FirstFit(bits, slots, max, r) && FirstFit(bits, slots, max, s)
    ensures r == s
    ensures r == max <==> forall p: nat :: !Fits(bits, slots, max, p)
  {
    if r == max {
      forall p: nat ensures !Fits(bits, slots, max, p) {
        assert p >= max || p < r;
      }
    }
  }

  method TestBit(nr: nat, addr: array<bv8>) returns (on: bool)
    requires nr < 8 * addr.Length
    ensures on == Bits(addr[..])[nr]
  {
    MaskIsShift(addr[nr / 8], nr % 8);
    on := 1 & (addr[nr / 8] >> (nr % 8)) == 1;
  }

  method SetBit(nr: nat, addr: array<bv8>)
    requires nr < 8 * addr.Length
    modifies addr
    ensures Bits(addr[..]) == old(Bits(addr[..]))[nr := true]
  {
    MaskIsShift(addr[nr / 8], nr % 8);
    WriteBit(addr[..], nr, true);
    addr[nr / 8] := addr[nr / 8] | (1 << (nr % 8));
    assert addr[..] == old(addr[..])[nr / 8 := ByteWith(old(addr[nr / 8]), nr % 8, true)];
  }

  method ClearBit(nr: nat, addr: array<bv8>)
    requires nr < 8 * addr.Length
    modifies addr
    ensures Bits(addr[..]) == old(Bits(addr[..]))[nr := false]
  {
    MaskIsShift(addr[nr / 8], nr % 8);
    WriteBit(addr[..], nr, false);
    addr[nr / 8] := addr[nr / 8] & !(1 << (nr % 8));
    assert addr[..] == old(addr[..])[nr / 8 := ByteWith(old(addr[nr / 8]), nr % 8, false)];
  }

  method FindNextBit(addr: array<bv8>, maxSlots: nat, start: nat) returns (r: nat)
    requires maxSlots <= 8 * addr.Length
    ensures r <= maxSlots
    ensures Clear(Bits(addr[..]), start, r)
    ensures r < maxSlots ==> start <= r && Bits(addr[..])[r]
    ensures start <= maxSlots ==> start <= r
  {
    r := start;
    ghost var bits := Bits(addr[..]);
    while r < maxSlots
      invariant start <= r <= maxSlots || r == start
      invariant r <= maxSlots ==> Clear(bits, start, r)
    {
      var on := TestBit(r, addr);
      if on {
        return;
      }
      r := r + 1;
    }
    r := maxSlots;
  }

  method FindNextZeroBit(addr: array<bv8>, maxSlots: nat, start: nat) returns (r: nat)
    requires maxSlots <= 8 * addr.Length
    ensures r <= maxSlots
    ensures forall j :: start <= j < r ==> Bits(addr[..])[j]
    ensures r < maxSlots ==> start <= r && !Bits(addr[..])[r]
    ensures start <= maxSlots ==> start <= r
  {
    r := start;
    ghost var bits := Bits(addr[..]);
    while r < maxSlots
      invariant start <= r <= maxSlots || r == start
      invariant r <= maxSlots ==> forall j :: start <= j < r ==> bits[j]
    {
      var on := TestBit(r, addr);
      if !on {
        return;
      }
      r := r + 1;
    }
    r := maxSlots;
  }

  /** Nothing fits in a clear stretch too short for the request, nor on the set bit that ends it. */
  lemma ShortRunExcluded(bits: seq<bool>, slots: nat, max: nat, lo: nat, hi: nat)
    requires max <= |bits| && lo < hi <= max && hi - lo < slots
    requires hi < max ==> bits[hi]
    ensures forall p: nat :: lo <= p <= hi ==> !Fits(bits, slots, max, p)
  {
    forall p: nat | lo <= p <= hi ensures !Fits(bits, slots, max, p) {
      assert p + slots <= max ==> p <= hi < p + slots;
    }
  }

  method RoomForFilename(bitmap: array<bv8>, slots: nat, maxSlots: nat) returns (r: nat)
    requires maxSlots <= 8 * bitmap.Length
    ensures FirstFit(Bits(bitmap[..]), slots, maxSlots, r)
  {
    hide Bits;
    var bitStart := 0;
    ghost var bytes, bits := bitmap[..], Bits(bitmap[..]);
    while true
      invariant bitStart == 0 || bitStart < maxSlots
      invariant forall p: nat :: p < bitStart ==> !Fits(bits, slots, maxSlots, p)
      decreases maxSlots - bitStart
    {
      var zeroStart := FindNextZeroBit(bitmap, maxSlots, bitStart);
      assert bitmap[..] == bytes;
      forall p: nat | bitStart <= p < zeroStart ensures !Fits(bits, slots, maxSlots, p) {
        assert bits[p];
      }
      if zeroStart >= maxSlots {
        return maxSlots;
      }
      var zeroEnd := FindNextBit(bitmap, maxSlots, zeroStart);
      if zeroEnd - zeroStart >= slots {
        return zeroStart;
      }
      ShortRunExcluded(bits, slots, maxSlots, zeroStart, zeroEnd);
      bitStart := zeroEnd + 1;
      if zeroEnd + 1 >= maxSlots {
        return maxSlots;
      }
    }
  }

  // ---------------------------------------------------------------------
  // Bytes from bits, for reading a group back from the file
  // ---------------------------------------------------------------------

  function PackByte(bits: seq<bool>, from: nat, n: nat): bv8
    requires n <= 8 && from + n <= |bits|
  {
    if n == 0 then 0 else ByteWith(PackByte(bits, from, n - 1), n - 1, bits[from + n - 1])
  }

  function Pack(bits: seq<bool>): (r: seq<bv8>)
    requires |bits| % 8 == 0
    ensures |r| == |bits| / 8
  {
    seq(|bits| / 8, i requires 0 <= i < |bits| / 8 => PackByte(bits, 8 * i, 8))
  }

  lemma {:induction false} PackByteBit(bits: seq<bool>, from: nat, n: nat, k: nat)
    requires n <= 8 && from + n <= |bits| && k < n
    ensures ByteBit(PackByte(bits, from, n), k) == bits[from + k]
  {
    var rest := PackByte(bits, from, n - 1);
    ByteBitChanges(rest, n - 1, bits[from + n - 1], k);
    if k < n - 1 {
      PackByteBit(bits, from, n - 1, k);
    }
  }

  lemma PackRoundTrip(bits: seq<bool>)
    requires |bits| % 8 == 0
    ensures Bits(Pack(bits)) == bits
  {
    forall j | 0 <= j < |bits| ensures ByteBit(Pack(bits)[j / 8], j % 8) == bits[j] {
      PackByteBit(bits, 8 * (j / 8), 8, j % 8);
    }
  }
}
