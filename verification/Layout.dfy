/** Where a dentry group lives in a dentry file: the address arithmetic of the
    multi-level hash directory, with the 32-bit truncations written out. */
module Layout {

  const U32: nat := 0x1_0000_0000

  type u32 = x: int | 0 <= x < 0x1_0000_0000

  const GROUP_SIZE: nat := 4096
  const FILE_HEADER: nat := 4096
  const MAX_BUCKET_LEVEL: nat := 63
  const BUCKET_BLOCKS: nat := 2

  /** The deepest level whose addresses survive the 32-bit multiplication. */
  const LAST_SAFE_LEVEL: nat := 30

  function Pow2(n: nat): (r: nat)
    ensures r >= 1
  {
    if n == 0 then 1 else 2 * Pow2(n - 1)
  }

  function DentrySlots(nameLen: nat): u32 {
    ((nameLen + 7) / 8) % U32
  }

  function GroupCnt(size: nat): nat {
    if size >= FILE_HEADER then (size - FILE_HEADER) / GROUP_SIZE else 0
  }

  function OverallBucket(level: nat): u32 {
    if level >= MAX_BUCKET_LEVEL then 0 else (Pow2(level + 1) - 1) % U32
  }

  function DcacheFileSize(level: nat): nat {
    OverallBucket(level) * GROUP_SIZE * BUCKET_BLOCKS + FILE_HEADER
  }

  function BucketAddr(level: nat, buckOffset: u32): u32 {
    if level >= MAX_BUCKET_LEVEL then 0
    else if buckOffset >= Pow2(level) then 0
    else (Pow2(level) % U32 + buckOffset - 1) % U32
  }

  function BucketByLevel(level: nat): u32 {
    if level >= MAX_BUCKET_LEVEL then 0 else Pow2(level) % U32
  }

  function BidxFromLevel(level: nat, hash: u32): u32 {
    var bucket := BucketByLevel(level);
    if bucket == 0 then 0
    else (BUCKET_BLOCKS * BucketAddr(level, hash % bucket)) % U32
  }

  // ---------------------------------------------------------------------
  // The intended, unbounded layout
  // ---------------------------------------------------------------------

  /** Groups taken by the first `levels` levels. */
  function LevelStart(levels: nat): (r: nat) {
    2 * (Pow2(levels) - 1)
  }

  /** Group of (level, bucket, block) when nothing wraps. */
  function GroupIndex(level: nat, bucket: nat, block: nat): nat {
    2 * (Pow2(level) - 1 + bucket) + block
  }

  /** First block of the bucket that `hash` selects on `level`. */
  function HomeBlock(level: nat, hash: u32): nat {
    GroupIndex(level, hash % Pow2(level), 0)
  }

  /** The level a group index belongs to. */
  function LevelOf(i: nat): (level: nat)
    ensures LevelStart(level) <= i < LevelStart(level + 1)
  {
    if i < 2 then 0
    else
      var parent := (i - 2) / 4 * 2;
      LevelOf(parent) + 1
  }

  lemma {:induction false} Pow2Monotone(a: nat, b: nat)
    requires a <= b
    ensures Pow2(a) <= Pow2(b)
    ensures a < b ==> Pow2(a) < Pow2(b)
    decreases b - a
  {
    if a < b {
      Pow2Monotone(a + 1, b);
    }
  }

  lemma {:induction false} Pow2Add(a: nat, b: nat)
    ensures Pow2(a + b) == Pow2(a) * Pow2(b)
  {
    if a == 0 {
    } else {
      Pow2Add(a - 1, b);
      assert Pow2(a + b) == 2 * Pow2(a + b - 1) == 2 * (Pow2(a - 1) * Pow2(b));
    }
  }

  lemma Pow2Values()
    ensures Pow2(30) == 0x4000_0000 && Pow2(31) == 0x8000_0000 && Pow2(32) == U32
    ensures Pow2(19) == 0x8_0000
  {
    assert Pow2(8) == 256;
    Pow2Add(8, 8);
    Pow2Add(16, 3);
    Pow2Add(16, 14);
    assert Pow2(14) == 16384 by { Pow2Add(8, 6); }
    assert Pow2(31) == 2 * Pow2(30);
    assert Pow2(32) == 2 * Pow2(31);
  }

  /** Levels do not overlap and leave no gap: a group index belongs to exactly one level. */
  lemma LevelOfUnique(i: nat, level: nat)
    ensures LevelStart(level) <= i < LevelStart(level + 1) <==> LevelOf(i) == level
  {
    var own := LevelOf(i);
    if level < own {
      Pow2Monotone(level + 1, own);
    } else if own < level {
      Pow2Monotone(own + 1, level);
    }
  }

  /** (level, bucket, block) to group index is a bijection: every index is hit, once. */
  lemma LayoutBijection(i: nat)
    ensures var level := LevelOf(i);
            var bucket := i / 2 - (Pow2(level) - 1);
            0 <= bucket < Pow2(level) && GroupIndex(level, bucket, i % 2) == i
    ensures forall level: nat, bucket: nat, block: nat
              | bucket < Pow2(level) && block < 2 && GroupIndex(level, bucket, block) == i ::
              level == LevelOf(i) && bucket == i / 2 - (Pow2(level) - 1) && block == i % 2
  {
    var own := LevelOf(i);
    assert Pow2(own + 1) == 2 * Pow2(own);
    forall level: nat, bucket: nat, block: nat
      | bucket < Pow2(level) && block < 2 && GroupIndex(level, bucket, block) == i
      ensures level == own && bucket == i / 2 - (Pow2(level) - 1) && block == i % 2
    {
      assert Pow2(level + 1) == 2 * Pow2(level);
      LevelOfUnique(i, level);
    }
  }

  lemma WholeFileSize(L: nat)
    requires L <= LAST_SAFE_LEVEL
    ensures DcacheFileSize(L) == LevelStart(L + 1) * GROUP_SIZE + FILE_HEADER
    ensures GroupCnt(DcacheFileSize(L)) == LevelStart(L + 1)
  {
    Pow2Values();
    Pow2Monotone(L + 1, 31);
    assert OverallBucket(L) == Pow2(L + 1) - 1;
  }

  /** Levels 0..L fill exactly the groups that a file of DcacheFileSize(L) bytes holds. */
  lemma FileHoldsExactlyItsLevels(L: nat, i: nat)
    requires L <= LAST_SAFE_LEVEL
    ensures GroupCnt(DcacheFileSize(L)) == LevelStart(L + 1)
    ensures i < GroupCnt(DcacheFileSize(L)) <==> LevelOf(i) <= L
  {
    WholeFileSize(L);
    var own := LevelOf(i);
    if own <= L {
      Pow2Monotone(own + 1, L + 1);
    } else {
      Pow2Monotone(L + 1, own);
    }
  }

  lemma NoWrapBelowHalf(p: nat, off: nat)
    requires 1 <= p <= 0x4000_0000 && off < p
    ensures p % U32 == p
    ensures (p + off - 1) % U32 == p + off - 1
    ensures (BUCKET_BLOCKS * (p + off - 1)) % U32 == 2 * (p + off - 1) < U32 - 2
  {
  }

  lemma LowLevelsDoNotWrap(level: nat, hash: u32)
    requires level <= LAST_SAFE_LEVEL
    ensures BidxFromLevel(level, hash) == HomeBlock(level, hash)
    ensures BucketByLevel(level) == Pow2(level)
    ensures BucketAddr(level, hash % Pow2(level)) * BUCKET_BLOCKS == HomeBlock(level, hash) < U32 - 2
    ensures LevelStart(level) <= HomeBlock(level, hash)
    ensures HomeBlock(level, hash) + 2 <= LevelStart(level + 1)
  {
    Pow2Values();
    Pow2Monotone(level, 30);
    assert Pow2(level + 1) == 2 * Pow2(level);
    hide Pow2;
    var p := Pow2(level);
    var off := hash % p;
    NoWrapBelowHalf(p, off);
    assert BucketByLevel(level) == p;
    assert BucketAddr(level, off) == p + off - 1;
  }

  /** The 32-bit address computation is right for every hash exactly up to level 30. */
  lemma AddressesRightIffLevelSafe(level: nat)
    requires level < MAX_BUCKET_LEVEL
    ensures (forall hash: u32 :: BidxFromLevel(level, hash) == HomeBlock(level, hash))
            <==> level <= LAST_SAFE_LEVEL
  {
    if level <= LAST_SAFE_LEVEL {
      forall hash: u32 ensures BidxFromLevel(level, hash) == HomeBlock(level, hash) {
        LowLevelsDoNotWrap(level, hash);
      }
    } else {
      HighLevelsWrap(level);
    }
  }

  lemma SmallMod(a: nat, p: nat)
    requires a < p
    ensures a % p == a
  {
  }

  /** From level 31 on, already hash 1 is addressed wrongly. */
  lemma HighLevelsWrap(level: nat)
    requires LAST_SAFE_LEVEL < level < MAX_BUCKET_LEVEL
    ensures BidxFromLevel(level, 1) != HomeBlock(level, 1)
  {
    Pow2Values();
    Pow2Monotone(31, level);
    hide Pow2, BidxFromLevel;
    var p := Pow2(level);
    SmallMod(1, p);
    assert BidxFromLevel(level, 1) < U32 <= 2 * p == HomeBlock(level, 1);
  }
}
