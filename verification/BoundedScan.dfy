/** MetaFile's search stops at a level computed from the file size. When is that the whole file? */
module BoundedScans {
  import opened Layout
  import opened Groups
  import opened Common
  import opened Dentries
  import opened GroupBuffers
  import opened DentryFiles
  import opened MetaFiles

  /** How often a number can be halved before it is at most one. */
  function Halvings(n: nat): nat {
    if n <= 1 then 0 else 1 + Halvings(n / 2)
  }

  /** Blocks in the file, the size first cut to 32 bits. */
  function BlockNumber(size: nat): nat {
    size % U32 / GROUP_SIZE + 1
  }

  method GetMaxLevel(size: nat, statFails: bool) returns (maxLevel: nat)
    ensures maxLevel == if statFails then MAX_BUCKET_LEVEL else Halvings(BlockNumber(size) / 2)
  {
    if statFails {
      return MAX_BUCKET_LEVEL;
    }
    var blkNum: nat := size % U32 / GROUP_SIZE + 1;
    maxLevel := 0;
    blkNum := blkNum / 2;
    while blkNum > 1
      invariant maxLevel + Halvings(blkNum) == Halvings(BlockNumber(size) / 2)
    {
      blkNum := blkNum / 2;
      maxLevel := maxLevel + 1;
    }
  }

  lemma {:induction false} HalvingsOfPow2(n: nat)
    ensures Halvings(Pow2(n)) == n
  {
    if n > 0 {
      HalvingsOfPow2(n - 1);
      assert Pow2(n) / 2 == Pow2(n - 1);
    }
  }

  /** The blocks of a file of levels 0..L, before and after the 32-bit cut. */
  lemma BlocksOfLevels(L: nat)
    requires L < MAX_BUCKET_LEVEL
    ensures BlockNumber(DcacheFileSize(L)) / 2 == if L <= 18 then Pow2(L + 1) else Pow2(19)
  {
    hide Pow2;
    Pow2Values();
    var p := Pow2(L + 1);
    if L <= 18 {
      Pow2Monotone(L + 1, 19);
      assert OverallBucket(L) == p - 1;
      SmallFileBlocks(p);
    } else {
      BigBucketCount(L);
      hide OverallBucket;
      BigFileBlocks(OverallBucket(L));
    }
  }

  lemma SmallFileBlocks(p: nat)
    requires 1 <= p <= 0x8_0000
    ensures BlockNumber((p - 1) * GROUP_SIZE * BUCKET_BLOCKS + FILE_HEADER) / 2 == p
  {
  }

  /** Bucket counts from level 19 on end in nineteen one bits. */
  lemma BigBucketCount(L: nat)
    requires 19 <= L < MAX_BUCKET_LEVEL
    ensures (OverallBucket(L) + 1) % 0x8_0000 == 0 && OverallBucket(L) + 1 >= 0x8_0000
  {
    hide Pow2;
    Pow2Values();
    Pow2Add(L + 1 - 19, 19);
    var q := Pow2(L + 1 - 19);
    if L <= 31 {
      Pow2Monotone(L + 1, 32);
      assert OverallBucket(L) == Pow2(L + 1) - 1;
    } else {
      Pow2Add(L + 1 - 32, 32);
      var r := Pow2(L + 1 - 32);
      OneLessThanMultiple(r);
    }
  }

  lemma OneLessThanMultiple(r: nat)
    requires r >= 1
    ensures (r * U32 - 1) % U32 == U32 - 1
  {
    assert r * U32 - 1 == (r - 1) * U32 + (U32 - 1);
  }

  lemma BigFileBlocks(b: nat)
    requires (b + 1) % 0x8_0000 == 0
    ensures BlockNumber(b * GROUP_SIZE * BUCKET_BLOCKS + FILE_HEADER) / 2 == 0x8_0000
  {
    var q := (b + 1) / 0x8_0000;
    assert b == q * 0x8_0000 - 1;
    assert b * GROUP_SIZE * BUCKET_BLOCKS + FILE_HEADER == (q - 1) * U32 + (U32 - 4096);
  }

  /** The computed level is one past the last exactly while the file's last level is at most 18;
      beyond that it is stuck at 19. */
  lemma MaxLevelRightIff(L: nat)
    requires L < MAX_BUCKET_LEVEL
    ensures Halvings(BlockNumber(DcacheFileSize(L)) / 2) == L + 1 <==> L <= 18
    ensures L > 18 ==> Halvings(BlockNumber(DcacheFileSize(L)) / 2) == 19
    ensures Halvings(BlockNumber(0) / 2) == 0
  {
    BlocksOfLevels(L);
    HalvingsOfPow2(if L <= 18 then L + 1 else 19);
  }

  // ---------------------------------------------------------------------
  // Scanning levels
  // ---------------------------------------------------------------------

  /** The first match in a group from slot p on. */
  function FirstMatch(g: Group, h: u32, name: string, p: nat): (r: Option<nat>)
    requires Shaped(g)
    ensures r.Some? ==> p <= r.value < |g.nsl| && Matches(g, r.value, h, name)
    ensures r.Some? ==> forall k :: p <= k < r.value ==> !Matches(g, k, h, name)
    ensures r.None? ==> forall k :: p <= k < |g.nsl| ==> !Matches(g, k, h, name)
    decreases |g.nsl| - p
  {
    if p >= |g.nsl| then None
    else if Matches(g, p, h, name) then Some(p)
    else FirstMatch(g, h, name, p + 1)
  }

  lemma FirstMatchIs(g: Group, h: u32, name: string, r: Option<nat>)
    requires Shaped(g)
    requires r.Some? ==> r.value < |g.nsl| && Matches(g, r.value, h, name) && forall k :: 0 <= k < r.value ==> !Matches(g, k, h, name)
    requires r.None? ==> forall k :: 0 <= k < |g.nsl| ==> !Matches(g, k, h, name)
    ensures r == FirstMatch(g, h, name, 0)
  {
    hide Matches, FirstMatch;
    var f := FirstMatch(g, h, name, 0);
    if r.Some? && f.Some? {
      assert !(r.value < f.value) && !(f.value < r.value);
    }
  }

  /** Blocks i .. end-1 of a bucket; a block that cannot be read, as past the end of the file, ends the
      search of the bucket. */
  function InBlocks(gs: seq<Group>, fails: set<nat>, i: nat, end: nat, h: u32, name: string): (r: Option<(nat, nat)>)
    requires AllShaped(gs)
    ensures r.Some? ==> i <= r.value.0 < end && r.value.0 < |gs| && forall k :: i <= k <= r.value.0 ==> k !in fails
    ensures r.Some? ==> r.value.1 < |gs[r.value.0].nsl| && Matches(gs[r.value.0], r.value.1, h, name)
    ensures r.None? ==> forall j, p :: i <= j < end && j < |gs| && 0 <= p < |gs[j].nsl| && Matches(gs[j], p, h, name) ==>
              exists k :: i <= k <= j && k in fails
    decreases |gs| - i
  {
    if i >= end || i >= |gs| || i in fails then None
    else
      var m := FirstMatch(gs[i], h, name, 0);
      if m.Some? then Some((i, m.value)) else InBlocks(gs, fails, i + 1, end, h, name)
  }

  function InLevel(gs: seq<Group>, fails: set<nat>, level: nat, h: u32, name: string): Option<(nat, nat)>
    requires AllShaped(gs)
  {
    if BucketByLevel(level) == 0 then None
    else
      var start := SearchStart(level, h);
      InBlocks(gs, fails, start, SearchEnd(start), h, name)
  }

  /** Levels level .. stop-1 in order. */
  function Scan(gs: seq<Group>, fails: set<nat>, level: nat, stop: nat, h: u32, name: string): Option<(nat, nat)>
    requires AllShaped(gs) && level <= stop
    decreases stop - level
  {
    if level == stop then None
    else
      var r := InLevel(gs, fails, level, h, name);
      if r.Some? then r else Scan(gs, fails, level + 1, stop, h, name)
  }

  /** One level of MetaFile's search: block by block, each read into a buffer and walked entry by entry. */
  method SearchLevel(gs: seq<Group>, fails: set<nat>, level: nat, h: u32, name: string) returns (r: Option<(nat, nat)>)
    requires AllShaped(gs) && AllGood(gs, MAX_PER_GROUP)
    ensures r == InLevel(gs, fails, level, h, name)
  {
    hide Good, Shaped, Matches, BucketByLevel, SearchStart, SearchEnd;
    if BucketByLevel(level) == 0 {
      return None;
    }
    var bidx := SearchStart(level, h);
    var endBlock := SearchEnd(bidx);
    while bidx < endBlock && bidx < |gs| && bidx !in fails
      invariant InLevel(gs, fails, level, h, name) == InBlocks(gs, fails, bidx, endBlock, h, name)
    {
      var page := new GroupBuffer(gs[bidx]);
      var found := page.FindInBlock(h, name);
      assert page.View() == gs[bidx];
      FirstMatchIs(gs[bidx], h, name, found);
      if found.Some? {
        return Some((bidx, found.value));
      }
      bidx := bidx + 1;
    }
    r := None;
  }

  /** MetaFile's search, bounded by the level computed from the size. */
  method FindDentry(gs: seq<Group>, fails: set<nat>, size: nat, statFails: bool, hash: HashFn, name: string)
    returns (r: Option<(nat, nat)>)
    requires AllShaped(gs) && AllGood(gs, MAX_PER_GROUP)
    ensures r == Scan(gs, fails, 0, if statFails then MAX_BUCKET_LEVEL else Halvings(BlockNumber(size) / 2), hash(name), name)
  {
    hide InLevel, Good, Shaped;
    var maxLevel := GetMaxLevel(size, statFails);
    for level := 0 to maxLevel
      invariant Scan(gs, fails, 0, maxLevel, hash(name), name) == Scan(gs, fails, level, maxLevel, hash(name), name)
    {
      r := SearchLevel(gs, fails, level, hash(name), name);
      if r.Some? {
        return;
      }
    }
    r := None;
  }

  lemma {:induction false} ScanSplits(gs: seq<Group>, fails: set<nat>, level: nat, mid: nat, stop: nat, h: u32, name: string)
    requires AllShaped(gs) && level <= mid <= stop
    ensures Scan(gs, fails, level, stop, h, name)
            == if Scan(gs, fails, level, mid, h, name).Some? then Scan(gs, fails, level, mid, h, name)
               else Scan(gs, fails, mid, stop, h, name)
    decreases mid - level
  {
    hide InLevel, Shaped;
    if level < mid {
      ScanSplits(gs, fails, level + 1, mid, stop, h, name);
    }
  }

  lemma {:induction false} ScanNone(gs: seq<Group>, fails: set<nat>, level: nat, stop: nat, h: u32, name: string)
    requires AllShaped(gs) && level <= stop
    ensures Scan(gs, fails, level, stop, h, name).None?
            <==> (forall l: nat :: level <= l < stop ==> InLevel(gs, fails, l, h, name).None?)
    decreases stop - level
  {
    hide InLevel, Shaped;
    if level < stop {
      ScanNone(gs, fails, level + 1, stop, h, name);
    }
  }

  /** A search gets to group i: it and, before it, its bucket's first block can be read. */
  predicate InSight(fails: set<nat>, i: nat) {
    i !in fails && (i % 2 == 1 ==> i - 1 !in fails)
  }

  /** An entry of the name lies in group i, within reach of a search. */
  ghost predicate Shown(gs: seq<Group>, fails: set<nat>, i: nat, name: string)
    requires AllShaped(gs)
  {
    InSight(fails, i) && exists p: int :: IsAt(gs, i, p, name)
  }

  lemma MatchIsHere(gs: seq<Group>, hash: HashFn, name: string, i: nat, p: int)
    requires AllShaped(gs) && Placed(ListingOf(gs), hash) && i < |gs|
    ensures IsAt(gs, i, p, name) <==> 0 <= p < |gs[i].nsl| && Matches(gs[i], p, hash(name), name)
  {
    hide OnPath;
    if p in Entries(gs[i]) {
      assert At(ListingOf(gs), i, p);
    }
  }

  lemma OnOwnPath(gs: seq<Group>, hash: HashFn, name: string, i: nat, p: int)
    requires AllShaped(gs) && Placed(ListingOf(gs), hash) && IsAt(gs, i, p, name)
    ensures HomeBlock(LevelOf(i), hash(name)) <= i < HomeBlock(LevelOf(i), hash(name)) + 2
  {
    hide LevelOf, HomeBlock;
    assert At(ListingOf(gs), i, p);
  }

  /** An entry within reach is found on its own level. */
  lemma OwnLevelFinds(gs: seq<Group>, fails: set<nat>, hash: HashFn, name: string, i: nat)
    requires AllShaped(gs) && Placed(ListingOf(gs), hash) && WholeLevels(|gs|) && Shown(gs, fails, i, name)
    ensures i < |gs| && LevelOf(i) < Depth(|gs|) && InLevel(gs, fails, LevelOf(i), hash(name), name).Some?
  {
    hide LevelOf, BucketByLevel, SearchStart, SearchEnd, Matches, Depth, HomeBlock, LevelStart, Shaped, Placed, ListingOf;
    var h, level := hash(name), LevelOf(i);
    var p: int :| IsAt(gs, i, p, name);
    LevelInFile(|gs|, i);
    MatchIsHere(gs, hash, name, i, p);
    OnOwnPath(gs, hash, name, i, p);
    SafeLevelsHaveBuckets(level, h);
    BlockNumbers(level, h);
  }

  /** What is found on a level is an entry within reach; on a level with exact addresses, one of that level. */
  lemma FoundIsShown(gs: seq<Group>, fails: set<nat>, hash: HashFn, name: string, level: nat)
    requires AllShaped(gs) && Placed(ListingOf(gs), hash)
    ensures var r := InLevel(gs, fails, level, hash(name), name);
            r.Some? ==> Shown(gs, fails, r.value.0, name) && (level <= LAST_SAFE_LEVEL ==> r.value.0 < LevelStart(level + 1))
  {
    hide BucketByLevel, SearchStart, SearchEnd, Matches, Shaped, Placed, ListingOf, IsAt;
    var r := InLevel(gs, fails, level, hash(name), name);
    if r.Some? {
      MatchIsHere(gs, hash, name, r.value.0, r.value.1);
      assert IsAt(gs, r.value.0, r.value.1, name);
      BlockNumbers(level, hash(name));
      assert Pow2(level + 1) == 2 * Pow2(level);
    }
  }

  /** The levels below `stop` find a name if and only if an entry of it lies within reach on one of them. */
  lemma ScanFindsIff(gs: seq<Group>, fails: set<nat>, hash: HashFn, name: string, stop: nat)
    requires AllShaped(gs) && Placed(ListingOf(gs), hash) && WholeLevels(|gs|) && stop <= LAST_SAFE_LEVEL + 1
    ensures Scan(gs, fails, 0, stop, hash(name), name).Some?
            <==> exists i: nat :: i < LevelStart(stop) && Shown(gs, fails, i, name)
  {
    hide InLevel, Shaped, Placed, ListingOf, Scan, Pow2, WholeLevels, Shown;
    ScanNone(gs, fails, 0, stop, hash(name), name);
    if l: nat :| l < stop && InLevel(gs, fails, l, hash(name), name).Some? {
      FoundIsShown(gs, fails, hash, name, l);
      Pow2Monotone(l + 1, stop);
    }
    if i: nat :| i < LevelStart(stop) && Shown(gs, fails, i, name) {
      OwnLevelFinds(gs, fails, hash, name, i);
      if LevelOf(i) >= stop {
        Pow2Monotone(stop, LevelOf(i));
      }
    }
  }

  /** Scanning the levels in the file finds exactly what scanning all 63 would, wrapped addresses included. */
  lemma LevelsInFileSuffice(gs: seq<Group>, fails: set<nat>, hash: HashFn, name: string)
    requires AllShaped(gs) && Placed(ListingOf(gs), hash) && WholeLevels(|gs|)
    ensures Scan(gs, fails, 0, Depth(|gs|), hash(name), name) == Scan(gs, fails, 0, MAX_BUCKET_LEVEL, hash(name), name)
  {
    hide InLevel, Shaped, Placed, LevelOf, ListingOf, Depth, Shown;
    var h, d := hash(name), Depth(|gs|);
    ScanSplits(gs, fails, 0, d, MAX_BUCKET_LEVEL, h, name);
    ScanNone(gs, fails, 0, d, h, name);
    ScanNone(gs, fails, d, MAX_BUCKET_LEVEL, h, name);
    if Scan(gs, fails, 0, d, h, name).None? {
      forall l: nat ensures InLevel(gs, fails, l, h, name).None? {
        FoundIsShown(gs, fails, hash, name, l);
        if InLevel(gs, fails, l, h, name).Some? {
          OwnLevelFinds(gs, fails, hash, name, InLevel(gs, fails, l, h, name).value.0);
        }
      }
    }
  }

  /** MetaFile's bounded search is the full search if and only if an entry of the name lies within reach on
      the first nineteen levels, or none lies within reach anywhere: always for files of up to nineteen levels. */
  lemma BoundedIsFullIff(gs: seq<Group>, fails: set<nat>, size: nat, hash: HashFn, name: string)
    requires AllShaped(gs) && Placed(ListingOf(gs), hash) && WholeLevels(|gs|)
    requires size == if gs == [] then 0 else DcacheFileSize(Depth(|gs|) - 1)
    ensures Scan(gs, fails, 0, Halvings(BlockNumber(size) / 2), hash(name), name)
            == Scan(gs, fails, 0, MAX_BUCKET_LEVEL, hash(name), name)
            <==> || (exists i: nat :: i < LevelStart(19) && Shown(gs, fails, i, name))
                 || (forall i: nat :: !Shown(gs, fails, i, name))
    ensures Depth(|gs|) <= 19 ==>
              Scan(gs, fails, 0, Halvings(BlockNumber(size) / 2), hash(name), name)
              == Scan(gs, fails, 0, MAX_BUCKET_LEVEL, hash(name), name)
  {
    hide Scan, Shaped, Placed, LevelOf, ListingOf, DcacheFileSize, BlockNumber, Shown, Pow2;
    var d := Depth(|gs|);
    LevelsInFileSuffice(gs, fails, hash, name);
    MaxLevelRightIff(if d == 0 then 0 else d - 1);
    ScanFindsIff(gs, fails, hash, name, d);
    ScanFindsIff(gs, fails, hash, name, 19);
    ShownInFile(gs, fails, name);
    if d > 19 {
      ScanSplits(gs, fails, 0, 19, d, hash(name), name);
    } else {
      Pow2Monotone(d, 19);
    }
  }

  lemma ShownInFile(gs: seq<Group>, fails: set<nat>, name: string)
    requires AllShaped(gs) && WholeLevels(|gs|)
    ensures forall i: nat :: Shown(gs, fails, i, name) ==> i < LevelStart(Depth(|gs|))
  {
    hide Entries, LevelStart, Depth;
  }

  function EmptyLevels(levels: nat): seq<Group> {
    seq(LevelStart(levels), _ => EmptyGroup(MAX_PER_GROUP))
  }

  lemma EmptyLevelsHold(levels: nat, hash: HashFn)
    requires levels <= LAST_SAFE_LEVEL + 1
    ensures var gs := EmptyLevels(levels);
            AllShaped(gs) && FileInv(gs, MAX_PER_GROUP, hash) && Contents(gs) == map[] && Depth(|gs|) == levels
  {
    hide EmptyGroup;
    var gs := EmptyLevels(levels);
    assert Depth(0) == 0;
    assert DirectoryOf([]) == map[];
    DepthOfWholeLevels(levels);
    GrowFile([], MAX_PER_GROUP, hash, gs);
    assert [] + gs == gs;
  }

  /** A file of levels 0..last, empty but for one entry on the last. */
  function OneOnLast(last: nat, hash: HashFn, base: MetaBase): seq<Group>
    requires 1 <= |base.name| <= 8 * MAX_PER_GROUP && |base.cloudId| <= RECORD_ID_LEN
  {
    var h := hash(base.name);
    var g := Insert(EmptyGroup(MAX_PER_GROUP), 0, base, h);
    seq(LevelStart(last + 1), i => if i == HomeBlock(last, h) then g else EmptyGroup(MAX_PER_GROUP))
  }

  lemma HomeOnLevel(level: nat, h: u32)
    ensures LevelStart(level) <= HomeBlock(level, h) < LevelStart(level + 1) && OnPath(HomeBlock(level, h), h)
  {
    hide LevelOf, OnPath;
    var i := HomeBlock(level, h);
    assert Pow2(level + 1) == 2 * Pow2(level);
    LevelOfUnique(i, level);
    HomeBlockEven(level, h);
    HomeIsOnPath(i, h);
  }

  lemma HomeIsOnPath(i: nat, h: u32)
    requires i == HomeBlock(LevelOf(i), h) && i % 2 == 0
    ensures OnPath(i, h)
  {
  }

  lemma OneOnLastHolds(last: nat, hash: HashFn, base: MetaBase)
    requires last <= LAST_SAFE_LEVEL && 1 <= |base.name| <= 8 * MAX_PER_GROUP && |base.cloudId| <= RECORD_ID_LEN
    ensures var gs, i := OneOnLast(last, hash, base), HomeBlock(last, hash(base.name));
            && AllShaped(gs) && FileInv(gs, MAX_PER_GROUP, hash) && Contents(gs).Keys == {base.name} && Depth(|gs|) == last + 1
            && LevelStart(last) <= i < LevelStart(last + 1) && forall j: nat :: Shown(gs, {}, j, base.name) <==> j == i
  {
    hide EmptyGroup, LevelStart, FileInv, Contents, Insert, Depth, HomeBlock, Entries, OnPath, NewSlot;
    var gs, h := EmptyLevels(last + 1), hash(base.name);
    var i := HomeBlock(last, h);
    EmptyLevelsHold(last + 1, hash);
    HomeOnLevel(last, h);
    EmptyIsClear(MAX_PER_GROUP);
    NoEntriesInEmpty();
    InsertEntry(gs[i], 0, base, h);
    InsertIntoFile(gs, MAX_PER_GROUP, hash, i, 0, base);
    assert OneOnLast(last, hash, base) == gs[i := Insert(gs[i], 0, base, h)];
    assert IsAt(OneOnLast(last, hash, base), i, 0, base.name);
  }

  lemma NoEntriesInEmpty()
    ensures Good(EmptyGroup(MAX_PER_GROUP)) && Entries(EmptyGroup(MAX_PER_GROUP)) == map[]
  {
  }

  /** From twenty levels on, the entry is missed by the bounded search, and found by one of all levels. */
  lemma DeepEntryMissed(last: nat, hash: HashFn, base: MetaBase)
    requires 19 <= last <= LAST_SAFE_LEVEL && 1 <= |base.name| <= 8 * MAX_PER_GROUP && |base.cloudId| <= RECORD_ID_LEN
    ensures var gs := OneOnLast(last, hash, base);
            && AllShaped(gs) && FileInv(gs, MAX_PER_GROUP, hash) && Contents(gs).Keys == {base.name}
            && Scan(gs, {}, 0, Halvings(BlockNumber(DcacheFileSize(last)) / 2), hash(base.name), base.name).None?
            && Scan(gs, {}, 0, MAX_BUCKET_LEVEL, hash(base.name), base.name).Some?
  {
    hide Scan, DcacheFileSize, BlockNumber, Contents, Pow2, AllGood, Unique, Placed, ListingOf, OneOnLast, Shown, HomeBlock;
    var gs, name := OneOnLast(last, hash, base), base.name;
    OneOnLastHolds(last, hash, base);
    MaxLevelRightIff(last);
    Pow2Monotone(19, last);
    ScanFindsIff(gs, {}, hash, name, 19);
    ScanFindsIff(gs, {}, hash, name, last + 1);
    assert Shown(gs, {}, HomeBlock(last, hash(name)), name);
    LevelsInFileSuffice(gs, {}, hash, name);
  }
}
