/** CloudDiskMetaFile: a directory's children kept in one dentry file. */
module MetaFiles {
  import opened Common
  import opened Layout
  import opened Bitmap
  import opened Dentries
  import opened Groups
  import opened GroupBuffers
  import opened DentryFiles
  import opened ChildLists
  import opened LockTraces

  const PER_GROUP: nat := 52

  const ENOENT: int := 2
  const EIO: int := 5
  const EEXIST: int := 17
  const EINVAL: int := 22
  const ENOSPC: int := 28
  const ENAMETOOLONG: int := 36

  /** What a record-lock call may fail with. */
  type LockErrno = e: int | e > 0 && e != ENOENT && e != EEXIST && e != EIO && e != ENOSPC && e != ENAMETOOLONG witness 11

  /** What goes wrong underneath one operation. Each failing step has no effect. */
  datatype Io = Io(statFails: bool, growFails: bool, lockFails: set<nat>, lockErrno: LockErrno,
                   readFails: set<nat>, writeFails: bool, unlockFails: bool, unlockErrno: LockErrno)

  predicate Quiet(io: Io) {
    !io.statFails && !io.growFails && io.lockFails == {} && io.readFails == {} && !io.writeFails && !io.unlockFails
  }

  /** Searches see every group and locks work; growing, and writing a group, may still fail. */
  predicate Steady(io: Io) {
    io.lockFails == {} && io.readFails == {} && !io.unlockFails
  }

  /** A search gets to see group i: neither it nor, before it, its bucket's first block fails. */
  predicate Readable(io: Io, i: nat) {
    var blocked := io.lockFails + io.readFails;
    i !in blocked && (i % 2 == 1 ==> i - 1 !in blocked)
  }

  predicate IsAt(gs: seq<Group>, i: nat, p: int, name: string)
    requires AllShaped(gs)
  {
    i < |gs| && p in Entries(gs[i]) && Entries(gs[i])[p].name == name
  }

  /** The search has not overlooked a visible entry of that name in group i. */
  ghost predicate Missed(gs: seq<Group>, io: Io, i: nat, name: string)
    requires AllShaped(gs)
  {
    forall p: int :: IsAt(gs, i, p, name) ==> !Readable(io, i)
  }

  lemma InDirectoryIffAt(gs: seq<Group>, name: string)
    requires AllShaped(gs)
    ensures name in Contents(gs) <==> exists i: nat, p: int :: IsAt(gs, i, p, name)
  {
    hide Shaped, Entries;
    var es := ListingOf(gs);
    if name in Contents(gs) {
      var a := PlaceOf(es, name);
      assert IsAt(gs, a.0, a.1, name);
    }
    if i: nat, p: int :| IsAt(gs, i, p, name) {
      assert At(es, i, p);
    }
  }

  /** In a file that keeps the invariant, what a block search matches is what the directory lists. */
  lemma MatchIsEntry(gs: seq<Group>, hash: HashFn, i: nat, name: string)
    requires AllShaped(gs) && FileInv(gs, PER_GROUP, hash) && i < |gs|
    ensures Good(gs[i]) && |gs[i].nsl| == PER_GROUP
    ensures forall p :: IsAt(gs, i, p, name) <==> 0 <= p < PER_GROUP && Matches(gs[i], p, hash(name), name)
  {
    hide RunsWhole, BitsOwned, Unique, OnPath, WholeLevels;
    forall p ensures IsAt(gs, i, p, name) <==> 0 <= p < PER_GROUP && Matches(gs[i], p, hash(name), name) {
      if p in Entries(gs[i]) {
        assert At(ListingOf(gs), i, p);
      }
    }
  }

  lemma GroupsComeInPairs(gs: seq<Group>, hash: HashFn)
    requires FileInv(gs, PER_GROUP, hash)
    ensures |gs| % 2 == 0
  {
    hide AllGood, Placed, Unique, Depth, Pow2;
    assert |gs| == LevelStart(Depth(|gs|));
  }

  /** The search's block numbers are 32-bit, products and sums included. */
  function SearchStart(level: nat, h: u32): u32
    requires BucketByLevel(level) != 0
  {
    (BucketAddr(level, h % BucketByLevel(level)) * BUCKET_BLOCKS) % U32
  }

  function SearchEnd(start: u32): u32 {
    (start + BUCKET_BLOCKS) % U32
  }

  /** They start even, and on safe levels they are the right bucket's. */
  lemma BlockNumbers(level: nat, h: u32)
    requires BucketByLevel(level) != 0
    ensures var start := SearchStart(level, h);
            var end := SearchEnd(start);
            && start % 2 == 0
            && (end == start + 2 || end < start)
            && (level <= LAST_SAFE_LEVEL ==> start == HomeBlock(level, h) && end == start + 2)
  {
    hide BucketAddr, HomeBlock;
    EvenAfterWrap(BucketAddr(level, h % BucketByLevel(level)));
    if level <= LAST_SAFE_LEVEL {
      LowLevelsDoNotWrap(level, h);
    }
  }

  lemma SafeLevelsHaveBuckets(level: nat, h: u32)
    ensures level <= LAST_SAFE_LEVEL ==> BucketByLevel(level) != 0
  {
    if level <= LAST_SAFE_LEVEL {
      LowLevelsDoNotWrap(level, h);
    }
  }

  lemma EvenAfterWrap(a: nat)
    ensures (a * BUCKET_BLOCKS) % U32 % 2 == 0
  {
  }

  /** Stopping at an unreadable block loses nothing visible in that bucket. */
  lemma UnreadableBlock(gs: seq<Group>, io: Io, start: nat, i: nat, name: string)
    requires AllShaped(gs) && |gs| % 2 == 0 && start % 2 == 0 && start <= i <= start + 1
    requires i >= |gs| || i in io.lockFails + io.readFails
    ensures Missed(gs, io, i, name) && (i == start ==> Missed(gs, io, start + 1, name))
  {
    hide Entries;
  }

  // ---------------------------------------------------------------------
  // Growth by whole levels
  // ---------------------------------------------------------------------

  predicate Sized(gs: seq<Group>) {
    forall i :: 0 <= i < |gs| ==> |gs[i].nsl| == PER_GROUP
  }

  /** ftruncate: cut off, or append zeroed groups. */
  function Resized(gs: seq<Group>, n: nat): (r: seq<Group>)
    requires AllShaped(gs) && Sized(gs)
    ensures |r| == n && AllShaped(r) && Sized(r)
  {
    if n <= |gs| then gs[..n] else gs + seq(n - |gs|, _ => EmptyGroup(PER_GROUP))
  }

  /** A bucket that ends at endBlock lies on a level of the file or on the next one. */
  predicate Reachable(n: nat, level: nat, endBlock: nat) {
    level <= Depth(n) <= LAST_SAFE_LEVEL && LevelStart(level) < endBlock <= LevelStart(level + 1)
  }

  /** The file once `level` is in it. */
  function WithLevel(gs: seq<Group>, level: nat): (r: seq<Group>)
    ensures gs <= r
  {
    if level < Depth(|gs|) || LevelStart(level + 1) < |gs| then gs
    else gs + seq(LevelStart(level + 1) - |gs|, _ => EmptyGroup(PER_GROUP))
  }

  lemma GrowthNumbers(n: nat, size: nat, level: nat, endBlock: nat)
    requires WholeLevels(n) && Reachable(n, level, endBlock)
    requires size == if n == 0 then 0 else DcacheFileSize(Depth(n) - 1)
    ensures GroupCnt(size) == n
    ensures level < Depth(n) ==> endBlock <= n
    ensures level == Depth(n) ==>
              n < endBlock <= GroupCnt(DcacheFileSize(level)) == LevelStart(level + 1)
              && WholeLevels(LevelStart(level + 1)) && Depth(LevelStart(level + 1)) == level + 1
  {
    hide LevelOf, DcacheFileSize, GroupCnt;
    var d := Depth(n);
    if n != 0 {
      WholeFileSize(d - 1);
    } else {
      assert GroupCnt(size) == 0 by { EmptyFileHasNoGroups(); }
    }
    if level < d {
      Pow2Monotone(level + 1, d);
    } else {
      WholeFileSize(level);
      DepthOfWholeLevels(level + 1);
    }
  }

  lemma EmptyFileHasNoGroups()
    ensures GroupCnt(0) == 0
  {
  }

  lemma GrowthIsNextLevel(gs: seq<Group>, hash: HashFn, size: nat, level: nat, endBlock: nat)
    requires AllShaped(gs) && Sized(gs) && FileInv(gs, PER_GROUP, hash) && Reachable(|gs|, level, endBlock)
    requires size == if gs == [] then 0 else DcacheFileSize(Depth(|gs|) - 1)
    ensures GroupCnt(size) == |gs|
    ensures level <= Depth(|gs|)
    ensures level < Depth(|gs|) ==> endBlock <= |gs| && WithLevel(gs, level) == gs
    ensures level == Depth(|gs|) ==> endBlock > |gs|
    ensures level == Depth(|gs|) ==> Resized(gs, GroupCnt(DcacheFileSize(level))) == WithLevel(gs, level)
    ensures level == Depth(|gs|) ==> WithLevel(gs, level) != [] && Depth(|WithLevel(gs, level)|) == level + 1
    ensures endBlock <= |WithLevel(gs, level)|
    ensures FileInv(WithLevel(gs, level), PER_GROUP, hash)
    ensures AllShaped(WithLevel(gs, level)) && Contents(WithLevel(gs, level)) == Contents(gs)
  {
    hide AllGood, Placed, Unique, Shaped, Contents, EmptyGroup, LevelOf, DcacheFileSize, GroupCnt, LevelStart;
    GrowthNumbers(|gs|, size, level, endBlock);
    if level == Depth(|gs|) {
      var more := seq(LevelStart(level + 1) - |gs|, _ => EmptyGroup(PER_GROUP));
      assert WithLevel(gs, level) == gs + more;
      GrowFile(gs, PER_GROUP, hash, more);
    }
  }

  /** On a level of the file or the next, the code's block number is the bucket's, and lies on the path. */
  lemma BucketReachable(n: nat, level: nat, h: u32)
    requires level <= Depth(n) <= LAST_SAFE_LEVEL
    ensures BidxFromLevel(level, h) == HomeBlock(level, h)
    ensures Reachable(n, level, HomeBlock(level, h) + 2)
    ensures OnPath(HomeBlock(level, h), h) && OnPath(HomeBlock(level, h) + 1, h)
  {
    hide LevelOf, BidxFromLevel, Depth, HomeBlock, LevelStart, BucketAddr, BucketByLevel, OnPath;
    LowLevelsDoNotWrap(level, h);
    HomeBlockEven(level, h);
    var i := HomeBlock(level, h);
    LevelOfUnique(i, level);
    LevelOfUnique(i + 1, level);
    BlocksOnPath(i, level, h);
  }

  lemma BlocksOnPath(i: nat, level: nat, h: u32)
    requires i % 2 == 0 && i == HomeBlock(level, h) && LevelOf(i) == LevelOf(i + 1) == level
    ensures OnPath(i, h) && OnPath(i + 1, h)
  {
    hide LevelOf, HomeBlock;
  }

  lemma HomeBlockEven(level: nat, h: u32)
    ensures HomeBlock(level, h) % 2 == 0
  {
    hide Pow2;
    var bucket := Pow2(level) - 1 + h % Pow2(level);
    assert HomeBlock(level, h) == 2 * bucket;
  }

  predicate Open(io: Io, i: nat) {
    i !in io.lockFails && i !in io.readFails
  }

  /** The level is in the file, or can be added to it. */
  predicate Growing(gs: seq<Group>, io: Io, level: nat) {
    !io.statFails && (level == Depth(|gs|) ==> !io.growFails)
  }

  ghost predicate FullAt(gs: seq<Group>, i: nat, base: MetaBase) {
    i < |gs| && Full(gs[i], base)
  }

  /** The search for room ends on this level: the first block has room, or it is full and the second has. */
  ghost predicate Offers(gs: seq<Group>, io: Io, level: nat, h: u32, base: MetaBase) {
    var i, gs' := HomeBlock(level, h), WithLevel(gs, level);
    && Growing(gs, io, level) && Open(io, i)
    && (!FullAt(gs', i, base) || (Open(io, i + 1) && !FullAt(gs', i + 1, base)))
  }

  /** The search for room goes on to the next level: both blocks were seen and are full. */
  ghost predicate PassesOn(gs: seq<Group>, io: Io, level: nat, h: u32, base: MetaBase) {
    var i, gs' := HomeBlock(level, h), WithLevel(gs, level);
    Growing(gs, io, level) && Open(io, i) && Open(io, i + 1) && FullAt(gs', i, base) && FullAt(gs', i + 1, base)
  }

  /** The search for room, from this level on, finds some. */
  ghost predicate RoomFrom(gs: seq<Group>, io: Io, level: nat, h: u32, base: MetaBase)
    decreases Depth(|gs|) + 1 - level
  {
    level <= Depth(|gs|)
    && (Offers(gs, io, level, h, base) || (PassesOn(gs, io, level, h, base) && RoomFrom(gs, io, level + 1, h, base)))
  }

  ghost predicate Full(g: Group, base: MetaBase) {
    PER_GROUP <= |g.bits| && forall p: nat :: !Fits(g.bits, DentrySlots(|base.name|), PER_GROUP, p)
  }

  /** Neither block of a bucket has room. */
  ghost predicate Crowded(gs: seq<Group>, start: nat, base: MetaBase) {
    start + 1 < |gs| && Full(gs[start], base) && Full(gs[start + 1], base)
  }

  lemma SizedFromValid(gs: seq<Group>, hash: HashFn)
    requires FileInv(gs, PER_GROUP, hash)
    ensures Sized(gs)
  {
    hide Good, Placed, Unique, WholeLevels;
  }

  lemma LowerLevelsPresent(gs: seq<Group>, level: nat)
    requires level <= Depth(|gs|) && WithLevel(gs, level) != gs
    ensures level == Depth(|gs|)
  {
  }

  /** A fresh level has room for anything of at most 52 slots. */
  lemma FreshLevelHasRoom(gs: seq<Group>, h: u32, base: MetaBase)
    requires WholeLevels(|gs|) && Depth(|gs|) <= LAST_SAFE_LEVEL && DentrySlots(|base.name|) <= PER_GROUP
    ensures !Crowded(WithLevel(gs, Depth(|gs|)), HomeBlock(Depth(|gs|), h), base)
  {
    hide Depth, BidxFromLevel;
    var level := Depth(|gs|);
    var i := HomeBlock(level, h);
    LowLevelsDoNotWrap(level, h);
    assert |gs| == LevelStart(level) <= i < LevelStart(level + 1);
    assert WithLevel(gs, level)[i] == EmptyGroup(PER_GROUP);
    assert Fits(EmptyGroup(PER_GROUP).bits, DentrySlots(|base.name|), PER_GROUP, 0);
  }

  /** Undisturbed, the search for room always finds some. */
  lemma {:induction false} QuietFindsRoom(gs: seq<Group>, hash: HashFn, io: Io, level: nat, base: MetaBase)
    requires AllShaped(gs) && FileInv(gs, PER_GROUP, hash) && level <= Depth(|gs|) <= LAST_SAFE_LEVEL
    requires DentrySlots(|base.name|) <= PER_GROUP && Quiet(io)
    ensures RoomFrom(gs, io, level, hash(base.name), base)
    decreases Depth(|gs|) + 1 - level
  {
    hide Full, FileInv, WithLevel, HomeBlock, Shaped, LevelStart, Depth;
    var i := HomeBlock(level, hash(base.name));
    if Crowded(WithLevel(gs, level), i, base) {
      CrowdedLevelIsOld(gs, hash, level, base);
      QuietFindsRoom(gs, hash, io, level + 1, base);
    }
  }

  /** So a level found crowded was in the file before. */
  lemma CrowdedLevelIsOld(gs: seq<Group>, hash: HashFn, level: nat, base: MetaBase)
    requires AllShaped(gs) && FileInv(gs, PER_GROUP, hash) && level <= Depth(|gs|) <= LAST_SAFE_LEVEL
    requires DentrySlots(|base.name|) <= PER_GROUP
    requires Crowded(WithLevel(gs, level), HomeBlock(level, hash(base.name)), base)
    ensures level < Depth(|gs|) && WithLevel(gs, level) == gs
  {
    hide AllGood, Placed, Unique, Shaped, Depth, Good, Crowded;
    if level == Depth(|gs|) {
      FreshLevelHasRoom(gs, hash(base.name), base);
    }
  }

  /** A created entry reports the caller's fields, its id zero padded to 33 bytes. */
  function NewMeta(base: MetaBase): Meta {
    Stored(base, Padded(base.cloudId))
  }

  lemma NewMetaSays(base: MetaBase)
    requires |base.cloudId| <= RECORD_ID_LEN
    ensures var m := NewMeta(base);
            && Keeps(m, base) && |m.cloudId| == 33 && base.cloudId <= m.cloudId
            && forall j :: |base.cloudId| <= j < 33 ==> m.cloudId[j] == '\0'
  {
    CreatedSays(base);
  }

  /** Names of 1 to 416 bytes, ids of up to 33. */
  predicate Creatable(base: MetaBase) {
    1 <= |base.name| <= 416 && |base.cloudId| <= 33
  }

  lemma FoundIsSeen(gs: seq<Group>, hash: HashFn, io: Io, name: string, i: nat, p: int)
    requires AllShaped(gs) && FileInv(gs, PER_GROUP, hash) && IsAt(gs, i, p, name) && Readable(io, i)
    ensures i < |gs| && name in Contents(gs)
    ensures Contents(gs)[name] == Report(Entries(gs[i])[p].slot)
    ensures forall j: nat, q: int :: IsAt(gs, j, q, name) ==> j == i && q == p
  {
    hide AllGood, Placed, WholeLevels, Readable, Shaped, Entries;
    var es := ListingOf(gs);
    assert At(es, i, p);
    EntryInDirectory(es, i, p);
    forall j: nat, q: int | IsAt(gs, j, q, name) ensures j == i && q == p {
      assert At(es, j, q);
    }
  }

  /** Past the length check, what can be stored is exactly 1 to 416 bytes of name and 33 of id. */
  lemma StorableIsCreatable(base: MetaBase)
    ensures DentrySlots(|base.name|) <= PER_GROUP ==> (Storable(base) <==> Creatable(base))
    ensures DentrySlots(|base.name|) > PER_GROUP ==> !Creatable(base)
  {
  }

  lemma FirstFitInside(g: Group, slots: nat, pos: nat)
    requires Shaped(g) && |g.nsl| == PER_GROUP && pos < PER_GROUP && FirstFit(g.bits, slots, PER_GROUP, pos)
    ensures pos + slots <= PER_GROUP && Clear(g.bits, pos, pos + slots)
  {
  }

  lemma AtMostOneLevel(gs: seq<Group>, gs': seq<Group>, hash: HashFn)
    requires FileInv(gs, PER_GROUP, hash) && Depth(|gs|) <= LAST_SAFE_LEVEL
    requires gs' == gs || gs' == WithLevel(gs, Depth(|gs|))
    ensures Depth(|gs'|) <= Depth(|gs|) + 1
  {
    hide AllGood, Placed, Unique, LevelOf, LevelStart;
    DepthOfWholeLevels(Depth(|gs|) + 1);
  }

  /** Writing the entry on its path adds it to the directory if the name is new, and breaks
      uniqueness if it is not. */
  lemma CreateEffect(gs: seq<Group>, hash: HashFn, i: nat, pos: nat, base: MetaBase)
    requires AllShaped(gs) && FileInv(gs, PER_GROUP, hash) && i < |gs| && OnPath(i, hash(base.name))
    requires CanInsert(gs[i], pos, base) && Clear(gs[i].bits, pos, pos + DentrySlots(|base.name|))
    ensures var gs' := gs[i := Insert(gs[i], pos, base, hash(base.name))];
            && AllShaped(gs') && SamePlaces(gs, gs', base.name)
            && (base.name !in Contents(gs) ==>
                  FileInv(gs', PER_GROUP, hash) && Contents(gs') == Contents(gs)[base.name := NewMeta(base)])
            && (base.name in Contents(gs) ==> !Unique(ListingOf(gs')))
  {
    hide FileInv, Shaped, Contents, Insert, Unique, OnPath, SamePlaces, Good;
    GoodFromInv(gs, hash);
    InsertMovesNothing(gs, i, pos, base, hash(base.name));
    if base.name !in Contents(gs) {
      InsertIntoFile(gs, PER_GROUP, hash, i, pos, base);
    } else {
      SecondEntry(gs, hash, i, pos, base);
    }
  }

  /** Names other than this one are where they were. */
  ghost predicate SamePlaces(gs: seq<Group>, gs': seq<Group>, name: string)
    requires AllShaped(gs) && AllShaped(gs')
  {
    forall i: nat, p: int, other: string :: other != name ==> (IsAt(gs', i, p, other) <==> IsAt(gs, i, p, other))
  }

  lemma GrowthMovesNothing(gs: seq<Group>, level: nat, name: string)
    requires AllShaped(gs)
    ensures AllShaped(WithLevel(gs, level)) && SamePlaces(gs, WithLevel(gs, level), name)
  {
    hide Depth, LevelStart;
    assert Entries(EmptyGroup(PER_GROUP)) == map[];
  }

  /** Writing an entry of the name moves no other entry. */
  lemma InsertMovesNothing(gs: seq<Group>, i: nat, pos: nat, base: MetaBase, h: u32)
    requires AllShaped(gs) && i < |gs| && Good(gs[i]) && CanInsert(gs[i], pos, base)
    requires Clear(gs[i].bits, pos, pos + DentrySlots(|base.name|))
    ensures AllShaped(gs[i := Insert(gs[i], pos, base, h)])
    ensures SamePlaces(gs, gs[i := Insert(gs[i], pos, base, h)], base.name)
  {
    hide RunsWhole, BitsOwned, NewSlot, Insert, Entries, Clear, CanInsert;
    InsertEntry(gs[i], pos, base, h);
  }

  lemma PlacesCompose(gs: seq<Group>, mid: seq<Group>, gs': seq<Group>, name: string)
    requires AllShaped(gs) && AllShaped(mid) && AllShaped(gs') && SamePlaces(gs, mid, name) && SamePlaces(mid, gs', name)
    ensures SamePlaces(gs, gs', name)
  {
    hide IsAt, AllShaped;
  }

  lemma GoodFromInv(gs: seq<Group>, hash: HashFn)
    requires FileInv(gs, PER_GROUP, hash)
    ensures AllGood(gs, PER_GROUP)
  {
    hide AllGood, Placed, Unique, WholeLevels;
  }

  lemma SecondEntry(gs: seq<Group>, hash: HashFn, i: nat, pos: nat, base: MetaBase)
    requires AllShaped(gs) && AllGood(gs, PER_GROUP) && i < |gs| && base.name in Contents(gs)
    requires CanInsert(gs[i], pos, base) && Clear(gs[i].bits, pos, pos + DentrySlots(|base.name|))
    ensures AllShaped(gs[i := Insert(gs[i], pos, base, hash(base.name))])
    ensures !Unique(ListingOf(gs[i := Insert(gs[i], pos, base, hash(base.name))]))
  {
    hide RunsWhole, BitsOwned, NewSlot, Entries, Insert;
    var h := hash(base.name);
    InsertEntry(gs[i], pos, base, h);
    var a := PlaceOf(ListingOf(gs), base.name);
    var es' := ListingOf(gs[i := Insert(gs[i], pos, base, h)]);
    assert At(es', i, pos) && es'[i][pos].name == base.name;
    assert At(es', a.0, a.1) && es'[a.0][a.1].name == base.name;
    assert a != (i, pos);
  }

  /** A block reached past a readable first block is visible to the search. */
  lemma ReachedBlock(io: Io, start: nat, i: nat)
    requires start % 2 == 0 && start <= i <= start + 1
    requires forall k :: start <= k <= i ==> k !in io.lockFails && k !in io.readFails
    ensures Readable(io, i)
  {
    assert i == start + 1 ==> start !in io.lockFails && start !in io.readFails;
  }

  /** What a search missed everywhere is absent or out of sight. */
  lemma MissedIsUnseen(gs: seq<Group>, io: Io, name: string)
    requires AllShaped(gs) && forall i: nat :: Missed(gs, io, i, name)
    ensures name in Contents(gs) ==> exists i: nat, p: int :: IsAt(gs, i, p, name) && !Readable(io, i)
  {
    hide Readable, IsAt, Contents;
    InDirectoryIffAt(gs, name);
    if name in Contents(gs) {
      var i: nat, p: int :| IsAt(gs, i, p, name);
      assert Missed(gs, io, i, name);
    }
  }

  lemma AbsentIsMissed(gs: seq<Group>, io: Io, i: nat, name: string)
    requires AllShaped(gs) && forall p :: !IsAt(gs, i, p, name)
    ensures Missed(gs, io, i, name)
  {
  }

  /** The lookup's copies, field by field. */
  function Filled(base: MetaBase, de: Dentry): MetaBase {
    base.(size := de.size, atime := de.atime, mtime := de.mtime, mode := de.mode,
          position := GetPosition(de.flags), fileType := GetFileType(de.flags), noUpload := GetNoUpload(de.flags),
          cloudId := de.recordId)
  }

  lemma SlotOf(g: Group, p: int, gs: seq<Group>, name: string, i: nat)
    requires AllShaped(gs) && IsAt(gs, i, p, name) && g == gs[i]
    ensures 0 <= p < |g.nsl| && Entries(g)[p].slot == g.nsl[p]
    ensures forall base: MetaBase | base.name == name :: Filled(base, g.nsl[p]) == FromMeta(name, Report(g.nsl[p]))
  {
  }

  lemma FullLengthId(gs: seq<Group>, name: string)
    requires AllShaped(gs) && name in Contents(gs)
    ensures |Contents(gs)[name].cloudId| == RECORD_ID_LEN
  {
    ContentsReported(gs, name);
  }

  lemma RemoveEffect(gs: seq<Group>, hash: HashFn, i: nat, p: nat, name: string)
    requires AllShaped(gs) && FileInv(gs, PER_GROUP, hash) && IsAt(gs, i, p, name)
    ensures p < |gs[i].nsl| && Shaped(gs[i]) && End(gs[i], p) <= |gs[i].nsl|
    ensures var gs' := gs[i := Delete(gs[i], p)];
            AllShaped(gs') && FileInv(gs', PER_GROUP, hash) && Contents(gs') == Contents(gs) - {name}
  {
    hide Placed, Unique, WholeLevels, BitsOwned, DirectoryOf;
    DeleteFromFile(gs, PER_GROUP, hash, i, p);
  }

  lemma UpdateEffect(gs: seq<Group>, hash: HashFn, i: nat, p: nat, base: MetaBase)
    requires AllShaped(gs) && FileInv(gs, PER_GROUP, hash) && IsAt(gs, i, p, base.name)
    ensures p < |gs[i].nsl| && Shaped(gs[i])
    ensures base.name in Contents(gs) && |Contents(gs)[base.name].cloudId| == RECORD_ID_LEN
    ensures var gs' := gs[i := Modify(gs[i], p, base)];
            && AllShaped(gs') && FileInv(gs', PER_GROUP, hash)
            && Contents(gs') == Contents(gs)[base.name := Stored(base, Overlaid(Contents(gs)[base.name].cloudId, base.cloudId))]
  {
    hide FileInv, Contents, Stored, Overlaid;
    ModifyInFile(gs, PER_GROUP, hash, i, p, base);
  }

  lemma SizeMatches(gs: seq<Group>, hash: HashFn, size: nat)
    requires FileInv(gs, PER_GROUP, hash)
    requires size == if gs == [] then 0 else DcacheFileSize(Depth(|gs|) - 1)
    ensures GroupCnt(size) == |gs|
  {
    hide AllGood, Placed, Unique, DcacheFileSize, LevelOf, GroupCnt;
    EmptyFileHasNoGroups();
    if gs != [] {
      WholeFileSize(Depth(|gs|) - 1);
    }
  }

  /** The trace goes on from where it was, and every group that changed is among the writes added. */
  ghost predicate Logged(gs: seq<Group>, t: seq<Event>, gs': seq<Group>, t': seq<Event>) {
    t <= t' && forall i: nat :: i < |gs| && i < |gs'| && gs'[i] != gs[i] ==> Write(i) in t'[|t|..]
  }

  lemma WriteIsLogged(gs: seq<Group>, i: nat, g: Group, t: seq<Event>, t1: seq<Event>, t2: seq<Event>)
    requires i < |gs| && t <= t1 && t1 + [Write(i)] <= t2
    ensures Logged(gs, t, gs[i := g], t2)
  {
    assert t2[|t1|] == Write(i) && t2[|t|..][|t1| - |t|] == Write(i);
  }

  lemma GrowthIsLogged(gs: seq<Group>, t: seq<Event>, grown: seq<Group>, t': seq<Event>)
    requires t <= t'
    ensures gs <= grown ==> Logged(gs, t, grown, t')
  {
  }

  lemma LoggedFromGrown(gs: seq<Group>, grown: seq<Group>, t: seq<Event>, gs': seq<Group>, t': seq<Event>)
    requires gs <= grown && |gs'| == |grown| && Logged(grown, t, gs', t')
    ensures Logged(gs, t, gs', t')
  {
  }

  lemma NothingMoves(gs: seq<Group>, name: string)
    requires AllShaped(gs)
    ensures SamePlaces(gs, gs, name)
  {
  }

  /** An operation that starts and ends without a lock has a trace of its own that does. */
  lemma OwnSegment(t: seq<Event>, t': seq<Event>)
    requires t <= t' && After(t) == Free
    ensures After(t'[|t|..]) == After(t')
  {
    assert t' == t + t'[|t|..];
    AfterFree(t, t'[|t|..]);
  }

  class CloudDiskMetaFile {
    const hash: HashFn
    const fd: int
    var size: nat
    var groups: seq<Group>
    ghost var trace: seq<Event>

    ghost predicate Valid()
      reads this
    {
      && AllShaped(groups)
      && FileInv(groups, PER_GROUP, hash)
      && size == if groups == [] then 0 else DcacheFileSize(Depth(|groups|) - 1)
    }

    ghost function Dir(): Directory
      requires AllShaped(groups)
      reads this
    {
      Contents(groups)
    }

    /** No lock is held, unless unlocking itself fails. */
    ghost predicate Unlocked(io: Io)
      reads this
    {
      !io.unlockFails ==> After(trace) == Free
    }

    ghost predicate Holding(io: Io, i: nat)
      reads this
    {
      !io.unlockFails ==> After(trace) == Held(i, true)
    }

    constructor (hash: HashFn, fd: int)
      ensures this.hash == hash && this.fd == fd
      ensures Valid() && Dir() == map[] && trace == [] && groups == []
      ensures fd >= 0 ==> Usable()
    {
      this.hash, this.fd, size, groups, trace := hash, fd, 0, [], [];
      new;
      assert Depth(0) == 0;
      assert DirectoryOf([]) == map[];
    }

    /** Opens a file that is already there. */
    constructor Existing(hash: HashFn, fd: int, groups: seq<Group>)
      requires AllShaped(groups) && FileInv(groups, PER_GROUP, hash)
      ensures this.hash == hash && this.fd == fd && this.groups == groups && Valid() && trace == [] && After(trace) == Free
    {
      hide FileInv, Shaped;
      this.hash, this.fd, this.groups, trace := hash, fd, groups, [];
      size := if groups == [] then 0 else DcacheFileSize(Depth(|groups|) - 1);
    }

    method LockGroup(i: nat, io: Io) returns (ret: int)
      modifies this`trace
      ensures ret == if i in io.lockFails then io.lockErrno else E_OK
      ensures trace == if ret == E_OK then old(trace) + [Lock(i)] else old(trace)
      ensures ret == E_OK ==> After(trace) == Step(old(After(trace)), Lock(i))
    {
      if i in io.lockFails {
        return io.lockErrno;
      }
      AfterNext(trace, Lock(i));
      trace := trace + [Lock(i)];
      return E_OK;
    }

    method UnlockGroup(i: nat, io: Io) returns (ret: int)
      modifies this`trace
      ensures ret == if io.unlockFails then io.unlockErrno else E_OK
      ensures trace == if ret == E_OK then old(trace) + [Unlock(i)] else old(trace)
      ensures ret == E_OK ==> After(trace) == Step(old(After(trace)), Unlock(i))
    {
      if io.unlockFails {
        return io.unlockErrno;
      }
      AfterNext(trace, Unlock(i));
      trace := trace + [Unlock(i)];
      return E_OK;
    }

    /** Null for a failed or short read; a read is short exactly past the end of the file. */
    method ReadGroup(i: nat, io: Io) returns (page: GroupBuffer?)
      requires AllShaped(groups)
      modifies this`trace
      ensures page != null <==> i < |groups| && i !in io.readFails
      ensures page != null ==> page.View() == groups[i] && page.Apart()
                               && fresh(page) && fresh(page.bitmap) && fresh(page.nsl) && fresh(page.fileName)
      ensures trace == if page != null then old(trace) + [Read(i)] else old(trace)
      ensures page != null ==> After(trace) == Step(old(After(trace)), Read(i))
    {
      hide Shaped, Bits, After;
      if i >= |groups| || i in io.readFails {
        return null;
      }
      AfterNext(trace, Read(i));
      trace := trace + [Read(i)];
      page := new GroupBuffer(groups[i]);
    }

    method WriteGroup(i: nat, page: GroupBuffer, io: Io) returns (ok: bool)
      requires i < |groups|
      modifies this`groups, this`trace
      ensures ok == !io.writeFails
      ensures ok ==> groups == old(groups)[i := page.View()] && trace == old(trace) + [Write(i)]
      ensures ok ==> After(trace) == Step(old(After(trace)), Write(i))
      ensures !ok ==> groups == old(groups) && trace == old(trace)
    {
      if io.writeFails {
        return false;
      }
      AfterNext(trace, Write(i));
      trace := trace + [Write(i)];
      var bytes := page.Bytes();
      groups := groups[i := bytes];
      return true;
    }

    /** Writes the locked group back and unlocks it, whether or not the write works. */
    method WriteBack(i: nat, page: GroupBuffer, io: Io) returns (ok: bool, ret: int)
      requires i < |groups| && Holding(io, i)
      modifies this`groups, this`trace
      ensures ok == !io.writeFails && ret == if io.unlockFails then io.unlockErrno else E_OK
      ensures groups == if ok then old(groups)[i := page.View()] else old(groups)
      ensures ok ==> old(trace) + [Write(i)] <= trace
      ensures old(trace) <= trace && Unlocked(io)
    {
      hide After, Bits;
      ok := WriteGroup(i, page, io);
      ret := UnlockGroup(i, io);
    }

    // -------------------------------------------------------------------
    // Search
    // -------------------------------------------------------------------

    /** Locks and reads one group; on success the lock stays held. */
    method FindDentryPage(i: nat, io: Io) returns (page: GroupBuffer?)
      requires AllShaped(groups) && Unlocked(io)
      modifies this`trace
      ensures page != null <==> i < |groups| && i !in io.lockFails && i !in io.readFails
      ensures page != null ==> page.View() == groups[i] && page.Apart()
                               && fresh(page) && fresh(page.bitmap) && fresh(page.nsl) && fresh(page.fileName)
      ensures page != null ==> Holding(io, i)
      ensures page == null ==> Unlocked(io)
      ensures old(trace) <= trace
    {
      hide Bits, Shaped, After;
      var ret := LockGroup(i, io);
      if ret != E_OK {
        return null;
      }
      page := ReadGroup(i, io);
      if page == null {
        var _ := UnlockGroup(i, io);
      }
    }

    /** One block of a bucket: unreadable, or searched (and then either found and still locked, or unlocked). */
    method InBlock(i: nat, name: string, io: Io) returns (page: GroupBuffer?, pos: Option<nat>)
      requires Valid() && Unlocked(io)
      modifies this`trace
      ensures page != null <==> i < |groups| && i !in io.lockFails && i !in io.readFails
      ensures page != null && pos.Some? ==> IsAt(groups, i, pos.value, name)
      ensures page != null && pos.Some? ==> page.View() == groups[i] && page.Apart() && Holding(io, i)
      ensures page != null ==> fresh(page) && fresh(page.bitmap) && fresh(page.nsl) && fresh(page.fileName)
      ensures page != null && pos.None? ==> forall p :: !IsAt(groups, i, p, name)
      ensures page == null || pos.None? ==> Unlocked(io)
      ensures old(trace) <= trace
    {
      hide Bits, FileInv, IsAt, Matches, DcacheFileSize, Shaped, Good;
      pos := None;
      page := FindDentryPage(i, io);
      if page == null {
        return;
      }
      MatchIsEntry(groups, hash, i, name);
      pos := page.FindInBlock(hash(name), name);
      assert page.View() == groups[i];
      if pos.None? {
        var _ := UnlockGroup(i, io);
      }
    }

    /** Both blocks of one bucket, with the 32-bit block numbers of the search. */
    method InLevel(level: nat, name: string, io: Io)
      returns (found: bool, bidx: nat, pos: nat, page: GroupBuffer?)
      requires Valid() && Unlocked(io)
      modifies this`trace
      ensures found ==> page != null && IsAt(groups, bidx, pos, name) && Readable(io, bidx)
      ensures found ==> page.View() == groups[bidx] && page.Apart() && Holding(io, bidx)
      ensures found ==> fresh(page) && fresh(page.bitmap) && fresh(page.nsl) && fresh(page.fileName)
      ensures !found ==> Unlocked(io)
      ensures !found && level <= LAST_SAFE_LEVEL ==>
                Missed(groups, io, HomeBlock(level, hash(name)), name) && Missed(groups, io, HomeBlock(level, hash(name)) + 1, name)
      ensures old(trace) <= trace
    {
      hide Bits, FileInv, IsAt, DcacheFileSize, HomeBlock, SearchStart, SearchEnd, BucketByLevel, After, Shaped, Missed, Readable;
      GroupsComeInPairs(groups, hash);
      found, bidx, pos, page := false, 0, 0, null;
      var h := hash(name);
      SafeLevelsHaveBuckets(level, h);
      if BucketByLevel(level) == 0 {
        return;
      }
      bidx := SearchStart(level, h);
      var endBlock := SearchEnd(bidx);
      ghost var start := bidx;
      BlockNumbers(level, h);
      while bidx < endBlock
        invariant start <= bidx <= start + 2
        invariant endBlock == start + 2 || endBlock < start
        invariant forall i :: start <= i < bidx ==> i !in io.lockFails && i !in io.readFails && Missed(groups, io, i, name)
        invariant Unlocked(io) && old(trace) <= trace
      {
        var at;
        page, at := InBlock(bidx, name, io);
        if page == null {
          assert bidx >= |groups| || bidx in io.lockFails + io.readFails;
          UnreadableBlock(groups, io, start, bidx, name);
          break;
        }
        if at.Some? {
          ReachedBlock(io, start, bidx);
          return true, bidx, at.value, page;
        }
        AbsentIsMissed(groups, io, bidx, name);
        bidx := bidx + 1;
      }
    }

    /** All 63 levels. Finds an entry exactly when one of that name is visible. */
    method FindDentry(name: string, io: Io)
      returns (found: bool, bidx: nat, pos: nat, page: GroupBuffer?)
      requires Valid() && Unlocked(io)
      modifies this`trace
      ensures found ==> page != null && IsAt(groups, bidx, pos, name) && Readable(io, bidx)
      ensures found ==> page.View() == groups[bidx] && page.Apart() && Holding(io, bidx)
      ensures found ==> fresh(page) && fresh(page.bitmap) && fresh(page.nsl) && fresh(page.fileName)
      ensures !found ==> Unlocked(io)
      ensures !found ==> forall i: nat :: Missed(groups, io, i, name)
      ensures old(trace) <= trace
    {
      hide Bits, FileInv, IsAt, DcacheFileSize, Readable, HomeBlock, After, Shaped, Missed;
      found, bidx, pos, page := false, 0, 0, null;
      for level := 0 to MAX_BUCKET_LEVEL
        invariant Unlocked(io) && old(trace) <= trace
        invariant forall l: nat :: l < level && l <= LAST_SAFE_LEVEL ==>
                    Missed(groups, io, HomeBlock(l, hash(name)), name) && Missed(groups, io, HomeBlock(l, hash(name)) + 1, name)
      {
        found, bidx, pos, page := InLevel(level, name, io);
        if found {
          return;
        }
      }
      forall i: nat ensures Missed(groups, io, i, name) {
        MissedEverywhere(groups, hash, io, name, i);
      }
    }

    // -------------------------------------------------------------------
    // Growth
    // -------------------------------------------------------------------

    /** The groups a bucket of this level needs: none new on a present level, one level of
        empty groups on the next. Existing groups are never dropped or altered. */
    method HandleFileByFd(endBlock: nat, level: nat, io: Io) returns (ret: int)
      requires AllShaped(groups) && Sized(groups)
      modifies this`size, this`groups
      ensures AllShaped(groups) && Sized(groups)
      ensures ret == if io.statFails then EINVAL else if endBlock > GroupCnt(old(size)) && io.growFails then ENOENT else E_OK
      ensures groups == if ret == E_OK && endBlock > GroupCnt(old(size)) then Resized(old(groups), GroupCnt(DcacheFileSize(level)))
                        else old(groups)
      ensures old(Valid() && Reachable(|groups|, level, endBlock)) ==>
                && Valid() && Dir() == old(Dir())
                && groups == (if ret == E_OK then WithLevel(old(groups), level) else old(groups))
                && (ret == E_OK ==> endBlock <= |groups|)
                && (ret == E_OK <==> Growing(old(groups), io, level))
    {
      hide Bits, FileInv, Shaped, EmptyGroup, Contents, LevelStart, DcacheFileSize, Reachable, WithLevel;
      if io.statFails {
        return EINVAL;
      }
      if old(Valid() && Reachable(|groups|, level, endBlock)) {
        GrowthIsNextLevel(groups, hash, size, level, endBlock);
      }
      if endBlock > GroupCnt(size) {
        if io.growFails {
          return ENOENT;
        }
        groups := Resized(groups, GroupCnt(DcacheFileSize(level)));
        size := DcacheFileSize(level);
      }
      return E_OK;
    }

    /** One block of the search for room, locked while it is looked at and kept locked if it has room. */
    method RoomInBlock(i: nat, base: MetaBase, io: Io)
      returns (ret: int, found: bool, bitPos: nat, page: GroupBuffer?)
      requires AllShaped(groups) && Sized(groups) && Unlocked(io)
      modifies this`trace
      ensures ret == E_OK || ret == ENOENT || ret == io.lockErrno
      ensures found ==> ret == E_OK && page != null && i < |groups| && page.View() == groups[i] && page.Apart()
      ensures found ==> bitPos < PER_GROUP && FirstFit(groups[i].bits, DentrySlots(|base.name|), PER_GROUP, bitPos)
      ensures found ==> fresh(page) && fresh(page.bitmap) && fresh(page.nsl) && fresh(page.fileName)
      ensures if found then Holding(io, i) else Unlocked(io)
      ensures old(trace) <= trace
      ensures ret == E_OK ==> i < |groups| && (found <==> !Full(groups[i], base))
      ensures ret == E_OK <==> i < |groups| && Open(io, i)
    {
      hide Bits, After;
      found, bitPos, page := false, 0, null;
      ret := LockGroup(i, io);
      if ret != E_OK {
        return;
      }
      page := ReadGroup(i, io);
      if page == null {
        var _ := UnlockGroup(i, io);
        return ENOENT, false, 0, null;
      }
      bitPos := page.Room(DentrySlots(|base.name|));
      assert page.View() == groups[i];
      if bitPos < PER_GROUP {
        return E_OK, true, bitPos, page;
      }
      FirstFitExact(groups[i].bits, DentrySlots(|base.name|), PER_GROUP, bitPos, bitPos);
      var _ := UnlockGroup(i, io);
    }

    /** Both blocks of a bucket, each locked while it is looked at. */
    method RoomInBucket(start: nat, base: MetaBase, io: Io)
      returns (ret: int, found: bool, bidx: nat, bitPos: nat, page: GroupBuffer?)
      requires AllShaped(groups) && Sized(groups) && Unlocked(io)
      modifies this`trace
      ensures ret == E_OK || ret == ENOENT || ret == io.lockErrno
      ensures found ==> ret == E_OK && page != null && bidx < |groups| && page.View() == groups[bidx] && page.Apart()
      ensures found ==> bitPos < PER_GROUP && FirstFit(groups[bidx].bits, DentrySlots(|base.name|), PER_GROUP, bitPos)
      ensures found ==> fresh(page) && fresh(page.bitmap) && fresh(page.nsl) && fresh(page.fileName)
      ensures found ==> bidx == start || bidx == start + 1
      ensures if found then Holding(io, bidx) else Unlocked(io)
      ensures ret == E_OK && !found ==> FullAt(groups, start + 1, base)
      ensures old(trace) <= trace
      ensures start + 1 < |groups| ==>
                && (found <==> Open(io, start) && (!FullAt(groups, start, base) || (Open(io, start + 1) && !FullAt(groups, start + 1, base))))
                && (ret == E_OK && !found <==>
                      Open(io, start) && Open(io, start + 1) && FullAt(groups, start, base) && FullAt(groups, start + 1, base))
    {
      hide Bits, Shaped, After, Full, FirstFit;
      found, bidx, bitPos, page := false, start, 0, null;
      ret := E_OK;
      while bidx < start + BUCKET_BLOCKS
        invariant start <= bidx <= start + 2
        invariant ret == E_OK && !found && Unlocked(io) && old(trace) <= trace
        invariant forall i :: start <= i < bidx ==> i < |groups| && Open(io, i) && FullAt(groups, i, base)
      {
        ret, found, bitPos, page := RoomInBlock(bidx, base, io);
        if ret != E_OK || found {
          return;
        }
        bidx := bidx + 1;
      }
      assert FullAt(groups, start, base) && FullAt(groups, start + 1, base);
    }

    /** One level of the search for room, added to the file if it is the next one. */
    method RoomOnLevel(level: nat, base: MetaBase, io: Io)
      returns (ret: int, found: bool, bidx: nat, bitPos: nat, page: GroupBuffer?)
      requires AllShaped(groups) && Sized(groups) && Unlocked(io)
      modifies this`size, this`groups, this`trace
      ensures AllShaped(groups) && Sized(groups)
      ensures ret == E_OK || ret == EINVAL || ret == ENOENT || ret == io.lockErrno
      ensures found ==> ret == E_OK && page != null && bidx < |groups| && page.View() == groups[bidx] && page.Apart()
      ensures found ==> bitPos < PER_GROUP && FirstFit(groups[bidx].bits, DentrySlots(|base.name|), PER_GROUP, bitPos)
      ensures found ==> fresh(page) && fresh(page.bitmap) && fresh(page.nsl) && fresh(page.fileName)
      ensures if found then Holding(io, bidx) else Unlocked(io)
      ensures old(trace) <= trace
      ensures old(Valid()) && level <= old(Depth(|groups|)) <= LAST_SAFE_LEVEL ==>
                && Valid() && Dir() == old(Dir())
                && (groups == old(groups) || groups == WithLevel(old(groups), level))
                && (found ==> OnPath(bidx, hash(base.name)) && groups == WithLevel(old(groups), level))
                && (ret == E_OK && !found ==>
                      groups == WithLevel(old(groups), level) && Crowded(groups, HomeBlock(level, hash(base.name)), base))
                && (found <==> Offers(old(groups), io, level, hash(base.name), base))
                && (ret == E_OK && !found <==> PassesOn(old(groups), io, level, hash(base.name), base))
    {
      hide Bits, FileInv, Shaped, EmptyGroup, Contents, LevelStart, WithLevel, HomeBlock, FirstFit, OnPath, DcacheFileSize, Depth,
        Full, Growing, Open, After, GroupCnt, Resized;
      found, bitPos, page := false, 0, null;
      bidx := BidxFromLevel(level, hash(base.name));
      ghost var near := Valid() && level <= Depth(|groups|) <= LAST_SAFE_LEVEL;
      if near {
        BucketReachable(|groups|, level, hash(base.name));
      }
      ret := HandleFileByFd(bidx + BUCKET_BLOCKS, level, io);
      if ret != E_OK {
        return;
      }
      ret, found, bidx, bitPos, page := RoomInBucket(bidx, base, io);
    }

    /** Level by level until a block has room. With at most 52 slots asked for, the first level
        not yet in the file has room, so the file grows by at most that one level. */
    method GetCreateInfo(base: MetaBase, io: Io)
      returns (ret: int, bidx: nat, bitPos: nat, page: GroupBuffer?)
      requires Valid() && Unlocked(io) && DentrySlots(|base.name|) <= PER_GROUP
      modifies this`size, this`groups, this`trace
      ensures AllShaped(groups) && Sized(groups)
      ensures ret == E_OK || ret == EINVAL || ret == ENOENT || ret == ENOSPC || ret == io.lockErrno
      ensures ret == E_OK ==> page != null && bidx < |groups| && page.View() == groups[bidx] && page.Apart()
      ensures ret == E_OK ==> bitPos < PER_GROUP && FirstFit(groups[bidx].bits, DentrySlots(|base.name|), PER_GROUP, bitPos)
      ensures ret == E_OK ==> fresh(page) && fresh(page.bitmap) && fresh(page.nsl) && fresh(page.fileName)
      ensures if ret == E_OK then Holding(io, bidx) else Unlocked(io)
      ensures old(trace) <= trace
      ensures old(Depth(|groups|)) <= LAST_SAFE_LEVEL ==>
                && Valid() && Dir() == old(Dir())
                && (groups == old(groups) || groups == WithLevel(old(groups), old(Depth(|groups|))))
                && (ret == E_OK ==> OnPath(bidx, hash(base.name)))
                && ret != ENOSPC
                && (ret == E_OK <==> RoomFrom(old(groups), io, 0, hash(base.name), base))
    {
      hide Bits, FileInv, Shaped, EmptyGroup, Contents, LevelStart, WithLevel, HomeBlock, FirstFit, OnPath, DcacheFileSize, Depth, Full;
      SizedFromValid(groups, hash);
      ret, bidx, bitPos, page := E_OK, 0, 0, null;
      var level := 0;
      var found := false;
      while !found
        invariant !found && level <= MAX_BUCKET_LEVEL
        invariant AllShaped(groups) && Sized(groups) && Unlocked(io) && old(trace) <= trace
        invariant old(Depth(|groups|)) <= LAST_SAFE_LEVEL ==>
                    && Valid() && groups == old(groups) && level <= old(Depth(|groups|))
                    && (RoomFrom(groups, io, 0, hash(base.name), base) <==> RoomFrom(groups, io, level, hash(base.name), base))
        decreases MAX_BUCKET_LEVEL - level
      {
        if level == MAX_BUCKET_LEVEL {
          return ENOSPC, 0, 0, null;
        }
        ret, found, bidx, bitPos, page := RoomOnLevel(level, base, io);
        if ret != E_OK || found {
          if old(Depth(|groups|)) <= LAST_SAFE_LEVEL && groups != old(groups) {
            LowerLevelsPresent(old(groups), level);
          }
          return;
        }
        if old(Depth(|groups|)) <= LAST_SAFE_LEVEL {
          CrowdedLevelIsOld(old(groups), hash, level, base);
          assert !Offers(old(groups), io, level, hash(base.name), base);
        }
        level := level + 1;
      }
    }

    // -------------------------------------------------------------------
    // The directory operations
    // -------------------------------------------------------------------

    /** Every place that holds the name can be seen by a search. */
    ghost predicate Visible(name: string, io: Io)
      requires AllShaped(groups)
      reads this
    {
      forall i: nat, p: int :: IsAt(groups, i, p, name) ==> Readable(io, i)
    }

    /** The name is in the directory and a search gets to it. */
    ghost predicate Seen(name: string, io: Io)
      requires AllShaped(groups)
      reads this
    {
      name in Dir() && Visible(name, io)
    }

    /** Searches are not misled about the name: an entry of that name is in sight. */
    ghost predicate Sighted(name: string, io: Io)
      requires AllShaped(groups)
      reads this
    {
      name in Dir() ==> Visible(name, io)
    }

    /** A file in normal use: open, unlocked, and not yet at the last level with exact addresses. */
    ghost predicate Usable()
      reads this
    {
      Valid() && After(trace) == Free && fd >= 0 && Depth(|groups|) <= LAST_SAFE_LEVEL
    }

    /** Fills the slot found and writes the group back. */
    method StoreEntry(base: MetaBase, bidx: nat, bitPos: nat, page: GroupBuffer, io: Io) returns (ret: int)
      requires AllShaped(groups) && bidx < |groups| && page.View() == groups[bidx] && page.Apart() && Holding(io, bidx)
      requires bitPos < page.nsl.Length && bitPos + DentrySlots(|base.name|) <= page.nsl.Length
      modifies this`groups, this`trace, page.bitmap, page.nsl, page.fileName
      ensures ret == if !Storable(base) || io.writeFails then EINVAL else if io.unlockFails then io.unlockErrno else E_OK
      ensures Storable(base) ==> CanInsert(old(groups)[bidx], bitPos, base)
      ensures groups == if Storable(base) && !io.writeFails then old(groups)[bidx := Insert(old(groups)[bidx], bitPos, base, hash(base.name))]
                        else old(groups)
      ensures Storable(base) && !io.writeFails ==> old(trace) + [Write(bidx)] <= trace
      ensures old(trace) <= trace && Unlocked(io)
    {
      hide Bits, After, Insert, Storable;
      var stored := page.UpdateDentry(base, hash(base.name), bitPos);
      if !stored {
        var _ := UnlockGroup(bidx, io);
        return EINVAL;
      }
      var written;
      written, ret := WriteBack(bidx, page, io);
      if !written {
        return EINVAL;
      }
    }

    /** Finds room for the entry and writes it, whether or not the name is taken. */
    method AddEntry(base: MetaBase, io: Io) returns (ret: int)
      requires Valid() && Unlocked(io) && DentrySlots(|base.name|) <= PER_GROUP
      modifies this`size, this`groups, this`trace
      ensures AllShaped(groups) && Unlocked(io)
      ensures ret != EEXIST && ret != ENAMETOOLONG
      ensures old(Depth(|groups|)) <= LAST_SAFE_LEVEL && base.name !in old(Dir()) ==>
                && Valid() && Depth(|groups|) <= old(Depth(|groups|)) + 1
                && (ret == E_OK ==> Storable(base) && Dir() == old(Dir())[base.name := NewMeta(base)])
                && (ret != E_OK ==> Dir() == old(Dir()) || (io.unlockFails && ret == io.unlockErrno && Storable(base)
                                      && Dir() == old(Dir())[base.name := NewMeta(base)]))
      ensures old(Depth(|groups|)) <= LAST_SAFE_LEVEL && base.name in old(Dir()) && ret == E_OK ==>
                !Unique(ListingOf(groups))
      ensures old(Depth(|groups|)) <= LAST_SAFE_LEVEL ==>
                && (ret == E_OK <==> RoomFrom(old(groups), io, 0, hash(base.name), base) && Storable(base) && !io.writeFails && !io.unlockFails)
                && (Quiet(io) ==> ret == if Storable(base) then E_OK else EINVAL)
                && SamePlaces(old(groups), groups, base.name) && Logged(old(groups), old(trace), groups, trace)
    {
      hide Bits, FileInv, Shaped, EmptyGroup, Contents, LevelStart, WithLevel, HomeBlock, FirstFit, OnPath,
        DcacheFileSize, Depth, Insert, NewMeta, After, Unique, RoomFrom, SamePlaces, Logged, CanInsert, Clear, IsAt;
      ghost var deep := Depth(|groups|) <= LAST_SAFE_LEVEL;
      ghost var gs := groups;
      var bidx, bitPos, page;
      if deep && Quiet(io) {
        QuietFindsRoom(groups, hash, io, 0, base);
      }
      ret, bidx, bitPos, page := GetCreateInfo(base, io);
      if deep {
        AtMostOneLevel(gs, groups, hash);
        GrowthMovesNothing(gs, Depth(|gs|), base.name);
        NothingMoves(gs, base.name);
        GrowthIsLogged(gs, old(trace), groups, trace);
      }
      if ret != E_OK {
        return;
      }
      FirstFitInside(groups[bidx], DentrySlots(|base.name|), bitPos);
      ghost var grown, found := groups, trace;
      ret := StoreEntry(base, bidx, bitPos, page, io);
      if deep {
        if Storable(base) && !io.writeFails {
          WriteIsLogged(grown, bidx, groups[bidx], old(trace), found, trace);
          LoggedFromGrown(gs, grown, old(trace), groups, trace);
          CreateEffect(grown, hash, bidx, bitPos, base);
          PlacesCompose(gs, grown, groups, base.name);
        } else {
          GrowthIsLogged(gs, old(trace), groups, trace);
        }
      }
    }

    method DoCreate(base: MetaBase, io: Io) returns (ret: int)
      requires Valid() && Unlocked(io)
      modifies this`size, this`groups, this`trace
      ensures AllShaped(groups) && Unlocked(io)
      ensures fd < 0 ==> ret == EINVAL && Valid() && groups == old(groups)
      ensures fd >= 0 && DentrySlots(|base.name|) > PER_GROUP ==> ret == ENAMETOOLONG && groups == old(groups)
      ensures ret == ENAMETOOLONG ==> DentrySlots(|base.name|) > PER_GROUP
      ensures fd >= 0 && DentrySlots(|base.name|) <= PER_GROUP && old(Seen(base.name, io)) ==> ret == EEXIST && groups == old(groups)
      ensures ret == EEXIST ==> old(Seen(base.name, io))
      // With the entry, if any, in sight and room for a level, the file acts as a map.
      ensures old(Depth(|groups|)) <= LAST_SAFE_LEVEL && old(base.name in Dir() ==> Visible(base.name, io)) ==>
                && Valid() && Depth(|groups|) <= old(Depth(|groups|)) + 1
                && (ret == E_OK ==> base.name !in old(Dir()) && Storable(base) && Dir() == old(Dir())[base.name := NewMeta(base)])
                && (ret != E_OK ==> Dir() == old(Dir()) || (io.unlockFails && ret == io.unlockErrno && Storable(base)
                                      && base.name !in old(Dir()) && Dir() == old(Dir())[base.name := NewMeta(base)]))
                && (Quiet(io) && fd >= 0 && DentrySlots(|base.name|) <= PER_GROUP && base.name !in old(Dir()) ==>
                      ret == if Creatable(base) then E_OK else EINVAL)
      // The entry holds the caller's fields, its id in front and zero bytes behind it.
      ensures old(Depth(|groups|)) <= LAST_SAFE_LEVEL && old(base.name in Dir() ==> Visible(base.name, io)) && ret == E_OK ==>
                && base.name in Dir() && Keeps(Dir()[base.name], base)
                && |Dir()[base.name].cloudId| == 33 && base.cloudId <= Dir()[base.name].cloudId
                && forall j :: |base.cloudId| <= j < 33 ==> Dir()[base.name].cloudId[j] == '\0'
      // Success: no entry in sight, room within sight, and the write and the unlocking work.
      ensures old(Depth(|groups|)) <= LAST_SAFE_LEVEL && fd >= 0 && DentrySlots(|base.name|) <= PER_GROUP ==>
                (ret == E_OK <==> && !old(Seen(base.name, io)) && RoomFrom(old(groups), io, 0, hash(base.name), base)
                                  && Creatable(base) && !io.writeFails && !io.unlockFails)
      // Other names stay where they are.
      ensures old(Depth(|groups|)) <= LAST_SAFE_LEVEL ==>
                SamePlaces(old(groups), groups, base.name) && Logged(old(groups), old(trace), groups, trace)
      // An entry out of sight is not noticed: a create that succeeds then makes a second one.
      ensures old(Depth(|groups|)) <= LAST_SAFE_LEVEL && old(base.name in Dir() && !Visible(base.name, io)) && ret == E_OK ==>
                !Unique(ListingOf(groups))
    {
      hide Bits, FileInv, Shaped, Contents, DcacheFileSize, Depth, NewMeta, After, IsAt, Readable, Unique, Keeps;
      StorableIsCreatable(base);
      if Storable(base) {
        NewMetaSays(base);
      }
      if fd < 0 {
        return EINVAL;
      }
      var slots := DentrySlots(|base.name|);
      if slots > PER_GROUP {
        return ENAMETOOLONG;
      }
      var found, at, pos, _ := FindDentry(base.name, io);
      if found {
        FoundIsSeen(groups, hash, io, base.name, at, pos);
        var _ := UnlockGroup(at, io);
        return EEXIST;
      }
      MissedIsUnseen(groups, io, base.name);
      ret := AddEntry(base, io);
    }

    /** Fills every field but the name on success, none otherwise. */
    method DoLookup(base: MetaBase, io: Io) returns (ret: int, out: MetaBase)
      requires Valid() && Unlocked(io)
      modifies this`trace
      ensures Valid() && Unlocked(io)
      ensures ret == if fd < 0 then EINVAL else if Seen(base.name, io) then E_OK else ENOENT
      ensures ret == E_OK ==> out == FromMeta(base.name, Dir()[base.name])
      ensures ret == E_OK ==>
                var m := Dir()[base.name];
                && out.name == base.name && out.atime == m.atime && out.mtime == m.mtime && out.size == m.size && out.mode == m.mode
                && out.position == m.position && out.fileType == m.fileType && out.noUpload == m.noUpload && out.cloudId == m.cloudId
      ensures ret != E_OK ==> out == base
      ensures old(trace) <= trace
    {
      hide Bits, FileInv, Shaped, Contents, DcacheFileSize, After, IsAt, Readable, Report;
      out := base;
      if fd < 0 {
        return EINVAL, out;
      }
      var found, at, pos, page := FindDentry(base.name, io);
      if !found {
        MissedIsUnseen(groups, io, base.name);
        return ENOENT, out;
      }
      FoundIsSeen(groups, hash, io, base.name, at, pos);
      SlotOf(groups[at], pos, groups, base.name, at);
      var de := page.nsl[pos];
      var _ := UnlockGroup(at, io);
      out := Filled(base, de);
      ret := E_OK;
    }

    method DoRemove(name: string, io: Io) returns (ret: int)
      requires Valid() && Unlocked(io)
      modifies this`groups, this`trace
      ensures Valid() && Unlocked(io) && |groups| == old(|groups|)
      ensures fd < 0 ==> ret == EINVAL
      ensures fd >= 0 ==> (ret == ENOENT <==> !old(Seen(name, io)))
      ensures fd >= 0 && old(Seen(name, io)) ==>
                ret == if io.writeFails then EIO else if io.unlockFails then io.unlockErrno else E_OK
      ensures Dir() == if fd >= 0 && old(Seen(name, io)) && !io.writeFails then old(Dir()) - {name} else old(Dir())
      ensures Logged(old(groups), old(trace), groups, trace)
    {
      hide Bits, FileInv, Shaped, Contents, DcacheFileSize, After, IsAt, Readable, Delete;
      if fd < 0 {
        return EINVAL;
      }
      var found, at, pos, page := FindDentry(name, io);
      if !found {
        MissedIsUnseen(groups, io, name);
        return ENOENT;
      }
      FoundIsSeen(groups, hash, io, name, at, pos);
      RemoveEffect(groups, hash, at, pos, name);
      page.ClearEntry(pos);
      ghost var searched := trace;
      var written;
      written, ret := WriteBack(at, page, io);
      if !written {
        return EIO;
      }
      WriteIsLogged(old(groups), at, groups[at], old(trace), searched, trace);
    }

    /** Overwrites all fields; the id is laid over the old one. */
    method DoUpdate(base: MetaBase, io: Io) returns (ret: int)
      requires Valid() && Unlocked(io)
      modifies this`groups, this`trace
      ensures Valid() && Unlocked(io) && |groups| == old(|groups|)
      ensures fd < 0 ==> ret == EINVAL
      ensures fd >= 0 ==> (ret == ENOENT <==> !old(Seen(base.name, io)))
      ensures fd >= 0 && old(Seen(base.name, io)) ==>
                ret == if io.writeFails then EIO else if io.unlockFails then io.unlockErrno else E_OK
      ensures base.name in old(Dir()) ==> |old(Dir())[base.name].cloudId| == RECORD_ID_LEN
      ensures Dir() == if fd >= 0 && old(Seen(base.name, io)) && !io.writeFails
                       then old(Dir())[base.name := Stored(base, Overlaid(old(Dir())[base.name].cloudId, base.cloudId))]
                       else old(Dir())
      // The entry holds the caller's fields, its id in front and the old id's bytes behind it.
      ensures ret == E_OK ==>
                && base.name in Dir() && base.name in old(Dir()) && Keeps(Dir()[base.name], base)
                && LaidOver(Dir()[base.name].cloudId, base.cloudId, old(Dir())[base.name].cloudId)
      ensures Logged(old(groups), old(trace), groups, trace)
    {
      hide Bits, FileInv, Shaped, Contents, DcacheFileSize, After, IsAt, Readable, Modify, Stored, Overlaid, Reported, Keeps, LaidOver;
      if base.name in Dir() {
        FullLengthId(groups, base.name);
        UpdatedSays(base, Dir()[base.name].cloudId);
      }
      if fd < 0 {
        return EINVAL;
      }
      var found, at, pos, page := FindDentry(base.name, io);
      if !found {
        MissedIsUnseen(groups, io, base.name);
        return ENOENT;
      }
      FoundIsSeen(groups, hash, io, base.name, at, pos);
      UpdateEffect(groups, hash, at, pos, base);
      page.Refill(pos, base);
      ghost var searched := trace;
      var written;
      written, ret := WriteBack(at, page, io);
      if !written {
        return EIO;
      }
      WriteIsLogged(old(groups), at, groups[at], old(trace), searched, trace);
    }

    /** One turn of the listing loop up to the decoding: the group read, or the page as it was. */
    method NextPage(i: nat, page: GroupBuffer, io: Io) returns (ret: int, next: GroupBuffer)
      requires Valid() && Unlocked(io) && i < |groups| && Decodable(page.View()) && |page.View().nsl| == PER_GROUP
      modifies this`trace
      ensures Valid() && Unlocked(io) && Decodable(next.View()) && |next.View().nsl| == PER_GROUP
      ensures next == page || fresh(next)
      ensures ret == if i in io.lockFails then io.lockErrno else E_OK
      ensures ret == E_OK ==> next.View() == if i in io.readFails then page.View() else groups[i]
      ensures old(trace) <= trace
    {
      hide Bits, FileInv, Shaped, Contents, DcacheFileSize, Good, Depth, Entries, GroupCnt, After, IsAt, Matches, Decodable;
      next := page;
      ret := LockGroup(i, io);
      if ret != E_OK {
        return;
      }
      var read := ReadGroup(i, io);
      MatchIsEntry(groups, hash, i, "");
      GoodIsDecodable(groups[i]);
      if read != null {
        next := read;
      }
      var _ := UnlockGroup(i, io);
    }

    /** Every group in file order. A failed read is not noticed: the buffer is decoded as it is. */
    method LoadChildren(uninitialised: Group, io: Io) returns (ret: int, bases: seq<MetaBase>)
      requires Valid() && Unlocked(io) && Decodable(uninitialised) && |uninitialised.nsl| == PER_GROUP
      modifies this`trace
      ensures Valid() && Unlocked(io)
      ensures fd < 0 || io.statFails ==> ret == EINVAL
      ensures fd >= 0 && !io.statFails ==> ret == if exists i :: 0 <= i < |groups| && i in io.lockFails then io.lockErrno else E_OK
      ensures ret == E_OK ==> bases == Relisted(ListingOf(groups), Listable(uninitialised), io.readFails, PER_GROUP, |groups|)
      ensures old(trace) <= trace
    {
      hide Bits, FileInv, Shaped, Contents, DcacheFileSize, Good, Decoded, After, Depth, Entries, GroupCnt, Decodable, Listable, Standing;
      bases := [];
      if fd < 0 {
        return EINVAL, bases;
      }
      if io.statFails {
        return EINVAL, bases;
      }
      SizeMatches(groups, hash, size);
      var groupCnt := GroupCnt(size);
      DecodableIsShaped(uninitialised);
      var page := new GroupBuffer(uninitialised);
      ghost var es, first := ListingOf(groups), Listable(uninitialised);
      for i := 0 to groupCnt
        invariant Unlocked(io) && old(trace) <= trace && fresh(page)
        invariant Shaped(page.View()) && Decodable(page.View()) && |page.View().nsl| == PER_GROUP
        invariant forall j :: 0 <= j < i ==> j !in io.lockFails
        invariant bases == Relisted(es, first, io.readFails, PER_GROUP, i)
        invariant Listable(page.View()) == if i == 0 then first else Standing(es, first, io.readFails, i - 1)
      {
        ret, page := NextPage(i, page, io);
        if ret != E_OK {
          return;
        }
        DecodableIsShaped(page.View());
        ReadStands(groups, hash, first, io.readFails, i);
        bases := DecodeDentrys(page, bases);
      }
      ret := E_OK;
    }
  }

  /** The buffer after the turn of group i. */
  lemma ReadStands(gs: seq<Group>, hash: HashFn, first: map<int, Entry>, fails: set<nat>, i: nat)
    requires AllShaped(gs) && FileInv(gs, PER_GROUP, hash) && i < |gs|
    ensures i !in fails ==> Shaped(gs[i]) && Standing(ListingOf(gs), first, fails, i) == Listable(gs[i])
    ensures i in fails ==>
              Standing(ListingOf(gs), first, fails, i) == if i == 0 then first else Standing(ListingOf(gs), first, fails, i - 1)
  {
    hide Good;
    MatchIsEntry(gs, hash, i, "");
    GoodIsDecodable(gs[i]);
  }

  /** Processes that work on one dentry file through objects of this class, each from one point between its
      operations to another: however these operations interleave, no group update is lost. */
  lemma SharedFileLosesNothing<V>(before: nat -> seq<Event>, after: nat -> seq<Event>, log: seq<Act<V>>, file: seq<V>)
    requires forall pid: nat :: before(pid) <= after(pid) && After(before(pid)) == After(after(pid)) == Free
    requires forall pid: nat :: Project(log, pid) <= after(pid)[|before(pid)|..]
    requires Granted(log)
    ensures Run(log, file).file == Atomic(log, file)
  {
    hide After, Project, Joined, Run, Atomic;
    var operations := (pid: nat) => if before(pid) <= after(pid) then [after(pid)[|before(pid)|..]] else [];
    forall pid: nat ensures After(operations(pid)[0]) == Free && Joined(operations(pid)) == operations(pid)[0] {
      OwnSegment(before(pid), after(pid));
      JoinedOne(operations(pid)[0]);
    }
    OperationsLoseNothing(operations, log, file);
  }

  /** A create that goes wrong: the name's entry is in group 1, group 1 cannot be read, and group 0 has
      room. The create reports success, and the file then has two entries of the name. */
  method CreateTwice(base: MetaBase, hash: HashFn) returns (file: CloudDiskMetaFile, ret: int)
    requires Creatable(base)
    ensures ret == E_OK && AllShaped(file.groups) && !Unique(ListingOf(file.groups))
  {
    hide Bits, FileInv, Shaped, Contents, DcacheFileSize, PairWith, EmptyGroup, Unique, After, Insert;
    PairHoldsOne(PER_GROUP, hash, base, 1);
    var io := Io(false, false, {}, 11, {1}, false, false, 11);
    file := new CloudDiskMetaFile.Existing(hash, 3, PairWith(PER_GROUP, hash, base, 1));
    OutOfSight(file.groups, hash, base, io);
    ret := file.DoCreate(base, io);
  }

  lemma OutOfSight(gs: seq<Group>, hash: HashFn, base: MetaBase, io: Io)
    requires Creatable(base) && gs == PairWith(PER_GROUP, hash, base, 1)
    requires io == Io(false, false, {}, 11, {1}, false, false, 11)
    ensures AllShaped(gs) && Depth(|gs|) == 1 && DentrySlots(|base.name|) <= PER_GROUP
    ensures IsAt(gs, 1, 0, base.name) && !Readable(io, 1)
    ensures RoomFrom(gs, io, 0, hash(base.name), base)
  {
    hide FileInv, Contents, Insert, EmptyGroup, Entries;
    PairHoldsOne(PER_GROUP, hash, base, 1);
    EmptyIsClear(PER_GROUP);
    assert Fits(gs[0].bits, DentrySlots(|base.name|), PER_GROUP, 0);
    assert !FullAt(gs, 0, base);
  }

  /** An entry lies on its hash's path, so missing it on the path is missing it altogether. */
  lemma MissedEverywhere(gs: seq<Group>, hash: HashFn, io: Io, name: string, i: nat)
    requires FileInv(gs, PER_GROUP, hash)
    requires forall l: nat :: l <= LAST_SAFE_LEVEL ==>
               Missed(gs, io, HomeBlock(l, hash(name)), name) && Missed(gs, io, HomeBlock(l, hash(name)) + 1, name)
    ensures Missed(gs, io, i, name)
  {
    hide RunsWhole, BitsOwned, Unique, Entries, Readable, HomeBlock;
    forall p: int | IsAt(gs, i, p, name) ensures !Readable(io, i) {
      assert At(ListingOf(gs), i, p);
      assert OnPath(i, hash(name));
      var l := LevelOf(i);
      assert l <= LAST_SAFE_LEVEL by {
        LevelInFile(|gs|, i);
      }
      assert i == HomeBlock(l, hash(name)) || i == HomeBlock(l, hash(name)) + 1;
    }
  }

  lemma LevelInFile(n: nat, i: nat)
    requires WholeLevels(n) && i < n
    ensures LevelOf(i) < Depth(n)
  {
    if LevelOf(i) >= Depth(n) {
      Pow2Monotone(Depth(n), LevelOf(i));
    }
  }
}
