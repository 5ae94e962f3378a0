/** One directory entry: what a caller hands over (MetaBase), what a slot stores
    (Dentry) and what a lookup reports back (Meta). */
module Dentries {
  import opened Common
  import opened Layout

  type u16 = x: int | 0 <= x < 0x1_0000

  /** Strings stand for byte strings: one char is one byte. */
  datatype MetaBase = MetaBase(name: string, atime: u64, mtime: u64, size: u64, mode: u32,
                               position: bv8, fileType: bv8, noUpload: bv8, cloudId: string)

  datatype Dentry = Dentry(hash: u32, mode: u16, namelen: u16, size: u64, mtime: u64, atime: u64,
                           recordId: string, flags: bv8)

  datatype Meta = Meta(atime: u64, mtime: u64, size: u64, mode: u16,
                       position: bv8, fileType: bv8, noUpload: bv8, cloudId: string)

  const S_IFREG: u32 := 0x8000
  const S_IFDIR: u32 := 0x4000

  /** MetaBase(name), with the declared field defaults. */
  function DefaultBase(name: string): MetaBase {
    MetaBase(name, 0, 0, 0, S_IFREG, 1, 0, 0, "")
  }

  function SetPosition(flags: bv8, position: bv8): bv8 { (flags & 0xFC) | position }
  function SetFileType(flags: bv8, fileType: bv8): bv8 { (flags & 0xF3) | (fileType << 2) }
  function SetNoUpload(flags: bv8, noUpload: bv8): bv8 { (flags & 0xEF) | (noUpload << 4) }
  function GetPosition(flags: bv8): bv8 { flags & 0x3 }
  function GetFileType(flags: bv8): bv8 { (flags & 0xC) >> 2 }
  function GetNoUpload(flags: bv8): bv8 { (flags & 0x10) >> 4 }

  function PackFlags(flags: bv8, position: bv8, fileType: bv8, noUpload: bv8): bv8 {
    SetNoUpload(SetFileType(SetPosition(flags, position), fileType), noUpload)
  }

  /** Whatever the slot held before and however wide the arguments, the three
      fields read back as their low bits: no field leaks into another. */
  lemma FlagsReadBack(flags: bv8, position: bv8, fileType: bv8, noUpload: bv8)
    ensures var f := PackFlags(flags, position, fileType, noUpload);
            && GetPosition(f) == position & 3
            && GetFileType(f) == fileType & 3
            && GetNoUpload(f) == noUpload & 1
  {
  }

  function Zeros(n: nat): (r: string)
    ensures |r| == n
  {
    seq(n, _ => '\0')
  }

  /** The id as a slot holds it: 33 bytes, zero padded. An id that does not fit is never stored. */
  function Padded(cloudId: string): (r: string)
    ensures |r| == RECORD_ID_LEN
  {
    if |cloudId| <= RECORD_ID_LEN then cloudId + Zeros(RECORD_ID_LEN - |cloudId|) else Zeros(RECORD_ID_LEN)
  }

  /** memcpy_s over a 33-byte field: too long a source zeroes the field. */
  function Overlaid(was: string, cloudId: string): (r: string)
    requires |was| == RECORD_ID_LEN
    ensures |r| == RECORD_ID_LEN
  {
    if |cloudId| <= RECORD_ID_LEN then cloudId + was[|cloudId|..] else Zeros(RECORD_ID_LEN)
  }

  /** What a lookup copies out of a slot. */
  function Report(d: Dentry): Meta {
    Meta(d.atime, d.mtime, d.size, d.mode,
         GetPosition(d.flags), GetFileType(d.flags), GetNoUpload(d.flags), d.recordId)
  }

  /** What a caller's fields become once stored under a given 33-byte id. */
  function Stored(base: MetaBase, recordId: string): Meta {
    Meta(base.atime, base.mtime, base.size, base.mode % 0x1_0000,
         base.position & 3, base.fileType & 3, base.noUpload & 1, recordId)
  }

  /** Field by field, what is kept of a caller's values: numbers whole, sixteen bits of the mode, two of the
      position and of the file type, one of the no-upload flag. */
  ghost predicate Keeps(m: Meta, base: MetaBase) {
    && m.atime == base.atime && m.mtime == base.mtime && m.size == base.size && m.mode == base.mode % 0x1_0000
    && m.position == base.position % 4 && m.fileType == base.fileType % 4 && m.noUpload == base.noUpload % 2
  }

  /** A 33-byte id laid over another: the new bytes in front, the old ones behind; zero bytes if it does not fit. */
  ghost predicate LaidOver(id: string, cloudId: string, was: string) {
    && |id| == |was| == 33
    && (|cloudId| <= 33 ==> cloudId <= id && forall j :: |cloudId| <= j < 33 ==> id[j] == was[j])
    && (|cloudId| > 33 ==> forall j :: 0 <= j < 33 ==> id[j] == '\0')
  }

  /** A created entry: the caller's fields, the id in front and zero bytes behind it. */
  lemma CreatedSays(base: MetaBase)
    requires |base.cloudId| <= RECORD_ID_LEN
    ensures var m := Stored(base, Padded(base.cloudId));
            && Keeps(m, base) && |m.cloudId| == 33 && base.cloudId <= m.cloudId
            && forall j :: |base.cloudId| <= j < 33 ==> m.cloudId[j] == '\0'
  {
    FlagsCut(base.position, base.fileType, base.noUpload);
  }

  /** An updated entry: the caller's fields, the id in front and the old id's bytes behind it; an id that does
      not fit leaves zero bytes. */
  lemma UpdatedSays(base: MetaBase, was: string)
    requires |was| == RECORD_ID_LEN
    ensures var m := Stored(base, Overlaid(was, base.cloudId));
            Keeps(m, base) && LaidOver(m.cloudId, base.cloudId, was)
  {
    FlagsCut(base.position, base.fileType, base.noUpload);
  }

  lemma FlagsCut(p: bv8, t: bv8, n: bv8)
    ensures p & 3 == p % 4 && t & 3 == t % 4 && n & 1 == n % 2
  {
  }

  /** Two ids without zero bytes are told apart in their slots. */
  lemma PaddedApart(a: string, b: string)
    requires |a| <= RECORD_ID_LEN && |b| <= RECORD_ID_LEN && '\0' !in a && '\0' !in b
    ensures Padded(a) == Padded(b) ==> a == b
  {
    var p, q := Padded(a), Padded(b);
    if |a| < |b| {
      assert q[|a|] == b[|a|] && p[|a|] == '\0';
    } else if |b| < |a| {
      assert p[|b|] == a[|b|] && q[|b|] == '\0';
    } else {
      assert a == p[..|a|] && b == q[..|b|];
    }
  }

  /** A MetaBase after a successful lookup of `name`. */
  function FromMeta(name: string, m: Meta): MetaBase {
    MetaBase(name, m.atime, m.mtime, m.size, m.mode, m.position, m.fileType, m.noUpload, m.cloudId)
  }

  function FillSlot(d: Dentry, base: MetaBase, recordId: string): Dentry {
    d.(atime := base.atime, mtime := base.mtime, size := base.size, mode := base.mode % 0x1_0000,
       flags := PackFlags(d.flags, base.position, base.fileType, base.noUpload),
       recordId := recordId)
  }

  lemma FilledSlotReports(d: Dentry, base: MetaBase, recordId: string)
    ensures Report(FillSlot(d, base, recordId)) == Stored(base, recordId)
  {
    FlagsReadBack(d.flags, base.position, base.fileType, base.noUpload);
  }

  predicate Reported(m: Meta) {
    |m.cloudId| == RECORD_ID_LEN && m.position <= 3 && m.fileType <= 3 && m.noUpload <= 1
  }

  /** Storing what a lookup reported loses nothing. */
  lemma ReportedStoresBack(name: string, m: Meta)
    requires Reported(m)
    ensures Stored(FromMeta(name, m), Padded(m.cloudId)) == m
    ensures forall was: string | |was| == RECORD_ID_LEN ::
              Stored(FromMeta(name, m), Overlaid(was, m.cloudId)) == m
  {
    assert Padded(m.cloudId) == m.cloudId;
    LowBits(m.position, m.fileType, m.noUpload);
    forall was: string | |was| == RECORD_ID_LEN
      ensures Stored(FromMeta(name, m), Overlaid(was, m.cloudId)) == m
    {
      assert Overlaid(was, m.cloudId) == m.cloudId;
    }
  }

  lemma LowBits(p: bv8, t: bv8, n: bv8)
    requires p <= 3 && t <= 3 && n <= 1
    ensures p & 3 == p && t & 3 == t && n & 1 == n
  {
  }

  lemma ReportIsReported(d: Dentry)
    requires |d.recordId| == RECORD_ID_LEN
    ensures Reported(Report(d))
  {
  }
}
