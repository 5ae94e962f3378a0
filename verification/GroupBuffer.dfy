/** A dentry group read into memory: the buffer that searches walk and edits change in place. */
module GroupBuffers {
  import opened Common
  import opened Layout
  import opened Bitmap
  import opened Dentries
  import opened Groups

  /** The entry can be written: a non-empty name that fits its slots and an id that fits its field. */
  predicate Storable(base: MetaBase) {
    && 1 <= |base.name| <= 8 * DentrySlots(|base.name|)
    && |base.cloudId| <= RECORD_ID_LEN
  }

  class GroupBuffer {
    const bitmap: array<bv8>
    const nsl: array<Dentry>
    const fileName: array<char>

    ghost function View(): Group
      reads bitmap, nsl, fileName
    {
      Group(Bits(bitmap[..]), nsl[..], fileName[..])
    }

    /** The three parts do not share memory. */
    ghost predicate Apart() {
      bitmap as object != nsl && bitmap as object != fileName && nsl as object != fileName
    }

    /** Reading a group from the file. */
    constructor (g: Group)
      requires Shaped(g)
      ensures View() == g && Apart()
      ensures fresh(bitmap) && fresh(nsl) && fresh(fileName)
    {
      var bytes := Pack(g.bits);
      PackRoundTrip(g.bits);
      bitmap := new bv8[|bytes|](i requires 0 <= i < |bytes| => bytes[i]);
      nsl := new Dentry[|g.nsl|](i requires 0 <= i < |g.nsl| => g.nsl[i]);
      fileName := new char[|g.fileName|](i requires 0 <= i < |g.fileName| => g.fileName[i]);
      new;
      assert bitmap[..] == bytes;
      assert nsl[..] == g.nsl;
      assert fileName[..] == g.fileName;
    }

    /** The bytes a write of the whole group puts into the file. */
    method Bytes() returns (g: Group)
      ensures g == View()
    {
      g := Group(Bits(bitmap[..]), nsl[..], fileName[..]);
    }

    /** The skipping walk. On a tiled group it finds the first matching entry, if any. */
    method FindInBlock(hash: u32, name: string) returns (r: Option<nat>)
      requires Good(View())
      ensures r.Some? ==> r.value < |View().nsl| && Matches(View(), r.value, hash, name)
      ensures r.Some? ==> forall k :: 0 <= k < r.value ==> !Matches(View(), k, hash, name)
      ensures r.None? ==> forall k :: 0 <= k < |View().nsl| ==> !Matches(View(), k, hash, name)
    {
      hide RunsWhole, BitsOwned, Bits;
      var bitPos := 0;
      while bitPos < nsl.Length
        invariant 0 <= bitPos <= nsl.Length
        invariant Boundary(View(), bitPos)
        invariant forall k :: 0 <= k < bitPos ==> !Matches(View(), k, hash, name)
      {
        var hit, next := Visit(bitPos, hash, name);
        if hit {
          return Some(bitPos);
        }
        bitPos := next;
      }
      return None;
    }

    /** One turn of the walk: a match, or where to look next. */
    method Visit(bitPos: nat, hash: u32, name: string) returns (hit: bool, next: nat)
      requires Good(View()) && bitPos < nsl.Length && Boundary(View(), bitPos)
      ensures hit == Matches(View(), bitPos, hash, name)
      ensures bitPos < next <= nsl.Length && Boundary(View(), next)
      ensures forall k :: bitPos < k < next ==> !Head(View(), k)
    {
      hide RunsWhole, BitsOwned;
      WalkStep(View(), bitPos);
      var on := TestBit(bitPos, bitmap);
      if !on || nsl[bitPos].namelen == 0 {
        return false, bitPos + 1;
      }
      hit := EntryIs(bitPos, hash, name);
      next := bitPos + DentrySlots(nsl[bitPos].namelen);
    }

    method EntryIs(bitPos: nat, hash: u32, name: string) returns (hit: bool)
      requires Good(View()) && bitPos < nsl.Length && Head(View(), bitPos)
      ensures hit == Matches(View(), bitPos, hash, name)
    {
      hide RunsWhole, BitsOwned, Bits;
      NameInside(View(), bitPos);
      var de := nsl[bitPos];
      assert fileName[8 * bitPos .. 8 * bitPos + de.namelen] == NameAt(View(), bitPos);
      hit := de.hash == hash && de.namelen == |name|
             && fileName[8 * bitPos .. 8 * bitPos + de.namelen] == name;
    }

    method Room(slots: nat) returns (r: nat)
      requires Shaped(View())
      ensures FirstFit(View().bits, slots, |View().nsl|, r)
    {
      r := RoomForFilename(bitmap, slots, nsl.Length);
    }

    /** Sets the run's bits and zeroes the name length of every slot after the first. */
    method MarkRun(bitPos: nat, slots: nat)
      requires Apart() && Shaped(View()) && bitPos + slots <= nsl.Length
      modifies bitmap, nsl
      ensures View().bits == WithRun(old(View().bits), bitPos, bitPos + slots, true)
      ensures forall j :: 0 <= j < nsl.Length ==>
                nsl[j] == if bitPos < j < bitPos + slots then old(nsl[j]).(namelen := 0) else old(nsl[j])
    {
      ghost var bits := Bits(bitmap[..]);
      var i := 0;
      if slots > 0 {
        RunExtends(bits, bitPos, bitPos, true);
      }
      while i < slots
        invariant 0 <= i <= slots
        invariant Bits(bitmap[..]) == WithRun(bits, bitPos, bitPos + i, true)
        invariant forall j :: 0 <= j < nsl.Length ==>
                    nsl[j] == if bitPos < j < bitPos + i then old(nsl[j]).(namelen := 0) else old(nsl[j])
      {
        RunExtends(bits, bitPos, bitPos + i, true);
        SetBit(bitPos + i, bitmap);
        if i != 0 {
          nsl[bitPos + i] := nsl[bitPos + i].(namelen := 0);
        }
        i := i + 1;
      }
    }

    /** memcpy_s of the name into the name area. */
    method CopyName(bitPos: nat, name: string)
      requires Apart() && 8 * bitPos + |name| <= fileName.Length
      modifies fileName
      ensures fileName[..] == NameOver(old(fileName[..]), bitPos, name)
    {
      forall k | 0 <= k < |name| {
        fileName[8 * bitPos + k] := name[k];
      }
    }

    /** Writes a new entry at bitPos. A refused copy leaves the buffer unusable and returns false. */
    method UpdateDentry(base: MetaBase, hash: u32, bitPos: nat) returns (ok: bool)
      requires Apart() && Shaped(View()) && bitPos < nsl.Length
      requires bitPos + DentrySlots(|base.name|) <= nsl.Length
      modifies bitmap, nsl, fileName
      ensures ok == Storable(base)
      ensures ok ==> CanInsert(old(View()), bitPos, base)
      ensures ok ==> View() == Insert(old(View()), bitPos, base, hash)
    {
      hide Bits, SetPosition, SetFileType, SetNoUpload;
      ghost var g := View();
      var name, slots := base.name, DentrySlots(|base.name|);
      var de := nsl[bitPos].(hash := hash, namelen := |name| % 0x1_0000);
      nsl[bitPos] := de;
      if slots == 0 || |name| > slots * 8 {
        return false;
      }
      CopyName(bitPos, name);
      de := de.(atime := base.atime, mtime := base.mtime, size := base.size, mode := base.mode % 0x1_0000);
      de := de.(flags := SetPosition(de.flags, base.position));
      de := de.(flags := SetFileType(de.flags, base.fileType));
      de := de.(flags := SetNoUpload(de.flags, base.noUpload));
      nsl[bitPos] := de.(recordId := Zeros(RECORD_ID_LEN));
      if |base.cloudId| > RECORD_ID_LEN {
        return false;
      }
      nsl[bitPos] := de.(recordId := base.cloudId + Zeros(RECORD_ID_LEN)[|base.cloudId|..]);
      assert Padded(base.cloudId) == base.cloudId + Zeros(RECORD_ID_LEN)[|base.cloudId|..];
      assert nsl[bitPos] == NewSlot(g.nsl[bitPos], base, hash);
      assert bitmap[..] == old(bitmap[..]);
      MarkRun(bitPos, slots);
      ghost var r := Insert(g, bitPos, base, hash);
      assert nsl[..] == r.nsl && fileName[..] == r.fileName;
      return true;
    }

    /** Removal: clears the entry's bits and nothing else. */
    method ClearEntry(bitPos: nat)
      requires Apart() && Shaped(View()) && bitPos < nsl.Length && End(View(), bitPos) <= nsl.Length
      modifies bitmap
      ensures View() == Delete(old(View()), bitPos)
    {
      ghost var bits := Bits(bitmap[..]);
      var slots := DentrySlots(nsl[bitPos].namelen);
      var i := 0;
      if slots > 0 {
        RunExtends(bits, bitPos, bitPos, false);
      }
      while i < slots
        invariant 0 <= i <= slots
        invariant Bits(bitmap[..]) == WithRun(bits, bitPos, bitPos + i, false)
      {
        RunExtends(bits, bitPos, bitPos + i, false);
        ClearBit(bitPos + i, bitmap);
        i := i + 1;
      }
      assert nsl[..] == old(nsl[..]) && fileName[..] == old(fileName[..]);
    }

    /** Update in place: a too long id zeroes the id field and the update goes on. */
    method Refill(bitPos: nat, base: MetaBase)
      requires Apart() && Shaped(View()) && bitPos < nsl.Length
      modifies nsl
      ensures View() == Modify(old(View()), bitPos, base)
    {
      ghost var g := View();
      var de := nsl[bitPos];
      de := de.(atime := base.atime, mtime := base.mtime, size := base.size, mode := base.mode % 0x1_0000);
      de := de.(flags := SetPosition(de.flags, base.position));
      de := de.(flags := SetFileType(de.flags, base.fileType));
      de := de.(flags := SetNoUpload(de.flags, base.noUpload));
      de := de.(recordId := Overlaid(de.recordId, base.cloudId));
      nsl[bitPos] := de;
      assert nsl[..] == g.nsl[bitPos := FillSlot(g.nsl[bitPos], base, Overlaid(g.nsl[bitPos].recordId, base.cloudId))];
      assert bitmap[..] == old(bitmap[..]) && fileName[..] == old(fileName[..]);
    }
  }
}
