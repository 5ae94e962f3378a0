/** A dentry group as a value, and the tiling invariant its slots keep. */
module Groups {
  import opened Common
  import opened Layout
  import opened Bitmap
  import opened Dentries

  /** Bitmap bits, entry slots and the name area (8 bytes per slot). */
  datatype Group = Group(bits: seq<bool>, nsl: seq<Dentry>, fileName: string)

  /** A CloudDiskMetaFile group has 52 slots, a MetaFile group 60. */
  const MAX_PER_GROUP: nat := 60

  predicate Shaped(g: Group) {
    && |g.bits| % 8 == 0
    && |g.nsl| <= |g.bits|
    && |g.nsl| <= MAX_PER_GROUP
    && |g.fileName| == 8 * |g.nsl|
    && forall i :: 0 <= i < |g.nsl| ==> |g.nsl[i].recordId| == RECORD_ID_LEN
  }

  /** A slot that starts an entry: its bit is set and it carries a name length. */
  predicate Head(g: Group, i: nat)
    requires Shaped(g) && i < |g.nsl|
  {
    g.bits[i] && g.nsl[i].namelen > 0
  }

  /** One past the last slot of the entry that starts at i. */
  function End(g: Group, i: nat): nat
    requires i < |g.nsl|
  {
    i + DentrySlots(g.nsl[i].namelen)
  }

  /** Every entry keeps to the group, and its further slots are set and headless. */
  predicate RunsWhole(g: Group)
    requires Shaped(g)
  {
    forall i :: 0 <= i < |g.nsl| && Head(g, i) ==>
      && End(g, i) <= |g.nsl|
      && forall j :: i < j < End(g, i) ==> g.bits[j] && g.nsl[j].namelen == 0
  }

  /** Every set bit belongs to some entry. */
  predicate BitsOwned(g: Group)
    requires Shaped(g)
  {
    forall j :: 0 <= j < |g.nsl| && g.bits[j] ==> exists i :: 0 <= i <= j && Head(g, i) && j < End(g, i)
  }

  /** The set bits tile into disjoint runs, one per entry. */
  predicate Good(g: Group) {
    Shaped(g) && RunsWhole(g) && BitsOwned(g)
  }

  /** The name bytes recorded for slot i. */
  function NameAt(g: Group, i: nat): string
    requires Shaped(g) && i < |g.nsl|
  {
    var end := 8 * i + g.nsl[i].namelen;
    if end <= |g.fileName| then g.fileName[8 * i .. end] else ""
  }

  lemma SlotsCoverName(len: nat)
    requires len < 0x1_0000
    ensures len <= 8 * DentrySlots(len) < len + 8
  {
  }

  lemma NameInside(g: Group, i: nat)
    requires Shaped(g) && RunsWhole(g) && i < |g.nsl| && Head(g, i)
    ensures 8 * i + g.nsl[i].namelen <= 8 * End(g, i) <= |g.fileName|
    ensures |NameAt(g, i)| == g.nsl[i].namelen
    ensures i < End(g, i)
  {
    SlotsCoverName(g.nsl[i].namelen);
  }

  /** Runs of different entries are disjoint. */
  lemma RunsDisjoint(g: Group, i: nat, j: nat)
    requires Shaped(g) && RunsWhole(g) && i < |g.nsl| && j < |g.nsl| && i != j && Head(g, i) && Head(g, j)
    ensures End(g, i) <= j || End(g, j) <= i
  {
  }

  predicate Matches(g: Group, i: nat, hash: u32, name: string)
    requires Shaped(g) && i < |g.nsl|
  {
    Head(g, i) && g.nsl[i].hash == hash && NameAt(g, i) == name
  }

  /** All entries below i end by i: where the skipping walk of a search may stand. */
  predicate Boundary(g: Group, i: nat)
    requires Shaped(g)
  {
    forall k :: 0 <= k < |g.nsl| && k < i && Head(g, k) ==> End(g, k) <= i
  }

  /** At a boundary, a set bit is a head; jumping over its run, or over a clear bit, lands on a boundary. */
  lemma WalkStep(g: Group, i: nat)
    requires Good(g) && i < |g.nsl| && Boundary(g, i)
    ensures g.bits[i] ==> Head(g, i) && Boundary(g, End(g, i)) && i < End(g, i) <= |g.nsl|
    ensures g.bits[i] ==> forall k :: i < k < End(g, i) ==> !Head(g, k)
    ensures !g.bits[i] ==> Boundary(g, i + 1)
  {
    if g.bits[i] {
      NameInside(g, i);
      forall k | 0 <= k < |g.nsl| && k < End(g, i) && Head(g, k) ensures End(g, k) <= End(g, i) {
        if k > i {
          RunsDisjoint(g, i, k);
        }
      }
    }
  }

  // ---------------------------------------------------------------------
  // The three edits
  // ---------------------------------------------------------------------

  /** Name bytes laid over the name area from slot pos on. */
  function NameOver(area: string, pos: nat, name: string): (r: string)
    requires 8 * pos + |name| <= |area|
    ensures |r| == |area|
  {
    area[.. 8 * pos] + name + area[8 * pos + |name| ..]
  }

  function NewSlot(d: Dentry, base: MetaBase, hash: u32): Dentry
    requires |base.cloudId| <= RECORD_ID_LEN && |base.name| < 0x1_0000
  {
    FillSlot(d.(hash := hash, namelen := |base.name|), base, Padded(base.cloudId))
  }

  predicate CanInsert(g: Group, pos: nat, base: MetaBase) {
    && Shaped(g)
    && 1 <= |base.name| <= 8 * |g.nsl|
    && |base.cloudId| <= RECORD_ID_LEN
    && pos + DentrySlots(|base.name|) <= |g.nsl|
  }

  function Insert(g: Group, pos: nat, base: MetaBase, hash: u32): (r: Group)
    requires CanInsert(g, pos, base)
    ensures Shaped(r) && |r.nsl| == |g.nsl| && |r.bits| == |g.bits|
  {
    var end := pos + DentrySlots(|base.name|);
    SlotsCoverName(|base.name|);
    Group(WithRun(g.bits, pos, end, true),
          seq(|g.nsl|, j requires 0 <= j < |g.nsl| =>
            if j == pos then NewSlot(g.nsl[j], base, hash)
            else if pos < j < end then g.nsl[j].(namelen := 0)
            else g.nsl[j]),
          NameOver(g.fileName, pos, base.name))
  }

  function Delete(g: Group, pos: nat): (r: Group)
    requires Shaped(g) && pos < |g.nsl|
    ensures Shaped(r) && |r.nsl| == |g.nsl| && |r.bits| == |g.bits|
  {
    g.(bits := WithRun(g.bits, pos, End(g, pos), false))
  }

  function Modify(g: Group, pos: nat, base: MetaBase): (r: Group)
    requires Shaped(g) && pos < |g.nsl|
    ensures Shaped(r) && |r.nsl| == |g.nsl| && |r.bits| == |g.bits|
  {
    var d := g.nsl[pos];
    g.(nsl := g.nsl[pos := FillSlot(d, base, Overlaid(d.recordId, base.cloudId))])
  }

  /** Two groups agree on the entry at i. */
  predicate SameEntry(g: Group, r: Group, i: nat)
    requires Shaped(g) && Shaped(r) && i < |g.nsl| == |r.nsl|
  {
    Head(g, i) && Head(r, i) && r.nsl[i] == g.nsl[i] && NameAt(r, i) == NameAt(g, i)
  }

  /** A head outside the inserted run keeps its slot and its name. */
  lemma InsertKeeps(g: Group, pos: nat, base: MetaBase, hash: u32, i: nat)
    requires Shaped(g) && RunsWhole(g) && CanInsert(g, pos, base)
    requires Clear(g.bits, pos, pos + DentrySlots(|base.name|))
    requires i < |g.nsl| && Head(g, i)
    ensures SameEntry(g, Insert(g, pos, base, hash), i)
  {
    SlotsCoverName(|base.name|);
    NameInside(g, i);
    var end := pos + DentrySlots(|base.name|);
    assert !g.bits[pos] && g.bits[i];
    assert End(g, i) <= pos || end <= i;
    var r := Insert(g, pos, base, hash);
    assert r.nsl[i] == g.nsl[i];
    var a, b := 8 * i, 8 * i + g.nsl[i].namelen;
    assert r.fileName[a..b] == g.fileName[a..b] by {
      forall k | a <= k < b ensures r.fileName[k] == g.fileName[k] {
      }
    }
  }

  /** Insertion over clear, possibly stale, slots adds exactly one entry and keeps the tiling. */
  lemma InsertAdds(g: Group, pos: nat, base: MetaBase, hash: u32)
    requires Good(g) && CanInsert(g, pos, base)
    requires Clear(g.bits, pos, pos + DentrySlots(|base.name|))
    ensures var r := Insert(g, pos, base, hash);
            && Good(r)
            && Matches(r, pos, hash, base.name)
            && Report(r.nsl[pos]) == Stored(base, Padded(base.cloudId))
            && !Head(g, pos)
            && (forall i :: 0 <= i < |g.nsl| && Head(g, i) ==> SameEntry(g, r, i))
            && (forall i :: 0 <= i < |g.nsl| && Head(r, i) ==> i == pos || Head(g, i))
  {
    var r := Insert(g, pos, base, hash);
    SlotsCoverName(|base.name|);
    FilledSlotReports(g.nsl[pos].(hash := hash, namelen := |base.name|), base, Padded(base.cloudId));
    forall i | 0 <= i < |g.nsl| && Head(g, i) ensures SameEntry(g, r, i) {
      InsertKeeps(g, pos, base, hash, i);
    }
    assert NameAt(r, pos) == base.name;
    InsertTiles(g, pos, base, hash);
  }

  lemma InsertTiles(g: Group, pos: nat, base: MetaBase, hash: u32)
    requires Good(g) && CanInsert(g, pos, base)
    requires Clear(g.bits, pos, pos + DentrySlots(|base.name|))
    requires forall i :: 0 <= i < |g.nsl| && Head(g, i) ==> SameEntry(g, Insert(g, pos, base, hash), i)
    ensures Good(Insert(g, pos, base, hash))
  {
    var r := Insert(g, pos, base, hash);
    var end := pos + DentrySlots(|base.name|);
    SlotsCoverName(|base.name|);
    forall i | 0 <= i < |r.nsl| && Head(r, i)
      ensures End(r, i) <= |r.nsl| && forall j :: i < j < End(r, i) ==> r.bits[j] && r.nsl[j].namelen == 0
    {
      if i != pos {
        assert Head(g, i);
      }
    }
    forall j | 0 <= j < |r.nsl| && r.bits[j]
      ensures exists i :: 0 <= i <= j && Head(r, i) && j < End(r, i)
    {
      if pos <= j < end {
        assert Head(r, pos) && j < End(r, pos);
      } else {
        var i :| 0 <= i <= j && Head(g, i) && j < End(g, i);
        assert SameEntry(g, r, i);
      }
    }
  }

  /** An entry other than the deleted one keeps its slot, and its run is clear of the deleted run. */
  lemma DeleteKeeps(g: Group, pos: nat, i: nat)
    requires Shaped(g) && RunsWhole(g) && pos < |g.nsl| && Head(g, pos)
    requires i < |g.nsl| && i != pos && Head(g, i)
    ensures SameEntry(g, Delete(g, pos), i)
    ensures End(g, i) <= pos || End(g, pos) <= i
  {
    RunsDisjoint(g, i, pos);
    NameInside(g, pos);
  }

  /** Clearing an entry's bits removes that entry and keeps the tiling, stale fields and all. */
  lemma DeleteRemoves(g: Group, pos: nat)
    requires Good(g) && pos < |g.nsl| && Head(g, pos)
    ensures var r := Delete(g, pos);
            && Good(r)
            && !Head(r, pos)
            && (forall i :: 0 <= i < |g.nsl| && Head(r, i) ==> Head(g, i))
            && (forall i :: 0 <= i < |g.nsl| && i != pos && Head(g, i) ==> SameEntry(g, r, i))
  {
    var r := Delete(g, pos);
    NameInside(g, pos);
    forall i | 0 <= i < |g.nsl| && i != pos && Head(g, i) ensures SameEntry(g, r, i) {
      DeleteKeeps(g, pos, i);
    }
    DeleteRunsWhole(g, pos);
    DeleteBitsOwned(g, pos);
  }

  lemma DeleteRunsWhole(g: Group, pos: nat)
    requires Shaped(g) && RunsWhole(g) && pos < |g.nsl| && Head(g, pos)
    ensures RunsWhole(Delete(g, pos))
  {
    var r := Delete(g, pos);
    NameInside(g, pos);
    forall i | 0 <= i < |r.nsl| && Head(r, i)
      ensures End(r, i) <= |r.nsl| && forall j :: i < j < End(r, i) ==> r.bits[j] && r.nsl[j].namelen == 0
    {
      assert Head(g, i) && i != pos;
      DeleteKeeps(g, pos, i);
    }
  }

  lemma DeleteBitsOwned(g: Group, pos: nat)
    requires Good(g) && pos < |g.nsl| && Head(g, pos)
    ensures BitsOwned(Delete(g, pos))
  {
    var r := Delete(g, pos);
    forall j | 0 <= j < |r.nsl| && r.bits[j]
      ensures exists i :: 0 <= i <= j && Head(r, i) && j < End(r, i)
    {
      assert g.bits[j];
      var i :| 0 <= i <= j && Head(g, i) && j < End(g, i);
      assert i != pos;
      DeleteKeeps(g, pos, i);
      assert Head(r, i) && j < End(r, i);
    }
  }

  /** Only the slot's metadata differs. */
  lemma ModifyKeepsHeads(g: Group, pos: nat, base: MetaBase, i: nat)
    requires Shaped(g) && pos < |g.nsl| && i < |g.nsl|
    ensures var r := Modify(g, pos, base);
            && r.nsl[i].namelen == g.nsl[i].namelen && r.nsl[i].hash == g.nsl[i].hash
            && Head(r, i) == Head(g, i) && End(r, i) == End(g, i) && NameAt(r, i) == NameAt(g, i)
            && (i != pos ==> r.nsl[i] == g.nsl[i])
  {
  }

  /** Updating an entry in place touches no other entry and not its own name. */
  lemma ModifyChanges(g: Group, pos: nat, base: MetaBase)
    requires Good(g) && pos < |g.nsl| && Head(g, pos)
    ensures var r := Modify(g, pos, base);
            && Good(r)
            && NameAt(r, pos) == NameAt(g, pos) && r.nsl[pos].hash == g.nsl[pos].hash
            && Report(r.nsl[pos]) == Stored(base, Overlaid(g.nsl[pos].recordId, base.cloudId))
            && (forall i :: 0 <= i < |g.nsl| ==> Head(r, i) == Head(g, i))
            && (forall i :: 0 <= i < |g.nsl| && i != pos && Head(g, i) ==> SameEntry(g, r, i))
  {
    var r := Modify(g, pos, base);
    FilledSlotReports(g.nsl[pos], base, Overlaid(g.nsl[pos].recordId, base.cloudId));
    forall i | 0 <= i < |g.nsl|
      ensures Head(r, i) == Head(g, i) && End(r, i) == End(g, i) && NameAt(r, i) == NameAt(g, i)
      ensures r.nsl[i].namelen == g.nsl[i].namelen && r.nsl[i].hash == g.nsl[i].hash
      ensures i != pos ==> r.nsl[i] == g.nsl[i]
    {
      ModifyKeepsHeads(g, pos, base, i);
    }
    ModifyTiles(g, pos, base);
  }

  lemma ModifyTiles(g: Group, pos: nat, base: MetaBase)
    requires Good(g) && pos < |g.nsl|
    ensures Good(Modify(g, pos, base))
  {
    var r := Modify(g, pos, base);
    forall i | 0 <= i < |r.nsl| && Head(r, i)
      ensures End(r, i) <= |r.nsl| && forall j :: i < j < End(r, i) ==> r.bits[j] && r.nsl[j].namelen == 0
    {
      ModifyKeepsHeads(g, pos, base, i);
      forall j | i < j < End(r, i) ensures r.nsl[j].namelen == 0 {
        ModifyKeepsHeads(g, pos, base, j);
      }
    }
    forall j | 0 <= j < |r.nsl| && r.bits[j]
      ensures exists i :: 0 <= i <= j && Head(r, i) && j < End(r, i)
    {
      var i :| 0 <= i <= j && Head(g, i) && j < End(g, i);
      ModifyKeepsHeads(g, pos, base, i);
      assert Head(r, i) && j < End(r, i);
    }
  }

  // ---------------------------------------------------------------------
  // The entries of a group
  // ---------------------------------------------------------------------

  datatype Entry = Entry(name: string, slot: Dentry)

  /** Slot number to entry, for the slots that start one. */
  function Entries(g: Group): map<int, Entry>
    requires Shaped(g)
  {
    map p | 0 <= p < |g.nsl| && Head(g, p) :: Entry(NameAt(g, p), g.nsl[p])
  }

  lemma InsertEntry(g: Group, pos: nat, base: MetaBase, hash: u32)
    requires Good(g) && CanInsert(g, pos, base)
    requires Clear(g.bits, pos, pos + DentrySlots(|base.name|))
    ensures Good(Insert(g, pos, base, hash))
    ensures pos !in Entries(g)
    ensures Entries(Insert(g, pos, base, hash))
            == Entries(g)[pos := Entry(base.name, NewSlot(g.nsl[pos], base, hash))]
    ensures Report(NewSlot(g.nsl[pos], base, hash)) == Stored(base, Padded(base.cloudId))
  {
    hide RunsWhole, BitsOwned;
    InsertAdds(g, pos, base, hash);
  }

  lemma DeleteEntry(g: Group, pos: nat)
    requires Good(g) && pos in Entries(g)
    ensures Good(Delete(g, pos))
    ensures Entries(Delete(g, pos)) == Entries(g) - {pos}
  {
    hide RunsWhole, BitsOwned;
    DeleteRemoves(g, pos);
  }

  lemma ModifyEntry(g: Group, pos: nat, base: MetaBase)
    requires Good(g) && pos in Entries(g)
    ensures Good(Modify(g, pos, base))
    ensures var slot := FillSlot(g.nsl[pos], base, Overlaid(g.nsl[pos].recordId, base.cloudId));
            && Entries(Modify(g, pos, base)) == Entries(g)[pos := Entry(NameAt(g, pos), slot)]
            && slot.hash == g.nsl[pos].hash
            && Report(slot) == Stored(base, Overlaid(g.nsl[pos].recordId, base.cloudId))
  {
    hide RunsWhole, BitsOwned;
    ModifyChanges(g, pos, base);
  }

  /** A stored name has 1 to 8 * |nsl| bytes. */
  lemma EntryNameFits(g: Group, pos: nat)
    requires Good(g) && pos in Entries(g)
    ensures 1 <= |Entries(g)[pos].name| <= 8 * |g.nsl|
  {
    NameInside(g, pos);
  }

  /** A freshly grown group: all bytes zero. */
  const EMPTY_SLOT: Dentry := Dentry(0, 0, 0, 0, 0, 0, Zeros(RECORD_ID_LEN), 0)

  function EmptyGroup(perGroup: nat): (g: Group)
    requires perGroup <= MAX_PER_GROUP
    ensures Good(g) && |g.nsl| == perGroup && forall i :: 0 <= i < perGroup ==> !Head(g, i)
  {
    Group(seq((perGroup + 7) / 8 * 8, _ => false), seq(perGroup, _ => EMPTY_SLOT), Zeros(8 * perGroup))
  }
}
