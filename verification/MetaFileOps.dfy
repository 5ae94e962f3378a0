/** What CloudDiskMetaFile builds from its basic operations, and the two moves of the recycle bin. */
module MetaFileOps {
  import opened Common
  import opened Layout
  import opened Dentries
  import opened DentryFiles
  import opened LockTraces
  import opened MetaFiles
  import opened Groups
  import opened Decimal

  const QUIET: Io := Io(false, false, {}, 11, {}, false, false, 11)

  // ---------------------------------------------------------------------
  // A dentry file is a map
  // ---------------------------------------------------------------------

  datatype Op = Create(base: MetaBase) | Lookup(name: string) | Update(base: MetaBase) | Remove(name: string)

  /** The error code, and for a successful lookup what it reports. */
  datatype Answer = Answer(ret: int, meta: Option<Meta>)

  predicate FullIds(m: Directory) {
    forall name :: name in m ==> |m[name].cloudId| == RECORD_ID_LEN
  }

  /** The directory as a plain map: what each operation answers. */
  function AnswerOf(m: Directory, op: Op): Answer {
    match op
    case Create(b) =>
      if DentrySlots(|b.name|) > PER_GROUP then Answer(ENAMETOOLONG, None)
      else if b.name in m then Answer(EEXIST, None)
      else if !Creatable(b) then Answer(EINVAL, None)
      else Answer(E_OK, None)
    case Lookup(name) => if name in m then Answer(E_OK, Some(m[name])) else Answer(ENOENT, None)
    case Update(b) => Answer(if b.name in m then E_OK else ENOENT, None)
    case Remove(name) => Answer(if name in m then E_OK else ENOENT, None)
  }

  /** The directory as a plain map: what each operation leaves. */
  function DirAfter(m: Directory, op: Op): (r: Directory)
    requires FullIds(m)
    ensures FullIds(r)
  {
    if AnswerOf(m, op).ret != E_OK then m
    else match op
      case Create(b) => m[b.name := NewMeta(b)]
      case Lookup(name) => m
      case Update(b) => m[b.name := Stored(b, Overlaid(m[b.name].cloudId, b.cloudId))]
      case Remove(name) => m - {name}
  }

  /** What was created is what a lookup then reports: the caller's fields, the id in front, zero bytes behind. */
  lemma CreatedIsFound(m: Directory, b: MetaBase)
    requires FullIds(m) && AnswerOf(m, Create(b)).ret == E_OK
    ensures var found := AnswerOf(DirAfter(m, Create(b)), Lookup(b.name));
            && found.ret == E_OK && found.meta.Some? && Keeps(found.meta.value, b)
            && b.cloudId <= found.meta.value.cloudId && |found.meta.value.cloudId| == 33
            && forall j :: |b.cloudId| <= j < 33 ==> found.meta.value.cloudId[j] == '\0'
  {
    NewMetaSays(b);
  }

  /** And so for an update: the old id's bytes stay behind a shorter new one. */
  lemma UpdatedIsFound(m: Directory, b: MetaBase)
    requires FullIds(m) && b.name in m
    ensures var found := AnswerOf(DirAfter(m, Update(b)), Lookup(b.name));
            && found.ret == E_OK && found.meta.Some? && Keeps(found.meta.value, b)
            && LaidOver(found.meta.value.cloudId, b.cloudId, m[b.name].cloudId)
  {
    UpdatedSays(b, m[b.name].cloudId);
  }

  function RunAnswers(m: Directory, ops: seq<Op>): seq<Answer>
    requires FullIds(m)
  {
    if ops == [] then []
    else RunAnswers(m, ops[..|ops| - 1]) + [AnswerOf(RunDir(m, ops[..|ops| - 1]), ops[|ops| - 1])]
  }

  function RunDir(m: Directory, ops: seq<Op>): (r: Directory)
    requires FullIds(m)
    ensures FullIds(r)
  {
    if ops == [] then m else DirAfter(RunDir(m, ops[..|ops| - 1]), ops[|ops| - 1])
  }

  lemma ContentsFullIds(file: CloudDiskMetaFile)
    requires file.Valid()
    ensures FullIds(file.Dir())
  {
    hide FileInv, Contents;
    forall name | name in file.Dir() ensures |file.Dir()[name].cloudId| == RECORD_ID_LEN {
      FullLengthId(file.groups, name);
    }
  }

  lemma QuietSees(file: CloudDiskMetaFile, name: string, io: Io)
    requires AllShaped(file.groups) && Steady(io)
    ensures file.Visible(name, io)
  {
  }

  /** One operation on the file does to its directory what it does to the map. */
  method Perform(file: CloudDiskMetaFile, op: Op) returns (answer: Answer)
    requires file.Valid() && After(file.trace) == Free
    modifies file
    ensures AllShaped(file.groups) && After(file.trace) == Free && FullIds(old(file.Dir()))
    ensures file.fd < 0 ==> answer == Answer(EINVAL, None) && file.Valid() && file.Dir() == old(file.Dir())
    ensures file.fd >= 0 && (op.Create? ==> old(DepthOf(file)) <= LAST_SAFE_LEVEL) ==>
              && file.Valid()
              && answer == AnswerOf(old(file.Dir()), op)
              && file.Dir() == DirAfter(old(file.Dir()), op)
  {
    hide FileInv, Contents, DcacheFileSize, Depth, NewMeta, After, Stored, Overlaid;
    ContentsFullIds(file);
    match op
    case Create(b) =>
      QuietSees(file, b.name, QUIET);
      var ret := file.DoCreate(b, QUIET);
      answer := Answer(ret, None);
    case Lookup(name) =>
      QuietSees(file, name, QUIET);
      var ret, out := file.DoLookup(DefaultBase(name), QUIET);
      answer := Answer(ret, if ret == E_OK then Some(Meta(out.atime, out.mtime, out.size, out.mode % 0x1_0000,
                                                           out.position, out.fileType, out.noUpload, out.cloudId))
                            else None);
    case Update(b) =>
      QuietSees(file, b.name, QUIET);
      var ret := file.DoUpdate(b, QUIET);
      answer := Answer(ret, None);
    case Remove(name) =>
      QuietSees(file, name, QUIET);
      var ret := file.DoRemove(name, QUIET);
      answer := Answer(ret, None);
  }

  /** Any sequence of operations, carried out until a create meets a file that has grown past the last
      level with exact addresses: the answers and the directory are those of the plain map. */
  method Replay(file: CloudDiskMetaFile, ops: seq<Op>) returns (answers: seq<Answer>)
    requires file.Valid() && After(file.trace) == Free && file.fd >= 0
    modifies file
    ensures file.Valid() && After(file.trace) == Free
    ensures FullIds(old(file.Dir()))
    ensures |answers| <= |ops|
    ensures |answers| < |ops| ==> ops[|answers|].Create? && Depth(|file.groups|) > LAST_SAFE_LEVEL
    ensures answers == RunAnswers(old(file.Dir()), ops[..|answers|])
    ensures file.Dir() == RunDir(old(file.Dir()), ops[..|answers|])
  {
    hide FileInv, Contents, DcacheFileSize, Depth, AnswerOf, DirAfter, After;
    ContentsFullIds(file);
    ghost var m := file.Dir();
    answers := [];
    while |answers| < |ops|
      invariant file.Valid() && After(file.trace) == Free
      invariant |answers| <= |ops|
      invariant answers == RunAnswers(m, ops[..|answers|])
      invariant file.Dir() == RunDir(m, ops[..|answers|])
    {
      var n := |answers|;
      if ops[n].Create? && DepthOf(file) > LAST_SAFE_LEVEL {
        return;
      }
      var a := Perform(file, ops[n]);
      assert ops[..n + 1][..n] == ops[..n];
      answers := answers + [a];
    }
  }

  function DepthOf(file: CloudDiskMetaFile): nat
    reads file
  {
    Depth(|file.groups|)
  }

  // ---------------------------------------------------------------------
  // Lookup followed by create, update or remove
  // ---------------------------------------------------------------------

  /** A caller's callback: changes fields, never the name. */
  ghost predicate KeepsName(edit: MetaBase -> MetaBase) {
    forall b :: edit(b).name == b.name
  }

  /** The entry after edit: the old one edited and overlaid, or a fresh one edited. */
  function Upserted(m: Directory, name: string, edit: MetaBase -> MetaBase): Meta
    requires FullIds(m)
  {
    if name in m then
      var b := edit(FromMeta(name, m[name]));
      Stored(b, Overlaid(m[name].cloudId, b.cloudId))
    else NewMeta(edit(DefaultBase(name)))
  }

  /** An entry of the name edited, or a fresh one edited and created. On error nothing has changed, unless
      only the unlocking failed. */
  method DoLookupAndUpdate(file: CloudDiskMetaFile, name: string, edit: MetaBase -> MetaBase, io: Io) returns (ret: int)
    requires file.Valid() && file.Unlocked(io) && KeepsName(edit)
    modifies file
    ensures AllShaped(file.groups) && file.Unlocked(io)
    ensures file.fd < 0 ==> ret == EINVAL && file.groups == old(file.groups)
    ensures old(file.Sighted(name, io) && DepthOf(file) <= LAST_SAFE_LEVEL) ==>
              && file.Valid() && DepthOf(file) <= old(DepthOf(file)) + 1 && FullIds(old(file.Dir()))
              && var after := old(file.Dir())[name := Upserted(old(file.Dir()), name, edit)];
                 && (ret == E_OK ==> file.Dir() == after)
                 && (ret == E_OK ==> name in old(file.Dir()) || Creatable(edit(DefaultBase(name))))
                 && (ret != E_OK ==> file.Dir() == old(file.Dir()) || (io.unlockFails && file.Dir() == after))
                 && (Quiet(io) && file.fd >= 0 && (name in old(file.Dir()) || Creatable(edit(DefaultBase(name)))) ==> ret == E_OK)
  {
    hide FileInv, Contents, DcacheFileSize, Depth, NewMeta, After, Stored, Overlaid, IsAt, Readable, RoomFrom;
    ContentsFullIds(file);
    var m;
    ret, m := file.DoLookup(DefaultBase(name), io);
    StorableIsCreatable(edit(DefaultBase(name)));
    m := edit(m);
    if ret != E_OK {
      ret := file.DoCreate(m, io);
    } else {
      ret := file.DoUpdate(m, io);
    }
  }

  /** A present entry is left alone; an absent one is created. */
  method DoLookupAndCreate(file: CloudDiskMetaFile, name: string, edit: MetaBase -> MetaBase, io: Io) returns (ret: int)
    requires file.Valid() && file.Unlocked(io) && KeepsName(edit)
    modifies file
    ensures AllShaped(file.groups) && file.Unlocked(io)
    ensures file.fd >= 0 && old(file.Seen(name, io)) ==> ret == E_OK && file.Valid() && file.groups == old(file.groups)
    ensures old(file.Sighted(name, io) && DepthOf(file) <= LAST_SAFE_LEVEL) ==>
              && file.Valid() && DepthOf(file) <= old(DepthOf(file)) + 1
              && var after := if name in old(file.Dir()) then old(file.Dir()) else old(file.Dir())[name := NewMeta(edit(DefaultBase(name)))];
                 && (ret == E_OK ==> file.Dir() == after)
                 && (ret != E_OK ==> file.Dir() == old(file.Dir()) || (io.unlockFails && file.Dir() == after))
                 && (Quiet(io) && file.fd >= 0 && (name in old(file.Dir()) || Creatable(edit(DefaultBase(name)))) ==> ret == E_OK)
  {
    hide FileInv, Contents, DcacheFileSize, Depth, NewMeta, After, IsAt, Readable, RoomFrom;
    var m;
    ret, m := file.DoLookup(DefaultBase(name), io);
    StorableIsCreatable(edit(DefaultBase(name)));
    if ret != E_OK {
      m := edit(m);
      ret := file.DoCreate(m, io);
    }
  }

  /** Edits an entry in sight; otherwise there is nothing to edit. */
  method DoChildUpdate(file: CloudDiskMetaFile, name: string, edit: MetaBase -> MetaBase, io: Io) returns (ret: int)
    requires file.Valid() && file.Unlocked(io) && KeepsName(edit)
    modifies file
    ensures file.Valid() && file.Unlocked(io) && |file.groups| == old(|file.groups|) && FullIds(old(file.Dir()))
    ensures file.fd < 0 ==> ret == EINVAL
    ensures file.fd >= 0 ==> (ret == ENOENT <==> !old(file.Seen(name, io)))
    ensures file.fd >= 0 && old(file.Seen(name, io)) ==>
              ret == if io.writeFails then EIO else if io.unlockFails then io.unlockErrno else E_OK
    ensures file.Dir() == if file.fd >= 0 && old(file.Seen(name, io)) && !io.writeFails
                          then old(file.Dir())[name := Upserted(old(file.Dir()), name, edit)] else old(file.Dir())
  {
    hide FileInv, Contents, DcacheFileSize, Depth, NewMeta, After, Stored, Overlaid, IsAt, Readable, RoomFrom;
    ContentsFullIds(file);
    var m;
    ret, m := file.DoLookup(DefaultBase(name), io);
    if ret != E_OK {
      return;
    }
    m := edit(m);
    ret := file.DoUpdate(m, io);
  }

  /** A name not in sight is not an error. */
  method DoLookupAndRemove(file: CloudDiskMetaFile, base: MetaBase, io: Io) returns (ret: int, out: MetaBase)
    requires file.Valid() && file.Unlocked(io)
    modifies file
    ensures file.Valid() && file.Unlocked(io) && |file.groups| == old(|file.groups|)
    ensures var seen := file.fd >= 0 && old(file.Seen(base.name, io));
            && ret == (if !seen then E_OK else if io.writeFails then EIO else if io.unlockFails then io.unlockErrno else E_OK)
            && file.Dir() == (if seen && !io.writeFails then old(file.Dir()) - {base.name} else old(file.Dir()))
            && out == (if seen then FromMeta(base.name, old(file.Dir())[base.name]) else base)
  {
    hide FileInv, Contents, DcacheFileSize, Depth, After, IsAt, Readable;
    ret, out := file.DoLookup(base, io);
    if ret == E_OK {
      ret := file.DoRemove(out.name, io);
      return;
    }
    ret := E_OK;
  }

  // ---------------------------------------------------------------------
  // Rename and the recycle bin
  // ---------------------------------------------------------------------

  /** Two directories after an entry moved from one to the other; they may be one and the same. */
  function MovedFrom(src: Directory, from: string, to: string, m: Meta, same: bool): Directory {
    (if same then src[to := m] else src) - {from}
  }

  function MovedTo(dst: Directory, from: string, to: string, m: Meta, same: bool): Directory {
    if same then dst[to := m] - {from} else dst[to := m]
  }

  /** The file takes a new entry: unlocked, and its next level still has exact addresses. */
  ghost predicate Growable(file: CloudDiskMetaFile)
    reads file
  {
    file.Valid() && After(file.trace) == Free && DepthOf(file) <= LAST_SAFE_LEVEL
  }

  /** A create of this entry succeeds: an open file, no entry of the name in sight, room within sight, a name
      and an id that fit, and a write that works. */
  ghost predicate Enters(file: CloudDiskMetaFile, base: MetaBase, io: Io)
    requires AllShaped(file.groups)
    reads file
  {
    && file.fd >= 0 && !file.Seen(base.name, io) && RoomFrom(file.groups, io, 0, file.hash(base.name), base)
    && Creatable(base) && !io.writeFails
  }

  /** Undisturbed, every entry that fits enters under a new name. */
  lemma QuietEnters(file: CloudDiskMetaFile, base: MetaBase, io: Io)
    requires Growable(file) && Quiet(io)
    ensures Enters(file, base, io) <==> file.fd >= 0 && base.name !in file.Dir() && Creatable(base)
  {
    hide FileInv, Contents, DcacheFileSize, Depth, After, RoomFrom, IsAt;
    QuietSees(file, base.name, io);
    StorableIsCreatable(base);
    if Creatable(base) {
      QuietFindsRoom(file.groups, file.hash, io, 0, base);
    }
  }

  /** A copy of the entry to the other name succeeds. */
  ghost predicate Copies(src: CloudDiskMetaFile, from: string, dst: CloudDiskMetaFile, to: string, io: Io)
    requires AllShaped(src.groups) && AllShaped(dst.groups)
    reads src, dst
  {
    src.fd >= 0 && src.Seen(from, io) && Enters(dst, FromMeta(to, src.Dir()[from]), io)
  }

  /** Undoing works: what was just created is found, written over and unlocked again. */
  predicate Undoes(io: Io) {
    Steady(io) && !io.writeFails
  }

  /** Creates under the new name, then removes the old one, undoing the create if that fails. */
  method DoRename(src: CloudDiskMetaFile, base: MetaBase, newName: string, dst: CloudDiskMetaFile,
                  ioCreate: Io, ioRemove: Io, ioUndo: Io)
    returns (ret: int)
    requires src.Valid() && After(src.trace) == Free && Growable(dst) && dst.Sighted(newName, ioCreate)
    requires !ioCreate.unlockFails && !ioRemove.unlockFails && !ioUndo.unlockFails
    modifies src, dst
    ensures src.Valid() && dst.Valid() && After(src.trace) == Free && After(dst.trace) == Free
    ensures ret == E_OK ==>
              var m := NewMeta(base.(name := newName));
              && newName !in old(dst.Dir())
              && src.Dir() == MovedFrom(old(src.Dir()), base.name, newName, m, src == dst)
              && dst.Dir() == MovedTo(old(dst.Dir()), base.name, newName, m, src == dst)
    ensures ret != E_OK && Undoes(ioUndo) ==> src.Dir() == old(src.Dir()) && dst.Dir() == old(dst.Dir())
    ensures dst.fd >= 0 && newName in old(dst.Dir()) && DentrySlots(|newName|) <= PER_GROUP ==> ret == EEXIST
    // Success: the new name enters, and the old one is in sight and can be written over.
    ensures src != dst || base.name != newName ==>
              (ret == E_OK <==> && old(Enters(dst, base.(name := newName), ioCreate)) && src.fd >= 0
                                && old(src.Seen(base.name, ioRemove)) && !ioRemove.writeFails)
    ensures src == dst && base.name == newName && Steady(ioRemove) ==>
              (ret == E_OK <==> old(Enters(dst, base, ioCreate)) && !ioRemove.writeFails)
    ensures Quiet(ioCreate) && Quiet(ioRemove) && (src != dst || base.name != newName) ==>
              (ret == E_OK <==> && src.fd >= 0 && dst.fd >= 0 && base.name in old(src.Dir()) && newName !in old(dst.Dir())
                                && Creatable(base.(name := newName)))
  {
    hide FileInv, Contents, DcacheFileSize, Depth, NewMeta, After, Readable, IsAt, RoomFrom, Creatable;
    StorableIsCreatable(base.(name := newName));
    if Quiet(ioCreate) {
      QuietEnters(dst, base.(name := newName), ioCreate);
    }
    if Quiet(ioRemove) {
      QuietSees(src, base.name, ioRemove);
    }
    ret := dst.DoCreate(base.(name := newName), ioCreate);
    if ret != E_OK {
      return;
    }
    if Steady(ioRemove) {
      QuietSees(src, base.name, ioRemove);
    }
    ret := src.DoRemove(base.name, ioRemove);
    if ret != E_OK {
      if Undoes(ioUndo) {
        QuietSees(dst, newName, ioUndo);
      }
      var _ := dst.DoRemove(newName, ioUndo);
      return;
    }
  }

  /** Looks an entry up and creates it under another name, unchanged. */
  method CopyEntry(src: CloudDiskMetaFile, from: string, dst: CloudDiskMetaFile, to: string, io: Io)
    returns (ret: int, copied: MetaBase)
    requires src.Valid() && After(src.trace) == Free && Growable(dst) && dst.Sighted(to, io) && !io.unlockFails
    modifies src, dst
    ensures src.Valid() && dst.Valid() && After(src.trace) == Free && After(dst.trace) == Free
    ensures src != dst ==> src.groups == old(src.groups)
    ensures src.fd >= 0 && !old(src.Seen(from, io)) ==> ret == ENOENT
    ensures ret == E_OK <==> old(Copies(src, from, dst, to, io))
    ensures ret == E_OK ==>
              && src.fd >= 0 && dst.fd >= 0
              && from in old(src.Dir()) && to !in old(dst.Dir()) && copied == FromMeta(from, old(src.Dir())[from])
              && dst.Dir() == old(dst.Dir())[to := old(src.Dir())[from]]
    ensures ret != E_OK ==> dst.Dir() == old(dst.Dir())
    ensures ret == E_OK ==> forall later: Io :: src.Visible(from, later) <==> old(src.Visible(from, later))
    ensures Quiet(io) ==>
              (ret == E_OK <==> && src.fd >= 0 && dst.fd >= 0 && from in old(src.Dir()) && to !in old(dst.Dir())
                                && 1 <= |to| <= 8 * PER_GROUP)
    ensures DepthOf(dst) <= old(DepthOf(dst)) + 1
  {
    hide FileInv, Contents, DcacheFileSize, Depth, NewMeta, After, Reported, Readable, IsAt, RoomFrom;
    if Quiet(io) {
      QuietSees(src, from, io);
    }
    ret, copied := src.DoLookup(DefaultBase(from), io);
    if ret != E_OK {
      return;
    }
    ghost var m := src.Dir()[from];
    ContentsReported(src.groups, from);
    MovesUnchanged(from, to, m);
    copied := copied.(name := to);
    StorableIsCreatable(copied);
    if Quiet(io) {
      QuietEnters(dst, copied, io);
    }
    ret := dst.DoCreate(copied, io);
    copied := copied.(name := from);
  }

  /** The common course of both recycle-bin moves: look up, create at the destination, remove at
      the source, and undo the create if the removal fails. A removal that does not get to see the
      source entry is not noticed, and leaves it in both places. */
  method Transfer(src: CloudDiskMetaFile, from: string, dst: CloudDiskMetaFile, to: string,
                  ioCreate: Io, ioRemove: Io, ioUndo: Io)
    returns (ret: int, moved: MetaBase)
    requires src.Valid() && After(src.trace) == Free && Growable(dst) && dst.Sighted(to, ioCreate)
    requires !ioCreate.unlockFails && !ioRemove.unlockFails && !ioUndo.unlockFails
    modifies src, dst
    ensures src.Valid() && dst.Valid() && After(src.trace) == Free && After(dst.trace) == Free
    ensures src.fd >= 0 && !old(src.Seen(from, ioCreate)) ==> ret == ENOENT
    ensures ret == E_OK <==> old(Copies(src, from, dst, to, ioCreate)) && !(old(src.Visible(from, ioRemove)) && ioRemove.writeFails)
    ensures ret == E_OK ==> from in old(src.Dir()) && to !in old(dst.Dir()) && moved == FromMeta(from, old(src.Dir())[from])
    ensures ret == E_OK && (Steady(ioRemove) || old(src.Visible(from, ioRemove))) ==>
              var m := old(src.Dir())[from];
              && src.Dir() == MovedFrom(old(src.Dir()), from, to, m, src == dst)
              && dst.Dir() == MovedTo(old(dst.Dir()), from, to, m, src == dst)
    ensures ret == E_OK && !old(src.Visible(from, ioRemove)) ==>
              var m := old(src.Dir())[from];
              && src.Dir() == (if src == dst then old(src.Dir())[to := m] else old(src.Dir()))
              && dst.Dir() == old(dst.Dir())[to := m]
    ensures ret != E_OK && Undoes(ioUndo) ==> src.Dir() == old(src.Dir()) && dst.Dir() == old(dst.Dir())
    ensures Quiet(ioCreate) && !ioRemove.writeFails ==>
              (ret == E_OK <==> && src.fd >= 0 && dst.fd >= 0 && from in old(src.Dir()) && to !in old(dst.Dir())
                                && 1 <= |to| <= 8 * PER_GROUP)
    ensures DepthOf(src) <= old(DepthOf(src)) + 1 && DepthOf(dst) <= old(DepthOf(dst)) + 1
  {
    hide FileInv, Contents, DcacheFileSize, Depth, NewMeta, After, Readable, IsAt, Copies, RoomFrom, Creatable;
    ret, moved := CopyEntry(src, from, dst, to, ioCreate);
    if ret != E_OK {
      return;
    }
    if Steady(ioRemove) {
      QuietSees(src, from, ioRemove);
    }
    ret, moved := DoLookupAndRemove(src, moved, ioRemove);
    if ret != E_OK {
      if Undoes(ioUndo) {
        QuietSees(dst, to, ioUndo);
      }
      var _, _ := DoLookupAndRemove(dst, moved.(name := to), ioUndo);
    }
  }

  lemma MovesUnchanged(from: string, to: string, m: Meta)
    requires Reported(m)
    ensures NewMeta(FromMeta(from, m).(name := to)) == m
    ensures |m.cloudId| == RECORD_ID_LEN
  {
    ReportedStoresBack(to, m);
    assert FromMeta(from, m).(name := to) == FromMeta(to, m);
  }

  datatype RestoreInfo = RestoreInfo(oldName: string, parentCloudId: string, newName: string, rowId: int)

  /** The name an entry goes by in `.trash`. */
  function TrashName(name: string, rowId: int): (r: string)
    ensures r != ""
  {
    name + "_" + ToString(rowId)
  }

  /** The name, an underscore, and the row's number in decimal. */
  lemma TrashNameSays(name: string, rowId: nat)
    ensures name < TrashName(name, rowId) && TrashName(name, rowId)[|name|] == '_'
    ensures var number := TrashName(name, rowId)[|name| + 1..]; AllDigits(number) && Value(number) == rowId
  {
    hide Digits, Value;
    DigitsReadBack(rowId);
    assert TrashName(name, rowId)[|name| + 1..] == ToString(rowId);
  }

  /** Different rows, or different names, never share a trash name. */
  lemma TrashNameInjective(name1: string, row1: int, name2: string, row2: int)
    requires TrashName(name1, row1) == TrashName(name2, row2)
    ensures name1 == name2 && row1 == row2
  {
    hide ToString;
    ToStringChars(row1, '_');
    ToStringChars(row2, '_');
    var s := TrashName(name1, row1);
    var t := TrashName(name2, row2);
    assert s[|name1|] == '_' && t[|name2|] == '_';
    assert forall k :: |name1| < k < |s| ==> s[k] == ToString(row1)[k - |name1| - 1];
    assert forall k :: |name2| < k < |t| ==> t[k] == ToString(row2)[k - |name2| - 1];
    assert |name1| == |name2|;
    assert name1 == s[..|name1|] == t[..|name2|] == name2;
    assert ToString(row1) == s[|name1| + 1..] == t[|name2| + 1..] == ToString(row2);
    ToStringInjective(row1, row2);
  }

  /** The entry leaves its directory and appears in the bin under its trash name, unchanged. */
  method MoveIntoRecycleDentryfile(src: CloudDiskMetaFile, bin: CloudDiskMetaFile, info: RestoreInfo,
                                   ioCreate: Io, ioRemove: Io, ioUndo: Io)
    returns (ret: int, moved: MetaBase)
    requires src.Valid() && After(src.trace) == Free && Growable(bin)
    requires bin.Sighted(TrashName(info.newName, info.rowId), ioCreate)
    requires !ioCreate.unlockFails && !ioRemove.unlockFails && !ioUndo.unlockFails
    modifies src, bin
    ensures src.Valid() && bin.Valid() && After(src.trace) == Free && After(bin.trace) == Free
    ensures src.fd >= 0 && !old(src.Seen(info.oldName, ioCreate)) ==> ret == ENOENT
    ensures ret == E_OK <==> && old(Copies(src, info.oldName, bin, TrashName(info.newName, info.rowId), ioCreate))
                             && !(old(src.Visible(info.oldName, ioRemove)) && ioRemove.writeFails)
    ensures ret == E_OK ==> && info.oldName in old(src.Dir()) && TrashName(info.newName, info.rowId) !in old(bin.Dir())
                            && moved == FromMeta(info.oldName, old(src.Dir())[info.oldName])
    ensures ret == E_OK && (Steady(ioRemove) || old(src.Visible(info.oldName, ioRemove))) ==>
              var m, trashName := old(src.Dir())[info.oldName], TrashName(info.newName, info.rowId);
              && src.Dir() == MovedFrom(old(src.Dir()), info.oldName, trashName, m, src == bin)
              && bin.Dir() == MovedTo(old(bin.Dir()), info.oldName, trashName, m, src == bin)
    ensures ret == E_OK && !old(src.Visible(info.oldName, ioRemove)) ==>
              var m, trashName := old(src.Dir())[info.oldName], TrashName(info.newName, info.rowId);
              && src.Dir() == (if src == bin then old(src.Dir())[trashName := m] else old(src.Dir()))
              && bin.Dir() == old(bin.Dir())[trashName := m]
    ensures ret != E_OK && Undoes(ioUndo) ==> src.Dir() == old(src.Dir()) && bin.Dir() == old(bin.Dir())
    ensures Quiet(ioCreate) && !ioRemove.writeFails ==>
              (ret == E_OK <==> && src.fd >= 0 && bin.fd >= 0 && info.oldName in old(src.Dir())
                                && TrashName(info.newName, info.rowId) !in old(bin.Dir())
                                && |TrashName(info.newName, info.rowId)| <= 8 * PER_GROUP)
    ensures DepthOf(src) <= old(DepthOf(src)) + 1 && DepthOf(bin) <= old(DepthOf(bin)) + 1
  {
    hide FileInv, Contents, DcacheFileSize, Depth, After, TrashName, Readable, IsAt;
    ret, moved := Transfer(src, info.oldName, bin, TrashName(info.newName, info.rowId), ioCreate, ioRemove, ioUndo);
  }

  /** The entry leaves the bin and appears in the directory under its new name, unchanged. */
  method RemoveFromRecycleDentryfile(bin: CloudDiskMetaFile, dst: CloudDiskMetaFile, info: RestoreInfo,
                                     ioCreate: Io, ioRemove: Io, ioUndo: Io)
    returns (ret: int, moved: MetaBase)
    requires bin.Valid() && After(bin.trace) == Free && Growable(dst) && dst.Sighted(info.newName, ioCreate)
    requires !ioCreate.unlockFails && !ioRemove.unlockFails && !ioUndo.unlockFails
    modifies bin, dst
    ensures bin.Valid() && dst.Valid() && After(bin.trace) == Free && After(dst.trace) == Free
    ensures bin.fd >= 0 && !old(bin.Seen(TrashName(info.oldName, info.rowId), ioCreate)) ==> ret == ENOENT
    ensures ret == E_OK <==> && old(Copies(bin, TrashName(info.oldName, info.rowId), dst, info.newName, ioCreate))
                             && !(old(bin.Visible(TrashName(info.oldName, info.rowId), ioRemove)) && ioRemove.writeFails)
    ensures ret == E_OK ==>
              && TrashName(info.oldName, info.rowId) in old(bin.Dir()) && info.newName !in old(dst.Dir())
              && moved == FromMeta(TrashName(info.oldName, info.rowId), old(bin.Dir())[TrashName(info.oldName, info.rowId)])
    ensures ret == E_OK && (Steady(ioRemove) || old(bin.Visible(TrashName(info.oldName, info.rowId), ioRemove))) ==>
              var name := TrashName(info.oldName, info.rowId);
              && bin.Dir() == MovedFrom(old(bin.Dir()), name, info.newName, old(bin.Dir())[name], bin == dst)
              && dst.Dir() == MovedTo(old(dst.Dir()), name, info.newName, old(bin.Dir())[name], bin == dst)
    ensures ret == E_OK && !old(bin.Visible(TrashName(info.oldName, info.rowId), ioRemove)) ==>
              var m := old(bin.Dir())[TrashName(info.oldName, info.rowId)];
              && bin.Dir() == (if bin == dst then old(bin.Dir())[info.newName := m] else old(bin.Dir()))
              && dst.Dir() == old(dst.Dir())[info.newName := m]
    ensures ret != E_OK && Undoes(ioUndo) ==> bin.Dir() == old(bin.Dir()) && dst.Dir() == old(dst.Dir())
    ensures Quiet(ioCreate) && !ioRemove.writeFails ==>
              (ret == E_OK <==> && bin.fd >= 0 && dst.fd >= 0 && TrashName(info.oldName, info.rowId) in old(bin.Dir())
                                && info.newName !in old(dst.Dir()) && 1 <= |info.newName| <= 8 * PER_GROUP)
    ensures DepthOf(bin) <= old(DepthOf(bin)) + 1 && DepthOf(dst) <= old(DepthOf(dst)) + 1
  {
    hide FileInv, Contents, DcacheFileSize, Depth, After, TrashName, Readable, IsAt;
    ret, moved := Transfer(bin, TrashName(info.oldName, info.rowId), dst, info.newName, ioCreate, ioRemove, ioUndo);
  }

  /** A recycling that goes wrong: the entry is in group 0, which can be read when the entry is looked up and
      copied, and cannot when it is to be removed. The move reports success, and the entry is in both places. */
  method RecycleLeavesBoth(base: MetaBase, hash: HashFn, rowId: int)
    returns (src: CloudDiskMetaFile, bin: CloudDiskMetaFile, ret: int)
    requires Creatable(base) && |TrashName(base.name, rowId)| <= 8 * PER_GROUP
    ensures ret == E_OK && src.Valid() && bin.Valid()
    ensures base.name in src.Dir() && TrashName(base.name, rowId) in bin.Dir()
  {
    hide FileInv, Shaped, Contents, DcacheFileSize, PairWith, EmptyGroup, After, TrashName, RoomFrom, Entries;
    PairHoldsOne(PER_GROUP, hash, base, 0);
    src := new CloudDiskMetaFile.Existing(hash, 3, PairWith(PER_GROUP, hash, base, 0));
    bin := new CloudDiskMetaFile(hash, 4);
    var ioRemove := Io(false, false, {}, 11, {0}, false, false, 11);
    assert IsAt(src.groups, 0, 0, base.name) && !Readable(ioRemove, 0);
    QuietSees(bin, TrashName(base.name, rowId), QUIET);
    QuietSees(src, base.name, QUIET);
    var moved;
    ret, moved := MoveIntoRecycleDentryfile(src, bin, RestoreInfo(base.name, "", base.name, rowId), QUIET, ioRemove, QUIET);
  }

  /** Names in a directory have 1 to 416 bytes. */
  lemma DirectoryNamesFit(file: CloudDiskMetaFile, name: string)
    requires file.Valid() && name in file.Dir()
    ensures 1 <= |name| <= 8 * PER_GROUP
  {
    hide RunsWhole, BitsOwned, Placed, Unique, WholeLevels;
    var a := PlaceOf(ListingOf(file.groups), name);
    EntryNameFits(file.groups[a.0], a.1);
  }

  /** Moving an entry conserves the number of entries, and moving it back restores both directories. */
  lemma MoveAndBack(src: Directory, dst: Directory, from: string, to: string)
    requires from in src && to !in dst
    ensures |src - {from}| + |dst[to := src[from]]| == |src| + |dst|
    ensures dst[to := src[from]] - {to} == dst
    ensures (src - {from})[from := src[from]] == src
  {
    assert (src - {from}).Keys == src.Keys - {from};
    assert dst[to := src[from]].Keys == dst.Keys + {to};
  }

  /** Recycling succeeds exactly for a name of the directory whose trash name is new to the bin and fits in a
      file; restoring it under its own name then puts both directories back as they were. */
  method RecycleThenRestore(src: CloudDiskMetaFile, bin: CloudDiskMetaFile, name: string, parent: string, rowId: int)
    returns (recycled: int, restored: int, ghost between: (Directory, Directory))
    requires src.Usable() && bin.Usable() && src != bin
    requires DepthOf(src) < LAST_SAFE_LEVEL && DepthOf(bin) < LAST_SAFE_LEVEL
    modifies src, bin
    ensures src.Valid() && bin.Valid()
    ensures recycled == E_OK <==> && name in old(src.Dir()) && TrashName(name, rowId) !in old(bin.Dir())
                                  && |TrashName(name, rowId)| <= 8 * PER_GROUP
    ensures recycled == E_OK ==>
              between == (old(src.Dir()) - {name}, old(bin.Dir())[TrashName(name, rowId) := old(src.Dir())[name]])
    ensures recycled == E_OK <==> restored == E_OK
    ensures src.Dir() == old(src.Dir()) && bin.Dir() == old(bin.Dir())
  {
    hide FileInv, Contents, DcacheFileSize, Depth, After, TrashName, NewMeta, Copies;
    ghost var source, trash := src.Dir(), bin.Dir();
    var info := RestoreInfo(name, parent, name, rowId);
    var moved;
    restored := ENOENT;
    if name in source {
      DirectoryNamesFit(src, name);
    }
    QuietSees(bin, TrashName(name, rowId), QUIET);
    recycled, moved := MoveIntoRecycleDentryfile(src, bin, info, QUIET, QUIET, QUIET);
    between := (src.Dir(), bin.Dir());
    if recycled == E_OK {
      MoveAndBack(source, trash, name, TrashName(name, rowId));
      QuietSees(src, name, QUIET);
      restored, moved := RemoveFromRecycleDentryfile(bin, src, info, QUIET, QUIET, QUIET);
    }
  }
}
