/** The file table and the dentry files side by side: what it means that they agree,
    and that every request of every run keeps them so. */
module TwoStores {
  import opened Common
  import opened Layout
  import opened Dentries
  import opened Decimal
  import DentryFiles
  import opened MetaFiles
  import opened MetaFileOps
  import opened DentryDirStores

  /** The columns of a row that its dentry repeats, and those that say where the dentry is.
      A row with recycled == 0 is live. */
  datatype Row = Row(rowId: int, parent: string, name: string, isDir: bool, size: i64, mtime: i64,
                     position: bv8, noUpload: bv8, recycled: i64)

  /** The table, by cloud id. */
  type Rows = map<string, Row>

  datatype Stores = Stores(rows: Rows, dirs: Dirs)

  // ---------------------------------------------------------------------
  // Agreement
  // ---------------------------------------------------------------------

  /** A directory and a name in it. */
  datatype Home = Home(dir: string, name: string)

  /** Where the row's dentry belongs: under its parent, or in the bin under its trash name. */
  function HomeOf(row: Row): Home {
    if row.recycled == 0 then Home(row.parent, row.name) else Home(TRASH, TrashName(row.name, row.rowId))
  }

  ghost predicate Sound(dirs: Dirs) {
    forall p: string :: p in dirs && AllReported(dirs[p])
  }

  ghost predicate Has(dirs: Dirs, h: Home) {
    h.dir in dirs && h.name in dirs[h.dir]
  }

  ghost function EntryAt(dirs: Dirs, h: Home): Meta
    requires Has(dirs, h)
  {
    dirs[h.dir][h.name]
  }

  ghost function Put(dirs: Dirs, h: Home, m: Meta): Dirs
    requires h.dir in dirs
  {
    dirs[h.dir := dirs[h.dir][h.name := m]]
  }

  predicate Describes(m: Meta, cloudId: string, row: Row) {
    && m.cloudId == Padded(cloudId)
    && m.position == row.position
    && m.noUpload == row.noUpload
    && m.mtime == AsUint64(row.mtime)
    && (!row.isDir ==> m.size == AsUint64(row.size))
  }

  /** Where the bin itself is listed: in the root directory. It has no row. */
  const BIN: Home := Home(ROOT_CLOUD_ID, TRASH)

  const STAT_MODE_DIR: u32 := 0x1F9

  /** An entry through which the bin is found. */
  predicate NamesBin(m: Meta) {
    m.cloudId == Padded(TRASH) && m.mode == S_IFDIR + STAT_MODE_DIR
  }

  /** The row's dentry is at its home and says what the row says. */
  ghost predicate RowShown(s: Stores, cloudId: string)
    requires cloudId in s.rows
  {
    var row := s.rows[cloudId];
    && row.parent != TRASH && HomeOf(row) != BIN
    && Has(s.dirs, HomeOf(row))
    && Describes(EntryAt(s.dirs, HomeOf(row)), cloudId, row)
  }

  /** No two rows share a row id or a home. */
  ghost predicate RowsApart(rows: Rows) {
    forall id, id' :: id in rows && id' in rows && id != id' ==>
                        rows[id].rowId != rows[id'].rowId && HomeOf(rows[id]) != HomeOf(rows[id'])
  }

  ghost predicate RowIdFree(rows: Rows, rowId: int) {
    forall id :: id in rows ==> rows[id].rowId != rowId
  }

  ghost predicate Owned(rows: Rows, h: Home) {
    exists id :: id in rows && HomeOf(rows[id]) == h
  }

  /** Rows and dentries, but for the bin's own, correspond one to one, each dentry at its row's home and
      describing it; and what is listed as the bin is the bin. */
  ghost predicate Agreement(s: Stores) {
    && Sound(s.dirs)
    && (forall id :: id in s.rows ==> RowShown(s, id))
    && RowsApart(s.rows)
    && (forall h: Home :: Has(s.dirs, h) ==> Owned(s.rows, h) || h == BIN)
    && (Has(s.dirs, BIN) ==> NamesBin(EntryAt(s.dirs, BIN)))
  }

  /** In stores that agree, a dentry shows its row's id, and rows with different ids have dentries with
      different ids, as long as ids fit their field and hold no zero byte. */
  lemma IdsApart(s: Stores, a: string, b: string)
    requires Agreement(s) && a in s.rows && b in s.rows && |a| <= 33 && |b| <= 33 && '\0' !in a && '\0' !in b
    ensures Has(s.dirs, HomeOf(s.rows[a])) && Has(s.dirs, HomeOf(s.rows[b]))
    ensures var m := EntryAt(s.dirs, HomeOf(s.rows[a]));
            && |m.cloudId| == 33 && a <= m.cloudId && forall j :: |a| <= j < 33 ==> m.cloudId[j] == '\0'
    ensures EntryAt(s.dirs, HomeOf(s.rows[a])).cloudId == EntryAt(s.dirs, HomeOf(s.rows[b])).cloudId ==> a == b
  {
    hide RowsApart, Owned, AllReported, NamesBin, HomeOf;
    assert RowShown(s, a) && RowShown(s, b);
    PaddedApart(a, b);
  }

  lemma EmptyStoresAgree(s: Stores)
    requires s.rows == map[] && forall p: string :: p in s.dirs && s.dirs[p] == map[]
    ensures Agreement(s)
  {
    forall h: Home ensures !Has(s.dirs, h) {
    }
  }

  lemma SoundAt(dirs: Dirs, p: string)
    requires Sound(dirs)
    ensures p in dirs && FullIds(dirs[p])
  {
    forall name | name in dirs[p] ensures |dirs[p][name].cloudId| == RECORD_ID_LEN {
      assert Reported(dirs[p][name]);
    }
  }

  lemma PutSound(dirs: Dirs, h: Home, m: Meta)
    requires Sound(dirs) && Reported(m)
    ensures Sound(Put(dirs, h, m))
    ensures forall h': Home :: Has(Put(dirs, h, m), h') <==> h' == h || Has(dirs, h')
    ensures forall h': Home :: Has(Put(dirs, h, m), h') ==>
                                 EntryAt(Put(dirs, h, m), h') == if h' == h then m else EntryAt(dirs, h')
  {
  }

  /** A new row whose home is free, together with its dentry. */
  lemma InsertKeeps(s: Stores, id: string, row: Row, m: Meta)
    requires Agreement(s) && id !in s.rows && row.parent != TRASH && Describes(m, id, row) && Reported(m)
    requires RowIdFree(s.rows, row.rowId)
    requires !Has(s.dirs, HomeOf(row)) && HomeOf(row) != BIN
    ensures Agreement(Stores(s.rows[id := row], Put(s.dirs, HomeOf(row), m)))
  {
    hide Describes, HomeOf, Has, EntryAt, Put, Sound, FullIds, NamesBin;
    SoundAt(s.dirs, HomeOf(row).dir);
    var t := Stores(s.rows[id := row], Put(s.dirs, HomeOf(row), m));
    PutSound(s.dirs, HomeOf(row), m);
    forall o | o in t.rows ensures RowShown(t, o) {
      assert o != id ==> RowShown(s, o);
    }
    forall h: Home | Has(t.dirs, h) && h != BIN ensures Owned(t.rows, h) {
      if h == HomeOf(row) {
        assert HomeOf(t.rows[id]) == h;
      } else {
        var o :| o in s.rows && HomeOf(s.rows[o]) == h;
        assert HomeOf(t.rows[o]) == h;
      }
    }
  }

  /** The same rows, with row ids, parents and homes unchanged. */
  ghost predicate SamePlaces(rows: Rows, rows': Rows) {
    && rows'.Keys == rows.Keys
    && forall id :: id in rows ==>
         rows'[id].rowId == rows[id].rowId && rows'[id].parent == rows[id].parent && HomeOf(rows'[id]) == HomeOf(rows[id])
  }

  /** The dentry at a row's home once m is put at h. */
  ghost function ShownAfter(s: Stores, id: string, h: Home, m: Meta): Meta
    requires id in s.rows && Has(s.dirs, HomeOf(s.rows[id]))
  {
    if HomeOf(s.rows[id]) == h then m else EntryAt(s.dirs, HomeOf(s.rows[id]))
  }

  /** One dentry is written and rows change in place: both stores agree afterwards exactly when the dentry
      belongs to a row or the bin, and every row is still described by its dentry. */
  lemma RewriteAgreesIff(s: Stores, rows: Rows, h: Home, m: Meta)
    requires Agreement(s) && SamePlaces(s.rows, rows) && Reported(m)
    ensures h.dir in s.dirs && forall id :: id in s.rows ==> Has(s.dirs, HomeOf(s.rows[id]))
    ensures Agreement(Stores(rows, Put(s.dirs, h, m)))
            <==> && (if h == BIN then NamesBin(m) else Has(s.dirs, h))
                 && (forall id :: id in s.rows ==> Describes(ShownAfter(s, id, h, m), id, rows[id]))
  {
    hide Describes, HomeOf, Has, EntryAt, Put, Sound, FullIds, NamesBin;
    SoundAt(s.dirs, h.dir);
    PutSound(s.dirs, h, m);
    var t := Stores(rows, Put(s.dirs, h, m));
    forall id | id in s.rows
      ensures Has(s.dirs, HomeOf(s.rows[id]))
      ensures RowShown(t, id) <==> Describes(ShownAfter(s, id, h, m), id, rows[id])
    {
      assert RowShown(s, id);
    }
    RowsStayApart(s.rows, rows);
    forall g: Home ensures Owned(t.rows, g) <==> Owned(s.rows, g) {
      SameOwners(s.rows, rows, g);
    }
    if h != BIN && !Has(s.dirs, h) {
      NotOwned(s, h);
      assert Has(t.dirs, h);
    }
  }

  lemma RowsStayApart(rows: Rows, rows': Rows)
    requires SamePlaces(rows, rows') && RowsApart(rows)
    ensures RowsApart(rows')
  {
    hide HomeOf;
  }

  lemma SameOwners(rows: Rows, rows': Rows, h: Home)
    requires SamePlaces(rows, rows')
    ensures Owned(rows', h) <==> Owned(rows, h)
  {
    hide HomeOf;
    if Owned(rows, h) {
      var o :| o in rows && HomeOf(rows[o]) == h;
      assert HomeOf(rows'[o]) == h;
    }
    if Owned(rows', h) {
      var o :| o in rows' && HomeOf(rows'[o]) == h;
      assert HomeOf(rows[o]) == h;
    }
  }

  /** Where no dentry is, no row belongs. */
  lemma NotOwned(s: Stores, h: Home)
    requires Agreement(s) && !Has(s.dirs, h)
    ensures !Owned(s.rows, h)
  {
    hide HomeOf, Describes;
    forall o | o in s.rows ensures HomeOf(s.rows[o]) != h {
      assert RowShown(s, o);
    }
  }

  lemma MovedSound(dirs: Dirs, a: Home, b: Home)
    requires Sound(dirs) && Has(dirs, a) && !Has(dirs, b)
    ensures b.dir in dirs
    ensures var after := Moved(dirs, a.dir, a.name, b.dir, b.name);
            && Sound(after)
            && (forall h: Home :: Has(after, h) <==> h == b || (h != a && Has(dirs, h)))
            && (forall h: Home :: Has(after, h) ==> EntryAt(after, h) == EntryAt(dirs, if h == b then a else h))
  {
  }

  /** A row's home changes and its dentry moves along. */
  lemma MoveKeeps(s: Stores, id: string, row: Row)
    requires Agreement(s) && id in s.rows && row.parent != TRASH && row.rowId == s.rows[id].rowId
    requires !Has(s.dirs, HomeOf(row)) && HomeOf(row) != BIN
    requires Has(s.dirs, HomeOf(s.rows[id])) && Describes(EntryAt(s.dirs, HomeOf(s.rows[id])), id, row)
    ensures HomeOf(row).dir in s.dirs
    ensures var a, b := HomeOf(s.rows[id]), HomeOf(row);
            Agreement(Stores(s.rows[id := row], Moved(s.dirs, a.dir, a.name, b.dir, b.name)))
  {
    hide Describes, HomeOf, EntryAt, Moved, Sound, FullIds, NamesBin;
    var a, b := HomeOf(s.rows[id]), HomeOf(row);
    assert RowShown(s, id);
    MovedSound(s.dirs, a, b);
    NotOwned(s, b);
    var t := Stores(s.rows[id := row], Moved(s.dirs, a.dir, a.name, b.dir, b.name));
    forall o | o in t.rows ensures RowShown(t, o) {
      assert RowShown(s, o);
    }
    forall h: Home | Has(t.dirs, h) && h != BIN ensures Owned(t.rows, h) {
      if h == b {
        assert HomeOf(t.rows[id]) == h;
      } else {
        var o :| o in s.rows && HomeOf(s.rows[o]) == h;
        assert HomeOf(t.rows[o]) == h;
      }
    }
  }

  // ---------------------------------------------------------------------
  // Requests
  // ---------------------------------------------------------------------

  const LOCAL: bv8 := 1
  const NO_UPLOAD: bv8 := 1
  const FILE_TYPE_CONTENT: bv8 := 0
  /** What stat reports of the local file, times in milliseconds. */
  datatype Stat = Stat(size: i64, mtime: i64, mode: u32)

  /** A request with what its environment supplied: clock readings, stat results, the row id
      given by the table, and for a restore the directory found and the name chosen. */
  datatype Request =
    | Create(cloudId: string, parent: string, name: string, noUpload: bool, stat: Stat, added: i64, rowId: int)
    | MkDir(cloudId: string, parent: string, name: string, noUpload: bool, added: i64, edited: i64, rowId: int)
    | SizeSetAttr(name: string, parent: string, cloudId: string, size: u64)
    | MtimeSetAttr(name: string, parent: string, cloudId: string, mtime: u64)
    | Write(name: string, parent: string, cloudId: string, stat: Stat)
    | LocationSetXattr(name: string, parent: string, cloudId: string, position: bv8)
    | Recycle(name: string, parent: string, cloudId: string, now: i64)
    | Restore(name: string, parent: string, cloudId: string, newName: string)

  predicate Makes(r: Request) { r.Create? || r.MkDir? }

  predicate Edits(r: Request) { r.SizeSetAttr? || r.MtimeSetAttr? || r.Write? || r.LocationSetXattr? }

  function NoUploadOf(no: bool): bv8 { if no then NO_UPLOAD else 0 }

  function NewRow(r: Request): Row
    requires Makes(r)
  {
    if r.Create? then
      Row(r.rowId, r.parent, r.name, false, r.stat.size, r.stat.mtime, LOCAL, NoUploadOf(r.noUpload), 0)
    else
      Row(r.rowId, r.parent, r.name, true, 0, r.edited, LOCAL, NoUploadOf(r.noUpload), 0)
  }

  /** The fields a creation hands to the dentry, all but the name. */
  function NewFields(r: Request, b: MetaBase): MetaBase
    requires Makes(r)
  {
    if r.Create? then
      MetaBase(b.name, AsUint64(r.added), AsUint64(r.stat.mtime), AsUint64(r.stat.size), r.stat.mode,
               LOCAL, FILE_TYPE_CONTENT, NoUploadOf(r.noUpload), r.cloudId)
    else
      MetaBase(b.name, AsUint64(r.added), AsUint64(r.edited), 0, S_IFDIR + STAT_MODE_DIR,
               LOCAL, FILE_TYPE_CONTENT, NoUploadOf(r.noUpload), r.cloudId)
  }

  /** The callback each request passes to the dentry file. */
  function Change(r: Request): (edit: MetaBase -> MetaBase) {
    match r
    case Create(_, _, _, _, _, _, _) => (b: MetaBase) => NewFields(r, b)
    case MkDir(_, _, _, _, _, _, _) => (b: MetaBase) => NewFields(r, b)
    case SizeSetAttr(_, _, _, size) => (b: MetaBase) => b.(size := size)
    case MtimeSetAttr(_, _, _, mtime) => (b: MetaBase) => b.(mtime := mtime)
    case Write(_, _, _, stat) => (b: MetaBase) => b.(mtime := AsUint64(stat.mtime), size := AsUint64(stat.size))
    case LocationSetXattr(_, _, _, position) => (b: MetaBase) => b.(position := position)
    case _ => (b: MetaBase) => b
  }

  lemma ChangeKeepsName(r: Request)
    ensures KeepsName(Change(r))
  {
  }

  /** What each request changes in the row of its cloud id. */
  function RowAfter(row: Row, r: Request): Row {
    match r
    case SizeSetAttr(_, _, _, size) => row.(size := AsInt64(size))
    case MtimeSetAttr(_, _, _, mtime) => row.(mtime := AsInt64(mtime))
    case Write(_, _, _, stat) => row.(size := stat.size, mtime := stat.mtime)
    case LocationSetXattr(_, _, _, position) => row.(position := position)
    case Recycle(_, _, _, now) => row.(recycled := now)
    case Restore(_, parent, _, newName) => row.(parent := parent, name := newName, recycled := 0)
    case _ => row
  }

  function RowsAfter(rows: Rows, r: Request): Rows {
    if Makes(r) then rows[r.cloudId := NewRow(r)]
    else if r.cloudId in rows then rows[r.cloudId := RowAfter(rows[r.cloudId], r)]
    else rows
  }

  /** The trash name of the request's row. */
  function Binned(rows: Rows, r: Request): string
    requires r.cloudId in rows && (r.Recycle? || r.Restore?)
  {
    TrashName(r.name, rows[r.cloudId].rowId)
  }

  ghost function DirsAfter(s: Stores, r: Request): Dirs
    requires Sound(s.dirs) && Succeeds(s, r)
  {
    match r
    case Recycle(_, _, _, _) => Moved(s.dirs, r.parent, r.name, TRASH, Binned(s.rows, r))
    case Restore(_, _, _, _) => Moved(s.dirs, TRASH, Binned(s.rows, r), r.parent, r.newName)
    case _ => Put(s.dirs, Home(r.parent, r.name), Upserted(s.dirs[r.parent], r.name, Change(r)))
  }

  ghost function Done(s: Stores, r: Request): Stores
    requires Sound(s.dirs) && Succeeds(s, r)
  {
    Stores(RowsAfter(s.rows, r), DirsAfter(s, r))
  }

  /** What the code itself finds out before it returns success. */
  ghost predicate Succeeds(s: Stores, r: Request)
    requires Sound(s.dirs)
  {
    match r
    case Create(id, _, _, _, _, _, rowId) =>
      id !in s.rows && RowIdFree(s.rows, rowId) && CreatesEntry(s, r)
    case MkDir(id, _, name, _, _, _, rowId) =>
      id !in s.rows && RowIdFree(s.rows, rowId) && CreatesEntry(s, r) && name != TRASH
    case SizeSetAttr(_, _, _, _) => true
    case MtimeSetAttr(_, _, id, _) => id in s.rows
    case Write(name, parent, id, _) => id in s.rows && name in s.dirs[parent]
    case LocationSetXattr(_, _, _, position) => 1 <= position <= 3
    case Recycle(name, parent, id, _) =>
      id in s.rows && name in s.dirs[parent] && Binned(s.rows, r) !in s.dirs[TRASH]
    case Restore(_, parent, id, newName) =>
      id in s.rows && Binned(s.rows, r) in s.dirs[TRASH] && newName !in s.dirs[parent]
  }

  ghost predicate CreatesEntry(s: Stores, r: Request)
    requires Sound(s.dirs) && Makes(r)
  {
    r.name in s.dirs[r.parent] || Creatable(Change(r)(DefaultBase(r.name)))
  }

  // ---------------------------------------------------------------------
  // What each request means, by its arguments alone
  // ---------------------------------------------------------------------

  /** The same 64-bit word, signed or not. */
  ghost predicate SameWord(a: int, b: int) {
    (a - b) % 0x1_0000_0000_0000_0000 == 0
  }

  /** The row of the request's cloud id, given the one before where there was one. */
  ghost predicate RowSays(before: Rows, r: Request, row: Row) {
    if r.Create? then
      && row.rowId == r.rowId && row.parent == r.parent && row.name == r.name && !row.isDir && row.recycled == 0
      && row.size == r.stat.size && row.mtime == r.stat.mtime && row.position == 1 && row.noUpload == (if r.noUpload then 1 else 0)
    else if r.MkDir? then
      && row.rowId == r.rowId && row.parent == r.parent && row.name == r.name && row.isDir && row.recycled == 0
      && row.size == 0 && row.mtime == r.edited && row.position == 1 && row.noUpload == (if r.noUpload then 1 else 0)
    else
      r.cloudId in before &&
      var was := before[r.cloudId];
      match r
      case SizeSetAttr(_, _, _, size) => row == was.(size := row.size) && SameWord(row.size, size)
      case MtimeSetAttr(_, _, _, mtime) => row == was.(mtime := row.mtime) && SameWord(row.mtime, mtime)
      case Write(_, _, _, stat) => row == was.(size := stat.size, mtime := stat.mtime)
      case LocationSetXattr(_, _, _, position) => row == was.(position := position)
      case Recycle(_, _, _, now) => row == was.(recycled := now)
      case Restore(_, parent, _, newName) => row == was.(parent := parent, name := newName, recycled := 0)
      case _ => true
  }

  /** The table after a request: only that row changes, and only a creation adds one. */
  ghost predicate TableSays(before: Rows, r: Request, after: Rows) {
    && after.Keys == before.Keys + (if r.Create? || r.MkDir? then {r.cloudId} else {})
    && (forall id :: id in before && id != r.cloudId ==> after[id] == before[id])
    && (r.cloudId in after ==> RowSays(before, r, after[r.cloudId]))
  }

  /** An entry with the id in front, and zero bytes behind it if it is a new one. */
  ghost predicate IdSays(m: Meta, cloudId: string, new_: bool) {
    && (|cloudId| <= 33 ==> cloudId <= m.cloudId)
    && (new_ ==> |cloudId| <= |m.cloudId| == 33 && forall j :: |cloudId| <= j < 33 ==> m.cloudId[j] == '\0')
  }

  /** What an entry that an edit finds missing starts as: a regular file on the device, with no id. */
  ghost predicate Blank(m: Meta) {
    && m.atime == 0 && m.mtime == 0 && m.size == 0 && m.mode == 0x8000 && m.position == 1 && m.fileType == 0 && m.noUpload == 0
    && |m.cloudId| == 33 && forall j :: 0 <= j < 33 ==> m.cloudId[j] == '\0'
  }

  /** The entry a creation or an edit leaves, given the one before where there was one. */
  ghost predicate EntrySays(before: DentryFiles.Directory, r: Request, m: Meta) {
    match r
    case Create(id, _, name, no, stat, added, _) =>
      && SameWord(m.atime, added) && SameWord(m.mtime, stat.mtime) && SameWord(m.size, stat.size) && m.mode == stat.mode % 0x1_0000
      && m.position == 1 && m.fileType == 0 && m.noUpload == (if no then 1 else 0) && IdSays(m, id, name !in before)
    case MkDir(id, _, name, no, added, edited, _) =>
      && SameWord(m.atime, added) && SameWord(m.mtime, edited) && m.size == 0 && m.mode == 0x41F9
      && m.position == 1 && m.fileType == 0 && m.noUpload == (if no then 1 else 0) && IdSays(m, id, name !in before)
    case SizeSetAttr(name, _, _, size) =>
      m.size == size && (if name in before then m == before[name].(size := m.size) else Blank(m.(size := 0)))
    case MtimeSetAttr(name, _, _, mtime) =>
      m.mtime == mtime && (if name in before then m == before[name].(mtime := m.mtime) else Blank(m.(mtime := 0)))
    case Write(name, _, _, stat) =>
      && SameWord(m.mtime, stat.mtime) && SameWord(m.size, stat.size)
      && name in before && m == before[name].(mtime := m.mtime, size := m.size)
    case LocationSetXattr(name, _, _, position) =>
      m.position == position && (if name in before then m == before[name].(position := m.position) else Blank(m.(position := 1)))
    case _ => true
  }

  /** The directories after a request: one entry written, or one entry moved as it is, to or from the bin, where
      it goes by its name, an underscore and its row's number. */
  ghost predicate DirsSay(s: Stores, r: Request, after: Dirs) {
    match r
    case Recycle(name, parent, id, _) =>
      && id in s.rows && parent in s.dirs && name in s.dirs[parent] && TRASH in s.dirs
      && EntryMoves(s.dirs, parent, name, ".trash", name + "_" + ToString(s.rows[id].rowId), after)
    case Restore(name, parent, id, newName) =>
      && id in s.rows && TRASH in s.dirs && parent in s.dirs && name + "_" + ToString(s.rows[id].rowId) in s.dirs[TRASH]
      && EntryMoves(s.dirs, ".trash", name + "_" + ToString(s.rows[id].rowId), parent, newName, after)
    case _ =>
      && r.parent in s.dirs && r.parent in after
      && (forall p :: p in s.dirs && p != r.parent ==> p in after && after[p] == s.dirs[p])
      && r.name in after[r.parent] && after[r.parent] == s.dirs[r.parent][r.name := after[r.parent][r.name]]
      && EntrySays(s.dirs[r.parent], r, after[r.parent][r.name])
  }

  ghost predicate EntryMoves(dirs: Dirs, a: string, from: string, b: string, name: string, after: Dirs) {
    && a in dirs && b in dirs && from in dirs[a] && name !in dirs[b] && a in after && b in after
    && (forall p :: p in dirs && p != a && p != b ==> p in after && after[p] == dirs[p])
    && name in after[b] && after[b][name] == dirs[a][from]
    && from !in after[a]
    && (forall x :: x in dirs[a] && x != from ==> x in after[a] && after[a][x] == dirs[a][x])
    && (forall x :: x in dirs[b] && (a != b || x != from) ==> x in after[b] && after[b][x] == dirs[b][x])
    && (forall x :: x in after[a] ==> x in dirs[a] || (a == b && x == name))
    && (forall x :: x in after[b] ==> x in dirs[b] || x == name)
  }

  /** What the model's requests do is what they mean. */
  lemma RowsSay(rows: Rows, r: Request)
    requires r.LocationSetXattr? ==> 1 <= r.position <= 3
    ensures TableSays(rows, r, RowsAfter(rows, r))
  {
  }

  lemma MadeSays(before: DentryFiles.Directory, r: Request)
    requires Makes(r) && FullIds(before) && (r.name !in before ==> |r.cloudId| <= RECORD_ID_LEN)
    ensures EntrySays(before, r, Upserted(before, r.name, Change(r)))
  {
  }

  lemma EditSaysSo(before: DentryFiles.Directory, r: Request)
    requires Edits(r) && AllReported(before) && FullIds(before) && (r.LocationSetXattr? ==> 1 <= r.position <= 3)
    requires r.Write? ==> r.name in before
    ensures EntrySays(before, r, Upserted(before, r.name, Change(r)))
  {
  }

  lemma MovedSays(dirs: Dirs, a: string, from: string, b: string, name: string)
    requires a in dirs && b in dirs && from in dirs[a] && name !in dirs[b]
    ensures EntryMoves(dirs, a, from, b, name, Moved(dirs, a, from, b, name))
  {
  }

  /** Every request that succeeds does what it means, to the table and to the directories. */
  lemma RequestSays(s: Stores, r: Request)
    requires Sound(s.dirs) && Succeeds(s, r)
    ensures TableSays(s.rows, r, RowsAfter(s.rows, r)) && DirsSay(s, r, DirsAfter(s, r))
  {
    hide TableSays, EntrySays, Upserted, Change, Moved, EntryMoves, RowsAfter, AllReported, Creatable, FullIds;
    RowsSay(s.rows, r);
    SoundAt(s.dirs, r.parent);
    SoundAt(s.dirs, TRASH);
    if r.Recycle? {
      MovedSays(s.dirs, r.parent, r.name, TRASH, Binned(s.rows, r));
    } else if r.Restore? {
      MovedSays(s.dirs, TRASH, Binned(s.rows, r), r.parent, r.newName);
    } else if Makes(r) {
      if r.name !in s.dirs[r.parent] {
        MadeId(r);
      }
      MadeSays(s.dirs[r.parent], r);
    } else {
      EditSaysSo(s.dirs[r.parent], r);
    }
  }

  lemma MadeId(r: Request)
    requires Makes(r) && Creatable(Change(r)(DefaultBase(r.name)))
    ensures |r.cloudId| <= RECORD_ID_LEN
  {
  }

  /** The entry already says, as far as rows are concerned, what the request sets. */
  predicate Already(m: Meta, isDir: bool, r: Request)
    requires Edits(r)
  {
    match r
    case SizeSetAttr(_, _, _, size) => isDir || m.size == size
    case MtimeSetAttr(_, _, _, mtime) => m.mtime == mtime
    case Write(_, _, _, stat) => m.mtime == AsUint64(stat.mtime) && (isDir || m.size == AsUint64(stat.size))
    case LocationSetXattr(_, _, _, position) => m.position == position
  }

  /** The entry at h belongs to the bin, or already says what the request sets. */
  ghost predicate Unmoved(s: Stores, r: Request, h: Home)
    requires Edits(r)
  {
    Has(s.dirs, h) && forall o :: o in s.rows && HomeOf(s.rows[o]) == h ==> Already(EntryAt(s.dirs, h), s.rows[o].isDir, r)
  }

  /** An edit of a row's own dentry, or one that changes nothing on either side. */
  ghost predicate EditFits(s: Stores, r: Request)
    requires Edits(r)
  {
    var h := Home(r.parent, r.name);
    || (r.cloudId in s.rows && HomeOf(s.rows[r.cloudId]) == h)
    || (Unmoved(s, r, h) && (r.cloudId in s.rows ==> Unmoved(s, r, HomeOf(s.rows[r.cloudId]))))
  }

  /** Exactly what it takes to keep both stores in agreement: a free name for a new row, outside the bin and
      other than the bin's; an edit that fits; a recycled row's own parent and name, and a clock past its
      epoch; a restored row's place outside the bin and other than the bin's. */
  ghost predicate Fitting(s: Stores, r: Request)
    requires Sound(s.dirs)
  {
    match r
    case Create(_, parent, name, _, _, _, _) => FreePlace(s.dirs, Home(parent, name))
    case MkDir(_, parent, name, _, _, _, _) => FreePlace(s.dirs, Home(parent, name))
    case Recycle(name, parent, id, now) =>
      id in s.rows && s.rows[id].recycled == 0 && s.rows[id].parent == parent && s.rows[id].name == name && now != 0
    case Restore(_, parent, _, newName) => parent != TRASH && Home(parent, newName) != BIN
    case _ => EditFits(s, r)
  }

  ghost predicate FreePlace(dirs: Dirs, h: Home) {
    h.dir != TRASH && h != BIN && !Has(dirs, h)
  }

  // ---------------------------------------------------------------------
  // Which requests keep the agreement
  // ---------------------------------------------------------------------

  lemma MadeIsDescribed(r: Request)
    requires Makes(r)
    ensures var m := NewMeta(Change(r)(DefaultBase(r.name)));
            Reported(m) && Describes(m, r.cloudId, NewRow(r))
  {
  }

  /** A creation keeps the agreement exactly when its place is free: the code overwrites the dentry of a
      taken name, and two rows, or a row and the bin, are left with one dentry. */
  lemma MakeKeepsIff(s: Stores, r: Request)
    requires Agreement(s) && Makes(r) && Succeeds(s, r)
    ensures Agreement(Done(s, r)) <==> Fitting(s, r)
  {
    hide Describes, TrashName, Creatable, Upserted, NewMeta, NamesBin;
    var h := Home(r.parent, r.name);
    if Fitting(s, r) {
      MadeIsDescribed(r);
      FreshUpserted(s.dirs, r);
      InsertKeeps(s, r.cloudId, NewRow(r), NewMeta(Change(r)(DefaultBase(r.name))));
    } else {
      var t := Done(s, r);
      if r.parent == TRASH || h == BIN {
        assert !RowShown(t, r.cloudId);
      } else {
        assert Has(s.dirs, h);
        var o :| o in s.rows && HomeOf(s.rows[o]) == h;
        assert HomeOf(t.rows[o]) == HomeOf(t.rows[r.cloudId]);
        assert !RowsApart(t.rows);
      }
    }
  }

  lemma FreshUpserted(dirs: Dirs, r: Request)
    requires Sound(dirs) && r.name !in dirs[r.parent]
    ensures FullIds(dirs[r.parent]) && Upserted(dirs[r.parent], r.name, Change(r)) == NewMeta(Change(r)(DefaultBase(r.name)))
  {
    hide Change, NewMeta;
    SoundAt(dirs, r.parent);
  }

  /** The entry an edit leaves: the old one with the edited fields, its id, mode and other flags intact. */
  lemma EditedEntry(m: Meta, r: Request)
    requires Reported(m) && Edits(r) && (r.LocationSetXattr? ==> 1 <= r.position <= 3)
    ensures var b := Change(r)(FromMeta(r.name, m));
            var after := Stored(b, Overlaid(m.cloudId, b.cloudId));
            && Reported(after) && after.cloudId == m.cloudId && after.mode == m.mode
            && (forall id: string, row: Row :: Describes(m, id, row) ==>
                  && Describes(after, id, RowAfter(row, r))
                  && (Describes(after, id, row) <==> Already(m, row.isDir, r)))
  {
    var b := Change(r)(FromMeta(r.name, m));
    assert b.cloudId == m.cloudId;
    assert Overlaid(m.cloudId, b.cloudId) == m.cloudId;
    LowBits(m.position, m.fileType, m.noUpload);
    LowBits(b.position, m.fileType, m.noUpload);
    if r.SizeSetAttr? {
      CastsBack(r.size);
    } else if r.MtimeSetAttr? {
      CastsBack(r.mtime);
    }
  }

  /** A row edited away from its dentry is still described by it exactly when nothing changes. */
  lemma EditedRow(m: Meta, id: string, row: Row, r: Request)
    requires Edits(r) && Describes(m, id, row)
    ensures Describes(m, id, RowAfter(row, r)) <==> Already(m, row.isDir, r)
  {
    if r.SizeSetAttr? {
      CastsBack(r.size);
    } else if r.MtimeSetAttr? {
      CastsBack(r.mtime);
    }
  }

  lemma EditsStayInPlace(rows: Rows, r: Request)
    requires Edits(r)
    ensures SamePlaces(rows, RowsAfter(rows, r)) && SamePlaces(rows, rows)
  {
  }

  /** What an edit writes where there was nothing: neither a row's dentry nor the bin's. */
  lemma FreshEdit(dirs: Dirs, r: Request)
    requires Sound(dirs) && Edits(r) && r.name !in dirs[r.parent] && (r.LocationSetXattr? ==> 1 <= r.position <= 3)
    ensures FullIds(dirs[r.parent])
    ensures var m := Upserted(dirs[r.parent], r.name, Change(r)); Reported(m) && !NamesBin(m)
  {
    hide AllReported, FullIds;
    FreshUpserted(dirs, r);
    var b := Change(r)(DefaultBase(r.name));
    assert b.cloudId == "" && Padded("")[0] == '\0' && Padded(TRASH)[0] == '.';
  }

  lemma PresentEdit(dirs: Dirs, r: Request)
    requires Sound(dirs) && r.name in dirs[r.parent]
    ensures Reported(dirs[r.parent][r.name]) && FullIds(dirs[r.parent])
    ensures var b := Change(r)(FromMeta(r.name, dirs[r.parent][r.name]));
            Upserted(dirs[r.parent], r.name, Change(r)) == Stored(b, Overlaid(dirs[r.parent][r.name].cloudId, b.cloudId))
  {
    hide Change, Stored, Overlaid;
    SoundAt(dirs, r.parent);
  }

  /** Whether a row is still described once an edit wrote its dentry over, with or without the row's change. */
  lemma RowAfterEdit(s: Stores, r: Request, o: string, m: Meta)
    requires Agreement(s) && Edits(r) && Succeeds(s, r) && Has(s.dirs, Home(r.parent, r.name)) && o in s.rows
    requires FullIds(s.dirs[r.parent]) && m == Upserted(s.dirs[r.parent], r.name, Change(r))
    ensures Has(s.dirs, HomeOf(s.rows[o]))
    ensures var h, home, shown := Home(r.parent, r.name), HomeOf(s.rows[o]), ShownAfter(s, o, Home(r.parent, r.name), m);
            var still := Already(EntryAt(s.dirs, home), s.rows[o].isDir, r);
            && (Describes(shown, o, RowsAfter(s.rows, r)[o]) <==> (o == r.cloudId) == (home == h) || still)
            && (Describes(shown, o, s.rows[o]) <==> home != h || still)
  {
    hide Upserted, Stored, Overlaid, FromMeta, Change, TrashName, RowsApart, Owned, Describes, Already, RowAfter, FullIds;
    assert RowShown(s, o);
    PresentEdit(s.dirs, r);
    EditedEntry(s.dirs[r.parent][r.name], r);
    EditedRow(EntryAt(s.dirs, HomeOf(s.rows[o])), o, s.rows[o], r);
  }

  lemma EditedBin(s: Stores, r: Request, m: Meta)
    requires Agreement(s) && Edits(r) && Succeeds(s, r) && Has(s.dirs, Home(r.parent, r.name))
    requires FullIds(s.dirs[r.parent]) && m == Upserted(s.dirs[r.parent], r.name, Change(r))
    ensures Reported(m) && (Home(r.parent, r.name) == BIN ==> NamesBin(m))
  {
    hide Upserted, Stored, Overlaid, FromMeta, Change, TrashName, RowsApart, Owned, Describes, Already, RowAfter, FullIds;
    PresentEdit(s.dirs, r);
    EditedEntry(s.dirs[r.parent][r.name], r);
  }

  lemma AgreementIsSound(s: Stores)
    requires Agreement(s)
    ensures Sound(s.dirs)
  {
  }

  /** Fitting, row by row. */
  ghost predicate RowFits(s: Stores, r: Request, o: string)
    requires Edits(r) && o in s.rows && Has(s.dirs, HomeOf(s.rows[o]))
  {
    || (o == r.cloudId) == (HomeOf(s.rows[o]) == Home(r.parent, r.name))
    || Already(EntryAt(s.dirs, HomeOf(s.rows[o])), s.rows[o].isDir, r)
  }

  lemma EditFitsRowByRow(s: Stores, r: Request)
    requires Agreement(s) && Edits(r)
    ensures forall o :: o in s.rows ==> Has(s.dirs, HomeOf(s.rows[o]))
    ensures EditFits(s, r) <==> Has(s.dirs, Home(r.parent, r.name)) && forall o :: o in s.rows ==> RowFits(s, r, o)
  {
    hide Describes, Already, HomeOf, Sound, NamesBin, Owned;
    forall o | o in s.rows ensures Has(s.dirs, HomeOf(s.rows[o])) {
      assert RowShown(s, o);
    }
    var h, id := Home(r.parent, r.name), r.cloudId;
    if EditFits(s, r) {
      forall o | o in s.rows ensures RowFits(s, r, o) {
        assert o != id && id in s.rows ==> HomeOf(s.rows[o]) != HomeOf(s.rows[id]);
      }
    } else if Has(s.dirs, h) {
      if id in s.rows && !Unmoved(s, r, HomeOf(s.rows[id])) {
        assert !RowFits(s, r, id);
      } else {
        var o :| o in s.rows && HomeOf(s.rows[o]) == h && !Already(EntryAt(s.dirs, h), s.rows[o].isDir, r);
        assert !RowFits(s, r, o);
      }
    }
  }

  /** An edit keeps the agreement exactly when it fits. */
  lemma EditKeepsIff(s: Stores, r: Request)
    requires Agreement(s) && Edits(r) && Succeeds(s, r)
    ensures Agreement(Done(s, r)) <==> EditFits(s, r)
  {
    hide Upserted, Change, TrashName, Describes, Already, RowsAfter, FullIds, HomeOf, NamesBin, Owned, SamePlaces, Reported,
      EditFits, Agreement, AllReported;
    var h := Home(r.parent, r.name);
    AgreementIsSound(s);
    SoundAt(s.dirs, r.parent);
    var m := Upserted(s.dirs[r.parent], r.name, Change(r));
    EditsStayInPlace(s.rows, r);
    EditFitsRowByRow(s, r);
    if Has(s.dirs, h) {
      EditedBin(s, r, m);
      forall o | o in s.rows
        ensures o in RowsAfter(s.rows, r)
        ensures Describes(ShownAfter(s, o, h, m), o, RowsAfter(s.rows, r)[o]) <==> RowFits(s, r, o)
      {
        RowAfterEdit(s, r, o, m);
        SameRow(s.rows, RowsAfter(s.rows, r), o);
      }
      RewriteAgreesIff(s, RowsAfter(s.rows, r), h, m);
    } else {
      FreshEdit(s.dirs, r);
      RewriteAgreesIff(s, RowsAfter(s.rows, r), h, m);
    }
  }

  lemma SameRow(rows: Rows, rows': Rows, id: string)
    requires SamePlaces(rows, rows') && id in rows
    ensures id in rows'
  {
  }

  lemma NotAt(rows: Rows, h: Home)
    requires !Owned(rows, h)
    ensures forall id :: id in rows ==> HomeOf(rows[id]) != h
  {
  }

  /** A recycling keeps the agreement exactly when the row is live, at the place given, and the clock is past
      its epoch. */
  lemma RecycleKeepsIff(s: Stores, r: Request)
    requires Agreement(s) && r.Recycle? && Succeeds(s, r)
    ensures Agreement(Done(s, r)) <==> Fitting(s, r)
  {
    hide TrashName, RowsApart, Owned, Describes, NamesBin, AllReported;
    var id := r.cloudId;
    var row := s.rows[id];
    assert RowShown(s, id);
    if Fitting(s, r) {
      SameDescription(EntryAt(s.dirs, HomeOf(row)), id, row, RowAfter(row, r));
      MoveKeeps(s, id, RowAfter(row, r));
    } else if Agreement(Done(s, r)) {
      RecycledRow(s, r);
    }
  }

  lemma SameDescription(m: Meta, id: string, row: Row, row': Row)
    requires Describes(m, id, row)
    requires row'.position == row.position && row'.noUpload == row.noUpload && row'.mtime == row.mtime
    requires row'.isDir == row.isDir && row'.size == row.size
    ensures Describes(m, id, row')
  {
  }

  /** If both stores agree after a recycling, it was the row's own dentry that moved. */
  lemma RecycledRow(s: Stores, r: Request)
    requires Agreement(s) && r.Recycle? && Succeeds(s, r) && Agreement(Done(s, r))
    ensures Fitting(s, r)
  {
    hide TrashName, RowsApart, Describes, NamesBin, AllReported, Sound;
    var id, t := r.cloudId, Done(s, r);
    var row, row' := s.rows[id], RowAfter(s.rows[id], r);
    var a, b := Home(r.parent, r.name), Home(TRASH, Binned(s.rows, r));
    assert RowShown(s, id) && RowShown(t, id);
    SoundAt(s.dirs, r.parent);
    SoundAt(s.dirs, TRASH);
    MovedSound(s.dirs, a, b);
    NotOwned(s, b);
    NotAt(s.rows, b);
    // the moved dentry has an owner, which can only be this row
    assert Has(t.dirs, b);
    var o :| o in t.rows && HomeOf(t.rows[o]) == b;
    assert o == id;
    TrashNameInjective(row.name, row.rowId, r.name, row.rowId);
    // and the row's old dentry is gone
    OldHomeLeft(s, r);
    if row.recycled != 0 {
      LongerName(row.name, row.rowId);
    }
  }

  lemma OldHomeLeft(s: Stores, r: Request)
    requires Agreement(s) && r.Recycle? && Succeeds(s, r) && Agreement(Done(s, r))
    requires HomeOf(Done(s, r).rows[r.cloudId]) == Home(TRASH, Binned(s.rows, r))
    ensures HomeOf(s.rows[r.cloudId]) == Home(r.parent, r.name)
  {
    hide TrashName, Describes, NamesBin, AllReported, Sound, HomeOf;
    var id, t := r.cloudId, Done(s, r);
    var a, b, home := Home(r.parent, r.name), Home(TRASH, Binned(s.rows, r)), HomeOf(s.rows[id]);
    assert RowShown(s, id);
    SoundAt(s.dirs, r.parent);
    SoundAt(s.dirs, TRASH);
    MovedSound(s.dirs, a, b);
    forall o | o in t.rows ensures HomeOf(t.rows[o]) != home {
      assert o != id ==> t.rows[o] == s.rows[o];
    }
    assert !Owned(t.rows, home);
  }

  lemma LongerName(name: string, rowId: int)
    ensures TrashName(name, rowId) != name
  {
    assert |TrashName(name, rowId)| > |name|;
  }

  /** A dentry in the bin under a row's trash name is that row's: a live row is never restored, nor one under
      another name. */
  lemma RestoredFromBin(s: Stores, r: Request)
    requires Agreement(s) && r.Restore? && Succeeds(s, r)
    ensures s.rows[r.cloudId].recycled != 0 && s.rows[r.cloudId].name == r.name
  {
    hide Describes, TrashName, NamesBin, AllReported;
    var row := s.rows[r.cloudId];
    var h := Home(TRASH, TrashName(r.name, row.rowId));
    assert Has(s.dirs, h);
    var o :| o in s.rows && HomeOf(s.rows[o]) == h;
    assert RowShown(s, o);
    TrashNameInjective(r.name, row.rowId, s.rows[o].name, s.rows[o].rowId);
    assert o == r.cloudId;
  }

  /** A restoring keeps the agreement exactly when its place is outside the bin and other than the bin's. */
  lemma RestoreKeepsIff(s: Stores, r: Request)
    requires Agreement(s) && r.Restore? && Succeeds(s, r)
    ensures Agreement(Done(s, r)) <==> Fitting(s, r)
  {
    hide TrashName, RowsApart, Owned, Describes, NamesBin, AllReported;
    var id := r.cloudId;
    var row := s.rows[id];
    RestoredFromBin(s, r);
    assert RowShown(s, id);
    if Fitting(s, r) {
      SameDescription(EntryAt(s.dirs, HomeOf(row)), id, row, RowAfter(row, r));
      MoveKeeps(s, id, RowAfter(row, r));
    } else {
      assert !RowShown(Done(s, r), id);
    }
  }

  /** Whatever the request, if it succeeds: both stores agree afterwards exactly when it was fitting. */
  lemma RequestKeepsIff(s: Stores, r: Request)
    requires Agreement(s) && Succeeds(s, r)
    ensures Agreement(Done(s, r)) <==> Fitting(s, r)
  {
    hide Agreement, Succeeds, EditFits, Done, FreePlace;
    if Makes(r) {
      MakeKeepsIff(s, r);
    } else if Edits(r) {
      EditKeepsIff(s, r);
    } else if r.Recycle? {
      RecycleKeepsIff(s, r);
    } else {
      RestoreKeepsIff(s, r);
    }
  }

  // ---------------------------------------------------------------------
  // Lost commits
  // ---------------------------------------------------------------------

  /** What it takes for both stores to agree although the table never got the change: the dentry was there
      and still describes its row, or still names the bin. A dentry that moved never does. */
  ghost predicate LossFits(s: Stores, r: Request)
    requires Sound(s.dirs) && Succeeds(s, r)
  {
    var h := Home(r.parent, r.name);
    if Makes(r) then
      SoundAt(s.dirs, r.parent);
      var m := Upserted(s.dirs[r.parent], r.name, Change(r));
      if h == BIN then NamesBin(m)
      else Has(s.dirs, h) && forall o :: o in s.rows && HomeOf(s.rows[o]) == h ==> Describes(m, o, s.rows[o])
    else if Edits(r) then Unmoved(s, r, h)
    else false
  }

  /** Success is reported even when the commit is lost: both stores then agree exactly under LossFits. */
  lemma LostCommitIff(s: Stores, r: Request)
    requires Agreement(s) && Succeeds(s, r)
    ensures Agreement(Stores(s.rows, DirsAfter(s, r))) <==> LossFits(s, r)
  {
    hide Agreement, Succeeds, LossFits, DirsAfter;
    AgreementIsSound(s);
    if Makes(r) {
      LostMake(s, r);
    } else if Edits(r) {
      LostEdit(s, r);
    } else {
      LostMove(s, r);
    }
  }

  lemma LostMake(s: Stores, r: Request)
    requires Agreement(s) && Makes(r) && Succeeds(s, r)
    ensures Agreement(Stores(s.rows, DirsAfter(s, r))) <==> LossFits(s, r)
  {
    hide Upserted, Change, TrashName, Describes, FullIds, HomeOf, NamesBin, Owned, Reported, AllReported;
    var h := Home(r.parent, r.name);
    SoundAt(s.dirs, r.parent);
    var m := Upserted(s.dirs[r.parent], r.name, Change(r));
    MadeIsReported(s.dirs, r);
    SameIsSamePlaces(s.rows);
    RewriteAgreesIff(s, s.rows, h, m);
    forall o | o in s.rows ensures HomeOf(s.rows[o]) != h ==> Describes(ShownAfter(s, o, h, m), o, s.rows[o]) {
      assert RowShown(s, o);
    }
    forall o | o in s.rows ensures HomeOf(s.rows[o]) != BIN {
      assert RowShown(s, o);
    }
  }

  lemma SameIsSamePlaces(rows: Rows)
    ensures SamePlaces(rows, rows)
  {
  }

  lemma MadeIsReported(dirs: Dirs, r: Request)
    requires Sound(dirs) && Makes(r) && FullIds(dirs[r.parent])
    ensures Reported(Upserted(dirs[r.parent], r.name, Change(r)))
  {
  }

  lemma LostEdit(s: Stores, r: Request)
    requires Agreement(s) && Edits(r) && Succeeds(s, r)
    ensures Agreement(Stores(s.rows, DirsAfter(s, r))) <==> LossFits(s, r)
  {
    hide Upserted, Change, TrashName, Describes, Already, FullIds, HomeOf, NamesBin, Owned, Reported, Agreement, AllReported;
    var h := Home(r.parent, r.name);
    AgreementIsSound(s);
    SoundAt(s.dirs, r.parent);
    var m := Upserted(s.dirs[r.parent], r.name, Change(r));
    SameIsSamePlaces(s.rows);
    if Has(s.dirs, h) {
      EditedBin(s, r, m);
      forall o | o in s.rows
        ensures Has(s.dirs, HomeOf(s.rows[o]))
        ensures Describes(ShownAfter(s, o, h, m), o, s.rows[o])
                <==> HomeOf(s.rows[o]) != h || Already(EntryAt(s.dirs, h), s.rows[o].isDir, r)
      {
        RowAfterEdit(s, r, o, m);
      }
      RewriteAgreesIff(s, s.rows, h, m);
    } else {
      FreshEdit(s.dirs, r);
      RewriteAgreesIff(s, s.rows, h, m);
    }
  }

  lemma LostMove(s: Stores, r: Request)
    requires Agreement(s) && (r.Recycle? || r.Restore?) && Succeeds(s, r)
    ensures !Agreement(Stores(s.rows, DirsAfter(s, r))) && !LossFits(s, r)
  {
    hide TrashName, RowsApart, Describes, NamesBin, AllReported, Sound;
    var t := Stores(s.rows, DirsAfter(s, r));
    SoundAt(s.dirs, r.parent);
    SoundAt(s.dirs, TRASH);
    if r.Recycle? {
      var a, b := Home(r.parent, r.name), Home(TRASH, Binned(s.rows, r));
      MovedSound(s.dirs, a, b);
      NotOwned(s, b);
      assert Has(t.dirs, b) && !Owned(t.rows, b);
    } else {
      var a, b := Home(TRASH, Binned(s.rows, r)), Home(r.parent, r.newName);
      MovedSound(s.dirs, a, b);
      RestoredFromBin(s, r);
      assert !RowShown(t, r.cloudId);
    }
  }

  // ---------------------------------------------------------------------
  // Runs
  // ---------------------------------------------------------------------

  /** What the daemon does to the stores: serves a request, or sees to it that the bin is listed, which it
      does at its start and before every recycling and restoring. */
  datatype Action = Serve(request: Request) | ListBin

  const BIN_BASE: MetaBase := DefaultBase(TRASH).(cloudId := TRASH, mode := S_IFDIR + STAT_MODE_DIR, position := LOCAL)

  ghost function BinListed(dirs: Dirs): Dirs
    requires Sound(dirs)
  {
    SoundAt(dirs, BIN.dir);
    if Has(dirs, BIN) then dirs else Put(dirs, BIN, NewMeta(BIN_BASE))
  }

  lemma ListBinKeeps(s: Stores)
    requires Agreement(s)
    ensures Agreement(Stores(s.rows, BinListed(s.dirs))) && Has(BinListed(s.dirs), BIN)
  {
    hide Describes, HomeOf, Owned, AllReported;
    SoundAt(s.dirs, BIN.dir);
    if !Has(s.dirs, BIN) {
      var m := NewMeta(BIN_BASE);
      BinIsNamed();
      SameIsSamePlaces(s.rows);
      PutSound(s.dirs, BIN, m);
      RewriteAgreesIff(s, s.rows, BIN, m);
      forall o | o in s.rows ensures Describes(ShownAfter(s, o, BIN, m), o, s.rows[o]) {
        assert RowShown(s, o);
      }
    }
  }

  lemma BinIsNamed()
    ensures Reported(NewMeta(BIN_BASE)) && NamesBin(NewMeta(BIN_BASE)) && Creatable(BIN_BASE)
  {
  }

  // ---------------------------------------------------------------------
  // An example of everything that goes wrong
  // ---------------------------------------------------------------------

  /** An empty file is created in the root directory. */
  function NewFile(id: string, name: string, rowId: int): Request {
    Request.Create(id, ROOT_CLOUD_ID, name, false, Stat(0, 0, S_IFREG), 0, rowId)
  }

  lemma FreshFile(s: Stores, id: string, name: string, rowId: int)
    requires Agreement(s) && id !in s.rows && RowIdFree(s.rows, rowId) && |id| == |name| == 1
    requires !Has(s.dirs, Home(ROOT_CLOUD_ID, name))
    ensures var r := NewFile(id, name, rowId);
            && Sound(s.dirs) && Succeeds(s, r) && Agreement(Done(s, r))
            && Done(s, r) == Stores(s.rows[id := NewRow(r)], Put(s.dirs, Home(ROOT_CLOUD_ID, name), NewMeta(NewFields(r, DefaultBase(name)))))
  {
    hide Agreement, AllReported, Upserted, NewMeta;
    AgreementIsSound(s);
    var r := NewFile(id, name, rowId);
    FreshUpserted(s.dirs, r);
    assert Creatable(Change(r)(DefaultBase(name)));
    assert name != TRASH && ROOT_CLOUD_ID != TRASH;
    MakeKeepsIff(s, r);
  }

  /** Two files and the bin, made one after the other. */
  ghost predicate TwoFiles(s: Stores) {
    && Agreement(s) && s.rows.Keys == {"a", "b"}
    && s.rows["a"] == NewRow(NewFile("a", "x", 1)) && s.rows["b"] == NewRow(NewFile("b", "y", 2))
    && Has(s.dirs, Home(ROOT_CLOUD_ID, "x")) && Has(s.dirs, BIN)
  }

  lemma TwoFilesCanBe(empty: Stores) returns (s: Stores)
    requires empty.rows == map[] && forall p: string :: p in empty.dirs && empty.dirs[p] == map[]
    ensures TwoFiles(s)
  {
    hide Agreement, AllReported, NewMeta, NewFields;
    EmptyStoresAgree(empty);
    FreshFile(empty, "a", "x", 1);
    var s1 := Done(empty, NewFile("a", "x", 1));
    assert !Has(s1.dirs, Home(ROOT_CLOUD_ID, "y"));
    FreshFile(s1, "b", "y", 2);
    var s2 := Done(s1, NewFile("b", "y", 2));
    AgreementIsSound(s2);
    ListBinKeeps(s2);
    s := Stores(s2.rows, BinListed(s2.dirs));
  }

  /** A taken name, the bin's name, a size set on one row under the name of the other, and a size set with its
      commit lost: each succeeds and parts the two stores. */
  lemma StoresPart(s: Stores)
    requires TwoFiles(s)
    ensures Sound(s.dirs)
    ensures var r := NewFile("c", "x", 3); Succeeds(s, r) && !Agreement(Done(s, r))
    ensures var r := NewFile("c", TRASH, 3); Succeeds(s, r) && !Agreement(Done(s, r))
    ensures var r := SizeSetAttr("x", ROOT_CLOUD_ID, "b", 7); Succeeds(s, r) && !Agreement(Done(s, r))
    ensures var r := SizeSetAttr("x", ROOT_CLOUD_ID, "a", 7);
            Succeeds(s, r) && Agreement(Done(s, r)) && !Agreement(Stores(s.rows, DirsAfter(s, r)))
  {
    hide Done, DirsAfter, AllReported, Change, NewMeta, RowsApart, Owned, TrashName, NamesBin;
    var h := Home(ROOT_CLOUD_ID, "x");
    MakeKeepsIff(s, NewFile("c", "x", 3));
    MakeKeepsIff(s, NewFile("c", TRASH, 3));
    assert RowShown(s, "a") && HomeOf(s.rows["a"]) == h && !Already(EntryAt(s.dirs, h), false, SizeSetAttr("x", ROOT_CLOUD_ID, "a", 7));
    assert "x" != "y" && HomeOf(s.rows["b"]) != h;
    EditKeepsIff(s, SizeSetAttr("x", ROOT_CLOUD_ID, "b", 7));
    EditKeepsIff(s, SizeSetAttr("x", ROOT_CLOUD_ID, "a", 7));
    LostCommitIff(s, SizeSetAttr("x", ROOT_CLOUD_ID, "a", 7));
  }

  // ---------------------------------------------------------------------
  // Every run
  // ---------------------------------------------------------------------

  /** One action: refused or failed, leaving everything as it was, or done. */
  ghost predicate Served(s: Stores, a: Action, t: Stores) {
    && Sound(s.dirs)
    && (t == s || match a
        case Serve(r) => Succeeds(s, r) && Fitting(s, r) && t == Done(s, r)
        case ListBin => t == Stores(s.rows, BinListed(s.dirs)))
  }

  ghost predicate Run(states: seq<Stores>, actions: seq<Action>) {
    && |states| == |actions| + 1
    && forall i :: 0 <= i < |actions| ==> Served(states[i], actions[i], states[i + 1])
  }

  lemma ServedKeepsAgreement(s: Stores, a: Action, t: Stores)
    requires Served(s, a, t) && Agreement(s)
    ensures Agreement(t) && (Has(s.dirs, BIN) ==> Has(t.dirs, BIN))
  {
    hide Agreement, Succeeds, Fitting, Done, BinListed, Sound;
    if t != s {
      match a
      case Serve(r) =>
        RequestKeepsIff(s, r);
        BinStays(s, r);
      case ListBin =>
        ListBinKeeps(s);
    }
  }

  /** No fitting request takes the bin off the root directory. */
  lemma BinStays(s: Stores, r: Request)
    requires Agreement(s) && Succeeds(s, r) && Fitting(s, r)
    ensures Has(s.dirs, BIN) ==> Has(Done(s, r).dirs, BIN)
  {
    hide TrashName, RowsApart, Describes, NamesBin, Owned, EditFits, Creatable, Upserted;
    if r.Recycle? {
      assert RowShown(s, r.cloudId);
    }
  }

  /** Both stores agree throughout every run, and the bin stays listed once it is. */
  lemma {:induction false} RunKeepsAgreement(states: seq<Stores>, actions: seq<Action>, n: nat)
    requires Run(states, actions) && n < |states| && Agreement(states[0])
    ensures Agreement(states[n]) && (Has(states[0].dirs, BIN) ==> Has(states[n].dirs, BIN))
    decreases n
  {
    hide Agreement, Served;
    if n > 0 {
      RunKeepsAgreement(states, actions, n - 1);
      ServedKeepsAgreement(states[n - 1], actions[n - 1], states[n]);
    }
  }
}
