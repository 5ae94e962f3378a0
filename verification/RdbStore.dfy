/** The requests that change a row of the file table and its dentry under one transaction. */
module RdbStores {
  import opened Common
  import opened Layout
  import opened Dentries
  import opened Groups
  import opened DentryFiles
  import opened ChildLists
  import opened LockTraces
  import opened MetaFiles
  import opened MetaFileOps
  import opened DentryDirStores
  import opened TwoStores
  import opened NewNames

  const E_HAS_DB_ERROR: int := -222
  const COMMIT_MAX_TRY_TIMES: nat := 3
  const MAX_FILE_NAME_SIZE: nat := 246
  const CLOUD: int := 2
  const LOCAL_AND_CLOUD: int := 3

  type Errno = x: int | x != 0 witness 1

  /** How the table, the local file and the dentry files behave during one request: error codes of
      BeginTransaction, of queries, of path resolution and of stat (0 when they work), whether
      changing the table fails and how, and how often a commit fails before it works. */
  datatype Env = Env(begin: int, query: int, path: int, statRet: int, changeFails: bool, changeErrno: Errno,
                     commitFailures: nat, io: Io, ioRemove: Io, ioUndo: Io)

  /** Failed dentry steps have no effect: searches see every group, locks work, and undoing works. */
  predicate Orderly(env: Env) {
    Steady(env.io) && Steady(env.ioRemove) && Undoes(env.ioUndo)
  }

  predicate Commits(env: Env) {
    env.commitFailures < 3
  }

  /** Nothing goes wrong outside the request itself. */
  predicate Healthy(env: Env) {
    && env.begin == E_OK && env.query == E_OK && env.path == E_OK && env.statRet == 0 && !env.changeFails
    && Quiet(env.io) && Quiet(env.ioRemove)
  }

  // ---------------------------------------------------------------------
  // Names
  // ---------------------------------------------------------------------

  const ILLEGAL: set<char> := {'<', '>', '|', ':', '?', '/', '\\', '"', '*'}

  /** 1 to 246 bytes, neither dot nor dot-dot, and none of nine characters. */
  ghost predicate LegalName(name: string) {
    && 1 <= |name| <= 246 && name != "." && name != ".."
    && '<' !in name && '>' !in name && '|' !in name && ':' !in name && '?' !in name
    && '/' !in name && '\\' !in name && '"' !in name && '*' !in name
  }

  method CheckName(fileName: string) returns (ret: int)
    ensures ret == if LegalName(fileName) then E_OK else EINVAL
  {
    if fileName == "" || fileName == "." || fileName == ".." || |fileName| > MAX_FILE_NAME_SIZE {
      return EINVAL;
    }
    for i := 0 to |fileName|
      invariant forall j :: 0 <= j < i ==> fileName[j] !in ILLEGAL
    {
      if fileName[i] in ILLEGAL {
        return EINVAL;
      }
    }
    return E_OK;
  }

  /** No leading blank; for a directory no trailing one either, nor the bin's name. */
  ghost predicate Spaced(name: string, isDir: bool) {
    && name != "" && !(" " <= name)
    && (isDir ==> name != ".trash" && !(exists stem: string :: name == stem + " "))
  }

  method CheckNameForSpace(fileName: string, isDir: bool) returns (ret: int)
    ensures ret == if Spaced(fileName, isDir) then E_OK else EINVAL
  {
    if fileName == "" {
      return EINVAL;
    }
    if fileName[0] == ' ' {
      return EINVAL;
    }
    if isDir {
      if fileName[|fileName| - 1] == ' ' {
        assert fileName == fileName[..|fileName| - 1] + " ";
        return EINVAL;
      }
      if fileName == TRASH {
        return EINVAL;
      }
    }
    return E_OK;
  }

  // ---------------------------------------------------------------------
  // Transactions
  // ---------------------------------------------------------------------

  class Database {
    var rows: Rows

    constructor ()
      ensures rows == map[]
    {
      rows := map[];
    }
  }

  /** Tries an operation that fails the given number of times, up to a maximum. */
  method RetryTransaction(failures: nat, maxAttempts: nat) returns (ret: int)
    ensures ret == if failures < maxAttempts then E_OK else E_HAS_DB_ERROR
  {
    var curTryTime := 0;
    while curTryTime < maxAttempts
      invariant curTryTime <= failures && curTryTime <= maxAttempts
    {
      if curTryTime == failures {
        return E_OK;
      }
      curTryTime := curTryTime + 1;
    }
    return E_HAS_DB_ERROR;
  }

  /** While started and not finished, changes to the table are provisional. */
  class TransactionOperations {
    const db: Database
    var isStart: bool
    var isFinish: bool
    var saved: Rows

    ghost predicate Open()
      reads this
    {
      isStart && !isFinish
    }

    constructor (db: Database)
      ensures this.db == db && !isStart && !isFinish
    {
      this.db, isStart, isFinish, saved := db, false, false, map[];
    }

    /** Starts at most once. */
    method Start(errno: int) returns (ret: int)
      modifies this
      ensures old(isStart || isFinish) ==> ret == E_HAS_DB_ERROR && Open() == old(Open()) && saved == old(saved)
      ensures old(!isStart && !isFinish) ==> ret == errno && !isFinish && isStart == (errno == E_OK)
      ensures ret == E_OK ==> Open() && saved == db.rows
    {
      if isStart || isFinish {
        return E_HAS_DB_ERROR;
      }
      if errno == E_OK {
        isStart, saved := true, db.rows;
      }
      return errno;
    }

    method Rollback()
      modifies db
      ensures db.rows == saved
    {
      db.rows := saved;
    }

    /** Commits, or rolls back after three failures; the caller is not told which. */
    method Finish(commitFailures: nat)
      modifies this, db
      ensures old(!Open()) ==> db.rows == old(db.rows) && !Open()
      ensures old(Open()) ==>
                && db.rows == (if commitFailures < 3 then old(db.rows) else old(saved))
                && (Open() ==> db.rows == saved)
    {
      if !isStart || isFinish {
        return;
      }
      var ret := RetryTransaction(commitFailures, COMMIT_MAX_TRY_TIMES);
      if ret == E_OK {
        isFinish, isStart := true, false;
        return;
      }
      Rollback();
    }

    /** The destructor: what was not committed is rolled back. */
    method Close()
      modifies db
      ensures db.rows == if Open() then saved else old(db.rows)
    {
      if isStart && !isFinish {
        Rollback();
      }
    }
  }

  // ---------------------------------------------------------------------
  // The store
  // ---------------------------------------------------------------------

  /** How a request may end: an error leaves both stores as they were; success means that the
      dentry files show the request done, and that the table does too if the commit worked. What done
      means is said twice: as the step of a run, and by the request's arguments alone. */
  ghost predicate Outcome(s: Stores, r: Request, ret: int, committed: bool, t: Stores) {
    && Sound(s.dirs)
    && (ret != E_OK ==> t == s)
    && (ret == E_OK ==> Succeeds(s, r) && t == Stores(if committed then RowsAfter(s.rows, r) else s.rows, DirsAfter(s, r)))
    && (ret == E_OK ==> DirsSay(s, r, t.dirs) && if committed then TableSays(s.rows, r, t.rows) else t.rows == s.rows)
  }

  /** A request that ends with its commit keeps the stores in agreement. */
  lemma OutcomeKeepsAgreement(s: Stores, r: Request, ret: int, t: Stores)
    requires Outcome(s, r, ret, true, t) && Agreement(s) && Fitting(s, r)
    ensures Served(s, Serve(r), t) && Agreement(t)
  {
    hide Agreement, Succeeds, Fitting, RowsAfter, DirsAfter, Sound, TableSays, DirsSay;
    if ret == E_OK {
      RequestKeepsIff(s, r);
    }
  }

  /** How an action may end. */
  ghost predicate ActionOutcome(s: Stores, a: Action, ret: int, committed: bool, t: Stores) {
    match a
    case Serve(r) => Outcome(s, r, ret, committed, t)
    case ListBin => Sound(s.dirs) && t == if ret == E_OK then Stores(s.rows, BinListed(s.dirs)) else s
  }

  /** The same call, up to the row id the table gives and the name a restore chooses. */
  predicate SameCall(a: Action, b: Action) {
    if a.ListBin? then b == a
    else if b.ListBin? then false
    else match a.request
      case Create(id, parent, name, no, stat, added, _) =>
        b.request.Create? && b.request == Request.Create(id, parent, name, no, stat, added, b.request.rowId)
      case MkDir(id, parent, name, no, added, edited, _) =>
        b.request.MkDir? && b.request == Request.MkDir(id, parent, name, no, added, edited, b.request.rowId)
      case Restore(name, parent, id, _) => b.request.Restore? && b.request == Restore(name, parent, id, b.request.newName)
      case _ => b == a
  }

  /** The caller did its part: what succeeded was fitting. */
  ghost predicate Proper(s: Stores, a: Action, ret: int) {
    a.Serve? && ret == E_OK ==> Sound(s.dirs) && Fitting(s, a.request)
  }

  /** What a call must be for an undisturbed environment to carry it out. */
  ghost predicate Admitted(s: Stores, a: Action)
    requires Sound(s.dirs)
  {
    a.Serve? ==>
      var r := a.request;
      match r
      case Create(id, parent, name, _, _, _, _) =>
        LegalName(name) && Spaced(name, false) && id != "" && parent != "" && id !in s.rows && |id| <= RECORD_ID_LEN
      case MkDir(id, parent, name, _, _, _, _) =>
        LegalName(name) && Spaced(name, true) && id != "" && parent != "" && id !in s.rows && |id| <= RECORD_ID_LEN
      case SizeSetAttr(name, parent, _, _) => name in s.dirs[parent]
      case MtimeSetAttr(name, parent, id, _) => id in s.rows && name in s.dirs[parent]
      case Write(name, parent, id, _) => id != "" && id != ROOT_CLOUD_ID && id in s.rows && name in s.dirs[parent]
      case LocationSetXattr(name, parent, _, position) => 1 <= position <= 3 && name in s.dirs[parent]
      case Recycle(name, parent, id, _) =>
        && id != "" && id in s.rows && name in s.dirs[parent]
        && Binned(s.rows, r) !in s.dirs[TRASH] && |Binned(s.rows, r)| <= 8 * PER_GROUP
      case Restore(name, parent, id, _) =>
        id != "" && id in s.rows && Binned(s.rows, r) in s.dirs[TRASH] && name !in s.dirs[parent] && 1 <= |name| <= 8 * PER_GROUP
  }

  lemma OutcomeIsServed(s: Stores, a: Action, ret: int, t: Stores)
    requires ActionOutcome(s, a, ret, true, t) && Proper(s, a, ret)
    ensures Served(s, a, t)
  {
    hide Succeeds, Fitting, RowsAfter, DirsAfter, Sound, TableSays, DirsSay;
  }

  /** The callback that makes an entry the bin's. */
  function BinEdit(): MetaBase -> MetaBase {
    (b: MetaBase) => b.(cloudId := TRASH, mode := S_IFDIR + STAT_MODE_DIR, position := LOCAL)
  }

  lemma BinEdited()
    ensures KeepsName(BinEdit()) && BinEdit()(DefaultBase(TRASH)) == BIN_BASE
  {
  }

  /** The number a location is set by. */
  function LocationOf(position: bv8): (val: int)
    ensures 1 <= val <= 3 <==> 1 <= position <= 3
    ensures 1 <= position <= 3 ==> PositionOf(val) == position
  {
    if position == 1 then 1 else if position == 2 then 2 else if position == 3 then 3 else 0
  }

  lemma OtherCode(s: Stores, r: Request, ret: int, code: int, committed: bool, t: Stores)
    requires Outcome(s, r, ret, committed, t) && ret != E_OK && code != E_OK
    ensures Outcome(s, r, code, committed, t)
  {
  }

  lemma Refused(s: Stores, r: Request, ret: int, committed: bool)
    requires Sound(s.dirs) && ret != E_OK
    ensures Outcome(s, r, ret, committed, s)
  {
  }

  /** What the table must show for the row to be inserted or updated. */
  ghost predicate RowReady(rows: Rows, r: Request) {
    if Makes(r) then r.cloudId !in rows && RowIdFree(rows, r.rowId) && (r.MkDir? ==> r.name != TRASH)
    else
      && Edits(r)
      && (r.MtimeSetAttr? || r.Write? ==> r.cloudId in rows)
      && (r.LocationSetXattr? ==> 1 <= r.position <= 3)
  }

  /** The outcome of a request that creates or changes one dentry. */
  lemma DentryPut(s: Stores, r: Request, committed: bool, t: Stores)
    requires Sound(s.dirs) && RowReady(s.rows, r) && FullIds(s.dirs[r.parent])
    requires r.name in s.dirs[r.parent] || (!r.Write? && Creatable(Change(r)(DefaultBase(r.name))))
    requires t.rows == if committed then RowsAfter(s.rows, r) else s.rows
    requires t.dirs == s.dirs[r.parent := s.dirs[r.parent][r.name := Upserted(s.dirs[r.parent], r.name, Change(r))]]
    ensures Outcome(s, r, E_OK, committed, t)
  {
    hide Upserted, Change, RowsAfter, Creatable, FullIds, AllReported, RowIdFree, TableSays, DirsSay;
    RequestSays(s, r);
  }

  /** The outcome of a request that moves one dentry. */
  lemma DentryMoved(s: Stores, r: Request, committed: bool, t: Stores)
    requires Sound(s.dirs) && (r.Recycle? || r.Restore?) && r.cloudId in s.rows
    requires r.Recycle? ==>
               && r.name in s.dirs[r.parent] && Binned(s.rows, r) !in s.dirs[TRASH]
               && t.dirs == Moved(s.dirs, r.parent, r.name, TRASH, Binned(s.rows, r))
    requires r.Restore? ==>
               && Binned(s.rows, r) in s.dirs[TRASH] && r.newName !in s.dirs[r.parent]
               && t.dirs == Moved(s.dirs, TRASH, Binned(s.rows, r), r.parent, r.newName)
    requires t.rows == if committed then RowsAfter(s.rows, r) else s.rows
    ensures Outcome(s, r, E_OK, committed, t)
  {
    hide Moved, TrashName, RowsAfter, AllReported, TableSays, DirsSay;
    RequestSays(s, r);
  }

  lemma MadeFits(r: Request)
    requires Makes(r) && 1 <= |r.name| <= 8 * PER_GROUP && |r.cloudId| <= RECORD_ID_LEN
    ensures Creatable(Change(r)(DefaultBase(r.name)))
  {
  }

  /** A location as the dentry's two bits. */
  function PositionOf(val: int): (p: bv8)
    requires 1 <= val <= 3
    ensures 1 <= p <= 3
  {
    if val == 1 then 1 else if val == 2 then 2 else 3
  }

  lemma EmptyIsDecodable()
    ensures Decodable(EmptyGroup(PER_GROUP)) && |EmptyGroup(PER_GROUP).nsl| == PER_GROUP
  {
    hide EmptyGroup;
    GoodIsDecodable(EmptyGroup(PER_GROUP));
  }

  class CloudDiskRdbStore {
    const db: Database
    const dentries: DentryDirs

    ghost predicate Valid()
      reads dentries, dentries.files.Values
    {
      dentries.Valid()
    }

    ghost function View(): Stores
      requires Valid()
      reads db, dentries, dentries.files.Values
    {
      Stores(db.rows, dentries.Dirs())
    }

    constructor (hash: HashFn)
      ensures Valid() && dentries.bound == 0 && Agreement(View()) && db.rows == map[] && dentries.files == map[]
      ensures fresh(db) && fresh(dentries)
    {
      hide FileInv, Contents, DcacheFileSize, Depth, AllShaped, After;
      db := new Database();
      dentries := new DentryDirs(hash);
      new;
      EmptyStoresAgree(View());
    }

    lemma DirsAreSound()
      requires Valid()
      ensures Sound(View().dirs)
    {
      hide DentryDirs.Valid, AllReported, FullIds;
      forall p: string ensures p in View().dirs && AllReported(View().dirs[p]) {
        dentries.EntriesReported(p);
      }
    }

    /** The dentry of a row: a write needs it to be there, the other requests create it if absent. */
    method UpdateDentry(r: Request, io: Io) returns (ret: int)
      requires Valid() && dentries.Roomy() && Steady(io)
      modifies dentries, dentries.files.Values
      ensures Valid() && dentries.bound <= old(dentries.bound) + 1 && fresh(dentries.files.Values - old(dentries.files.Values))
      ensures FullIds(old(dentries.Dirs())[r.parent])
      ensures ret == E_OK ==>
                var m := old(dentries.Dirs())[r.parent];
                dentries.Dirs() == old(dentries.Dirs())[r.parent := m[r.name := Upserted(m, r.name, Change(r))]]
      ensures ret == E_OK ==>
                r.name in old(dentries.Dirs())[r.parent] || (!r.Write? && Creatable(Change(r)(DefaultBase(r.name))))
      ensures ret != E_OK ==> dentries.Dirs() == old(dentries.Dirs())
      ensures Quiet(io) && (r.name in old(dentries.Dirs())[r.parent] || (!r.Write? && Creatable(Change(r)(DefaultBase(r.name))))) ==>
                ret == E_OK
    {
      hide FileInv, Contents, Depth, AllShaped, After, DentryDirs.Valid, DentryDirs.Dirs,
        Sound, Upserted, Steady, Undoes, KeepsName, AllReported, FullIds, RowsAfter, Outcome, Creatable, Change,
        Moved, TrashName, FreshFor;
      ChangeKeepsName(r);
      if r.Write? {
        ret := dentries.ChildUpdate(r.parent, r.name, Change(r), io);
      } else {
        ret := dentries.LookupAndUpdate(r.parent, r.name, Change(r), io);
      }
    }

    /** The row and then its dentry, up to the end of the transaction. */
    method ChangeBoth(transaction: TransactionOperations, r: Request, env: Env) returns (ret: int)
      requires Valid() && dentries.Roomy() && Orderly(env) && transaction.Open() && transaction.db == db && transaction.saved == db.rows
      requires RowReady(db.rows, r)
      modifies db, transaction, dentries, dentries.files.Values
      ensures Valid() && dentries.bound <= old(dentries.bound) + 1 && fresh(dentries.files.Values - old(dentries.files.Values))
      ensures Outcome(old(View()), r, ret, Commits(env), View())
      ensures Quiet(env.io) && (r.name in old(View()).dirs[r.parent] || (!r.Write? && Creatable(Change(r)(DefaultBase(r.name))))) ==>
                ret == E_OK
      ensures ret == E_OK && r.Write? ==> r.name in old(View()).dirs[r.parent]
    {
      hide FileInv, Contents, Depth, AllShaped, After, DentryDirs.Valid, DentryDirs.Dirs,
        Sound, Upserted, Steady, Undoes, KeepsName, AllReported, FullIds, RowsAfter, Outcome, Creatable, Quiet, Change,
        Moved, TrashName, FreshFor;
      DirsAreSound();
      ghost var before := View();
      db.rows := RowsAfter(db.rows, r);
      ret := UpdateDentry(r, env.io);
      if ret == E_OK {
        DentryPut(before, r, Commits(env), Stores(if Commits(env) then db.rows else before.rows, dentries.Dirs()));
        transaction.Finish(env.commitFailures);
      }
      transaction.Close();
      if ret != E_OK {
        Refused(before, r, ret, Commits(env));
      }
    }

    /** The row and then its dentry's move, up to the end of the transaction. */
    method MoveBoth(transaction: TransactionOperations, r: Request, a: string, from: string, b: string, name: string, env: Env)
      returns (ret: int)
      requires Valid() && dentries.Roomy() && Orderly(env) && transaction.Open() && transaction.db == db && transaction.saved == db.rows
      requires (r.Recycle? || r.Restore?) && r.cloudId in db.rows
      requires r.Recycle? ==> a == r.parent && from == r.name && b == TRASH && name == Binned(db.rows, r)
      requires r.Restore? ==> a == TRASH && from == Binned(db.rows, r) && b == r.parent && name == r.newName
      modifies db, transaction, dentries, dentries.files.Values
      ensures Valid() && dentries.bound <= old(dentries.bound) + 1 && fresh(dentries.files.Values - old(dentries.files.Values))
      ensures Outcome(old(View()), r, ret, Commits(env), View())
      ensures Quiet(env.io) && Quiet(env.ioRemove) && from in old(View()).dirs[a] && name !in old(View()).dirs[b]
              && 1 <= |name| <= 8 * PER_GROUP ==>
                ret == E_OK
    {
      hide FileInv, Contents, Depth, AllShaped, After, DentryDirs.Valid, DentryDirs.Dirs,
        Sound, Upserted, Steady, Undoes, KeepsName, AllReported, FullIds, RowsAfter, Outcome, Creatable, Quiet, Change,
        Moved, TrashName, FreshFor;
      DirsAreSound();
      ghost var before := View();
      db.rows := RowsAfter(db.rows, r);
      ret := dentries.Move(a, from, b, name, env.io, env.ioRemove, env.ioUndo);
      if ret == E_OK {
        DentryMoved(before, r, Commits(env), Stores(if Commits(env) then db.rows else before.rows, dentries.Dirs()));
        transaction.Finish(env.commitFailures);
      }
      transaction.Close();
      if ret != E_OK {
        Refused(before, r, ret, Commits(env));
      }
    }

    /** The row inserted and then its dentry created, once the transaction has begun. */
    method Insert(transaction: TransactionOperations, r: Request, env: Env) returns (ret: int)
      requires Valid() && dentries.Roomy() && Orderly(env) && transaction.Open() && transaction.db == db && transaction.saved == db.rows
      requires Makes(r) && RowIdFree(db.rows, r.rowId) && (r.MkDir? ==> r.name != TRASH)
      modifies db, transaction, dentries, dentries.files.Values
      ensures Valid() && dentries.bound <= old(dentries.bound) + 1 && fresh(dentries.files.Values - old(dentries.files.Values))
      ensures Outcome(old(View()), r, ret, Commits(env), View())
      ensures env.changeFails || r.cloudId in old(db.rows) ==> ret == env.changeErrno
      ensures Healthy(env) && r.cloudId !in old(db.rows) && |r.cloudId| <= RECORD_ID_LEN && 1 <= |r.name| <= 8 * PER_GROUP ==>
                ret == E_OK
    {
      hide FileInv, Contents, Depth, AllShaped, After, DentryDirs.Valid, DentryDirs.Dirs,
        Sound, Upserted, Steady, Undoes, KeepsName, AllReported, FullIds, RowsAfter, Outcome, Creatable, Quiet, Change, RowIdFree,
        Commits, Orderly, Moved, TrashName, FreshFor, DentryDirs.Roomy;
      DirsAreSound();
      if 1 <= |r.name| <= 8 * PER_GROUP && |r.cloudId| <= RECORD_ID_LEN {
        MadeFits(r);
      }
      if env.changeFails || r.cloudId in db.rows {
        ret := env.changeErrno;
        Refused(View(), r, ret, Commits(env));
        transaction.Close();
      } else {
        ret := ChangeBoth(transaction, r, env);
      }
    }

    /** The course of Create and MkDir once their arguments are accepted. */
    method Make(r: Request, env: Env) returns (ret: int)
      requires Valid() && dentries.Roomy() && Orderly(env) && Makes(r) && RowIdFree(db.rows, r.rowId)
      requires r.MkDir? ==> r.name != TRASH
      modifies db, dentries, dentries.files.Values
      ensures Valid() && dentries.bound <= old(dentries.bound) + 1 && fresh(dentries.files.Values - old(dentries.files.Values))
      ensures Outcome(old(View()), r, ret, Commits(env), View())
      ensures env.begin != E_OK ==> ret == if r.Create? then E_RDB else env.begin
      ensures env.begin == E_OK && (env.changeFails || r.cloudId in old(db.rows)) ==> ret == env.changeErrno
      ensures Healthy(env) && r.cloudId !in old(db.rows) && |r.cloudId| <= RECORD_ID_LEN && 1 <= |r.name| <= 8 * PER_GROUP ==>
                ret == E_OK
    {
      hide FileInv, Contents, Depth, AllShaped, After, DentryDirs.Valid, DentryDirs.Dirs,
        Sound, Upserted, Steady, Undoes, KeepsName, AllReported, FullIds, RowsAfter, Outcome, Creatable, Quiet, Change, RowIdFree,
        Commits, Orderly, Moved, TrashName, FreshFor, DentryDirs.Roomy;
      DirsAreSound();
      ghost var before := View();
      var transaction := new TransactionOperations(db);
      ret := transaction.Start(env.begin);
      if ret != E_OK {
        ret := if r.Create? then E_RDB else ret;
        Refused(before, r, ret, Commits(env));
      } else {
        ret := Insert(transaction, r, env);
      }
    }

    method Create(cloudId: string, parentCloudId: string, fileName: string, noNeedUpload: bool,
                  stat: Stat, added: i64, rowId: int, env: Env)
      returns (ret: int)
      requires Valid() && dentries.Roomy() && Orderly(env)
      requires RowIdFree(db.rows, rowId)
      modifies db, dentries, dentries.files.Values
      ensures Valid() && dentries.bound <= old(dentries.bound) + 1 && fresh(dentries.files.Values - old(dentries.files.Values))
      ensures var r := Request.Create(cloudId, parentCloudId, fileName, noNeedUpload, stat, added, rowId);
              Outcome(old(View()), r, ret, Commits(env), View())
      // Success: a live row and a dentry that hold what was given.
      ensures ret == E_OK && Commits(env) ==>
                && cloudId in db.rows
                && var row := db.rows[cloudId];
                   && row.parent == parentCloudId && row.name == fileName && !row.isDir && row.recycled == 0 && row.rowId == rowId
                   && row.size == stat.size && row.mtime == stat.mtime && row.position == 1
                   && row.noUpload == (if noNeedUpload then 1 else 0)
      ensures ret == E_OK ==>
                && parentCloudId in View().dirs && fileName in View().dirs[parentCloudId]
                && var m := View().dirs[parentCloudId][fileName];
                   && SameWord(m.atime, added) && SameWord(m.mtime, stat.mtime) && SameWord(m.size, stat.size)
                   && m.mode == stat.mode % 0x1_0000 && m.position == 1 && m.fileType == 0
                   && m.noUpload == (if noNeedUpload then 1 else 0) && (|cloudId| <= 33 ==> cloudId <= m.cloudId)
      ensures !LegalName(fileName) || !Spaced(fileName, false) ==> ret == EINVAL
      ensures LegalName(fileName) && Spaced(fileName, false) ==>
                && (cloudId == "" || parentCloudId == "" ==> ret == E_INVAL_ARG)
                && (cloudId != "" && parentCloudId != "" && env.statRet != 0 ==> ret == E_PATH)
                && (cloudId != "" && parentCloudId != "" && env.statRet == 0 && env.begin != E_OK ==> ret == E_RDB)
                && (Healthy(env) && cloudId != "" && parentCloudId != "" && cloudId !in old(db.rows) && |cloudId| <= RECORD_ID_LEN ==>
                      ret == E_OK)
    {
      hide DentryDirs.Valid, DentryDirs.Dirs, Sound, Steady, Succeeds, Quiet, RowsAfter, DirsAfter, SameWord;
      DirsAreSound();
      ret := CheckName(fileName);
      if ret != E_OK {
        return;
      }
      ret := CheckNameForSpace(fileName, false);
      if ret != E_OK {
        return;
      }
      if cloudId == "" || parentCloudId == "" {
        return E_INVAL_ARG;
      }
      if env.statRet != 0 {
        return E_PATH;
      }
      ret := Make(Request.Create(cloudId, parentCloudId, fileName, noNeedUpload, stat, added, rowId), env);
    }

    method MkDir(cloudId: string, parentCloudId: string, directoryName: string, noNeedUpload: bool,
                 added: i64, edited: i64, rowId: int, env: Env)
      returns (ret: int)
      requires Valid() && dentries.Roomy() && Orderly(env)
      requires RowIdFree(db.rows, rowId)
      modifies db, dentries, dentries.files.Values
      ensures Valid() && dentries.bound <= old(dentries.bound) + 1 && fresh(dentries.files.Values - old(dentries.files.Values))
      ensures var r := Request.MkDir(cloudId, parentCloudId, directoryName, noNeedUpload, added, edited, rowId);
              Outcome(old(View()), r, ret, Commits(env), View())
      // Success: a live row and a dentry that hold what was given.
      ensures ret == E_OK && Commits(env) ==>
                && cloudId in db.rows
                && var row := db.rows[cloudId];
                   && row.parent == parentCloudId && row.name == directoryName && row.isDir && row.recycled == 0 && row.rowId == rowId
                   && row.size == 0 && row.mtime == edited && row.position == 1 && row.noUpload == (if noNeedUpload then 1 else 0)
      ensures ret == E_OK ==>
                && parentCloudId in View().dirs && directoryName in View().dirs[parentCloudId]
                && var m := View().dirs[parentCloudId][directoryName];
                   && SameWord(m.atime, added) && SameWord(m.mtime, edited) && m.size == 0 && m.mode == 0x41F9 && m.position == 1
                   && m.fileType == 0 && m.noUpload == (if noNeedUpload then 1 else 0) && (|cloudId| <= 33 ==> cloudId <= m.cloudId)
      ensures !LegalName(directoryName) || !Spaced(directoryName, true) ==> ret == EINVAL
      ensures LegalName(directoryName) && Spaced(directoryName, true) ==>
                && (cloudId == "" || parentCloudId == "" ==> ret == E_INVAL_ARG)
                && (Healthy(env) && cloudId != "" && parentCloudId != "" && cloudId !in old(db.rows) && |cloudId| <= RECORD_ID_LEN ==>
                      ret == E_OK)
    {
      hide DentryDirs.Valid, DentryDirs.Dirs, Sound, Steady, Succeeds, Quiet, RowsAfter, DirsAfter, SameWord;
      DirsAreSound();
      ret := CheckName(directoryName);
      if ret != E_OK {
        return;
      }
      ret := CheckNameForSpace(directoryName, true);
      if ret != E_OK {
        return;
      }
      if cloudId == "" || parentCloudId == "" {
        return E_INVAL_ARG;
      }
      ret := Make(Request.MkDir(cloudId, parentCloudId, directoryName, noNeedUpload, added, edited, rowId), env);
    }

    /** The course of the attribute setters. */
    method SetAttribute(r: Request, env: Env) returns (ret: int)
      requires Valid() && dentries.Roomy() && Orderly(env) && Edits(r) && RowReady(db.rows, r) && !r.Write?
      modifies db, dentries, dentries.files.Values
      ensures Valid() && dentries.bound <= old(dentries.bound) + 1 && fresh(dentries.files.Values - old(dentries.files.Values))
      ensures Outcome(old(View()), r, ret, Commits(env), View())
      ensures Healthy(env) && r.name in old(View()).dirs[r.parent] ==> ret == E_OK
      ensures env.begin != E_OK ==> ret == env.begin
      ensures env.begin == E_OK && env.changeFails ==> ret == E_RDB
    {
      hide FileInv, Contents, Depth, AllShaped, After, DentryDirs.Valid, DentryDirs.Dirs,
        Sound, Upserted, Steady, Undoes, KeepsName, AllReported, FullIds, RowsAfter, Outcome, Creatable, Quiet, Change, RowIdFree,
        Commits, Orderly, Moved, TrashName, FreshFor;
      DirsAreSound();
      ghost var before := View();
      var transaction := new TransactionOperations(db);
      ret := transaction.Start(env.begin);
      if ret == E_OK {
        if !env.changeFails {
          ret := ChangeBoth(transaction, r, env);
          return;
        }
        ret := E_RDB;
        transaction.Close();
      }
      Refused(before, r, ret, Commits(env));
    }

    method SizeSetAttr(fileName: string, parentCloudId: string, cloudId: string, size: u64, env: Env) returns (ret: int)
      requires Valid() && dentries.Roomy() && Orderly(env)
      modifies db, dentries, dentries.files.Values
      ensures Valid() && dentries.bound <= old(dentries.bound) + 1 && fresh(dentries.files.Values - old(dentries.files.Values))
      ensures Outcome(old(View()), Request.SizeSetAttr(fileName, parentCloudId, cloudId, size), ret, Commits(env), View())
      ensures Healthy(env) && fileName in old(View()).dirs[parentCloudId] ==> ret == E_OK
      ensures env.begin != E_OK ==> ret == env.begin
      ensures env.begin == E_OK && env.changeFails ==> ret == E_RDB
    {
      hide FileInv, Contents, Depth, AllShaped, After, DentryDirs.Valid, DentryDirs.Dirs,
        Sound, Upserted, Steady, Undoes, KeepsName, AllReported, FullIds, RowsAfter, Outcome, Creatable, Quiet, Change,
        Moved, TrashName, FreshFor;
      ret := SetAttribute(Request.SizeSetAttr(fileName, parentCloudId, cloudId, size), env);
    }

    /** Needs the row, to see whether it was in step with the cloud. */
    method MtimeSetAttr(fileName: string, parentCloudId: string, cloudId: string, mtime: u64, env: Env) returns (ret: int)
      requires Valid() && dentries.Roomy() && Orderly(env)
      modifies db, dentries, dentries.files.Values
      ensures Valid() && dentries.bound <= old(dentries.bound) + 1 && fresh(dentries.files.Values - old(dentries.files.Values))
      ensures Outcome(old(View()), Request.MtimeSetAttr(fileName, parentCloudId, cloudId, mtime), ret, Commits(env), View())
      ensures cloudId !in old(db.rows) ==> ret == E_RDB
      ensures Healthy(env) && cloudId in old(db.rows) && fileName in old(View()).dirs[parentCloudId] ==> ret == E_OK
      ensures cloudId in old(db.rows) && env.query == E_OK && env.begin != E_OK ==> ret == env.begin
      ensures cloudId in old(db.rows) && env.query == E_OK && env.begin == E_OK && env.changeFails ==> ret == E_RDB
    {
      hide FileInv, Contents, Depth, AllShaped, After, DentryDirs.Valid, DentryDirs.Dirs,
        Sound, Upserted, Steady, Undoes, KeepsName, AllReported, FullIds, RowsAfter, Outcome, Creatable, Quiet, Change,
        Moved, TrashName, FreshFor;
      var r := Request.MtimeSetAttr(fileName, parentCloudId, cloudId, mtime);
      DirsAreSound();
      if cloudId !in db.rows || env.query != E_OK {
        Refused(View(), r, E_RDB, Commits(env));
        return E_RDB;
      }
      ret := SetAttribute(r, env);
    }

    method LocationSetXattr(name: string, parentCloudId: string, cloudId: string, val: int, env: Env) returns (ret: int)
      requires Valid() && dentries.Roomy() && Orderly(env)
      modifies db, dentries, dentries.files.Values
      ensures Valid() && dentries.bound <= old(dentries.bound) + 1 && fresh(dentries.files.Values - old(dentries.files.Values))
      ensures 1 <= val <= 3 ==>
                Outcome(old(View()), Request.LocationSetXattr(name, parentCloudId, cloudId, PositionOf(val)), ret, Commits(env), View())
      ensures !(1 <= val <= 3) ==> ret == E_INVAL_ARG && View() == old(View())
      ensures Healthy(env) && 1 <= val <= 3 && name in old(View()).dirs[parentCloudId] ==> ret == E_OK
      ensures ret == E_OK ==>
                && parentCloudId in View().dirs && name in View().dirs[parentCloudId]
                && View().dirs[parentCloudId][name].position == (if val == 1 then 1 else if val == 2 then 2 else 3)
      ensures 1 <= val <= 3 && env.begin != E_OK ==> ret == env.begin
      ensures 1 <= val <= 3 && env.begin == E_OK && env.changeFails ==> ret == E_RDB
    {
      hide FileInv, Contents, Depth, AllShaped, After, DentryDirs.Valid, DentryDirs.Dirs,
        Sound, Upserted, Steady, Undoes, KeepsName, AllReported, FullIds, RowsAfter, Creatable, Quiet, Change,
        Moved, TrashName, FreshFor, Succeeds, DirsAfter, TableSays, Blank;
      if val != LOCAL as int && val != CLOUD && val != LOCAL_AND_CLOUD {
        return E_INVAL_ARG;
      }
      ret := SetAttribute(Request.LocationSetXattr(name, parentCloudId, cloudId, PositionOf(val)), env);
    }

    /** A write updates the dentry only if there is one. */
    method Write(fileName: string, parentCloudId: string, cloudId: string, stat: Stat, env: Env) returns (ret: int)
      requires Valid() && dentries.Roomy() && Orderly(env)
      modifies db, dentries, dentries.files.Values
      ensures Valid() && dentries.bound <= old(dentries.bound) + 1 && fresh(dentries.files.Values - old(dentries.files.Values))
      ensures Outcome(old(View()), Request.Write(fileName, parentCloudId, cloudId, stat), ret, Commits(env), View())
      ensures cloudId == "" || cloudId == ROOT_CLOUD_ID ==> ret == E_INVAL_ARG
      ensures Healthy(env) && cloudId != "" && cloudId != ROOT_CLOUD_ID ==>
                ret == if cloudId in old(db.rows) && fileName in old(View()).dirs[parentCloudId] then E_OK else E_RDB
      ensures cloudId != "" && cloudId != ROOT_CLOUD_ID ==>
                && (env.begin != E_OK ==> ret == env.begin)
                && (env.begin == E_OK && env.statRet != 0 ==> ret == E_PATH)
    {
      hide FileInv, Contents, Depth, AllShaped, After, DentryDirs.Valid, DentryDirs.Dirs,
        Sound, Upserted, Steady, Undoes, KeepsName, AllReported, FullIds, RowsAfter, Outcome, Creatable, Quiet, Change,
        Moved, TrashName, FreshFor;
      var r := Request.Write(fileName, parentCloudId, cloudId, stat);
      DirsAreSound();
      ChangeKeepsName(r);
      ghost var before := View();
      if cloudId == "" || cloudId == ROOT_CLOUD_ID {
        Refused(before, r, E_INVAL_ARG, Commits(env));
        return E_INVAL_ARG;
      }
      var transaction := new TransactionOperations(db);
      ret := transaction.Start(env.begin);
      if ret == E_OK {
        if env.statRet != 0 {
          ret := E_PATH;
        } else if env.query != E_OK || cloudId !in db.rows || env.changeFails {
          ret := E_RDB;
        } else {
          ret := ChangeBoth(transaction, r, env);
          if ret != E_OK {
            OtherCode(before, r, ret, E_RDB, Commits(env), View());
            ret := E_RDB;
          }
          return;
        }
        transaction.Close();
      }
      Refused(before, r, ret, Commits(env));
    }

    /** The row becomes recycled and its dentry moves to the bin. */
    method HandleRecycleXattr(name: string, parentCloudId: string, cloudId: string, now: i64, env: Env) returns (ret: int)
      requires Valid() && dentries.Roomy() && Orderly(env)
      modifies db, dentries, dentries.files.Values
      ensures Valid() && dentries.bound <= old(dentries.bound) + 1 && fresh(dentries.files.Values - old(dentries.files.Values))
      ensures Outcome(old(View()), Recycle(name, parentCloudId, cloudId, now), ret, Commits(env), View())
      ensures env.begin == E_OK && (cloudId == "" || cloudId !in old(db.rows)) ==> ret == E_RDB
      ensures Healthy(env) && cloudId != "" && cloudId in old(db.rows) && name in old(View()).dirs[parentCloudId] ==>
                var trashName := TrashName(name, old(db.rows)[cloudId].rowId);
                trashName !in old(View()).dirs[TRASH] && |trashName| <= 8 * PER_GROUP ==> ret == E_OK
      ensures env.begin != E_OK ==> ret == env.begin
      ensures env.begin == E_OK && (env.query != E_OK || env.changeFails) ==> ret == E_RDB
    {
      hide FileInv, Contents, Depth, AllShaped, After, DentryDirs.Valid, DentryDirs.Dirs,
        Sound, Upserted, Steady, Undoes, KeepsName, AllReported, FullIds, RowsAfter, Outcome, Creatable, Quiet, Change,
        Moved, TrashName, FreshFor;
      var r := Recycle(name, parentCloudId, cloudId, now);
      DirsAreSound();
      ghost var before := View();
      var transaction := new TransactionOperations(db);
      ret := transaction.Start(env.begin);
      if ret == E_OK {
        if cloudId == "" || env.query != E_OK || cloudId !in db.rows || env.changeFails {
          ret := E_RDB;
        } else {
          ret := MoveBoth(transaction, r, parentCloudId, name, TRASH, TrashName(name, db.rows[cloudId].rowId), env);
          return;
        }
        transaction.Close();
      }
      Refused(before, r, ret, Commits(env));
    }

    /** The name itself if it is free in the directory, else a fresh one. */
    method CheckIsConflict(name: string, parentCloudId: string, io: Io) returns (ret: int, newName: string)
      requires Valid() && dentries.Roomy() && Steady(io)
      modifies dentries, dentries.files.Values
      ensures Valid() && View() == old(View()) && fresh(dentries.files.Values - old(dentries.files.Values))
      ensures dentries.bound == old(dentries.bound)
      ensures ret == E_OK ==> newName !in View().dirs[parentCloudId]
      ensures name !in View().dirs[parentCloudId] ==> ret == E_OK && newName == name
      ensures Quiet(io) ==> ret == E_OK
      ensures name in View().dirs[parentCloudId] && ret == E_OK ==> FreshFor(View().dirs[parentCloudId], name, newName)
    {
      hide FileInv, Contents, Depth, AllShaped, After, DentryDirs.Valid, DentryDirs.Dirs,
        Sound, Upserted, Steady, Undoes, KeepsName, AllReported, FullIds, RowsAfter, Outcome, Creatable, Quiet, Change,
        Moved, TrashName, FreshFor;
      newName := name;
      ret := dentries.Lookup(parentCloudId, name, io);
      if ret == ENOENT {
        return E_OK, name;
      }
      var page := EmptyGroup(PER_GROUP);
      EmptyIsDecodable();
      ret, newName := dentries.FreshName(parentCloudId, name, page, io);
    }

    /** The row becomes live under its new parent and name, and its dentry moves there. */
    method RestoreUpdateRdb(cloudId: string, info: RestoreInfo, env: Env) returns (ret: int)
      requires Valid() && dentries.Roomy() && Orderly(env)
      requires cloudId in db.rows && db.rows[cloudId].rowId == info.rowId
      modifies db, dentries, dentries.files.Values
      ensures Valid() && dentries.bound <= old(dentries.bound) + 1 && fresh(dentries.files.Values - old(dentries.files.Values))
      ensures Outcome(old(View()), Restore(info.oldName, info.parentCloudId, cloudId, info.newName), ret, Commits(env), View())
      ensures Healthy(env) && TrashName(info.oldName, info.rowId) in old(View()).dirs[TRASH]
              && info.newName !in old(View()).dirs[info.parentCloudId] && 1 <= |info.newName| <= 8 * PER_GROUP ==>
                ret == E_OK
      ensures env.begin != E_OK ==> ret == env.begin
      ensures env.begin == E_OK && env.changeFails ==> ret == E_RDB
    {
      hide FileInv, Contents, Depth, AllShaped, After, DentryDirs.Valid, DentryDirs.Dirs,
        Sound, Upserted, Steady, Undoes, KeepsName, AllReported, FullIds, RowsAfter, Outcome, Creatable, Quiet, Change,
        Moved, TrashName, FreshFor;
      var r := Restore(info.oldName, info.parentCloudId, cloudId, info.newName);
      DirsAreSound();
      ghost var before := View();
      var transaction := new TransactionOperations(db);
      ret := transaction.Start(env.begin);
      if ret == E_OK {
        if !env.changeFails {
          ret := MoveBoth(transaction, r, TRASH, TrashName(info.oldName, info.rowId), info.parentCloudId, info.newName, env);
          return;
        }
        ret := E_RDB;
        transaction.Close();
      }
      Refused(before, r, ret, Commits(env));
    }

    /** Restores to the directory found for the row's source path, under a name free there. */
    method HandleRestoreXattr(name: string, cloudId: string, realParent: string, env: Env) returns (ret: int, newName: string)
      requires Valid() && dentries.Roomy() && Orderly(env)
      modifies db, dentries, dentries.files.Values
      ensures Valid() && dentries.bound <= old(dentries.bound) + 1 && fresh(dentries.files.Values - old(dentries.files.Values))
      ensures Outcome(old(View()), Restore(name, realParent, cloudId, newName), ret, Commits(env), View())
      ensures ret == E_OK && name !in old(View()).dirs[realParent] ==> newName == name
      ensures Healthy(env) && cloudId != "" && cloudId in old(db.rows)
              && TrashName(name, old(db.rows)[cloudId].rowId) in old(View()).dirs[TRASH]
              && name !in old(View()).dirs[realParent] && 1 <= |name| <= 8 * PER_GROUP ==>
                ret == E_OK
      ensures ret == E_OK && name in old(View()).dirs[realParent] ==> FreshFor(old(View()).dirs[realParent], name, newName)
      ensures env.begin != E_OK ==> ret == env.begin
      ensures env.begin == E_OK && (cloudId == "" || env.query != E_OK || cloudId !in old(db.rows)) ==> ret == E_RDB
    {
      hide FileInv, Contents, Depth, AllShaped, After, DentryDirs.Valid, DentryDirs.Dirs,
        Sound, Upserted, Steady, Undoes, KeepsName, AllReported, FullIds, RowsAfter, Outcome, Creatable, Quiet, Change,
        Moved, TrashName, FreshFor;
      newName := name;
      DirsAreSound();
      ghost var before := View();
      var transaction := new TransactionOperations(db);
      ret := transaction.Start(env.begin);
      if ret == E_OK {
        if cloudId == "" || env.query != E_OK || cloudId !in db.rows {
          ret := E_RDB;
        } else {
          transaction.Finish(env.commitFailures);
        }
        transaction.Close();
      }
      assert View() == before;
      if ret == E_OK {
        ret := env.path;
      }
      if ret == E_OK {
        ret, newName := CheckIsConflict(name, realParent, env.io);
      }
      if ret == E_OK {
        ret := RestoreUpdateRdb(cloudId, RestoreInfo(name, realParent, newName, db.rows[cloudId].rowId), env);
      } else {
        Refused(before, Restore(name, realParent, cloudId, newName), ret, Commits(env));
      }
    }

    /** Sees to it that the bin is listed in the root directory. */
    method CreateRecycleDentry(io: Io) returns (ret: int)
      requires Valid() && dentries.Roomy() && Steady(io)
      modifies dentries, dentries.files.Values
      ensures Valid() && dentries.bound <= old(dentries.bound) + 1 && fresh(dentries.files.Values - old(dentries.files.Values))
      ensures ActionOutcome(old(View()), ListBin, ret, true, View())
      ensures Quiet(io) ==> ret == E_OK
      // A bin that was not listed is a local directory with its own name for an id.
      ensures ret == E_OK && ".trash" !in old(View()).dirs["rootId"] ==>
                && "rootId" in View().dirs && ".trash" in View().dirs["rootId"]
                && var m := View().dirs["rootId"][".trash"];
                   && m.mode == 0x41F9 && m.position == 1 && m.size == 0 && m.noUpload == 0
                   && |m.cloudId| == 33 && ".trash" <= m.cloudId && forall j :: 6 <= j < 33 ==> m.cloudId[j] == '\0'
    {
      hide FileInv, Contents, Depth, AllShaped, After, DentryDirs.Valid, DentryDirs.Dirs, Sound, Steady, Quiet, NewMeta, Creatable, KeepsName;
      DirsAreSound();
      SoundAt(View().dirs, ROOT_CLOUD_ID);
      BinIsNamed();
      BinEdited();
      NewMetaSays(BIN_BASE);
      ret := dentries.LookupAndCreate(ROOT_CLOUD_ID, TRASH, BinEdit(), io);
    }

    /** A row id the table has not given out. */
    method NextRowId() returns (rowId: int)
      ensures RowIdFree(db.rows, rowId)
    {
      rowId := 1;
      var left := db.rows.Keys;
      while left != {}
        invariant left <= db.rows.Keys
        invariant forall id :: id in db.rows && id !in left ==> db.rows[id].rowId < rowId
        decreases |left|
      {
        var id :| id in left;
        if db.rows[id].rowId >= rowId {
          rowId := db.rows[id].rowId + 1;
        }
        left := left - {id};
      }
    }

    /** Carries an action out; what was done has the row id given and the name chosen on the way. */
    method Execute(a: Action, env: Env) returns (ret: int, ghost done: Action)
      requires Valid() && dentries.Roomy() && Orderly(env)
      modifies db, dentries, dentries.files.Values
      ensures Valid() && dentries.bound <= old(dentries.bound) + 1 && fresh(dentries.files.Values - old(dentries.files.Values))
      ensures SameCall(a, done) && ActionOutcome(old(View()), done, ret, Commits(env), View())
      ensures Sound(old(View()).dirs) && (Healthy(env) && Admitted(old(View()), a) ==> ret == E_OK)
    {
      hide FileInv, Contents, Depth, AllShaped, After, DentryDirs.Valid, DentryDirs.Dirs, Sound, Steady, Undoes, Quiet, Outcome,
        Commits, Has, Put, NewMeta, Fitting, Succeeds, RowsAfter, DirsAfter, TrashName, FreshFor, LegalName, Spaced;
      done := a;
      DirsAreSound();
      match a
      case ListBin =>
        ret := CreateRecycleDentry(env.io);
      case Serve(Create(cloudId, parent, name, noUpload, stat, added, _)) =>
        var rowId := NextRowId();
        done := Serve(Request.Create(cloudId, parent, name, noUpload, stat, added, rowId));
        ret := Create(cloudId, parent, name, noUpload, stat, added, rowId, env);
      case Serve(MkDir(cloudId, parent, name, noUpload, added, edited, _)) =>
        var rowId := NextRowId();
        done := Serve(Request.MkDir(cloudId, parent, name, noUpload, added, edited, rowId));
        ret := MkDir(cloudId, parent, name, noUpload, added, edited, rowId, env);
      case Serve(SizeSetAttr(name, parent, cloudId, size)) =>
        ret := SizeSetAttr(name, parent, cloudId, size, env);
      case Serve(MtimeSetAttr(name, parent, cloudId, mtime)) =>
        ret := MtimeSetAttr(name, parent, cloudId, mtime, env);
      case Serve(Write(name, parent, cloudId, stat)) =>
        ret := Write(name, parent, cloudId, stat, env);
      case Serve(LocationSetXattr(name, parent, cloudId, position)) =>
        ret := LocationSetXattr(name, parent, cloudId, LocationOf(position), env);
        if !(1 <= position <= 3) {
          Refused(View(), a.request, ret, Commits(env));
        }
      case Serve(Recycle(name, parent, cloudId, now)) =>
        ret := HandleRecycleXattr(name, parent, cloudId, now, env);
      case Serve(Restore(name, parent, cloudId, _)) =>
        var newName;
        ret, newName := HandleRestoreXattr(name, cloudId, parent, env);
        done := Serve(Restore(name, parent, cloudId, newName));
    }

    /** Any sequence of actions, carried out until some file has grown past the last level with exact
        addresses. Every action fails without effect or does what it says; and if the requests done were
        fitting and commits worked, both stores agree at the end if they did at the start. */
    method Replay(calls: seq<(Action, Env)>) returns (rets: seq<int>, ghost done: seq<Action>, ghost states: seq<Stores>)
      requires Valid() && forall i :: 0 <= i < |calls| ==> Orderly(calls[i].1)
      modifies db, dentries, dentries.files.Values
      ensures Valid() && fresh(dentries.files.Values - old(dentries.files.Values))
      ensures |done| == |rets| <= |calls| && |states| == |rets| + 1 && states[0] == old(View()) && states[|rets|] == View()
      ensures |rets| < |calls| ==> exists p :: p in dentries.files && DepthOf(dentries.files[p]) > LAST_SAFE_LEVEL
      ensures forall i :: 0 <= i < |rets| ==>
                SameCall(calls[i].0, done[i]) && ActionOutcome(states[i], done[i], rets[i], Commits(calls[i].1), states[i + 1])
      ensures forall i :: 0 <= i < |rets| ==>
                Sound(states[i].dirs) && (Healthy(calls[i].1) && Admitted(states[i], calls[i].0) ==> rets[i] == E_OK)
      ensures Agreement(old(View())) && (forall i :: 0 <= i < |rets| ==> Commits(calls[i].1) && Proper(states[i], done[i], rets[i])) ==>
                TwoStores.Run(states, done) && Agreement(View())
    {
      hide FileInv, Contents, Depth, AllShaped, After, DentryDirs.Valid, DentryDirs.Dirs, Agreement, ActionOutcome, Orderly, Commits,
        Proper, SameCall, Sound, Healthy, Admitted;
      rets, done, states := [], [], [View()];
      while |rets| < |calls|
        invariant Valid() && fresh(dentries.files.Values - old(dentries.files.Values))
        invariant |done| == |rets| <= |calls| && |states| == |rets| + 1 && states[0] == old(View()) && states[|rets|] == View()
        invariant forall i :: 0 <= i < |rets| ==>
                    SameCall(calls[i].0, done[i]) && ActionOutcome(states[i], done[i], rets[i], Commits(calls[i].1), states[i + 1])
        invariant forall i :: 0 <= i < |rets| ==>
                    Sound(states[i].dirs) && (Healthy(calls[i].1) && Admitted(states[i], calls[i].0) ==> rets[i] == E_OK)
      {
        var roomy := dentries.CheckRoom();
        if !roomy {
          break;
        }
        var n := |rets|;
        var ret;
        ghost var did;
        ret, did := Execute(calls[n].0, calls[n].1);
        rets, done, states := rets + [ret], done + [did], states + [View()];
      }
      if Agreement(old(View())) && forall i :: 0 <= i < |rets| ==> Commits(calls[i].1) && Proper(states[i], done[i], rets[i]) {
        forall i | 0 <= i < |rets| ensures Served(states[i], done[i], states[i + 1]) {
          OutcomeIsServed(states[i], done[i], rets[i], states[i + 1]);
        }
        RunKeepsAgreement(states, done, |rets|);
      }
    }
  }
}
