/** The dentry files of all directories, by the cloud id of the directory. */
module DentryDirStores {
  import opened Common
  import opened Layout
  import opened Dentries
  import opened Groups
  import opened DentryFiles
  import opened ChildLists
  import opened LockTraces
  import opened MetaFiles
  import opened MetaFileOps
  import opened NewNames

  /** The recycle bin's cloud id, and its name in the root directory. */
  const TRASH: string := ".trash"

  /** Every directory, the ones never opened being empty. */
  type Dirs = imap<string, Directory>

  ghost predicate AllReported(m: Directory) {
    forall name :: name in m ==> Reported(m[name])
  }

  /** An open file between operations, at most `bound` levels deep. */
  ghost predicate InOrder(file: CloudDiskMetaFile, bound: nat): (ok: bool)
    reads file
    ensures ok ==> AllShaped(file.groups)
  {
    file.Valid() && After(file.trace) == Free && file.fd >= 0 && DepthOf(file) <= bound
  }

  class DentryDirs {
    const hash: HashFn
    var files: map<string, CloudDiskMetaFile>

    /** No file is deeper than this. */
    ghost var bound: nat

    /** Distinct directories have files of their own, open and in order. */
    ghost predicate Valid()
      reads this, files.Values
    {
      && (forall p, q :: p in files && q in files && p != q ==> files[p] != files[q])
      && (forall p :: p in files ==> InOrder(files[p], bound))
    }

    /** Every file can still take a level with exact addresses. */
    ghost predicate Roomy()
      reads this
    {
      bound <= LAST_SAFE_LEVEL
    }

    ghost function Dirs(): Dirs
      requires Valid()
      reads this, files.Values
    {
      imap p: string :: if p in files then files[p].Dir() else map[]
    }

    constructor (hash: HashFn)
      ensures Valid() && bound == 0 && files == map[] && this.hash == hash
    {
      this.hash, files, bound := hash, map[], 0;
    }

    /** Whether every file can still take a level, looked up file by file. */
    method CheckRoom() returns (roomy: bool)
      requires Valid()
      modifies this`bound
      ensures Valid() && Dirs() == old(Dirs()) && (roomy ==> Roomy())
      ensures roomy <==> forall p :: p in files ==> DepthOf(files[p]) <= LAST_SAFE_LEVEL
    {
      hide FileInv, Contents, DcacheFileSize, Depth, AllShaped, After;
      var left := files.Keys;
      while left != {}
        invariant left <= files.Keys
        invariant forall p :: p in files && p !in left ==> DepthOf(files[p]) <= LAST_SAFE_LEVEL
        decreases |left|
      {
        var p :| p in left;
        if DepthOf(files[p]) > LAST_SAFE_LEVEL {
          return false;
        }
        left := left - {p};
      }
      bound := LAST_SAFE_LEVEL;
      return true;
    }

    /** GetCloudDiskMetaFile: opens the directory's dentry file, creating an empty one if needed. */
    method Open(parent: string) returns (file: CloudDiskMetaFile)
      requires Valid()
      modifies this`files
      ensures Valid() && Dirs() == old(Dirs())
      ensures parent in files && files[parent] == file
      ensures forall p :: p in old(files) ==> p in files && files[p] == old(files)[p]
      ensures forall p :: p in files && p !in old(files) ==> p == parent && fresh(file)
    {
      hide FileInv, Contents, DcacheFileSize, Depth, AllShaped, After;
      if parent in files {
        file := files[parent];
        return;
      }
      file := new CloudDiskMetaFile(hash, 3);
      NoDepth(file);
      assert forall p :: p in files ==> files[p] != file;
      files := files[parent := file];
      assert forall p: string :: Dirs()[p] == old(Dirs())[p];
    }

    lemma EntriesReported(p: string)
      requires Valid()
      ensures AllReported(Dirs()[p]) && FullIds(Dirs()[p])
    {
      hide FileInv, Contents, DcacheFileSize, Depth, After;
      if p in files {
        forall name | name in Dirs()[p] ensures Reported(Dirs()[p][name]) {
          ContentsReported(files[p].groups, name);
        }
      }
    }

    twostate lemma FileUntouched(file: CloudDiskMetaFile)
      requires unchanged(file) && old(InOrder(file, bound)) && old(bound) <= bound
      ensures InOrder(file, bound) && file.Dir() == old(file.Dir())
    {
      hide FileInv, Contents, DcacheFileSize, Depth, AllShaped, After;
    }

    /** At most the files of a and b were worked on: the other directories are as they were. */
    twostate lemma OnlyTwoChanged(new a: string, new b: string)
      requires old(Valid()) && a in files && b in files
      requires forall p :: p in old(files) ==> p in files && files[p] == old(files)[p]
      requires forall p :: p in files && p !in old(files) ==> (p == a || p == b) && fresh(files[p])
      requires forall p, q :: p in files && q in files && p != q ==> files[p] != files[q]
      requires forall p :: p in files && p != a && p != b ==> unchanged(files[p])
      requires InOrder(files[a], bound) && InOrder(files[b], bound) && old(bound) <= bound
      ensures Valid()
      ensures OnlyAt(old(Dirs()), a, files[a].Dir(), b, files[b].Dir(), Dirs())
    {
      hide InOrder, CloudDiskMetaFile.Dir, AllShaped;
      forall p | p in files && p != a && p != b
        ensures InOrder(files[p], bound) && files[p].Dir() == old(files[p].Dir())
      {
        FileUntouched(files[p]);
      }
    }

    /** One file was worked on. */
    twostate lemma OnlyOneChanged(new parent: string)
      requires old(Valid()) && parent in files
      requires forall p :: p in old(files) ==> p in files && files[p] == old(files)[p]
      requires forall p :: p in files && p !in old(files) ==> p == parent && fresh(files[p])
      requires forall p, q :: p in files && q in files && p != q ==> files[p] != files[q]
      requires forall p :: p in files && p != parent ==> unchanged(files[p])
      requires InOrder(files[parent], bound) && old(bound) <= bound
      ensures Valid() && Dirs() == old(Dirs())[parent := files[parent].Dir()]
      ensures fresh(files.Values - old(files.Values))
    {
      hide InOrder, CloudDiskMetaFile.Dir, AllShaped, OnlyAt;
      OnlyTwoChanged(parent, parent);
      OneReplaced(old(Dirs()), parent, files[parent].Dir(), Dirs());
    }

    method LookupAndUpdate(parent: string, name: string, edit: MetaBase -> MetaBase, io: Io) returns (ret: int)
      requires Valid() && Roomy() && Steady(io) && KeepsName(edit)
      modifies this, files.Values
      ensures Valid() && FullIds(old(Dirs())[parent]) && bound <= old(bound) + 1 && fresh(files.Values - old(files.Values))
      ensures ret == E_OK ==>
                Dirs() == old(Dirs())[parent := old(Dirs())[parent][name := Upserted(old(Dirs())[parent], name, edit)]]
      ensures ret == E_OK ==> name in old(Dirs())[parent] || Creatable(edit(DefaultBase(name)))
      ensures ret != E_OK ==> Dirs() == old(Dirs())
      ensures Quiet(io) && (name in old(Dirs())[parent] || Creatable(edit(DefaultBase(name)))) ==> ret == E_OK
    {
      hide FileInv, Contents, DcacheFileSize, Depth, AllShaped, After, Upserted, KeepsName, Creatable, Readable, IsAt;
      var file := Open(parent);
      QuietSees(file, name, io);
      assert file.Valid() && After(file.trace) == Free && file.fd >= 0 && DepthOf(file) <= bound;
      bound := bound + 1;
      ret := DoLookupAndUpdate(file, name, edit, io);
      OnlyOneChanged(parent);
    }

    method LookupAndCreate(parent: string, name: string, edit: MetaBase -> MetaBase, io: Io) returns (ret: int)
      requires Valid() && Roomy() && Steady(io) && KeepsName(edit)
      modifies this, files.Values
      ensures Valid() && bound <= old(bound) + 1 && fresh(files.Values - old(files.Values))
      ensures ret == E_OK && name !in old(Dirs())[parent] ==>
                Dirs() == old(Dirs())[parent := old(Dirs())[parent][name := NewMeta(edit(DefaultBase(name)))]]
      ensures ret != E_OK || name in old(Dirs())[parent] ==> Dirs() == old(Dirs())
      ensures name in old(Dirs())[parent] || (Quiet(io) && Creatable(edit(DefaultBase(name)))) ==> ret == E_OK
    {
      hide FileInv, Contents, DcacheFileSize, Depth, AllShaped, After, NewMeta, KeepsName, Creatable, Readable, IsAt;
      var file := Open(parent);
      QuietSees(file, name, io);
      assert file.Valid() && After(file.trace) == Free && file.fd >= 0 && DepthOf(file) <= bound;
      bound := bound + 1;
      ret := DoLookupAndCreate(file, name, edit, io);
      OnlyOneChanged(parent);
    }

    method ChildUpdate(parent: string, name: string, edit: MetaBase -> MetaBase, io: Io) returns (ret: int)
      requires Valid() && Steady(io) && KeepsName(edit)
      modifies this, files.Values
      ensures Valid() && FullIds(old(Dirs())[parent]) && bound <= old(bound) + 1 && fresh(files.Values - old(files.Values))
      ensures ret == if name !in old(Dirs())[parent] then ENOENT else if io.writeFails then EIO else E_OK
      ensures Dirs() == if ret != E_OK then old(Dirs()) else
                old(Dirs())[parent := old(Dirs())[parent][name := Upserted(old(Dirs())[parent], name, edit)]]
    {
      hide FileInv, Contents, DcacheFileSize, Depth, AllShaped, After, Upserted, KeepsName, Readable, IsAt;
      var file := Open(parent);
      QuietSees(file, name, io);
      ret := DoChildUpdate(file, name, edit, io);
      OnlyOneChanged(parent);
    }

    method Lookup(parent: string, name: string, io: Io) returns (ret: int)
      requires Valid() && Steady(io)
      modifies this, files.Values
      ensures Valid() && Dirs() == old(Dirs()) && fresh(files.Values - old(files.Values))
      ensures bound == old(bound)
      ensures ret == if name in Dirs()[parent] then E_OK else ENOENT
    {
      hide FileInv, Contents, DcacheFileSize, Depth, AllShaped, After, Readable, IsAt;
      var file := Open(parent);
      QuietSees(file, name, io);
      var out;
      ret, out := file.DoLookup(DefaultBase(name), io);
      OnlyOneChanged(parent);
    }

    method FreshName(parent: string, name: string, uninitialised: Group, io: Io) returns (ret: int, newName: string)
      requires Valid() && Steady(io) && Decodable(uninitialised) && |uninitialised.nsl| == PER_GROUP
      modifies this, files.Values
      ensures Valid() && Dirs() == old(Dirs()) && fresh(files.Values - old(files.Values))
      ensures bound == old(bound)
      ensures ret == E_OK ==> newName !in Dirs()[parent] && FreshFor(Dirs()[parent], name, newName)
      ensures Quiet(io) ==> ret == E_OK
    {
      hide FileInv, Contents, DcacheFileSize, Depth, AllShaped, After, Candidate, Decodable, Listed;
      var file := Open(parent);
      ghost var k;
      ret, newName, k := GetNewName(file, name, uninitialised, io);
      OnlyOneChanged(parent);
    }

    method MoveOpened(a: string, from: string, b: string, name: string, ioCreate: Io, ioRemove: Io, ioUndo: Io)
      returns (ret: int)
      requires Valid() && Steady(ioCreate) && Steady(ioRemove) && Undoes(ioUndo)
      requires a in files && b in files && Roomy()
      modifies this`bound, files[a], files[b]
      ensures Valid()
      ensures bound <= old(bound) + 1
      ensures ret == E_OK ==> from in old(Dirs())[a] && name !in old(Dirs())[b]
      ensures ret == E_OK ==> Dirs() == Moved(old(Dirs()), a, from, b, name)
      ensures ret != E_OK ==> Dirs() == old(Dirs())
      ensures Quiet(ioCreate) && Quiet(ioRemove) && from in old(Dirs())[a] && name !in old(Dirs())[b] && 1 <= |name| <= 8 * PER_GROUP ==>
                ret == E_OK
    {
      hide FileInv, Contents, DcacheFileSize, Depth, AllShaped, After, OnlyAt, Moved, MovedFrom, MovedTo, Readable, IsAt, DentryDirs.Dirs,
        Copies;
      ghost var before, src, dst := Dirs(), files[a], files[b];
      DirsAt(a);
      DirsAt(b);
      QuietSees(dst, name, ioCreate);
      var moved;
      ret, moved := Transfer(files[a], from, files[b], name, ioCreate, ioRemove, ioUndo);
      bound := bound + 1;
      OnlyTwoChanged(a, b);
      MovedIs(before, a, from, b, name, src.Dir(), dst.Dir(), Dirs());
    }

    lemma DirsAt(p: string)
      requires Valid() && p in files
      ensures p in Dirs() && Dirs()[p] == files[p].Dir()
    {
      hide FileInv, Contents, DcacheFileSize, Depth, AllShaped, After;
    }

    /** Moves an entry from one directory to another, or to another name in the same one. */
    method Move(a: string, from: string, b: string, name: string, ioCreate: Io, ioRemove: Io, ioUndo: Io) returns (ret: int)
      requires Valid() && Roomy() && Steady(ioCreate) && Steady(ioRemove) && Undoes(ioUndo)
      modifies this, files.Values
      ensures Valid() && bound <= old(bound) + 1 && fresh(files.Values - old(files.Values))
      ensures ret == E_OK ==> from in old(Dirs())[a] && name !in old(Dirs())[b]
      ensures ret == E_OK ==> Dirs() == Moved(old(Dirs()), a, from, b, name)
      ensures ret != E_OK ==> Dirs() == old(Dirs())
      ensures Quiet(ioCreate) && Quiet(ioRemove) && from in old(Dirs())[a] && name !in old(Dirs())[b] && 1 <= |name| <= 8 * PER_GROUP ==>
                ret == E_OK
    {
      hide FileInv, Contents, DcacheFileSize, Depth, AllShaped, After, Steady, Quiet, Undoes, Moved, DentryDirs.Valid, DentryDirs.Dirs;
      var src := Open(a);
      var dst := Open(b);
      ret := MoveOpened(a, from, b, name, ioCreate, ioRemove, ioUndo);
    }
  }

  lemma NoDepth(file: CloudDiskMetaFile)
    requires file.groups == []
    ensures DepthOf(file) == 0
  {
  }

  /** The directories differ at a and b only, where they now are d and e. */
  ghost predicate OnlyAt(dirs: Dirs, a: string, d: Directory, b: string, e: Directory, after: Dirs) {
    forall p: string :: p in dirs && p in after && after[p] == if p == a then d else if p == b then e else dirs[p]
  }

  lemma OneReplaced(dirs: Dirs, a: string, d: Directory, after: Dirs)
    requires OnlyAt(dirs, a, d, a, d, after)
    ensures after == dirs[a := d]
  {
  }

  /** One entry gone from directory a and, under another name or in another directory, in b. */
  ghost function Moved(dirs: Dirs, a: string, from: string, b: string, name: string): Dirs
    requires a in dirs && b in dirs && from in dirs[a]
  {
    var put := dirs[b := dirs[b][name := dirs[a][from]]];
    put[a := put[a] - {from}]
  }

  lemma MovedIs(dirs: Dirs, a: string, from: string, b: string, name: string, d: Directory, e: Directory, after: Dirs)
    requires OnlyAt(dirs, a, d, b, e, after)
    ensures a in dirs && b in dirs
    ensures from in dirs[a] && name !in dirs[b] && d == MovedFrom(dirs[a], from, name, dirs[a][from], a == b)
            && e == MovedTo(dirs[b], from, name, dirs[a][from], a == b) ==>
              after == Moved(dirs, a, from, b, name)
    ensures d == dirs[a] && e == dirs[b] ==> after == dirs
  {
  }
}
