/** The caches of open dentry files: the re-entrant one that opens parents on the way, and the
    cloud-disk one. */
module MetaFileMgrs {
  import opened Common
  import opened LruCaches

  const MAX_META_FILE_NUM: nat := 100
  const MAX_CLOUDDISK_META_FILE_NUM: nat := 150

  type Key = (nat, string)

  /** An open dentry file. */
  datatype Handle = Handle(serial: nat, key: Key)

  /** Which opens fail: with the quota exceeded before construction, or inside the constructor. */
  datatype OpenEnv = OpenEnv(quotaExceeded: set<string>, openFails: set<string>)

  function LastSlash(path: string, n: nat): (r: int)
    requires n <= |path|
    ensures -1 <= r < n
    ensures r >= 0 ==> path[r] == '/'
    ensures forall j :: r < j < n ==> path[j] != '/'
  {
    if n == 0 then -1 else if path[n - 1] == '/' then n - 1 else LastSlash(path, n - 1)
  }

  function ParentDir(path: string): string {
    if path == "/" || path == "" then ""
    else
      var pos := LastSlash(path, |path|);
      if pos <= 0 then "/" else path[..pos]
  }

  /** Falls from a path to its parent, also from "a" to "/". */
  function Weight(path: string): nat {
    |path| + if path == "/" then 0 else 1
  }

  lemma ParentIsLighter(path: string)
    requires ParentDir(path) != ""
    ensures Weight(ParentDir(path)) < Weight(path) && ParentDir(path) != path
  {
  }

  /** The parent of a path is what stands before its last slash, or the root if only its first character may be
      one; the root and the empty path have none. */
  lemma ParentDirSays(path: string)
    ensures path == "" || path == "/" <==> ParentDir(path) == ""
    ensures (exists i :: 0 < i < |path| && path[i] == '/') ==>
              ParentDir(path) < path && '/' !in path[|ParentDir(path)| + 1..]
              && path == ParentDir(path) + "/" + path[|ParentDir(path)| + 1..]
    ensures path != "" && path != "/" && (forall i :: 0 < i < |path| ==> path[i] != '/') ==> ParentDir(path) == "/"
  {
    if i :| 0 < i < |path| && path[i] == '/' {
      var pos := LastSlash(path, |path|);
      assert path == path[..pos] + "/" + path[pos + 1..];
    }
  }

  /** x is the path up to, and without, one of its slashes past the first character. */
  ghost predicate UpToSlash(path: string, x: string) {
    0 < |x| < |path| && x == path[..|x|] && path[|x|] == '/'
  }

  function KeysOf<V>(order: seq<(Key, V)>): (r: seq<Key>)
    ensures |r| == |order| && forall i :: 0 <= i < |r| ==> r[i] == order[i].0
  {
    seq(|order|, i requires 0 <= i < |order| => order[i].0)
  }

  /** The constructor of the path's file goes on to its parent. */
  predicate Climbs(path: string, env: OpenEnv) {
    path !in env.openFails && ParentDir(path) != ""
  }

  /** The path and its ancestors up to the first one cached, as far as they can be opened. */
  function Opened(keys: seq<Key>, userId: nat, path: string, env: OpenEnv): (r: seq<Key>)
    ensures r != [] ==> r[0] == (userId, path)
    decreases Weight(path)
  {
    if (userId, path) in keys || path in env.quotaExceeded then []
    else if !Climbs(path, env) then [(userId, path)]
    else
      ParentIsLighter(path);
      [(userId, path)] + Opened(keys, userId, ParentDir(path), env)
  }

  const CALM: OpenEnv := OpenEnv({}, {})

  /** The path itself, everything up to one of its slashes, and the root. */
  ghost predicate Ancestor(path: string, x: string) {
    x == path || (path != "" && x == "/") || UpToSlash(path, x)
  }

  lemma AncestorStep(path: string, x: string)
    requires ParentDir(path) != ""
    ensures Ancestor(path, x) <==> x == path || Ancestor(ParentDir(path), x)
  {
    ParentDirSays(path);
    var up := ParentDir(path);
    if exists i :: 0 < i < |path| && path[i] == '/' {
      var last := path[|up| + 1..];
      assert forall i :: |up| < i < |path| ==> path[i] == last[i - |up| - 1];
      if UpToSlash(path, x) && |x| < |up| {
        assert up[|x|] == path[|x|] && up[..|x|] == path[..|x|];
      }
      if UpToSlash(up, x) {
        assert up[|x|] == path[|x|] && up[..|x|] == path[..|x|];
      }
    }
  }

  /** On an empty cache, with nothing failing, a request opens the path and all its ancestors, each once,
      longest first. */
  lemma {:induction false} ColdOpens(userId: nat, path: string)
    ensures var r := Opened([], userId, path, CALM);
            && r != [] && |r| <= |path| + 1
            && (forall u: nat, x: string :: (u, x) in r <==> u == userId && Ancestor(path, x))
            && (forall i, j :: 0 <= i < j < |r| ==> |r[j].1| < |r[i].1| || (j == |r| - 1 && r[j].1 == "/" != r[i].1))
    decreases Weight(path)
  {
    var up := ParentDir(path);
    ParentDirSays(path);
    var r := Opened([], userId, path, CALM);
    if up == "" {
      assert r == [(userId, path)];
    } else {
      ParentIsLighter(path);
      ColdOpens(userId, up);
      var rest := Opened([], userId, up, CALM);
      assert r == [(userId, path)] + rest;
      forall u: nat, x: string ensures (u, x) in r <==> u == userId && Ancestor(path, x) {
        AncestorStep(path, x);
      }
    }
  }

  /** In general it opens them up to the first that is cached or refused, or the first that fails. */
  lemma {:induction false} OpensFront(keys: seq<Key>, userId: nat, path: string, env: OpenEnv)
    ensures Opened(keys, userId, path, env) <= Opened([], userId, path, CALM)
    ensures var n := |Opened(keys, userId, path, env)|;
            forall i :: 0 <= i < n ==>
              var k := Opened(keys, userId, path, env)[i];
              k !in keys && k.1 !in env.quotaExceeded && (i < n - 1 ==> k.1 !in env.openFails)
    decreases Weight(path)
  {
    if Opened(keys, userId, path, env) != [] && Climbs(path, env) {
      ParentIsLighter(path);
      OpensFront(keys, userId, ParentDir(path), env);
    }
  }

  /** The cached ancestor the opening ends at, if it does. */
  function Reached(keys: seq<Key>, userId: nat, path: string, env: OpenEnv): (r: Option<Key>)
    ensures r.Some? ==> r.value in keys
    decreases Weight(path)
  {
    if (userId, path) in keys then Some((userId, path))
    else if path in env.quotaExceeded || !Climbs(path, env) then None
    else
      ParentIsLighter(path);
      Reached(keys, userId, ParentDir(path), env)
  }

  /** New files, numbered in the order their constructors start. */
  function NewFiles(keys: seq<Key>, serial: nat): (r: seq<(Key, Handle)>)
    ensures |r| == |keys|
  {
    seq(|keys|, i requires 0 <= i < |keys| => (keys[i], Handle(serial + i, keys[i])))
  }

  /** The old entries, a cached ancestor in front. */
  function Rest(before: seq<(Key, Handle)>, reached: Option<Key>): seq<(Key, Handle)>
    requires reached.Some? ==> Has(before, reached.value)
  {
    if reached.None? then before else Touched(before, reached.value)
  }

  lemma HasIsMember<V>(order: seq<(Key, V)>, k: Key)
    ensures Has(order, k) <==> k in KeysOf(order)
  {
    if k in KeysOf(order) {
      var i :| 0 <= i < |order| && KeysOf(order)[i] == k;
      assert PositionOf(order, k) <= i;
    }
  }

  lemma {:induction false} OpenedIsLighter(keys: seq<Key>, userId: nat, path: string, env: OpenEnv, j: nat)
    requires j < |Opened(keys, userId, path, env)|
    ensures Weight(Opened(keys, userId, path, env)[j].1) <= Weight(path)
    decreases Weight(path)
  {
    if j > 0 {
      ParentIsLighter(path);
      OpenedIsLighter(keys, userId, ParentDir(path), env, j - 1);
    }
  }

  lemma {:induction false} ReachedIsCached(before: seq<(Key, Handle)>, userId: nat, path: string, env: OpenEnv)
    ensures var r := Reached(KeysOf(before), userId, path, env);
            r.Some? ==> Has(before, r.value)
  {
    var r := Reached(KeysOf(before), userId, path, env);
    if r.Some? {
      HasIsMember(before, r.value);
    }
  }

  /** The cache after a path's file was asked for: the files opened on the way, nearest first, then the
      cached ancestor they ended at, then the other entries in their order, the oldest dropped. */
  ghost function OrderAfter(before: seq<(Key, Handle)>, userId: nat, path: string, env: OpenEnv, serial: nat): seq<(Key, Handle)> {
    ReachedIsCached(before, userId, path, env);
    Trimmed(NewFiles(Opened(KeysOf(before), userId, path, env), serial) + Rest(before, Reached(KeysOf(before), userId, path, env)),
            MAX_META_FILE_NUM)
  }

  /** The cache holds files of the path, its ancestors and the root, and no others. */
  ghost predicate JustTheLine(order: seq<(Key, Handle)>, userId: nat, path: string) {
    forall u: nat, x: string :: (u, x) in KeysOf(order) <==> u == userId && Ancestor(path, x)
  }

  lemma ColdOrder(userId: nat, path: string, serial: nat)
    requires |path| < MAX_META_FILE_NUM
    ensures JustTheLine(OrderAfter([], userId, path, CALM, serial), userId, path)
  {
    hide Opened, Ancestor;
    ColdOpens(userId, path);
    var keys := Opened([], userId, path, CALM);
    var order := OrderAfter([], userId, path, CALM, serial);
    assert KeysOf<Handle>([]) == [];
    assert Reached([], userId, path, CALM).None?;
    assert order == NewFiles(keys, serial);
    assert KeysOf(order) == keys;
  }

  /** Every file is cached under its own key. */
  predicate Labelled(order: seq<(Key, Handle)>) {
    forall i :: 0 <= i < |order| ==> order[i].1.key == order[i].0
  }

  lemma StaysLabelled(order: seq<(Key, Handle)>, key: Key, h: Handle, n: nat)
    requires Labelled(order) && n >= 1
    ensures Has(order, key) ==> Labelled(Touched(order, key)) && Lookup(order, key).key == key
    ensures Labelled(Dropped(order, key))
    ensures h.key == key ==> Labelled(Inserted(order, key, h, n))
  {
  }

  class MetaFileMgr {
    const metaFiles: LruCache<Key, Handle>
    const cloudFiles: LruCache<Key, Handle>
    var nextSerial: nat

    ghost predicate Valid()
      reads this, metaFiles, cloudFiles
    {
      && metaFiles != cloudFiles
      && metaFiles.Valid() && DistinctKeys(metaFiles.Order()) && |metaFiles.Order()| <= 100
      && cloudFiles.Valid() && DistinctKeys(cloudFiles.Order()) && |cloudFiles.Order()| <= 150
      && Labelled(cloudFiles.Order())
    }

    constructor ()
      ensures Valid() && metaFiles.Order() == [] && cloudFiles.Order() == []
      ensures fresh(metaFiles) && fresh(cloudFiles)
    {
      metaFiles := new LruCache();
      cloudFiles := new LruCache();
      nextSerial := 0;
    }

    /** Makes room: the oldest entries go until there are fewer than the maximum. */
    method MakeRoom()
      requires Valid()
      modifies metaFiles`list, metaFiles`index
      ensures Valid() && cloudFiles.Order() == old(cloudFiles.Order())
      ensures metaFiles.Order() == Trimmed(old(metaFiles.Order()), 99)
    {
      hide Linked, OrderOf, Has;
      ghost var order := metaFiles.Order();
      while |metaFiles.list| >= MAX_META_FILE_NUM
        invariant metaFiles.Valid() && metaFiles.Order() <= order
        invariant metaFiles.Order() == order || |metaFiles.Order()| >= MAX_META_FILE_NUM - 1
        decreases |metaFiles.list|
      {
        metaFiles.Evict();
      }
    }

    /** Finds or opens a path's dentry file. Opening one constructs it, which first gets the parent's
        the same way: the recursion ends, never caches the path under construction, and leaves the
        path and its ancestors most recent. */
    method GetMetaFile(userId: nat, path: string, env: OpenEnv) returns (file: Option<Handle>)
      requires Valid()
      modifies this, metaFiles
      ensures Valid() && cloudFiles.Order() == old(cloudFiles.Order())
      ensures metaFiles.Order() == OrderAfter(old(metaFiles.Order()), userId, path, env, old(nextSerial))
      ensures nextSerial == old(nextSerial) + |Opened(KeysOf(old(metaFiles.Order())), userId, path, env)|
      ensures file == if Has(old(metaFiles.Order()), (userId, path)) then Some(Lookup(old(metaFiles.Order()), (userId, path)))
                      else if path in env.quotaExceeded then None
                      else Some(Handle(old(nextSerial), (userId, path)))
      // With nothing cached and nothing failing, the path, its ancestors and the root are cached, and no more.
      ensures old(metaFiles.Order()) == [] && env == CALM && |path| < MAX_META_FILE_NUM ==>
                JustTheLine(metaFiles.Order(), userId, path)
      decreases Weight(path)
    {
      hide Linked, OrderOf, Touched, Trimmed, Opened, Reached, KeysOf, PositionOf, Has, DistinctKeys, Lookup, OrderAfter, ParentDir, JustTheLine;
      var key := (userId, path);
      ghost var before := metaFiles.Order();
      if before == [] && env == CALM && |path| < MAX_META_FILE_NUM {
        ColdOrder(userId, path, nextSerial);
      }
      HasIsMember(before, key);
      var hit := metaFiles.Contains(key);
      if hit {
        TouchedIsSame(before, key);
        AfterHit(before, userId, path, env, nextSerial);
        var v := metaFiles.Touch(key);
        return Some(v);
      }
      if path in env.quotaExceeded {
        AfterQuota(before, userId, path, env, nextSerial);
        return None;
      }
      // MetaFile's constructor
      var serial := nextSerial;
      nextSerial := nextSerial + 1;
      if path !in env.openFails {
        var parent := ParentDir(path);
        if parent != "" {
          ParentIsLighter(path);
          var _ := GetMetaFile(userId, parent, env);
        }
      }
      ghost var middle := metaFiles.Order();
      MakeRoom();
      StillAbsent(before, middle, userId, path, env, serial + 1);
      var h := Handle(serial, key);
      InsertedKeepsRecent(middle, key, h, MAX_META_FILE_NUM);
      AfterOpening(before, middle, userId, path, env, serial);
      metaFiles.EmplaceFront(key, h);
      return Some(h);
    }

    /** unlinkErrno is 0 when the dentry file was removed. A missing file is not an error. */
    method RemoveByPath(userId: nat, path: string, unlinkErrno: nat) returns (ret: int)
      requires Valid()
      modifies metaFiles
      ensures Valid() && metaFiles.Order() == Dropped(old(metaFiles.Order()), (userId, path))
      ensures cloudFiles.Order() == old(cloudFiles.Order())
      ensures ret == if unlinkErrno == 0 || unlinkErrno == 2 then 0 else 0 - unlinkErrno
    {
      hide Linked, OrderOf, Has, PositionOf;
      DroppedIsRest(metaFiles.Order(), (userId, path));
      metaFiles.Erase((userId, path));
      if unlinkErrno == 0 {
        return 0;
      }
      if unlinkErrno == 2 {
        return 0;
      }
      return 0 - unlinkErrno;
    }

    method ClearAll()
      requires Valid()
      modifies metaFiles
      ensures Valid() && metaFiles.Order() == [] && cloudFiles.Order() == old(cloudFiles.Order())
    {
      metaFiles.Clear();
    }

    /** The key runs cloud id and bundle name together. */
    method GetCloudDiskMetaFile(userId: nat, bundleName: string, cloudId: string) returns (file: Handle)
      requires Valid()
      modifies this, cloudFiles
      ensures Valid() && metaFiles.Order() == old(metaFiles.Order())
      ensures file.key == (userId, cloudId + bundleName)
      ensures var key := (userId, cloudId + bundleName);
              var before := old(cloudFiles.Order());
              if Has(before, key)
              then file == Lookup(before, key) && cloudFiles.Order() == Touched(before, key)
              else file == Handle(old(nextSerial), key) && cloudFiles.Order() == Inserted(before, key, file, 150)
    {
      hide Linked, OrderOf, PositionOf, Lookup, Has, Touched, Labelled;
      var key := (userId, cloudId + bundleName);
      ghost var before := cloudFiles.Order();
      StaysLabelled(before, key, Handle(nextSerial, key), MAX_CLOUDDISK_META_FILE_NUM);
      var hit := cloudFiles.Contains(key);
      if hit {
        TouchedIsSame(before, key);
        file := cloudFiles.Touch(key);
        return;
      }
      if |cloudFiles.list| == MAX_CLOUDDISK_META_FILE_NUM {
        cloudFiles.Evict();
      }
      file := Handle(nextSerial, key);
      nextSerial := nextSerial + 1;
      InsertedKeepsRecent(before, key, file, MAX_CLOUDDISK_META_FILE_NUM);
      TrimmedLacks(before, key, MAX_CLOUDDISK_META_FILE_NUM - 1);
      assert cloudFiles.Order() == Trimmed(before, MAX_CLOUDDISK_META_FILE_NUM - 1);
      cloudFiles.EmplaceFront(key, file);
    }

    method ClearCloud(userId: nat, bundleName: string, cloudId: string)
      requires Valid()
      modifies cloudFiles
      ensures Valid() && metaFiles.Order() == old(metaFiles.Order())
      ensures cloudFiles.Order() == Dropped(old(cloudFiles.Order()), (userId, cloudId + bundleName))
    {
      hide Linked, OrderOf, Has, PositionOf, Labelled;
      DroppedIsRest(cloudFiles.Order(), (userId, cloudId + bundleName));
      StaysLabelled(cloudFiles.Order(), (userId, cloudId + bundleName), Handle(0, (0, "")), 1);
      cloudFiles.Erase((userId, cloudId + bundleName));
    }

    method CloudDiskClearAll()
      requires Valid()
      modifies cloudFiles
      ensures Valid() && cloudFiles.Order() == [] && metaFiles.Order() == old(metaFiles.Order())
    {
      cloudFiles.Clear();
    }
  }

  lemma AfterHit(before: seq<(Key, Handle)>, userId: nat, path: string, env: OpenEnv, serial: nat)
    requires Has(before, (userId, path)) && |Touched(before, (userId, path))| <= MAX_META_FILE_NUM
    ensures Opened(KeysOf(before), userId, path, env) == []
    ensures OrderAfter(before, userId, path, env, serial) == Touched(before, (userId, path))
  {
    hide Touched, Has, KeysOf;
    HasIsMember(before, (userId, path));
    assert NewFiles([], serial) == [];
  }

  lemma AfterQuota(before: seq<(Key, Handle)>, userId: nat, path: string, env: OpenEnv, serial: nat)
    requires !Has(before, (userId, path)) && path in env.quotaExceeded && |before| <= MAX_META_FILE_NUM
    ensures Opened(KeysOf(before), userId, path, env) == []
    ensures OrderAfter(before, userId, path, env, serial) == before
  {
    hide Has, KeysOf;
    HasIsMember(before, (userId, path));
    assert NewFiles([], serial) == [];
  }

  /** The cache once the parent, if it comes to that, was asked for. */
  ghost function ParentAsked(before: seq<(Key, Handle)>, userId: nat, path: string, env: OpenEnv, serial: nat): seq<(Key, Handle)> {
    if Climbs(path, env) then OrderAfter(before, userId, ParentDir(path), env, serial) else before
  }

  lemma RestIsOld(before: seq<(Key, Handle)>, reached: Option<Key>, i: nat)
    requires (reached.Some? ==> Has(before, reached.value)) && i < |Rest(before, reached)|
    ensures Rest(before, reached)[i].0 in KeysOf(before)
  {
    if reached.Some? {
      var p := PositionOf(before, reached.value);
      var j := if i == 0 then p else if i <= p then i - 1 else i;
      assert KeysOf(before)[j] == Touched(before, reached.value)[i].0;
    } else {
      assert KeysOf(before)[i] == before[i].0;
    }
  }

  /** Getting the parent does not cache the path itself. */
  lemma StillAbsent(before: seq<(Key, Handle)>, middle: seq<(Key, Handle)>, userId: nat, path: string, env: OpenEnv, serial: nat)
    requires !Has(before, (userId, path)) && middle == ParentAsked(before, userId, path, env, serial)
    ensures !Has(middle, (userId, path)) && !Has(Trimmed(middle, MAX_META_FILE_NUM - 1), (userId, path))
  {
    hide Has, KeysOf, Opened, Reached, Touched;
    var key := (userId, path);
    HasIsMember(before, key);
    HasIsMember(middle, key);
    assert !Has(middle, key) by {
      forall i | 0 <= i < |middle| && Climbs(path, env) ensures middle[i].0 != key {
        var keys, parent := KeysOf(before), ParentDir(path);
        var news, reached := Opened(keys, userId, parent, env), Reached(keys, userId, parent, env);
        ReachedIsCached(before, userId, parent, env);
        assert middle[i] == (NewFiles(news, serial) + Rest(before, reached))[i];
        if i < |news| {
          ParentIsLighter(path);
          OpenedIsLighter(keys, userId, parent, env, i);
        } else {
          RestIsOld(before, reached, i - |news|);
        }
      }
      KeysAre(middle, key);
    }
    TrimmedLacks(middle, key, MAX_META_FILE_NUM - 1);
  }

  lemma KeysAre(order: seq<(Key, Handle)>, k: Key)
    requires forall i :: 0 <= i < |order| ==> order[i].0 != k
    ensures k !in KeysOf(order)
  {
  }

  lemma OpenedHere(before: seq<(Key, Handle)>, userId: nat, path: string, env: OpenEnv)
    requires !Has(before, (userId, path)) && path !in env.quotaExceeded
    ensures Opened(KeysOf(before), userId, path, env)
            == [(userId, path)] + if Climbs(path, env) then Opened(KeysOf(before), userId, ParentDir(path), env) else []
    ensures Reached(KeysOf(before), userId, path, env)
            == if Climbs(path, env) then Reached(KeysOf(before), userId, ParentDir(path), env) else None
  {
    hide Has, KeysOf;
    HasIsMember(before, (userId, path));
  }

  lemma AfterOpening(before: seq<(Key, Handle)>, middle: seq<(Key, Handle)>, userId: nat, path: string, env: OpenEnv, serial: nat)
    requires !Has(before, (userId, path)) && path !in env.quotaExceeded && |before| <= MAX_META_FILE_NUM
    requires middle == ParentAsked(before, userId, path, env, serial + 1)
    ensures Inserted(middle, (userId, path), Handle(serial, (userId, path)), MAX_META_FILE_NUM)
            == OrderAfter(before, userId, path, env, serial)
    ensures |Opened(KeysOf(before), userId, path, env)|
            == 1 + if Climbs(path, env) then |Opened(KeysOf(before), userId, ParentDir(path), env)| else 0
  {
    hide Has, KeysOf, Touched, Trimmed, Opened, Reached, Climbs, ParentDir, NewFiles, Rest;
    var key, keys := (userId, path), KeysOf(before);
    var h := Handle(serial, key);
    OpenedHere(before, userId, path, env);
    ReachedIsCached(before, userId, path, env);
    var up := if Climbs(path, env) then Opened(keys, userId, ParentDir(path), env) else [];
    var rest := Rest(before, Reached(keys, userId, path, env));
    NewestFirst(key, up, serial);
    var older := NewFiles(up, serial + 1) + rest;
    assert [(key, h)] + older == NewFiles([key] + up, serial) + rest;
    PushTrimmed(older, (key, h), MAX_META_FILE_NUM);
    if !Climbs(path, env) {
      RestOfNone(before, serial + 1);
      TrimmedSmall(before, MAX_META_FILE_NUM);
      assert older == before;
    }
    assert middle == Trimmed(older, MAX_META_FILE_NUM);
  }

  lemma NewestFirst(key: Key, up: seq<Key>, serial: nat)
    ensures NewFiles([key] + up, serial) == [(key, Handle(serial, key))] + NewFiles(up, serial + 1)
  {
  }

  lemma RestOfNone(before: seq<(Key, Handle)>, serial: nat)
    ensures NewFiles([], serial) == [] && Rest(before, None) == before
  {
  }

  lemma PushTrimmed<E>(xs: seq<(Key, E)>, e: (Key, E), n: nat)
    requires n >= 1
    ensures [e] + Trimmed(Trimmed(xs, n), n - 1) == Trimmed([e] + xs, n)
  {
  }

  lemma TrimmedSmall<E>(xs: seq<(Key, E)>, n: nat)
    requires |xs| <= n
    ensures Trimmed(xs, n) == xs
  {
  }

  /** Within one bundle the concatenated cache key tells directories apart. */
  lemma KeysOfOneBundle(cloudId1: string, cloudId2: string, bundleName: string)
    requires cloudId1 + bundleName == cloudId2 + bundleName
    ensures cloudId1 == cloudId2
  {
    assert |cloudId1| == |cloudId2|;
    assert cloudId1 == (cloudId1 + bundleName)[..|cloudId1|];
    assert cloudId2 == (cloudId2 + bundleName)[..|cloudId2|];
  }

  /** Across bundles it does exactly not when one id is the other followed by the front of the other's
      bundle name, and the bundle names differ by that same front. */
  lemma KeysCollideIff(cloudId1: string, bundle1: string, cloudId2: string, bundle2: string)
    ensures cloudId1 + bundle1 == cloudId2 + bundle2
            <==> || (cloudId1 <= cloudId2 && bundle1 == cloudId2[|cloudId1|..] + bundle2)
                 || (cloudId2 <= cloudId1 && bundle2 == cloudId1[|cloudId2|..] + bundle1)
  {
    var k1, k2 := cloudId1 + bundle1, cloudId2 + bundle2;
    if cloudId1 <= cloudId2 && bundle1 == cloudId2[|cloudId1|..] + bundle2 {
      assert cloudId2 == cloudId1 + cloudId2[|cloudId1|..];
    }
    if cloudId2 <= cloudId1 && bundle2 == cloudId1[|cloudId2|..] + bundle1 {
      assert cloudId1 == cloudId2 + cloudId1[|cloudId2|..];
    }
    if k1 == k2 {
      assert cloudId1 == k1[..|cloudId1|] && bundle1 == k1[|cloudId1|..];
      assert cloudId2 == k2[..|cloudId2|] && bundle2 == k2[|cloudId2|..];
      if |cloudId1| <= |cloudId2| {
        assert bundle1 == cloudId2[|cloudId1|..] + bundle2;
      } else {
        assert bundle2 == cloudId1[|cloudId2|..] + bundle1;
      }
    }
  }

  function CloudKey(ask: (nat, string, string)): Key {
    (ask.0, ask.2 + ask.1)
  }

  /** The keys of these requests, as the cache is asked for them. */
  ghost function KeysAsked(asks: seq<(nat, string, string)>): seq<(Key, Handle)> {
    seq(|asks|, i requires 0 <= i < |asks| => (CloudKey(asks[i]), Handle(0, CloudKey(asks[i]))))
  }

  /** Any requests, for user, bundle and cloud id: the cache then holds the files of the 150 keys asked for most
      recently, the latest in front. */
  method AskMany(mgr: MetaFileMgr, asks: seq<(nat, string, string)>) returns (files: seq<Handle>)
    requires mgr.Valid() && mgr.cloudFiles.Order() == []
    modifies mgr, mgr.cloudFiles
    ensures mgr.Valid() && mgr.metaFiles.Order() == old(mgr.metaFiles.Order())
    ensures HoldsFirst(mgr.cloudFiles.Order(), Recent(KeysAsked(asks)), 150)
    ensures |files| == |asks| && forall i :: 0 <= i < |asks| ==> files[i].key == CloudKey(asks[i])
  {
    hide Linked, OrderOf, Labelled, DistinctKeys, PositionOf, Has, Lookup, Touched, HoldsFirst, Recent, Without;
    files := [];
    NothingHeld<Key, Handle>(150);
    assert KeysAsked(asks[..0]) == [] && Recent<Key, Handle>([]) == [] by {
      NothingAsked();
    }
    for i := 0 to |asks|
      invariant mgr.Valid() && mgr.metaFiles.Order() == old(mgr.metaFiles.Order())
      invariant HoldsFirst(mgr.cloudFiles.Order(), Recent(KeysAsked(asks[..i])), 150)
      invariant |files| == i && forall j :: 0 <= j < i ==> files[j].key == CloudKey(asks[j])
    {
      ghost var before, keys := mgr.cloudFiles.Order(), Recent(KeysAsked(asks[..i]));
      var file := mgr.GetCloudDiskMetaFile(asks[i].0, asks[i].1, asks[i].2);
      RecentDistinct(KeysAsked(asks[..i]));
      AskKeepsFirst(before, keys, CloudKey(asks[i]), file, 150);
      OneMoreAsked(asks, i);
      files := files + [file];
    }
    assert asks[..|asks|] == asks;
  }

  lemma NothingAsked()
    ensures KeysAsked([]) == [] && Recent<Key, Handle>([]) == []
  {
  }

  lemma OneMoreAsked(asks: seq<(nat, string, string)>, i: nat)
    requires i < |asks|
    ensures Recent(KeysAsked(asks[..i + 1])) == [CloudKey(asks[i])] + Without(Recent(KeysAsked(asks[..i])), CloudKey(asks[i]))
  {
    var all := KeysAsked(asks[..i + 1]);
    assert all[..i] == KeysAsked(asks[..i]) && all[i].0 == CloudKey(asks[i]);
  }

  /** Two directories asked for in turn are given one file exactly when their keys collide, whichever
      bundles they are of: the second caller then gets the first caller's file. */
  method AskTwice(mgr: MetaFileMgr, userId: nat, bundle1: string, cloudId1: string, bundle2: string, cloudId2: string)
    returns (file1: Handle, file2: Handle)
    requires mgr.Valid()
    modifies mgr, mgr.cloudFiles
    ensures file2 == file1 <==>
              || (cloudId1 <= cloudId2 && bundle1 == cloudId2[|cloudId1|..] + bundle2)
              || (cloudId2 <= cloudId1 && bundle2 == cloudId1[|cloudId2|..] + bundle1)
  {
    hide Linked, OrderOf, Labelled, DistinctKeys, PositionOf, Has, Lookup, Touched;
    KeysCollideIff(cloudId1, bundle1, cloudId2, bundle2);
    ghost var before := mgr.cloudFiles.Order();
    file1 := mgr.GetCloudDiskMetaFile(userId, bundle1, cloudId1);
    FirstIsFound(before, (userId, cloudId1 + bundle1), file1);
    file2 := mgr.GetCloudDiskMetaFile(userId, bundle2, cloudId2);
  }

  lemma FirstIsFound(before: seq<(Key, Handle)>, key: Key, h: Handle)
    ensures Has(before, key) && h == Lookup(before, key) ==> Has(Touched(before, key), key) && Lookup(Touched(before, key), key) == h
    ensures var r := Inserted(before, key, h, MAX_CLOUDDISK_META_FILE_NUM); Has(r, key) && Lookup(r, key) == h
  {
  }
}
