/** The URI of a cloud-disk node: from the node cache if all its ancestors are there, otherwise
    from the database. When do the two agree? */
module NotifyUris {
  import opened Common
  import opened LruCaches

  const MAX_QUERY_TIMES: nat := 1024
  const MAX_CACHE_CNT: nat := 50
  const TYPE_DIR_STR: string := "directory"

  datatype CacheNode = CacheNode(cloudId: string, parentCloudId: string, fileName: string, isDir: string)

  /** A row of the file table, as far as paths are concerned. */
  datatype Row = Row(parent: string, name: string)

  type Table = map<string, Row>

  function Prefix(bundleName: string): string {
    "file://" + bundleName + "/data/storage/el2/cloud"
  }

  // ---------------------------------------------------------------------
  // Ancestors
  // ---------------------------------------------------------------------

  /** ids lists the ancestors from `id` upward, each a row's parent, until the literal root or an id that
      has no row. */
  predicate IsLine(db: Table, id: string, ids: seq<string>)
    decreases |ids|
  {
    if ids == [] then id == ROOT_CLOUD_ID || id == "" || id !in db
    else id != ROOT_CLOUD_ID && id != "" && id == ids[0] && id in db && IsLine(db, db[id].parent, ids[1..])
  }

  /** What the line ends at. */
  function LineEnd(db: Table, id: string, ids: seq<string>): string
    requires forall i :: 0 <= i < |ids| ==> ids[i] in db
  {
    if ids == [] then id else db[ids[|ids| - 1]].parent
  }

  /** The names along the line put in front of a path, nearest first. */
  function Joined(db: Table, ids: seq<string>, uri: string): string
    requires forall i :: 0 <= i < |ids| ==> ids[i] in db
  {
    if ids == [] then uri else Joined(db, ids[1..], db[ids[0]].name + "/" + uri)
  }

  lemma {:induction false} LineInTable(db: Table, id: string, ids: seq<string>)
    requires IsLine(db, id, ids)
    ensures forall i :: 0 <= i < |ids| ==> ids[i] in db && ids[i] != "" && ids[i] != ROOT_CLOUD_ID
    decreases |ids|
  {
    if ids != [] {
      LineInTable(db, db[id].parent, ids[1..]);
    }
  }

  lemma LineGoesOn(db: Table, id: string, ids: seq<string>)
    requires ids != [] && forall i :: 0 <= i < |ids| ==> ids[i] in db
    ensures LineEnd(db, id, ids) == LineEnd(db, db[ids[0]].parent, ids[1..])
  {
  }

  /** A line from an id goes on exactly if the id is neither root nor missing. */
  lemma LineStep(db: Table, id: string, ids: seq<string>)
    requires IsLine(db, id, ids)
    ensures ids == [] <==> id == ROOT_CLOUD_ID || id == "" || id !in db
    ensures ids != [] ==> ids[0] == id && IsLine(db, db[id].parent, ids[1..])
  {
  }

  /** From an id there is one line. */
  lemma {:induction false} OneLine(db: Table, id: string, a: seq<string>, b: seq<string>)
    requires IsLine(db, id, a) && IsLine(db, id, b)
    ensures a == b
    decreases |a|
  {
    if a != [] && b != [] {
      OneLine(db, db[id].parent, a[1..], b[1..]);
      assert a == [a[0]] + a[1..] && b == [b[0]] + b[1..];
    }
  }

  lemma {:induction false} LineFrom(db: Table, id: string, ids: seq<string>, i: nat)
    requires IsLine(db, id, ids) && i < |ids|
    ensures IsLine(db, ids[i], ids[i..])
    decreases i
  {
    if i == 0 {
      assert ids[0..] == ids;
    } else {
      LineFrom(db, db[id].parent, ids[1..], i - 1);
      assert ids[1..][i - 1..] == ids[i..];
    }
  }

  /** So no ancestor comes twice. */
  lemma NoneTwice(db: Table, id: string, ids: seq<string>, i: nat, j: nat)
    requires IsLine(db, id, ids) && i < j < |ids|
    ensures ids[i] != ids[j]
  {
    LineFrom(db, id, ids, i);
    LineFrom(db, id, ids, j);
    if ids[i] == ids[j] {
      OneLine(db, ids[i], ids[i..], ids[j..]);
    }
  }

  /** Up to n ancestors from `id` upward. */
  function Climb(db: Table, id: string, n: nat): (r: seq<string>)
    ensures |r| <= n
    ensures forall i :: 0 <= i < |r| ==> r[i] in db
    decreases n
  {
    if n == 0 || id == ROOT_CLOUD_ID || id == "" || id !in db then [] else [id] + Climb(db, db[id].parent, n - 1)
  }

  /** Climbing comes back to an ancestor it has met. */
  ghost predicate Cyclic(db: Table, id: string) {
    exists n: nat, i: nat, j: nat :: i < j < |Climb(db, id, n)| && Climb(db, id, n)[i] == Climb(db, id, n)[j]
  }

  lemma {:induction false} ClimbEnds(db: Table, id: string, n: nat)
    requires |Climb(db, id, n)| < n
    ensures IsLine(db, id, Climb(db, id, n))
    decreases n
  {
    if Climb(db, id, n) != [] {
      ClimbEnds(db, db[id].parent, n - 1);
    }
  }

  lemma {:induction false} ClimbsTheLine(db: Table, id: string, ids: seq<string>, n: nat)
    requires IsLine(db, id, ids)
    ensures Climb(db, id, n) <= ids
    decreases n
  {
    if n > 0 && ids != [] {
      ClimbsTheLine(db, db[id].parent, ids[1..], n - 1);
      assert ids == [ids[0]] + ids[1..];
    }
  }

  /** There is a line from an id if and only if climbing from it never comes back to an ancestor. */
  lemma LineUnlessCyclic(db: Table, id: string)
    ensures (exists ids :: IsLine(db, id, ids)) <==> !Cyclic(db, id)
  {
    hide IsLine, Climb;
    if ids :| IsLine(db, id, ids) {
      forall n: nat, i: nat, j: nat | i < j < |Climb(db, id, n)| ensures Climb(db, id, n)[i] != Climb(db, id, n)[j] {
        ClimbsTheLine(db, id, ids, n);
        NoneTwice(db, id, ids, i, j);
      }
    }
    var n := |db| + 1;
    var ids := Climb(db, id, n);
    if !Cyclic(db, id) {
      forall i, j | 0 <= i < j < |ids| ensures ids[i] != ids[j] {
        assert ids == Climb(db, id, n);
      }
      DistinctIdCount(ids);
      SubsetCount(IdSet(ids), db.Keys);
      ClimbEnds(db, id, n);
      assert IsLine(db, id, ids);
    }
  }

  /** Without a line every ancestor has a row, and none of them a line. */
  lemma NoLineGoesOn(db: Table, id: string)
    requires forall ids :: !IsLine(db, id, ids)
    ensures id != ROOT_CLOUD_ID && id != "" && id in db && forall ids :: !IsLine(db, db[id].parent, ids)
  {
    assert !IsLine(db, id, []);
    forall ids ensures !IsLine(db, db[id].parent, ids) {
      var longer := [id] + ids;
      assert longer[1..] == ids && !IsLine(db, id, longer);
    }
  }

  lemma {:induction false} JoinedLonger(db: Table, ids: seq<string>, uri: string)
    requires forall i :: 0 <= i < |ids| ==> ids[i] in db
    ensures |Joined(db, ids, uri)| >= |uri|
  {
    if ids != [] {
      JoinedLonger(db, ids[1..], db[ids[0]].name + "/" + uri);
    }
  }

  // ---------------------------------------------------------------------
  // From the database
  // ---------------------------------------------------------------------

  method GetParentNode(db: Table, parentCloudId: string) returns (ret: int, next: string, fileName: string)
    ensures ret == if parentCloudId == "" then E_INVAL_ARG else if parentCloudId in db then E_OK else E_RDB
    ensures ret == E_OK ==> next == db[parentCloudId].parent && fileName == db[parentCloudId].name
  {
    if parentCloudId == "" {
      return E_INVAL_ARG, "", "";
    }
    if parentCloudId !in db {
      return E_RDB, "", "";
    }
    return E_OK, db[parentCloudId].parent, db[parentCloudId].name;
  }

  /** The walk's own limits: past the first ancestor, a path of PATH_MAX and 1024 further ancestors. */
  predicate WithinLimits(db: Table, ids: seq<string>, fileName: string)
    requires forall i :: 0 <= i < |ids| ==> ids[i] in db
  {
    |ids| <= 1 || (|Joined(db, ids, fileName)| <= 4096 && |ids| - 1 <= 1024)
  }

  /** An error code, or a URI. */
  datatype Answer = Failed(code: int) | Uri(uri: string)

  ghost function FullUri(db: Table, bundleName: string, ids: seq<string>, fileName: string): string
    requires forall i :: 0 <= i < |ids| ==> ids[i] in db
  {
    "file://" + bundleName + "/data/storage/el2/cloud" + "/" + Joined(db, ids, fileName)
  }

  /** What the database walk answers along a line: the full URI if the line ends at the literal root. A
      missing first ancestor is an error; a missing later one ends the walk without the prefix. */
  ghost function DbAnswer(db: Table, bundleName: string, rootId: string, id: string, ids: seq<string>, fileName: string): Answer
    requires forall i :: 0 <= i < |ids| ==> ids[i] in db
  {
    if id == "" || id == rootId || id == ROOT_CLOUD_ID then Uri(FullUri(db, bundleName, [], fileName))
    else if ids == [] then Failed(E_RDB)
    else if !WithinLimits(db, ids, fileName) then Failed(E_INVAL_ARG)
    else if LineEnd(db, id, ids) == ROOT_CLOUD_ID then Uri(FullUri(db, bundleName, ids, fileName))
    else Uri(Joined(db, ids, fileName))
  }

  lemma TheLine(db: Table, id: string, ids: seq<string>)
    requires IsLine(db, id, ids)
    ensures forall i :: 0 <= i < |ids| ==> ids[i] in db
    ensures forall l :: IsLine(db, id, l) ==> l == ids
  {
    LineInTable(db, id, ids);
    forall l | IsLine(db, id, l) ensures l == ids {
      OneLine(db, id, l, ids);
    }
  }

  /** Along a line the exact answer; without one, the walk ends at its limits. */
  method GetUriFromDB(db: Table, bundleName: string, rootId: string, parentCloudId: string, fileName: string)
    returns (ret: int, uri: string)
    ensures forall ids :: IsLine(db, parentCloudId, ids) ==>
              && (forall i :: 0 <= i < |ids| ==> ids[i] in db)
              && (if ret == E_OK then Uri(uri) else Failed(ret)) == DbAnswer(db, bundleName, rootId, parentCloudId, ids, fileName)
    ensures (forall ids :: !IsLine(db, parentCloudId, ids)) ==>
              if parentCloudId == rootId then ret == E_OK && uri == FullUri(db, bundleName, [], fileName) else ret == E_INVAL_ARG
  {
    hide IsLine;
    ghost var lined := exists l :: IsLine(db, parentCloudId, l);
    ghost var ids := [];
    if lined {
      ids :| IsLine(db, parentCloudId, ids);
      TheLine(db, parentCloudId, ids);
      LineStep(db, parentCloudId, ids);
    } else {
      NoLineGoesOn(db, parentCloudId);
    }
    uri := fileName;
    if parentCloudId == "" || parentCloudId == rootId || parentCloudId == ROOT_CLOUD_ID {
      return E_OK, Prefix(bundleName) + "/" + uri;
    }
    var next, name;
    ret, next, name := GetParentNode(db, parentCloudId);
    if ret != E_OK {
      return;
    }
    uri := name + "/" + uri;
    ghost var rest := ids;
    if lined {
      LineGoesOn(db, parentCloudId, ids);
      rest := ids[1..];
    }
    var queryTimes := 0;
    while next != ROOT_CLOUD_ID
      invariant lined ==>
                  && IsLine(db, next, rest) && |rest| + queryTimes + 1 == |ids|
                  && (forall i :: 0 <= i < |rest| ==> rest[i] in db)
                  && Joined(db, rest, uri) == Joined(db, ids, fileName)
                  && LineEnd(db, next, rest) == LineEnd(db, parentCloudId, ids)
      invariant !lined ==> forall l :: !IsLine(db, next, l)
      invariant queryTimes <= MAX_QUERY_TIMES && (queryTimes > 0 ==> |uri| <= PATH_MAX)
      decreases MAX_QUERY_TIMES - queryTimes
    {
      if !lined {
        NoLineGoesOn(db, next);
      } else {
        LineStep(db, next, rest);
        if rest != [] {
          LineGoesOn(db, next, rest);
        }
      }
      ret, next, name := GetParentNode(db, next);
      if ret != E_OK {
        return E_OK, uri;
      }
      uri := name + "/" + uri;
      queryTimes := queryTimes + 1;
      rest := if lined then rest[1..] else rest;
      if |uri| > PATH_MAX || queryTimes > MAX_QUERY_TIMES {
        if lined {
          JoinedLonger(db, rest, uri);
        }
        return E_INVAL_ARG, uri;
      }
    }
    if lined {
      LineStep(db, next, rest);
    } else {
      NoLineGoesOn(db, next);
    }
    return E_OK, Prefix(bundleName) + "/" + uri;
  }

  // ---------------------------------------------------------------------
  // From the cache
  // ---------------------------------------------------------------------

  /** A cached node says what its row says. */
  predicate Matches(db: Table, id: string, node: CacheNode) {
    node.cloudId == id && id != "" && id in db && node.parentCloudId == db[id].parent && node.fileName == db[id].name
  }

  /** Only directories are cached, and each says what its row says. */
  predicate Consistent(db: Table, order: seq<(string, CacheNode)>) {
    forall i :: 0 <= i < |order| ==> Matches(db, order[i].0, order[i].1) && order[i].1.isDir == TYPE_DIR_STR
  }

  /** The cache once a node is put into it. */
  function PutInto(order: seq<(string, CacheNode)>, node: CacheNode): seq<(string, CacheNode)> {
    if node.isDir != TYPE_DIR_STR then order
    else if Has(order, node.cloudId) then [(node.cloudId, node)] + Dropped(order, node.cloudId)
    else Inserted(order, node.cloudId, node, 50)
  }

  predicate AllCached(order: seq<(string, CacheNode)>, ids: seq<string>) {
    forall i :: 0 <= i < |ids| ==> Has(order, ids[i])
  }

  /** The line below the first occurrence of an id. */
  function Below(ids: seq<string>, id: string): (r: seq<string>)
    ensures |r| <= |ids| && forall i :: 0 <= i < |r| ==> r[i] == ids[i] && r[i] != id
  {
    if ids == [] || ids[0] == id then [] else [ids[0]] + Below(ids[1..], id)
  }

  /** The cache walk gets through: the line meets a root, and what is below it is cached. */
  predicate CacheAnswers(db: Table, rootId: string, node: CacheNode, ids: seq<string>, order: seq<(string, CacheNode)>)
    requires forall i :: 0 <= i < |ids| ==> ids[i] in db
  {
    var end := LineEnd(db, node.parentCloudId, ids);
    (rootId in ids || end == rootId || end == ROOT_CLOUD_ID) && AllCached(PutInto(order, node), Below(ids, rootId))
  }

  /** What GetNotifyUri answers, given what is cached. */
  ghost function NotifyAnswer(db: Table, bundleName: string, rootId: string, node: CacheNode, ids: seq<string>,
                        order: seq<(string, CacheNode)>): Answer
    requires forall i :: 0 <= i < |ids| ==> ids[i] in db
  {
    if rootId == "" then Failed(E_INVAL_ARG)
    else if CacheAnswers(db, rootId, node, ids, order) then Uri(FullUri(db, bundleName, Below(ids, rootId), node.fileName))
    else DbAnswer(db, bundleName, rootId, node.parentCloudId, ids, node.fileName)
  }

  class NotifyCache {
    const cache: LruCache<string, CacheNode>

    ghost predicate Valid()
      reads this, cache
    {
      cache.Valid() && DistinctKeys(cache.Order()) && |cache.Order()| <= MAX_CACHE_CNT
    }

    constructor ()
      ensures Valid() && cache.Order() == [] && fresh(cache)
    {
      cache := new LruCache();
    }

    method GetCacheNode(cloudId: string) returns (ret: int, node: CacheNode)
      requires Valid()
      modifies cache
      ensures Valid()
      ensures if Has(old(cache.Order()), cloudId)
              then ret == E_OK && node == Lookup(old(cache.Order()), cloudId) && cache.Order() == Touched(old(cache.Order()), cloudId)
              else ret == E_INVAL_ARG && cache.Order() == old(cache.Order())
    {
      hide Linked, OrderOf, Has, PositionOf, Lookup, Touched;
      var hit := cache.Contains(cloudId);
      if !hit {
        return E_INVAL_ARG, CacheNode("", "", "", "");
      }
      TouchedIsSame(cache.Order(), cloudId);
      node := cache.Touch(cloudId);
      ret := E_OK;
    }

    /** Only directories are cached. */
    method PutCacheNode(cloudId: string, node: CacheNode)
      requires Valid() && cloudId == node.cloudId
      modifies cache
      ensures Valid()
      ensures cache.Order() == PutInto(old(cache.Order()), node)
    {
      hide Linked, OrderOf, Has, PositionOf, Dropped;
      if node.isDir != TYPE_DIR_STR {
        return;
      }
      ghost var before := cache.Order();
      var hit := cache.Contains(cloudId);
      if hit {
        ReplacedInFront(before, cloudId, node);
        cache.Assign(cloudId, node);
        return;
      }
      if |cache.list| == MAX_CACHE_CNT {
        cache.Evict();
      }
      InsertedKeepsRecent(before, cloudId, node, MAX_CACHE_CNT);
      TrimmedLacks(before, cloudId, MAX_CACHE_CNT - 1);
      assert cache.Order() == Trimmed(before, MAX_CACHE_CNT - 1);
      cache.EmplaceFront(cloudId, node);
    }

    /** Walks up through cached nodes, as far as the stored root id or the literal one. */
    method GetUriFromCache(db: Table, bundleName: string, rootId: string, node: CacheNode, ghost ids: seq<string>)
      returns (ret: int, uri: string)
      requires Valid() && Consistent(db, cache.Order()) && (node.isDir == TYPE_DIR_STR ==> Matches(db, node.cloudId, node))
      requires IsLine(db, node.parentCloudId, ids)
      modifies cache
      ensures Valid() && Consistent(db, cache.Order())
      ensures forall i :: 0 <= i < |ids| ==> ids[i] in db
      ensures ret == if CacheAnswers(db, rootId, node, ids, old(cache.Order())) then E_OK else E_INVAL_ARG
      ensures ret == E_OK ==> uri == FullUri(db, bundleName, Below(ids, rootId), node.fileName)
    {
      hide Linked, OrderOf, Has, PositionOf, Dropped, Touched, Lookup, Inserted, DistinctKeys, PutInto, Consistent;
      LineInTable(db, node.parentCloudId, ids);
      PutKeepsConsistent(db, cache.Order(), node);
      PutCacheNode(node.cloudId, node);
      ghost var order := cache.Order();
      uri := node.fileName;
      var parent := node.parentCloudId;
      ghost var rest := ids;
      while parent != rootId && parent != ROOT_CLOUD_ID
        invariant Valid() && Consistent(db, cache.Order()) && SameKeys(order, cache.Order())
        invariant IsLine(db, parent, rest)
        invariant forall i :: 0 <= i < |rest| ==> rest[i] in db
        invariant LineEnd(db, parent, rest) == LineEnd(db, node.parentCloudId, ids)
        invariant rootId in rest <==> rootId in ids
        invariant AllCached(order, Below(rest, rootId)) <==> AllCached(order, Below(ids, rootId))
        invariant Joined(db, Below(rest, rootId), uri) == Joined(db, Below(ids, rootId), node.fileName)
        decreases |rest|
      {
        TouchKeepsConsistent(db, cache.Order(), parent);
        BelowGoesOn(order, rest, rootId);
        if rest != [] {
          LineGoesOn(db, parent, rest);
        }
        var tmp;
        ret, tmp := GetCacheNode(parent);
        if ret != E_OK {
          return;
        }
        uri := tmp.fileName + "/" + uri;
        parent := tmp.parentCloudId;
        rest := rest[1..];
      }
      assert Below(rest, rootId) == [];
      ret := E_OK;
      uri := Prefix(bundleName) + "/" + uri;
    }

    /** From the cache if that answers, otherwise from the database. */
    method GetNotifyUri(db: Table, bundleName: string, rootId: string, node: CacheNode, ghost ids: seq<string>)
      returns (ret: int, uri: string)
      requires Valid() && Consistent(db, cache.Order()) && (node.isDir == TYPE_DIR_STR ==> Matches(db, node.cloudId, node))
      requires IsLine(db, node.parentCloudId, ids)
      modifies cache
      ensures Valid() && Consistent(db, cache.Order())
      ensures forall i :: 0 <= i < |ids| ==> ids[i] in db
      ensures (if ret == E_OK then Uri(uri) else Failed(ret)) == NotifyAnswer(db, bundleName, rootId, node, ids, old(cache.Order()))
    {
      hide Linked, OrderOf, DistinctKeys, CacheAnswers, DbAnswer;
      LineInTable(db, node.parentCloudId, ids);
      if rootId == "" {
        return E_INVAL_ARG, "";
      }
      ret, uri := GetUriFromCache(db, bundleName, rootId, node, ids);
      if ret == E_OK {
        return;
      }
      ret, uri := GetUriFromDB(db, bundleName, rootId, node.parentCloudId, node.fileName);
    }
  }

  ghost predicate SameKeys(a: seq<(string, CacheNode)>, b: seq<(string, CacheNode)>) {
    forall id :: Has(a, id) <==> Has(b, id)
  }

  lemma BelowGoesOn(order: seq<(string, CacheNode)>, ids: seq<string>, rootId: string)
    requires ids != [] ==> ids[0] != rootId
    ensures ids != [] ==>
              && (rootId in ids <==> rootId in ids[1..])
              && Below(ids, rootId) == [ids[0]] + Below(ids[1..], rootId)
              && (AllCached(order, Below(ids, rootId)) <==> Has(order, ids[0]) && AllCached(order, Below(ids[1..], rootId)))
  {
    hide Has;
    if ids != [] {
      var rest := Below(ids[1..], rootId);
      assert forall i :: 0 <= i < |rest| ==> ([ids[0]] + rest)[i + 1] == rest[i];
      assert ([ids[0]] + rest)[0] == ids[0];
      assert ids == [ids[0]] + ids[1..];
    }
  }

  lemma ReplacedInFront(order: seq<(string, CacheNode)>, id: string, node: CacheNode)
    requires DistinctKeys(order) && Has(order, id)
    ensures DistinctKeys([(id, node)] + Dropped(order, id)) && |[(id, node)] + Dropped(order, id)| == |order|
  {
    DroppedIsRest(order, id);
    var rest := Dropped(order, id);
    forall j | 0 <= j < |rest| ensures rest[j].0 != id {
      assert PositionOf(rest, id) == |rest|;
    }
  }

  lemma PutKeepsConsistent(db: Table, order: seq<(string, CacheNode)>, node: CacheNode)
    requires Consistent(db, order) && (node.isDir == TYPE_DIR_STR ==> Matches(db, node.cloudId, node))
    ensures Consistent(db, PutInto(order, node))
  {
  }

  lemma TouchKeepsConsistent(db: Table, order: seq<(string, CacheNode)>, id: string)
    requires Consistent(db, order)
    ensures Has(order, id) ==>
              Consistent(db, Touched(order, id)) && Matches(db, id, Lookup(order, id)) && SameKeys(order, Touched(order, id))
  {
    if Has(order, id) {
      var p, after := PositionOf(order, id), Touched(order, id);
      forall k ensures Has(order, k) <==> Has(after, k) {
        SameMembers(order, id, k);
      }
    }
  }

  lemma SameMembers(order: seq<(string, CacheNode)>, id: string, k: string)
    requires Has(order, id)
    ensures Has(order, k) <==> Has(Touched(order, id), k)
  {
    var p, after := PositionOf(order, id), Touched(order, id);
    if Has(order, k) {
      var q := PositionOf(order, k);
      assert after[if q == p then 0 else if q < p then q + 1 else q].0 == k;
    }
    if Has(after, k) {
      var q := PositionOf(after, k);
      assert order[if q == 0 then p else if q <= p then q - 1 else q].0 == k;
    }
  }

  // ---------------------------------------------------------------------
  // When the cache shows
  // ---------------------------------------------------------------------

  /** A cache the code can get into, whatever was put into it so far. */
  ghost predicate MayHold(db: Table, order: seq<(string, CacheNode)>) {
    Consistent(db, order) && DistinctKeys(order) && |order| <= MAX_CACHE_CNT
  }

  /** There is nothing to walk; or too much to be cached along with the node; or the cache walk and the
      database walk go all the way, and the latter keeps to its limits. */
  predicate Transparent(db: Table, rootId: string, node: CacheNode, ids: seq<string>)
    requires forall i :: 0 <= i < |ids| ==> ids[i] in db
  {
    var below := Below(ids, rootId);
    || below == []
    || |below| + (if node.isDir == TYPE_DIR_STR then 1 else 0) > MAX_CACHE_CNT
    || (rootId !in ids && WithinLimits(db, ids, node.fileName))
  }

  /** Below's nodes, cached. */
  function Warm(db: Table, ids: seq<string>): seq<(string, CacheNode)>
    requires forall i :: 0 <= i < |ids| ==> ids[i] in db
  {
    seq(|ids|, i requires 0 <= i < |ids| => (ids[i], CacheNode(ids[i], db[ids[i]].parent, db[ids[i]].name, TYPE_DIR_STR)))
  }

  lemma {:induction false} BelowAll(ids: seq<string>, id: string)
    requires id !in ids
    ensures Below(ids, id) == ids
  {
    if ids != [] {
      BelowAll(ids[1..], id);
      assert ids == [ids[0]] + ids[1..];
    }
  }

  lemma {:induction false} BelowShorter(db: Table, rootId: string, ids: seq<string>, uri: string)
    requires (forall i :: 0 <= i < |ids| ==> ids[i] in db) && rootId in ids
    ensures |Joined(db, Below(ids, rootId), uri)| < |Joined(db, ids, uri)|
    decreases |ids|
  {
    var longer := db[ids[0]].name + "/" + uri;
    if ids[0] == rootId {
      JoinedLonger(db, ids[1..], longer);
    } else {
      BelowShorter(db, rootId, ids[1..], longer);
      assert Below(ids, rootId)[1..] == Below(ids[1..], rootId);
    }
  }

  /** A directory is not among its own ancestors. */
  lemma NotItsOwnAncestor(db: Table, node: CacheNode, ids: seq<string>, i: nat)
    requires IsLine(db, node.parentCloudId, ids) && Matches(db, node.cloudId, node) && i < |ids|
    ensures ids[i] != node.cloudId
  {
    if ids[i] == node.cloudId {
      LineFrom(db, node.parentCloudId, ids, i);
      OneLine(db, node.parentCloudId, ids, ids[i..][1..]);
    }
  }

  function KeySet(order: seq<(string, CacheNode)>): set<string> {
    set i | 0 <= i < |order| :: order[i].0
  }

  lemma {:induction false} KeyCount(order: seq<(string, CacheNode)>)
    ensures |KeySet(order)| <= |order|
  {
    if order == [] {
      assert KeySet(order) == {};
    } else {
      var init, last := order[..|order| - 1], order[|order| - 1];
      KeyCount(init);
      assert KeySet(order) == KeySet(init) + {last.0};
    }
  }

  function IdSet(ids: seq<string>): set<string> {
    set id | id in ids
  }

  lemma {:induction false} DistinctIdCount(ids: seq<string>)
    requires forall i, j :: 0 <= i < j < |ids| ==> ids[i] != ids[j]
    ensures |IdSet(ids)| == |ids|
  {
    if ids == [] {
      assert IdSet(ids) == {};
    } else {
      var init, last := ids[..|ids| - 1], ids[|ids| - 1];
      DistinctIdCount(init);
      assert IdSet(ids) == IdSet(init) + {last};
    }
  }

  lemma FitsInCache(order: seq<(string, CacheNode)>, ids: seq<string>, also: set<string>)
    requires forall i, j :: 0 <= i < j < |ids| ==> ids[i] != ids[j]
    requires AllCached(order, ids) && (forall k :: k in also ==> Has(order, k) && k !in ids)
    ensures |ids| + |also| <= |order|
  {
    hide DistinctKeys;
    var listed := IdSet(ids);
    DistinctIdCount(ids);
    KeyCount(order);
    forall k | k in listed + also ensures k in KeySet(order) {
      assert Has(order, k);
      assert order[PositionOf(order, k)].0 == k;
    }
    SubsetCount(listed + also, KeySet(order));
    assert |listed + also| == |listed| + |also| by {
      assert listed !! also;
    }
  }

  /** A line too long for the cache is never answered from it. */
  lemma TooLongToCache(db: Table, rootId: string, node: CacheNode, ids: seq<string>, order: seq<(string, CacheNode)>)
    requires IsLine(db, node.parentCloudId, ids) && (node.isDir == TYPE_DIR_STR ==> Matches(db, node.cloudId, node))
    requires |Below(ids, rootId)| + (if node.isDir == TYPE_DIR_STR then 1 else 0) > MAX_CACHE_CNT && |order| <= MAX_CACHE_CNT
    ensures !AllCached(PutInto(order, node), Below(ids, rootId))
  {
    hide Has, Dropped, IsLine, Matches;
    var below, after := Below(ids, rootId), PutInto(order, node);
    forall i, j | 0 <= i < j < |below| ensures below[i] != below[j] {
      NoneTwice(db, node.parentCloudId, ids, i, j);
    }
    PutFacts(order, node);
    if AllCached(after, below) {
      if node.isDir == TYPE_DIR_STR {
        forall i | 0 <= i < |below| ensures below[i] != node.cloudId {
          NotItsOwnAncestor(db, node, ids, i);
        }
        FitsInCache(after, below, {node.cloudId});
      } else {
        FitsInCache(after, below, {});
      }
    }
  }

  lemma PutFacts(order: seq<(string, CacheNode)>, node: CacheNode)
    ensures |order| <= MAX_CACHE_CNT ==> |PutInto(order, node)| <= MAX_CACHE_CNT
    ensures node.isDir == TYPE_DIR_STR ==> Has(PutInto(order, node), node.cloudId)
  {
  }

  /** With nothing cached, and something to walk, the database answers. */
  lemma ColdCacheMisses(db: Table, rootId: string, node: CacheNode, ids: seq<string>)
    requires IsLine(db, node.parentCloudId, ids) && (node.isDir == TYPE_DIR_STR ==> Matches(db, node.cloudId, node))
    requires Below(ids, rootId) != []
    ensures !AllCached(PutInto([], node), Below(ids, rootId))
  {
    hide IsLine;
    var below := Below(ids, rootId);
    if node.isDir == TYPE_DIR_STR {
      NotItsOwnAncestor(db, node, ids, 0);
    }
    assert !Has(PutInto([], node), below[0]);
  }

  lemma WarmMayBe(db: Table, rootId: string, id: string, ids: seq<string>)
    requires IsLine(db, id, ids) && (forall i :: 0 <= i < |ids| ==> ids[i] in db && ids[i] != "")
    requires |Below(ids, rootId)| <= MAX_CACHE_CNT
    ensures MayHold(db, Warm(db, Below(ids, rootId)))
  {
    hide IsLine;
    var order := Warm(db, Below(ids, rootId));
    forall i, j | 0 <= i < j < |order| ensures order[i].0 != order[j].0 {
      NoneTwice(db, id, ids, i, j);
    }
  }

  /** With the line cached, the cache answers. */
  lemma WarmCacheHits(db: Table, rootId: string, node: CacheNode, ids: seq<string>)
    requires IsLine(db, node.parentCloudId, ids) && (node.isDir == TYPE_DIR_STR ==> Matches(db, node.cloudId, node))
    requires forall i :: 0 <= i < |ids| ==> ids[i] in db
    requires |Below(ids, rootId)| + (if node.isDir == TYPE_DIR_STR then 1 else 0) <= MAX_CACHE_CNT
    ensures AllCached(PutInto(Warm(db, Below(ids, rootId)), node), Below(ids, rootId))
  {
    hide IsLine, Has, Dropped, Matches;
    var below := Below(ids, rootId);
    var order := Warm(db, below);
    if node.isDir == TYPE_DIR_STR {
      forall i | 0 <= i < |order| ensures order[i].0 != node.cloudId {
        NotItsOwnAncestor(db, node, ids, i);
      }
      Absent(order, node.cloudId);
    }
    var after := PutInto(order, node);
    forall i | 0 <= i < |below| ensures Has(after, below[i]) {
      Present(after, below[i], if node.isDir == TYPE_DIR_STR then i + 1 else i);
    }
  }

  lemma Absent(order: seq<(string, CacheNode)>, id: string)
    requires forall i :: 0 <= i < |order| ==> order[i].0 != id
    ensures !Has(order, id)
  {
  }

  lemma Present(order: seq<(string, CacheNode)>, id: string, i: nat)
    requires i < |order| && order[i].0 == id
    ensures Has(order, id)
  {
  }

  /** Along a chain to the literal root, GetNotifyUri answers the same whatever is cached exactly when the
      cache is transparent; otherwise an empty cache and one that holds the chain already differ. */
  lemma CacheShowsIff(db: Table, bundleName: string, rootId: string, node: CacheNode, ids: seq<string>)
    requires IsLine(db, node.parentCloudId, ids) && (forall i :: 0 <= i < |ids| ==> ids[i] in db)
    requires LineEnd(db, node.parentCloudId, ids) == ROOT_CLOUD_ID && rootId != ""
    requires node.isDir == TYPE_DIR_STR ==> Matches(db, node.cloudId, node)
    ensures Transparent(db, rootId, node, ids) ==>
              forall a, b :: MayHold(db, a) && MayHold(db, b) ==>
                               NotifyAnswer(db, bundleName, rootId, node, ids, a) == NotifyAnswer(db, bundleName, rootId, node, ids, b)
    ensures !Transparent(db, rootId, node, ids) ==>
              && MayHold(db, []) && MayHold(db, Warm(db, Below(ids, rootId)))
              && NotifyAnswer(db, bundleName, rootId, node, ids, [])
                 != NotifyAnswer(db, bundleName, rootId, node, ids, Warm(db, Below(ids, rootId)))
  {
    LineInTable(db, node.parentCloudId, ids);
    if Transparent(db, rootId, node, ids) {
      forall a | MayHold(db, a)
        ensures NotifyAnswer(db, bundleName, rootId, node, ids, a) == Same(db, bundleName, rootId, node, ids)
      {
        OneAnswer(db, bundleName, rootId, node, ids, a);
      }
    } else {
      TwoAnswers(db, bundleName, rootId, node, ids);
    }
  }

  /** A folder in a folder that hangs off the literal root. */
  function TwoFolders(upper: string, lower: string): Table {
    map["lower" := Row("upper", lower), "upper" := Row(ROOT_CLOUD_ID, upper)]
  }

  lemma TwoFoldersLine(upper: string, lower: string, uri: string)
    ensures IsLine(TwoFolders(upper, lower), "lower", ["lower", "upper"])
    ensures LineEnd(TwoFolders(upper, lower), "lower", ["lower", "upper"]) == ROOT_CLOUD_ID
    ensures Joined(TwoFolders(upper, lower), ["lower", "upper"], uri) == upper + "/" + (lower + "/" + uri)
    ensures Joined(TwoFolders(upper, lower), ["lower"], uri) == lower + "/" + uri
  {
    var db, ids := TwoFolders(upper, lower), ["lower", "upper"];
    assert ids[1..] == ["upper"] && ids[1..][1..] == [];
    assert IsLine(db, ROOT_CLOUD_ID, []) && IsLine(db, "upper", ["upper"]);
    assert ["lower"][1..] == [] && ["upper"][1..] == [];
    assert Joined(db, ids, uri) == Joined(db, ["upper"], lower + "/" + uri);
  }

  /** With the upper folder as the stored root, the database puts its name into the URI and the cache does not. */
  lemma StoredRootShows(bundleName: string, upper: string, lower: string, file: string)
    ensures var db, node, ids := TwoFolders(upper, lower), CacheNode("f", "lower", file, "file"), ["lower", "upper"];
            && !Transparent(db, "upper", node, ids)
            && (|upper + "/" + (lower + "/" + file)| <= PATH_MAX ==>
                  NotifyAnswer(db, bundleName, "upper", node, ids, [])
                  == Uri("file://" + bundleName + "/data/storage/el2/cloud" + "/" + (upper + "/" + (lower + "/" + file))))
            && NotifyAnswer(db, bundleName, "upper", node, ids, Warm(db, ["lower"]))
               == Uri("file://" + bundleName + "/data/storage/el2/cloud" + "/" + (lower + "/" + file))
  {
    var db, node, ids := TwoFolders(upper, lower), CacheNode("f", "lower", file, "file"), ["lower", "upper"];
    TwoFoldersLine(upper, lower, file);
    assert ids[1..] == ["upper"];
    assert Below(["upper"], "upper") == [];
    assert Below(ids, "upper") == ["lower"];
    assert !Has(PutInto([], node), "lower") && Has(Warm(db, ["lower"]), "lower");
  }

  /** With the root stored elsewhere, a path too long for the database is still answered from the cache. */
  lemma LongPathShows(bundleName: string, upper: string, lower: string, file: string)
    requires |upper + "/" + (lower + "/" + file)| > PATH_MAX
    ensures var db, node, ids := TwoFolders(upper, lower), CacheNode("f", "lower", file, "file"), ["lower", "upper"];
            && !Transparent(db, "elsewhere", node, ids)
            && NotifyAnswer(db, bundleName, "elsewhere", node, ids, []) == Failed(E_INVAL_ARG)
            && NotifyAnswer(db, bundleName, "elsewhere", node, ids, Warm(db, ids))
               == Uri("file://" + bundleName + "/data/storage/el2/cloud" + "/" + (upper + "/" + (lower + "/" + file)))
  {
    var db, node, ids := TwoFolders(upper, lower), CacheNode("f", "lower", file, "file"), ["lower", "upper"];
    TwoFoldersLine(upper, lower, file);
    BelowAll(ids, "elsewhere");
    assert !Has(PutInto([], node), "lower");
    Present(Warm(db, ids), "lower", 0);
    Present(Warm(db, ids), "upper", 1);
  }

  /** The answer of a transparent cache. */
  ghost function Same(db: Table, bundleName: string, rootId: string, node: CacheNode, ids: seq<string>): Answer
    requires forall i :: 0 <= i < |ids| ==> ids[i] in db
  {
    if Below(ids, rootId) == [] then Uri(FullUri(db, bundleName, [], node.fileName))
    else DbAnswer(db, bundleName, rootId, node.parentCloudId, ids, node.fileName)
  }

  lemma OneAnswer(db: Table, bundleName: string, rootId: string, node: CacheNode, ids: seq<string>, order: seq<(string, CacheNode)>)
    requires IsLine(db, node.parentCloudId, ids) && (forall i :: 0 <= i < |ids| ==> ids[i] in db)
    requires LineEnd(db, node.parentCloudId, ids) == ROOT_CLOUD_ID && rootId != "" && MayHold(db, order)
    requires (node.isDir == TYPE_DIR_STR ==> Matches(db, node.cloudId, node)) && Transparent(db, rootId, node, ids)
    ensures NotifyAnswer(db, bundleName, rootId, node, ids, order) == Same(db, bundleName, rootId, node, ids)
  {
    hide PutInto, Has, MayHold, FullUri, WithinLimits;
    var below := Below(ids, rootId);
    if below != [] {
      if rootId !in ids {
        BelowAll(ids, rootId);
      }
      if |below| + (if node.isDir == TYPE_DIR_STR then 1 else 0) > MAX_CACHE_CNT {
        assert |order| <= MAX_CACHE_CNT by {
          Small(db, order);
        }
        TooLongToCache(db, rootId, node, ids, order);
      }
    }
  }

  lemma Small(db: Table, order: seq<(string, CacheNode)>)
    requires MayHold(db, order)
    ensures |order| <= MAX_CACHE_CNT
  {
  }

  lemma TwoAnswers(db: Table, bundleName: string, rootId: string, node: CacheNode, ids: seq<string>)
    requires IsLine(db, node.parentCloudId, ids) && (forall i :: 0 <= i < |ids| ==> ids[i] in db && ids[i] != "")
    requires LineEnd(db, node.parentCloudId, ids) == ROOT_CLOUD_ID && rootId != ""
    requires (node.isDir == TYPE_DIR_STR ==> Matches(db, node.cloudId, node)) && !Transparent(db, rootId, node, ids)
    ensures MayHold(db, []) && MayHold(db, Warm(db, Below(ids, rootId)))
    ensures NotifyAnswer(db, bundleName, rootId, node, ids, [])
            != NotifyAnswer(db, bundleName, rootId, node, ids, Warm(db, Below(ids, rootId)))
  {
    hide PutInto, Has, AllCached, Warm;
    var below := Below(ids, rootId);
    ColdCacheMisses(db, rootId, node, ids);
    WarmMayBe(db, rootId, node.parentCloudId, ids);
    WarmCacheHits(db, rootId, node, ids);
    if rootId in ids {
      BelowShorter(db, rootId, ids, node.fileName);
      assert |FullUri(db, bundleName, below, node.fileName)| < |FullUri(db, bundleName, ids, node.fileName)|;
    }
  }
}
