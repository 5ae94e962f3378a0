/** A least-recently-used cache as the sources keep it: a list of entries, most recent first, and a
    map from key to list node. */
module LruCaches {

  // ---------------------------------------------------------------------
  // The abstract cache: entries in order of use
  // ---------------------------------------------------------------------

  predicate DistinctKeys<K(==), V>(order: seq<(K, V)>) {
    forall i, j :: 0 <= i < j < |order| ==> order[i].0 != order[j].0
  }

  /** Position of a key, or the length if it is not there. */
  function PositionOf<K(==), V>(order: seq<(K, V)>, k: K): (r: nat)
    ensures r <= |order|
    ensures r < |order| ==> order[r].0 == k
    ensures forall i :: 0 <= i < r ==> order[i].0 != k
  {
    if order == [] then 0
    else if order[0].0 == k then 0
    else
      var r := PositionOf(order[1..], k);
      assert forall i :: 1 <= i < r + 1 ==> order[i] == order[1..][i - 1];
      r + 1
  }

  predicate Has<K(==), V>(order: seq<(K, V)>, k: K) {
    PositionOf(order, k) < |order|
  }

  function Lookup<K(==), V>(order: seq<(K, V)>, k: K): V
    requires Has(order, k)
  {
    order[PositionOf(order, k)].1
  }

  function RemoveAt<T>(s: seq<T>, i: nat): (r: seq<T>)
    requires i < |s|
    ensures |r| == |s| - 1
  {
    s[..i] + s[i + 1..]
  }

  function Dropped<K(==), V>(order: seq<(K, V)>, k: K): seq<(K, V)> {
    if Has(order, k) then RemoveAt(order, PositionOf(order, k)) else order
  }

  /** The key's entry moved to the front, everything else in its order. */
  function Touched<K(==), V>(order: seq<(K, V)>, k: K): seq<(K, V)>
    requires Has(order, k)
  {
    [order[PositionOf(order, k)]] + RemoveAt(order, PositionOf(order, k))
  }

  /** At most n entries: the oldest go. */
  function Trimmed<K(==), V>(order: seq<(K, V)>, n: nat): seq<(K, V)> {
    if |order| <= n then order else order[..n]
  }

  /** A new entry in front, the oldest making room for it. */
  function Inserted<K(==), V>(order: seq<(K, V)>, k: K, v: V, capacity: nat): seq<(K, V)>
    requires capacity >= 1
  {
    [(k, v)] + Trimmed(order, capacity - 1)
  }

  /** What is found in a cache after the edits: the same values, for the surviving keys. */
  lemma TouchedIsSame<K, V>(order: seq<(K, V)>, k: K)
    requires DistinctKeys(order) && Has(order, k)
    ensures DistinctKeys(Touched(order, k)) && |Touched(order, k)| == |order|
    ensures multiset(Touched(order, k)) == multiset(order)
  {
    var i := PositionOf(order, k);
    assert order == order[..i] + [order[i]] + order[i + 1..];
  }

  /** The touched entry is in front, and those that were in front of it have moved back by one. */
  lemma TouchedAt<K, V>(order: seq<(K, V)>, k: K, i: nat)
    requires Has(order, k) && i < |order|
    ensures i < |Touched(order, k)|
    ensures Touched(order, k)[i] == if i == 0 then (k, Lookup(order, k)) else order[if i <= PositionOf(order, k) then i - 1 else i]
  {
    hide PositionOf;
  }

  lemma DroppedIsRest<K, V>(order: seq<(K, V)>, k: K)
    requires DistinctKeys(order)
    ensures DistinctKeys(Dropped(order, k)) && !Has(Dropped(order, k), k) && |Dropped(order, k)| <= |order|
    ensures Has(order, k) ==> multiset(Dropped(order, k)) == multiset(order) - multiset{(k, Lookup(order, k))}
  {
    if Has(order, k) {
      var i := PositionOf(order, k);
      assert order == order[..i] + [order[i]] + order[i + 1..];
    }
  }

  lemma DroppedAt<K, V>(order: seq<(K, V)>, k: K, i: nat)
    requires i < |Dropped(order, k)|
    ensures Dropped(order, k)[i] == order[if i < PositionOf(order, k) then i else i + 1]
  {
    hide PositionOf;
  }

  lemma TrimmedLacks<K, V>(order: seq<(K, V)>, k: K, n: nat)
    requires !Has(order, k)
    ensures !Has(Trimmed(order, n), k)
  {
  }

  lemma InsertedKeepsRecent<K, V>(order: seq<(K, V)>, k: K, v: V, capacity: nat)
    requires DistinctKeys(order) && !Has(order, k) && capacity >= 1
    ensures var r := Inserted(order, k, v, capacity);
            && DistinctKeys(r) && |r| <= capacity && Has(r, k) && Lookup(r, k) == v
            && r[1..] <= order
  {
    var r := Inserted(order, k, v, capacity);
    assert r[0] == (k, v);
    assert r[1..] == Trimmed(order, capacity - 1);
  }

  // ---------------------------------------------------------------------
  // Least recently used
  // ---------------------------------------------------------------------

  /** One request: a key that is there is touched, another is put in. */
  function Asked<K(==), V>(order: seq<(K, V)>, k: K, v: V, capacity: nat): seq<(K, V)>
    requires capacity >= 1
  {
    if Has(order, k) then Touched(order, k) else Inserted(order, k, v, capacity)
  }

  /** An empty cache after requests for these keys, each with the value to put in on a miss. */
  function AfterAll<K(==), V>(asks: seq<(K, V)>, capacity: nat): seq<(K, V)>
    requires capacity >= 1
  {
    if asks == [] then []
    else Asked(AfterAll(asks[..|asks| - 1], capacity), asks[|asks| - 1].0, asks[|asks| - 1].1, capacity)
  }

  /** The keys asked for, each once, the one asked for last in front. */
  ghost function Recent<K, V>(asks: seq<(K, V)>): seq<K> {
    if asks == [] then []
    else [asks[|asks| - 1].0] + Without(Recent(asks[..|asks| - 1]), asks[|asks| - 1].0)
  }

  ghost function Without<K>(keys: seq<K>, k: K): (r: seq<K>)
    ensures k !in r && |r| <= |keys| && forall x :: x in r ==> x in keys
  {
    if keys == [] then []
    else if keys[0] == k then Without(keys[1..], k)
    else [keys[0]] + Without(keys[1..], k)
  }

  lemma {:induction false} WithoutAbsent<K>(keys: seq<K>, k: K)
    requires k !in keys
    ensures Without(keys, k) == keys
  {
    if keys != [] {
      WithoutAbsent(keys[1..], k);
      assert keys == [keys[0]] + keys[1..];
    }
  }

  lemma {:induction false} WithoutIs<K>(keys: seq<K>, p: nat)
    requires p < |keys| && forall i, j :: 0 <= i < j < |keys| ==> keys[i] != keys[j]
    ensures Without(keys, keys[p]) == keys[..p] + keys[p + 1..]
  {
    if p == 0 {
      WithoutAbsent(keys[1..], keys[0]);
    } else {
      WithoutIs(keys[1..], p - 1);
      assert keys[1..][..p - 1] == keys[1..p] && keys[1..][p..] == keys[p + 1..];
      assert keys[..p] == [keys[0]] + keys[1..p];
    }
  }

  /** Taking out the key at p moves the later ones up. */
  lemma WithoutAt<K>(keys: seq<K>, p: nat, i: nat)
    requires p < |keys| && forall i, j :: 0 <= i < j < |keys| ==> keys[i] != keys[j]
    ensures |Without(keys, keys[p])| == |keys| - 1
    ensures i < |keys| - 1 ==> Without(keys, keys[p])[i] == keys[if i < p then i else i + 1]
  {
    hide Without;
    WithoutIs(keys, p);
  }

  lemma {:induction false} WithoutDistinct<K>(keys: seq<K>, k: K)
    requires forall i, j :: 0 <= i < j < |keys| ==> keys[i] != keys[j]
    ensures forall i, j :: 0 <= i < j < |Without(keys, k)| ==> Without(keys, k)[i] != Without(keys, k)[j]
  {
    if keys != [] {
      WithoutDistinct(keys[1..], k);
      var rest := Without(keys[1..], k);
      forall j | 0 <= j < |rest| ensures keys[0] != rest[j] {
        assert rest[j] in keys[1..];
      }
    }
  }

  lemma {:induction false} RecentDistinct<K, V>(asks: seq<(K, V)>)
    ensures forall i, j :: 0 <= i < j < |Recent(asks)| ==> Recent(asks)[i] != Recent(asks)[j]
  {
    if asks != [] {
      RecentDistinct(asks[..|asks| - 1]);
      WithoutDistinct(Recent(asks[..|asks| - 1]), asks[|asks| - 1].0);
    }
  }

  /** The order's keys are the first of these. */
  ghost predicate HoldsFirst<K, V>(order: seq<(K, V)>, keys: seq<K>, capacity: nat) {
    && |order| == (if |keys| <= capacity then |keys| else capacity)
    && forall i :: 0 <= i < |order| ==> order[i].0 == keys[i]
  }

  lemma KeyAt<K, V>(order: seq<(K, V)>, k: K)
    ensures Has(order, k) ==> PositionOf(order, k) < |order| && order[PositionOf(order, k)].0 == k
    ensures !Has(order, k) ==> forall i :: 0 <= i < |order| ==> order[i].0 != k
  {
  }

  lemma TouchKeepsFirst<K, V>(order: seq<(K, V)>, keys: seq<K>, k: K, capacity: nat)
    requires HoldsFirst(order, keys, capacity) && (forall i, j :: 0 <= i < j < |keys| ==> keys[i] != keys[j]) && Has(order, k)
    ensures HoldsFirst(Touched(order, k), [k] + Without(keys, k), capacity)
  {
    hide PositionOf, Without, Has;
    var p := PositionOf(order, k);
    KeyAt(order, k);
    WithoutAt(keys, p, 0);
    var r, touched := [k] + Without(keys, k), Touched(order, k);
    forall i | 0 <= i < |order| ensures touched[i].0 == r[i] {
      if i > 0 {
        WithoutAt(keys, p, i - 1);
        TouchedAt(order, k, i);
      }
    }
  }

  lemma InsertKeepsFirst<K, V>(order: seq<(K, V)>, keys: seq<K>, k: K, v: V, capacity: nat)
    requires capacity >= 1 && HoldsFirst(order, keys, capacity) && (forall i, j :: 0 <= i < j < |keys| ==> keys[i] != keys[j])
    requires !Has(order, k)
    ensures HoldsFirst(Inserted(order, k, v, capacity), [k] + Without(keys, k), capacity)
  {
    hide PositionOf, Without, Has;
    KeyAt(order, k);
    var r, inserted := [k] + Without(keys, k), Inserted(order, k, v, capacity);
    if k in keys {
      var q :| 0 <= q < |keys| && keys[q] == k;
      WithoutAt(keys, q, 0);
      forall i | 0 < i < |inserted| ensures inserted[i].0 == r[i] {
        WithoutAt(keys, q, i - 1);
        assert inserted[i] == order[i - 1];
      }
    } else {
      WithoutAbsent(keys, k);
    }
  }

  lemma AskKeepsFirst<K, V>(order: seq<(K, V)>, keys: seq<K>, k: K, v: V, capacity: nat)
    requires capacity >= 1 && HoldsFirst(order, keys, capacity) && forall i, j :: 0 <= i < j < |keys| ==> keys[i] != keys[j]
    ensures HoldsFirst(Asked(order, k, v, capacity), [k] + Without(keys, k), capacity)
  {
    hide HoldsFirst, Has, Touched, Inserted, Without;
    if Has(order, k) {
      TouchKeepsFirst(order, keys, k, capacity);
    } else {
      InsertKeepsFirst(order, keys, k, v, capacity);
    }
  }

  /** After any requests the cache holds the keys asked for most recently, in that order, as many as fit. */
  lemma {:induction false} HoldsMostRecent<K, V>(asks: seq<(K, V)>, capacity: nat)
    requires capacity >= 1
    ensures HoldsFirst(AfterAll(asks, capacity), Recent(asks), capacity)
  {
    hide HoldsFirst, Asked, Without;
    if asks == [] {
      NothingHeld<K, V>(capacity);
    } else {
      var init, last := asks[..|asks| - 1], asks[|asks| - 1];
      HoldsMostRecent(init, capacity);
      RecentDistinct(init);
      AskKeepsFirst(AfterAll(init, capacity), Recent(init), last.0, last.1, capacity);
    }
  }

  lemma NothingHeld<K, V>(capacity: nat)
    ensures HoldsFirst<K, V>([], [], capacity)
  {
  }

  // ---------------------------------------------------------------------
  // List and map
  // ---------------------------------------------------------------------

  function IndexIn(s: seq<nat>, x: nat): (r: nat)
    requires x in s
    ensures r < |s| && s[r] == x
  {
    if s[0] == x then 0 else 1 + IndexIn(s[1..], x)
  }

  predicate NoRepeats(list: seq<nat>) {
    forall i, j :: 0 <= i < j < |list| ==> list[i] != list[j]
  }

  /** Every list node is known and indexed under its key; every indexed node is in the list. */
  ghost predicate Linked<K, V>(list: seq<nat>, nodes: map<nat, (K, V)>, index: map<K, nat>) {
    && NoRepeats(list)
    && (forall i :: 0 <= i < |list| ==> NodeLinked(nodes, index, list[i]))
    && (forall k :: k in index ==> KeyLinked(list, nodes, index, k))
    && |index| == |list|
  }

  predicate KeyLinked<K(==), V>(list: seq<nat>, nodes: map<nat, (K, V)>, index: map<K, nat>, k: K)
    requires k in index
  {
    index[k] in list && index[k] in nodes && nodes[index[k]].0 == k
  }

  predicate NodeLinked<K(==), V>(nodes: map<nat, (K, V)>, index: map<K, nat>, n: nat) {
    n in nodes && nodes[n].0 in index && index[nodes[n].0] == n
  }

  /** The entries in list order. */
  function OrderOf<K, V>(list: seq<nat>, nodes: map<nat, (K, V)>): (r: seq<(K, V)>)
    requires forall i :: 0 <= i < |list| ==> list[i] in nodes
    ensures |r| == |list|
    ensures forall i :: 0 <= i < |r| ==> r[i] == nodes[list[i]]
  {
    seq(|list|, i requires 0 <= i < |list| => nodes[list[i]])
  }

  /** The map finds exactly the listed keys, each at its entry. */
  lemma IndexIsOrder<K, V>(list: seq<nat>, nodes: map<nat, (K, V)>, index: map<K, nat>, k: K)
    requires Linked(list, nodes, index)
    ensures DistinctKeys(OrderOf(list, nodes))
    ensures k in index <==> Has(OrderOf(list, nodes), k)
    ensures k in index ==> PositionOf(OrderOf(list, nodes), k) == IndexIn(list, index[k])
  {
    var order := OrderOf(list, nodes);
    forall i, j | 0 <= i < j < |order| ensures order[i].0 != order[j].0 {
      assert NodeLinked(nodes, index, list[i]) && NodeLinked(nodes, index, list[j]);
    }
    if k in index {
      var i := IndexIn(list, index[k]);
      assert order[i].0 == k;
      assert PositionOf(order, k) == i;
    } else {
      forall i | 0 <= i < |order| ensures order[i].0 != k {
        assert NodeLinked(nodes, index, list[i]);
      }
    }
  }

  lemma MemberAfterRemove(list: seq<nat>, i: nat, x: nat)
    requires NoRepeats(list) && i < |list|
    ensures NoRepeats(RemoveAt(list, i))
    ensures x in RemoveAt(list, i) <==> x in list && x != list[i]
  {
    assert list == list[..i] + [list[i]] + list[i + 1..];
  }

  lemma OrderOfRemove<K, V>(list: seq<nat>, nodes: map<nat, (K, V)>, i: nat)
    requires (forall j :: 0 <= j < |list| ==> list[j] in nodes) && i < |list|
    ensures forall j :: 0 <= j < |RemoveAt(list, i)| ==> RemoveAt(list, i)[j] in nodes
    ensures OrderOf(RemoveAt(list, i), nodes) == RemoveAt(OrderOf(list, nodes), i)
  {
  }

  lemma OrderOfFront<K, V>(list: seq<nat>, nodes: map<nat, (K, V)>, n: nat, e: (K, V))
    requires (forall j :: 0 <= j < |list| ==> list[j] in nodes) && n !in list
    ensures forall j :: 0 <= j < |[n] + list| ==> ([n] + list)[j] in nodes[n := e]
    ensures OrderOf([n] + list, nodes[n := e]) == [e] + OrderOf(list, nodes)
  {
  }

  /** splice: the node goes to the front, the iterators stay good. */
  lemma SpliceLinks<K, V>(list: seq<nat>, nodes: map<nat, (K, V)>, index: map<K, nat>, i: nat)
    requires Linked(list, nodes, index) && i < |list|
    ensures var list' := [list[i]] + RemoveAt(list, i);
            && Linked(list', nodes, index)
            && OrderOf(list', nodes) == [OrderOf(list, nodes)[i]] + RemoveAt(OrderOf(list, nodes), i)
  {
    hide RemoveAt, OrderOf;
    var rest, n := RemoveAt(list, i), list[i];
    forall x: nat ensures x in rest <==> x in list && x != n {
      MemberAfterRemove(list, i, x);
    }
    MemberAfterRemove(list, i, n);
    assert NodeLinked(nodes, index, n);
    OrderOfRemove(list, nodes, i);
    OrderOfFront(rest, nodes, n, nodes[n]);
    assert nodes[n := nodes[n]] == nodes;
    var list' := [n] + rest;
    forall j | 0 <= j < |list'| ensures NodeLinked(nodes, index, list'[j]) {
      assert list'[j] in list;
    }
  }

  /** erase: list node and map entry go together. */
  lemma EraseLinks<K, V>(list: seq<nat>, nodes: map<nat, (K, V)>, index: map<K, nat>, i: nat)
    requires Linked(list, nodes, index) && i < |list|
    ensures nodes[list[i]].0 in index
    ensures var k := nodes[list[i]].0;
            && Linked(RemoveAt(list, i), nodes, index - {k})
            && OrderOf(RemoveAt(list, i), nodes) == RemoveAt(OrderOf(list, nodes), i)
  {
    hide RemoveAt, OrderOf;
    var rest, n := RemoveAt(list, i), list[i];
    forall x: nat ensures x in rest <==> x in list && x != n {
      MemberAfterRemove(list, i, x);
    }
    MemberAfterRemove(list, i, n);
    assert NodeLinked(nodes, index, n);
    var k := nodes[n].0;
    var index' := index - {k};
    OrderOfRemove(list, nodes, i);
    forall j | 0 <= j < |rest| ensures NodeLinked(nodes, index', rest[j]) {
      assert rest[j] in list && rest[j] != n;
      assert NodeLinked(nodes, index, rest[j]);
    }
    assert index.Keys == index'.Keys + {k};
  }

  lemma OneMore<K, V>(index: map<K, V>, k: K, v: V)
    requires k !in index
    ensures |index[k := v]| == |index| + 1
  {
    assert index[k := v].Keys == index.Keys + {k};
  }

  /** The links of one node and of one key survive a new node. */
  lemma LinksStay<K, V>(list: seq<nat>, nodes: map<nat, (K, V)>, index: map<K, nat>, n: nat, k: K, v: V)
    requires k !in index && n !in list
    ensures forall x: nat :: NodeLinked(nodes, index, x) && x != n ==> NodeLinked(nodes[n := (k, v)], index[k := n], x)
    ensures NodeLinked(nodes[n := (k, v)], index[k := n], n)
    ensures forall o :: o in index && KeyLinked(list, nodes, index, o) ==> KeyLinked([n] + list, nodes[n := (k, v)], index[k := n], o)
    ensures KeyLinked([n] + list, nodes[n := (k, v)], index[k := n], k)
  {
    forall o | o in index && KeyLinked(list, nodes, index, o) ensures KeyLinked([n] + list, nodes[n := (k, v)], index[k := n], o) {
      assert index[o] in list && index[o] in [n] + list;
    }
    assert ([n] + list)[0] == n;
  }

  /** emplace_front with a new node. */
  lemma EmplaceLinks<K, V>(list: seq<nat>, nodes: map<nat, (K, V)>, index: map<K, nat>, n: nat, k: K, v: V)
    requires Linked(list, nodes, index) && n !in list && k !in index
    ensures var nodes' := nodes[n := (k, v)];
            && Linked([n] + list, nodes', index[k := n])
            && OrderOf([n] + list, nodes') == [(k, v)] + OrderOf(list, nodes)
  {
    hide OrderOf, KeyLinked;
    var list', nodes', index' := [n] + list, nodes[n := (k, v)], index[k := n];
    OneMore(index, k, n);
    OrderOfFront(list, nodes, n, (k, v));
    LinksStay(list, nodes, index, n, k, v);
    forall j | 0 <= j < |list'| ensures NodeLinked(nodes', index', list'[j]) {
      if j > 0 {
        assert list'[j] == list[j - 1] && NodeLinked(nodes, index, list[j - 1]);
      }
    }
    assert NoRepeats(list');
  }

  /** Writing a node's value leaves every link as it was. */
  lemma AssignLinks<K, V>(list: seq<nat>, nodes: map<nat, (K, V)>, index: map<K, nat>, i: nat, v: V)
    requires Linked(list, nodes, index) && i < |list|
    ensures var nodes' := nodes[list[i] := (nodes[list[i]].0, v)];
            && Linked(list, nodes', index)
            && OrderOf(list, nodes') == OrderOf(list, nodes)[i := (nodes[list[i]].0, v)]
  {
    var nodes' := nodes[list[i] := (nodes[list[i]].0, v)];
    assert NodeLinked(nodes, index, list[i]);
    forall j | 0 <= j < |list| ensures NodeLinked(nodes', index, list[j]) {
      assert NodeLinked(nodes, index, list[j]);
    }
  }

  class LruCache<K(==), V> {
    /** The list, as node numbers; what the nodes hold; and the map's iterators. */
    var list: seq<nat>
    var nodes: map<nat, (K, V)>
    var index: map<K, nat>
    var nextNode: nat

    /** List and map are in bijection. */
    ghost predicate Valid()
      reads this
    {
      Linked(list, nodes, index) && forall i :: 0 <= i < |list| ==> list[i] < nextNode
    }

    ghost function Order(): (r: seq<(K, V)>)
      requires Valid()
      reads this
      ensures |r| == |list|
    {
      OrderOf(list, nodes)
    }

    constructor ()
      ensures Valid() && Order() == []
    {
      list, nodes, index, nextNode := [], map[], map[], 0;
    }

    /** Whether the key is cached. */
    method Contains(k: K) returns (r: bool)
      requires Valid()
      ensures r == Has(Order(), k)
    {
      IndexIsOrder(list, nodes, index, k);
      r := k in index;
    }

    /** The entry moves to the front. */
    method Touch(k: K) returns (v: V)
      requires Valid() && Has(Order(), k)
      modifies this`list
      ensures Valid()
      ensures v == Lookup(old(Order()), k) && Order() == Touched(old(Order()), k)
    {
      hide Linked;
      IndexIsOrder(list, nodes, index, k);
      LinkFacts(list, nodes, index, k);
      var i := IndexIn(list, index[k]);
      SpliceLinks(list, nodes, index, i);
      v := nodes[list[i]].1;
      list := [list[i]] + RemoveAt(list, i);
    }

    /** The entry gets a new value and moves to the front. */
    method Assign(k: K, v: V)
      requires Valid() && Has(Order(), k)
      modifies this`list, this`nodes
      ensures Valid()
      ensures Order() == [(k, v)] + Dropped(old(Order()), k)
    {
      hide Linked;
      IndexIsOrder(list, nodes, index, k);
      LinkFacts(list, nodes, index, k);
      var i := IndexIn(list, index[k]);
      AssignLinks(list, nodes, index, i, v);
      nodes := nodes[list[i] := (k, v)];
      SpliceLinks(list, nodes, index, i);
      list := [list[i]] + RemoveAt(list, i);
    }

    /** The oldest entry goes. */
    method Evict()
      requires Valid() && list != []
      modifies this`list, this`index
      ensures Valid()
      ensures Order() == old(Order())[..|old(Order())| - 1]
    {
      hide Linked;
      var last := |list| - 1;
      EraseLinks(list, nodes, index, last);
      NodeFacts(list, nodes, index, last);
      var deleteKey := nodes[list[last]].0;
      index := index - {deleteKey};
      list := RemoveAt(list, last);
    }

    method Erase(k: K)
      requires Valid()
      modifies this`list, this`index
      ensures Valid() && Order() == Dropped(old(Order()), k)
    {
      hide Linked;
      IndexIsOrder(list, nodes, index, k);
      if k in index {
        LinkFacts(list, nodes, index, k);
        var i := IndexIn(list, index[k]);
        EraseLinks(list, nodes, index, i);
        index := index - {k};
        list := RemoveAt(list, i);
      }
    }

    method EmplaceFront(k: K, v: V)
      requires Valid() && !Has(Order(), k)
      modifies this
      ensures Valid() && Order() == [(k, v)] + old(Order())
    {
      hide Linked;
      IndexIsOrder(list, nodes, index, k);
      assert nextNode !in list;
      EmplaceLinks(list, nodes, index, nextNode, k, v);
      nodes := nodes[nextNode := (k, v)];
      index := index[k := nextNode];
      list := [nextNode] + list;
      nextNode := nextNode + 1;
    }

    method Clear()
      modifies this`list, this`index
      ensures Valid() && Order() == []
    {
      index, list := map[], [];
    }

    /** CheckMetaFileSize: the sizes of list and map never differ. */
    method CheckSize() returns (r: int)
      requires Valid()
      ensures r == |Order()|
    {
      if |index| != |list| {
        return -1;
      }
      return |list|;
    }
  }

  lemma LinkFacts<K, V>(list: seq<nat>, nodes: map<nat, (K, V)>, index: map<K, nat>, k: K)
    requires Linked(list, nodes, index) && k in index
    ensures index[k] in list && index[k] in nodes && nodes[index[k]].0 == k
  {
  }

  lemma NodeFacts<K, V>(list: seq<nat>, nodes: map<nat, (K, V)>, index: map<K, nat>, i: nat)
    requires Linked(list, nodes, index) && i < |list|
    ensures NodeLinked(nodes, index, list[i])
  {
  }
}
