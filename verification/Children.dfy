/** Listing a directory: decoding every group in turn, and why that lists each entry once. */
module ChildLists {
  import opened Common
  import opened Bitmap
  import opened Dentries
  import opened Groups
  import opened GroupBuffers
  import opened DentryFiles

  /** What a listing reports of an entry: neither atime nor noUpload is filled in. */
  function ChildOf(e: Entry): MetaBase {
    MetaBase(e.name, 0, e.slot.mtime, e.slot.size, e.slot.mode,
             GetPosition(e.slot.flags), GetFileType(e.slot.flags), 0, e.slot.recordId)
  }

  /** A listed child and a looked-up entry agree wherever the listing fills a field in. */
  predicate AgreesWith(c: MetaBase, m: Meta) {
    && c.mtime == m.mtime && c.size == m.size && c.mode == m.mode
    && c.position == m.position && c.fileType == m.fileType && c.cloudId == m.cloudId
  }

  /** The entries of the first n slots, in slot order. */
  function Decoded(es: map<int, Entry>, n: nat): seq<MetaBase> {
    if n == 0 then []
    else Decoded(es, n - 1) + if n - 1 in es then [ChildOf(es[n - 1])] else []
  }

  /** The entries of the first n groups, in file order. */
  function Children(es: Listing, per: nat, n: nat): seq<MetaBase>
    requires n <= |es|
  {
    if n == 0 then [] else Children(es, per, n - 1) + Decoded(es[n - 1], per)
  }

  /** What decoding lists of a group, tiled or not: heads with a name shorter than PATH_MAX. */
  function Listable(g: Group): map<int, Entry>
    requires Shaped(g)
  {
    map p | 0 <= p < |g.nsl| && Head(g, p) && g.nsl[p].namelen < PATH_MAX :: Entry(NameAt(g, p), g.nsl[p])
  }

  /** The names that decoding copies lie inside the group. */
  predicate Decodable(g: Group) {
    && Shaped(g)
    && forall p :: 0 <= p < |g.nsl| && Head(g, p) && g.nsl[p].namelen < PATH_MAX ==> 8 * p + g.nsl[p].namelen <= |g.fileName|
  }

  lemma DecodableIsShaped(g: Group)
    requires Decodable(g)
    ensures Shaped(g)
  {
  }

  lemma GoodIsDecodable(g: Group)
    requires Good(g)
    ensures Decodable(g) && Listable(g) == Entries(g)
  {
    forall p | 0 <= p < |g.nsl| && Head(g, p) ensures 8 * p + g.nsl[p].namelen <= |g.fileName| {
      NameInside(g, p);
    }
  }

  lemma NoSlots(es: map<int, Entry>)
    ensures Decoded(es, 0) == []
  {
  }

  lemma NextSlot(g: Group, i: nat)
    requires Shaped(g) && i < |g.nsl|
    ensures Decoded(Listable(g), i + 1)
            == Decoded(Listable(g), i)
               + if Head(g, i) && g.nsl[i].namelen < PATH_MAX then [ChildOf(Entry(NameAt(g, i), g.nsl[i]))] else []
  {
  }

  /** The slot-by-slot walk: every set bit with a name length, in order. */
  method DecodeDentrys(page: GroupBuffer, bases: seq<MetaBase>) returns (r: seq<MetaBase>)
    requires Decodable(page.View())
    ensures r == bases + Decoded(Listable(page.View()), |page.View().nsl|)
  {
    hide Bits, GetPosition, GetFileType, Listable, Decoded;
    r := bases;
    ghost var g := page.View();
    NoSlots(Listable(g));
    var i := 0;
    while i < page.nsl.Length
      invariant 0 <= i <= page.nsl.Length
      invariant r == bases + Decoded(Listable(g), i)
    {
      NextSlot(g, i);
      var de := page.nsl[i];
      var on := TestBit(i, page.bitmap);
      if on && de.namelen != 0 && de.namelen < PATH_MAX {
        var name := page.fileName[8 * i .. 8 * i + de.namelen];
        var base := DefaultBase(name).(mode := de.mode, mtime := de.mtime, size := de.size,
                                       position := GetPosition(de.flags), fileType := GetFileType(de.flags),
                                       cloudId := de.recordId);
        assert base == ChildOf(Entry(NameAt(g, i), g.nsl[i]));
        r := r + [base];
      }
      i := i + 1;
    }
  }

  predicate DistinctNames(cs: seq<MetaBase>) {
    forall a, b :: 0 <= a < b < |cs| ==> cs[a].name != cs[b].name
  }

  lemma {:induction false} DecodedFrom(es: map<int, Entry>, n: nat, a: nat) returns (p: int)
    requires a < |Decoded(es, n)|
    ensures 0 <= p < n && p in es && Decoded(es, n)[a] == ChildOf(es[p])
  {
    var init := Decoded(es, n - 1);
    if a < |init| {
      p := DecodedFrom(es, n - 1, a);
    } else {
      p := n - 1;
    }
  }

  lemma {:induction false} DecodedHas(es: map<int, Entry>, n: nat, p: int)
    requires 0 <= p < n && p in es
    ensures ChildOf(es[p]) in Decoded(es, n)
  {
    if p == n - 1 {
      assert Decoded(es, n)[|Decoded(es, n)| - 1] == ChildOf(es[p]);
    } else {
      DecodedHas(es, n - 1, p);
    }
  }

  lemma {:induction false} ChildFrom(es: Listing, per: nat, n: nat, a: nat) returns (i: nat, p: int)
    requires n <= |es| && a < |Children(es, per, n)|
    ensures i < n && 0 <= p < per && p in es[i] && Children(es, per, n)[a] == ChildOf(es[i][p])
  {
    var init := Children(es, per, n - 1);
    if a < |init| {
      i, p := ChildFrom(es, per, n - 1, a);
    } else {
      i := n - 1;
      p := DecodedFrom(es[n - 1], per, a - |init|);
    }
  }

  lemma {:induction false} ChildrenHas(es: Listing, per: nat, n: nat, i: nat, p: int)
    requires n <= |es| && i < n && 0 <= p < per && p in es[i]
    ensures ChildOf(es[i][p]) in Children(es, per, n)
  {
    hide ChildOf, Decoded;
    assert Children(es, per, n) == Children(es, per, n - 1) + Decoded(es[n - 1], per);
    if i == n - 1 {
      DecodedHas(es[i], per, p);
    } else {
      ChildrenHas(es, per, n - 1, i, p);
    }
  }

  lemma {:induction false} DecodedDistinct(es: Listing, i: nat, n: nat)
    requires Unique(es) && i < |es|
    ensures DistinctNames(Decoded(es[i], n))
  {
    if n > 0 {
      DecodedDistinct(es, i, n - 1);
      var init := Decoded(es[i], n - 1);
      if n - 1 in es[i] {
        forall a | 0 <= a < |init| ensures init[a].name != es[i][n - 1].name {
          var p := DecodedFrom(es[i], n - 1, a);
          assert At(es, i, p) && At(es, i, n - 1);
        }
      }
    }
  }

  lemma {:induction false} ChildrenDistinct(es: Listing, per: nat, n: nat)
    requires Unique(es) && n <= |es|
    ensures DistinctNames(Children(es, per, n))
  {
    if n > 0 {
      ChildrenDistinct(es, per, n - 1);
      DecodedDistinct(es, n - 1, per);
      var init, last := Children(es, per, n - 1), Decoded(es[n - 1], per);
      forall a, b | 0 <= a < |init| && 0 <= b < |last| ensures init[a].name != last[b].name {
        var i, p := ChildFrom(es, per, n - 1, a);
        var q := DecodedFrom(es[n - 1], per, b);
        assert At(es, i, p) && At(es, n - 1, q);
      }
    }
  }

  function NamesIn(cs: seq<MetaBase>): set<string> {
    set c | c in cs :: c.name
  }

  lemma {:induction false} DistinctCount(cs: seq<MetaBase>)
    requires DistinctNames(cs)
    ensures |NamesIn(cs)| == |cs|
  {
    if cs == [] {
      assert NamesIn(cs) == {};
    } else {
      var init, last := cs[..|cs| - 1], cs[|cs| - 1];
      DistinctCount(init);
      assert NamesIn(cs) == NamesIn(init) + {last.name} by {
        forall c | c in cs ensures c in init || c == last {
        }
      }
      assert last.name !in NamesIn(init);
    }
  }

  ghost function AllChildren(gs: seq<Group>, per: nat): seq<MetaBase>
    requires AllShaped(gs)
  {
    Children(ListingOf(gs), per, |gs|)
  }

  lemma ChildInDirectory(es: Listing, i: nat, p: int)
    requires Unique(es) && At(es, i, p)
    ensures ChildOf(es[i][p]).name in DirectoryOf(es)
    ensures AgreesWith(ChildOf(es[i][p]), DirectoryOf(es)[es[i][p].name])
  {
    EntryInDirectory(es, i, p);
  }

  lemma PlacesWithin(gs: seq<Group>, per: nat, i: nat, p: int)
    requires AllShaped(gs) && AllGood(gs, per) && At(ListingOf(gs), i, p)
    ensures 0 <= p < per
  {
  }

  /** Listing a file lists each name of its directory exactly once, and agrees with lookup. */
  lemma ListingIsDirectory(gs: seq<Group>, per: nat, hash: HashFn)
    requires AllShaped(gs) && FileInv(gs, per, hash)
    ensures var cs := AllChildren(gs, per);
            && DistinctNames(cs)
            && NamesIn(cs) == Contents(gs).Keys
            && |cs| == |Contents(gs)|
            && forall c :: c in cs ==> c.name in Contents(gs) && AgreesWith(c, Contents(gs)[c.name])
  {
    hide AllGood, Placed, WholeLevels, DistinctNames, Unique, ListingOf, Children, AgreesWith, DirectoryOf, Shaped;
    var es := ListingOf(gs);
    var cs := AllChildren(gs, per);
    ChildrenDistinct(es, per, |gs|);
    DistinctCount(cs);
    forall c | c in cs ensures c.name in Contents(gs) && AgreesWith(c, Contents(gs)[c.name]) {
      var a :| 0 <= a < |cs| && cs[a] == c;
      var i, p := ChildFrom(es, per, |gs|, a);
      ChildInDirectory(es, i, p);
    }
    forall name | name in Contents(gs) ensures name in NamesIn(cs) {
      ListedName(es, name);
      var a := PlaceOf(es, name);
      PlacesWithin(gs, per, a.0, a.1);
      ChildrenHas(es, per, |gs|, a.0, a.1);
    }
    assert NamesIn(cs) == Contents(gs).Keys;
    assert |Contents(gs).Keys| == |Contents(gs)|;
  }

  lemma ListedName(es: Listing, name: string)
    requires name in DirectoryOf(es)
    ensures Holds(es, name)
  {
  }

  // ---------------------------------------------------------------------
  // Listing with failed reads
  // ---------------------------------------------------------------------

  /** What the buffer holds when group i is decoded: the last group read, or what it held at first. */
  function Standing(es: Listing, first: map<int, Entry>, fails: set<nat>, i: nat): map<int, Entry>
    requires i < |es|
  {
    if i !in fails then es[i] else if i == 0 then first else Standing(es, first, fails, i - 1)
  }

  /** The listing when some reads fail: the buffer is decoded once for every group all the same. */
  function Relisted(es: Listing, first: map<int, Entry>, fails: set<nat>, per: nat, n: nat): seq<MetaBase>
    requires n <= |es|
  {
    if n == 0 then []
    else Relisted(es, first, fails, per, n - 1) + Decoded(Standing(es, first, fails, n - 1), per)
  }

  /** The children listed in place of failed groups, and those of the failed groups. */
  function Repeated(es: Listing, first: map<int, Entry>, fails: set<nat>, per: nat, n: nat): seq<MetaBase>
    requires n <= |es|
  {
    if n == 0 then []
    else
      Repeated(es, first, fails, per, n - 1)
      + if n - 1 in fails then Decoded(Standing(es, first, fails, n - 1), per) else []
  }

  function Lost(es: Listing, fails: set<nat>, per: nat, n: nat): seq<MetaBase>
    requires n <= |es|
  {
    if n == 0 then []
    else Lost(es, fails, per, n - 1) + if n - 1 in fails then Decoded(es[n - 1], per) else []
  }

  lemma Undisturbed(es: Listing, first: map<int, Entry>, fails: set<nat>, i: nat)
    requires i < |es| && i !in fails
    ensures Standing(es, first, fails, i) == es[i]
  {
  }

  lemma AddBoth<T>(r: multiset<T>, l: multiset<T>, c: multiset<T>, x: multiset<T>, shown: multiset<T>, own: multiset<T>)
    requires r + l == c + x
    ensures (r + shown) + l == (c + shown) + x
    ensures (r + shown) + (l + own) == (c + own) + (x + shown)
  {
    assert (r + shown) + l == (r + l) + shown;
    assert (r + shown) + (l + own) == (r + l) + (shown + own);
  }

  /** Listing and directory differ by what is repeated and what is lost. */
  lemma {:induction false} RepeatedForLost(es: Listing, first: map<int, Entry>, fails: set<nat>, per: nat, n: nat)
    requires n <= |es|
    ensures multiset(Relisted(es, first, fails, per, n)) + multiset(Lost(es, fails, per, n))
            == multiset(Children(es, per, n)) + multiset(Repeated(es, first, fails, per, n))
  {
    hide Decoded, Standing;
    if n > 0 {
      var m := n - 1;
      RepeatedForLost(es, first, fails, per, m);
      var r, c := Relisted(es, first, fails, per, m), Children(es, per, m);
      var l, x := Lost(es, fails, per, m), Repeated(es, first, fails, per, m);
      var shown, own := Decoded(Standing(es, first, fails, m), per), Decoded(es[m], per);
      AddBoth(multiset(r), multiset(l), multiset(c), multiset(x), multiset(shown), multiset(own));
      if m in fails {
        assert Lost(es, fails, per, n) == l + own && Repeated(es, first, fails, per, n) == x + shown;
      } else {
        Undisturbed(es, first, fails, m);
        assert Lost(es, fails, per, n) == l && Repeated(es, first, fails, per, n) == x;
      }
      assert Relisted(es, first, fails, per, n) == r + shown && Children(es, per, n) == c + own;
    }
  }

  /** So the listing is the directory's, in some order, exactly when these two are. */
  lemma RelistedIffNoneLost(es: Listing, first: map<int, Entry>, fails: set<nat>, per: nat)
    ensures multiset(Relisted(es, first, fails, per, |es|)) == multiset(Children(es, per, |es|))
            <==> multiset(Repeated(es, first, fails, per, |es|)) == multiset(Lost(es, fails, per, |es|))
  {
    hide Relisted, Children, Repeated, Lost;
    RepeatedForLost(es, first, fails, per, |es|);
    var r, l := multiset(Relisted(es, first, fails, per, |es|)), multiset(Lost(es, fails, per, |es|));
    var c, x := multiset(Children(es, per, |es|)), multiset(Repeated(es, first, fails, per, |es|));
    if r == c {
      assert forall e :: x[e] == (c + x)[e] - c[e] && l[e] == (r + l)[e] - r[e];
    } else if x == l {
      assert forall e :: r[e] == (r + l)[e] - l[e] && c[e] == (c + x)[e] - x[e];
    }
  }

  /** Without failures the listing is all children. */
  lemma {:induction false} RelistedAll(es: Listing, first: map<int, Entry>, fails: set<nat>, per: nat, n: nat)
    requires n <= |es| && forall i :: 0 <= i < n ==> i !in fails
    ensures Relisted(es, first, fails, per, n) == Children(es, per, n)
  {
    if n > 0 {
      RelistedAll(es, first, fails, per, n - 1);
    }
  }

  lemma {:induction false} StandingFrom(es: Listing, first: map<int, Entry>, fails: set<nat>, i: nat) returns (j: nat)
    requires i < |es|
    ensures Standing(es, first, fails, i) == first || (j <= i && j !in fails && Standing(es, first, fails, i) == es[j])
    ensures 0 !in fails ==> j <= i && j !in fails && Standing(es, first, fails, i) == es[j]
  {
    j := i;
    if i in fails && i > 0 {
      j := StandingFrom(es, first, fails, i - 1);
    }
  }

  lemma {:induction false} RepeatedHas(es: Listing, first: map<int, Entry>, fails: set<nat>, per: nat, n: nat, i: nat, p: int)
    requires n <= |es| && i < n && i in fails && 0 <= p < per && p in Standing(es, first, fails, i)
    ensures ChildOf(Standing(es, first, fails, i)[p]) in Repeated(es, first, fails, per, n)
  {
    hide ChildOf, Decoded, Standing;
    if i == n - 1 {
      DecodedHas(Standing(es, first, fails, i), per, p);
    } else {
      RepeatedHas(es, first, fails, per, n - 1, i, p);
    }
  }

  lemma {:induction false} LostHas(es: Listing, fails: set<nat>, per: nat, n: nat, i: nat, p: int)
    requires n <= |es| && i < n && i in fails && 0 <= p < per && p in es[i]
    ensures ChildOf(es[i][p]) in Lost(es, fails, per, n)
  {
    hide ChildOf, Decoded;
    if i == n - 1 {
      DecodedHas(es[i], per, p);
    } else {
      LostHas(es, fails, per, n - 1, i, p);
    }
  }

  lemma {:induction false} LostFrom(es: Listing, fails: set<nat>, per: nat, n: nat, c: MetaBase) returns (i: nat, p: int)
    requires n <= |es| && c in Lost(es, fails, per, n)
    ensures i < n && i in fails && p in es[i] && c == ChildOf(es[i][p])
  {
    hide ChildOf, Decoded;
    if c in Lost(es, fails, per, n - 1) {
      i, p := LostFrom(es, fails, per, n - 1, c);
    } else {
      i := n - 1;
      var a :| 0 <= a < |Decoded(es[i], per)| && Decoded(es[i], per)[a] == c;
      p := DecodedFrom(es[i], per, a);
    }
  }

  /** Failed groups that hold nothing, read over a buffer that holds nothing. */
  predicate Harmless(es: Listing, first: map<int, Entry>, fails: set<nat>, n: nat)
    requires n <= |es|
  {
    forall i :: i in fails && i < n ==> es[i] == map[] && Standing(es, first, fails, i) == map[]
  }

  lemma {:induction false} HarmlessShowsNothing(es: Listing, first: map<int, Entry>, fails: set<nat>, per: nat, n: nat)
    requires n <= |es| && Harmless(es, first, fails, n)
    ensures Repeated(es, first, fails, per, n) == [] && Lost(es, fails, per, n) == []
  {
    if n > 0 {
      HarmlessShowsNothing(es, first, fails, per, n - 1);
      NothingDecoded(per);
    }
  }

  lemma {:induction false} NothingDecoded(n: nat)
    ensures Decoded(map[], n) == []
  {
    if n > 0 {
      NothingDecoded(n - 1);
    }
  }

  /** What is repeated belongs to groups that were read, so it makes up for nothing lost. */
  lemma RepeatsNothing(es: Listing, first: map<int, Entry>, fails: set<nat>, per: nat, i: nat)
    requires Unique(es) && (0 in fails ==> first == map[]) && i < |es| && i in fails
    requires forall j, p :: 0 <= j < |es| && p in es[j] ==> 0 <= p < per
    requires multiset(Repeated(es, first, fails, per, |es|)) == multiset(Lost(es, fails, per, |es|))
    ensures Standing(es, first, fails, i) == map[]
  {
    hide ChildOf, Decoded, Repeated, Lost;
    var shown := Standing(es, first, fails, i);
    var j := StandingFrom(es, first, fails, i);
    if p :| p in shown {
      assert shown == es[j] && j !in fails;
      RepeatedHas(es, first, fails, per, |es|, i, p);
      assert ChildOf(es[j][p]) in multiset(Lost(es, fails, per, |es|));
      var k, q := LostFrom(es, fails, per, |es|, ChildOf(es[j][p]));
      SameChild(es[j][p], es[k][q]);
      assert false;
    } else {
      assert forall p :: p !in shown;
    }
  }

  lemma SameChild(a: Entry, b: Entry)
    requires ChildOf(a) == ChildOf(b)
    ensures a.name == b.name
  {
  }

  /** The listing is still the directory's exactly when every group whose read fails is empty, and so
      is the last group read before it: otherwise entries are missing or listed twice. */
  lemma RelistedIff(gs: seq<Group>, per: nat, hash: HashFn, first: map<int, Entry>, fails: set<nat>)
    requires AllShaped(gs) && FileInv(gs, per, hash) && (0 in fails ==> first == map[])
    ensures multiset(Relisted(ListingOf(gs), first, fails, per, |gs|)) == multiset(AllChildren(gs, per))
            <==> Harmless(ListingOf(gs), first, fails, |gs|)
  {
    hide AllGood, Placed, WholeLevels, Shaped, Standing, Unique, ChildOf, Decoded, Relisted, Children;
    var es := ListingOf(gs);
    RelistedIffNoneLost(es, first, fails, per);
    forall j, p | 0 <= j < |es| && p in es[j] ensures 0 <= p < per {
      PlacesWithin(gs, per, j, p);
    }
    if Harmless(es, first, fails, |gs|) {
      HarmlessShowsNothing(es, first, fails, per, |gs|);
    } else if multiset(Repeated(es, first, fails, per, |gs|)) == multiset(Lost(es, fails, per, |gs|)) {
      var i :| i in fails && i < |gs| && !(es[i] == map[] && Standing(es, first, fails, i) == map[]);
      NoneLost(es, first, fails, per, i);
    }
  }

  lemma NoneLost(es: Listing, first: map<int, Entry>, fails: set<nat>, per: nat, i: nat)
    requires Unique(es) && (0 in fails ==> first == map[]) && i < |es| && i in fails
    requires forall j, p :: 0 <= j < |es| && p in es[j] ==> 0 <= p < per
    requires multiset(Repeated(es, first, fails, per, |es|)) == multiset(Lost(es, fails, per, |es|))
    ensures es[i] == map[] && Standing(es, first, fails, i) == map[]
  {
    hide ChildOf, Decoded, Unique;
    RepeatsNothing(es, first, fails, per, i);
    if p :| p in es[i] {
      LostHas(es, fails, per, |es|, i, p);
      var c := ChildOf(es[i][p]);
      assert c in multiset(Repeated(es, first, fails, per, |es|));
      var k := RepeatedFrom(es, first, fails, per, |es|, c);
      RepeatsNothing(es, first, fails, per, k);
      NothingDecoded(per);
      assert false;
    }
  }

  lemma {:induction false} RepeatedFrom(es: Listing, first: map<int, Entry>, fails: set<nat>, per: nat, n: nat, c: MetaBase)
    returns (i: nat)
    requires n <= |es| && c in Repeated(es, first, fails, per, n)
    ensures i < n && i in fails && c in Decoded(Standing(es, first, fails, i), per)
  {
    hide Decoded, Standing;
    if c in Repeated(es, first, fails, per, n - 1) {
      i := RepeatedFrom(es, first, fails, per, n - 1, c);
    } else {
      i := n - 1;
    }
  }

  lemma {:induction false} OneDecoded(e: Entry, n: nat)
    requires n >= 1
    ensures Decoded(map[0 := e], n) == [ChildOf(e)]
  {
    if n == 1 {
      assert Decoded(map[0 := e], 0) == [];
    } else {
      OneDecoded(e, n - 1);
    }
  }

  /** A file of one entry, whose second group cannot be read: the entry is listed twice. */
  lemma ListedTwice(base: MetaBase, hash: HashFn, per: nat)
    requires 0 < per <= MAX_PER_GROUP && 1 <= |base.name| <= 8 * per && |base.cloudId| <= RECORD_ID_LEN
    ensures var gs := PairWith(per, hash, base, 0);
            && AllShaped(gs) && FileInv(gs, per, hash) && Contents(gs).Keys == {base.name}
            && exists c: MetaBase :: c.name == base.name && Relisted(ListingOf(gs), map[], {1}, per, 2) == [c, c]
  {
    hide FileInv, Contents, PairWith, Decoded;
    var gs := PairWith(per, hash, base, 0);
    PairHoldsOne(per, hash, base, 0);
    var es := ListingOf(gs);
    var e := es[0][0];
    assert es[0] == map[0 := e];
    OneDecoded(e, per);
    assert Standing(es, map[], {1}, 1) == Standing(es, map[], {1}, 0) == es[0];
    var c := ChildOf(e);
    assert Relisted(es, map[], {1}, per, 0) == [];
    assert Relisted(es, map[], {1}, per, 1) == [c];
    assert Relisted(es, map[], {1}, per, 2) == [c] + [c] == [c, c];
  }
}
