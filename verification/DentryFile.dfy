/** A whole dentry file as a value: its groups, the invariant that makes it a map
    from names to metadata, and what each group edit does to that map. */
module DentryFiles {
  import opened Common
  import opened Layout
  import opened Bitmap
  import opened Dentries
  import opened Groups

  type HashFn = string -> u32

  /** What the file stands for. */
  type Directory = map<string, Meta>

  /** The entries of a file, group by group. */
  type Listing = seq<map<int, Entry>>

  // ---------------------------------------------------------------------
  // From entries at places to a directory
  // ---------------------------------------------------------------------

  predicate At(es: Listing, i: nat, p: int) {
    i < |es| && p in es[i]
  }

  /** No name occurs at two places. */
  ghost predicate Unique(es: Listing) {
    forall i: nat, p: int, j: nat, q: int ::
      At(es, i, p) && At(es, j, q) && es[i][p].name == es[j][q].name ==> i == j && p == q
  }

  /** Group i is one of the two blocks `hash` selects on the group's level. */
  predicate OnPath(i: nat, hash: u32) {
    i - i % 2 == HomeBlock(LevelOf(i), hash)
  }

  /** Every entry carries its name's hash and sits on that hash's path. */
  ghost predicate Placed(es: Listing, hash: HashFn) {
    forall i: nat, p: int :: At(es, i, p) ==>
      es[i][p].slot.hash == hash(es[i][p].name) && OnPath(i, es[i][p].slot.hash)
  }

  ghost predicate Holds(es: Listing, name: string) {
    exists i: nat, p: int :: At(es, i, p) && es[i][p].name == name
  }

  ghost function NamesOf(es: Listing): (r: set<string>)
    ensures forall name :: name in r <==> Holds(es, name)
  {
    if es == [] then {}
    else
      var last := es[|es| - 1];
      var r := NamesOf(es[..|es| - 1]) + set p | p in last :: last[p].name;
      assert forall name :: name in r <==> Holds(es, name) by {
        forall name ensures name in r <==> Holds(es, name) {
          HoldsSplit(es, name);
        }
      }
      r
  }

  ghost predicate HasName(es: map<int, Entry>, name: string) {
    exists p :: p in es && es[p].name == name
  }

  lemma HoldsSplit(es: Listing, name: string)
    requires es != []
    ensures Holds(es, name) <==> Holds(es[..|es| - 1], name) || HasName(es[|es| - 1], name)
  {
    var n := |es| - 1;
    if Holds(es, name) {
      var i: nat, p: int :| At(es, i, p) && es[i][p].name == name;
      if i < n {
        assert At(es[..n], i, p);
      }
    }
    if Holds(es[..n], name) {
      var i: nat, p: int :| At(es[..n], i, p) && es[..n][i][p].name == name;
      assert At(es, i, p);
    }
    if HasName(es[n], name) {
      var p :| p in es[n] && es[n][p].name == name;
      assert At(es, n, p);
    }
  }

  ghost function PlaceOf(es: Listing, name: string): (a: (nat, int))
    requires Holds(es, name)
    ensures At(es, a.0, a.1) && es[a.0][a.1].name == name
  {
    var i: nat, p: int :| At(es, i, p) && es[i][p].name == name;
    (i, p)
  }

  ghost function DirectoryOf(es: Listing): Directory {
    map name | name in NamesOf(es) :: var a := PlaceOf(es, name); Report(es[a.0][a.1].slot)
  }

  lemma EntryInDirectory(es: Listing, i: nat, p: int)
    requires Unique(es) && At(es, i, p)
    ensures es[i][p].name in DirectoryOf(es)
    ensures DirectoryOf(es)[es[i][p].name] == Report(es[i][p].slot)
  {
  }

  /** A directory with exactly the listed names, each with its entry's metadata, is the listing's. */
  lemma DirectoryIs(es: Listing, m: Directory)
    requires Unique(es)
    requires forall i: nat, p: int :: At(es, i, p) ==>
               es[i][p].name in m && m[es[i][p].name] == Report(es[i][p].slot)
    requires forall name :: name in m ==> Holds(es, name)
    ensures DirectoryOf(es) == m
  {
  }

  /** Writing an entry under a name that is new, or under the name that place already has. */
  lemma PutEntry(es: Listing, i: nat, p: int, e: Entry)
    requires Unique(es) && i < |es|
    requires if p in es[i] then es[i][p].name == e.name else e.name !in DirectoryOf(es)
    ensures Unique(es[i := es[i][p := e]])
    ensures DirectoryOf(es[i := es[i][p := e]]) == DirectoryOf(es)[e.name := Report(e.slot)]
  {
    hide Report;
    var es' := es[i := es[i][p := e]];
    var m := DirectoryOf(es)[e.name := Report(e.slot)];
    forall j: nat, q: int | At(es', j, q) && (j, q) != (i, p)
      ensures At(es, j, q) && es'[j][q] == es[j][q] && es[j][q].name != e.name
      ensures es'[j][q].name in m && m[es'[j][q].name] == Report(es'[j][q].slot)
    {
      assert At(es, j, q);
      EntryInDirectory(es, j, q);
      if p in es[i] {
        assert At(es, i, p);
      }
    }
    assert At(es', i, p);
    forall name | name in m ensures Holds(es', name) {
      if name != e.name {
        var a := PlaceOf(es, name);
        assert At(es', a.0, a.1);
      }
    }
    DirectoryIs(es', m);
  }

  lemma DropEntry(es: Listing, i: nat, p: int)
    requires Unique(es) && At(es, i, p)
    ensures Unique(es[i := es[i] - {p}])
    ensures DirectoryOf(es[i := es[i] - {p}]) == DirectoryOf(es) - {es[i][p].name}
  {
    hide Report;
    var es' := es[i := es[i] - {p}];
    var m := DirectoryOf(es) - {es[i][p].name};
    forall j: nat, q: int | At(es', j, q)
      ensures At(es, j, q) && es'[j][q] == es[j][q] && (j, q) != (i, p)
      ensures es'[j][q].name in m && m[es'[j][q].name] == Report(es'[j][q].slot)
    {
      assert At(es, j, q);
      EntryInDirectory(es, j, q);
    }
    forall name | name in m ensures Holds(es', name) {
      var a := PlaceOf(es, name);
      assert At(es', a.0, a.1);
    }
    DirectoryIs(es', m);
  }

  /** Empty groups at the end add nothing. */
  lemma AppendEmpty(es: Listing, more: Listing)
    requires Unique(es) && forall k :: 0 <= k < |more| ==> more[k] == map[]
    ensures Unique(es + more) && DirectoryOf(es + more) == DirectoryOf(es)
  {
    hide Report;
    var es' := es + more;
    forall j: nat, q: int | At(es', j, q)
      ensures At(es, j, q) && es'[j][q] == es[j][q]
      ensures es[j][q].name in DirectoryOf(es) && DirectoryOf(es)[es[j][q].name] == Report(es[j][q].slot)
    {
      EntryInDirectory(es, j, q);
    }
    forall name | name in DirectoryOf(es) ensures Holds(es', name) {
      var a := PlaceOf(es, name);
      assert At(es', a.0, a.1);
    }
    DirectoryIs(es', DirectoryOf(es));
  }

  // ---------------------------------------------------------------------
  // The file
  // ---------------------------------------------------------------------

  predicate AllGood(gs: seq<Group>, per: nat) {
    forall i :: 0 <= i < |gs| ==> Good(gs[i]) && |gs[i].nsl| == per
  }

  predicate AllShaped(gs: seq<Group>) {
    forall i :: 0 <= i < |gs| ==> Shaped(gs[i])
  }

  function ListingOf(gs: seq<Group>): (es: Listing)
    requires AllShaped(gs)
    ensures |es| == |gs|
    ensures forall i :: 0 <= i < |gs| ==> es[i] == Entries(gs[i])
  {
    seq(|gs|, i requires 0 <= i < |gs| => Entries(gs[i]))
  }

  /** Levels present in a file of n groups. */
  function Depth(n: nat): nat {
    if n == 0 then 0 else LevelOf(n - 1) + 1
  }

  lemma DepthOfWholeLevels(d: nat)
    ensures Depth(LevelStart(d)) == d
  {
    if d > 0 {
      assert Pow2(d) == 2 * Pow2(d - 1);
      LevelOfUnique(LevelStart(d) - 1, d - 1);
    }
  }

  /** The file holds whole levels, none of them beyond the last with exact addresses. */
  predicate WholeLevels(n: nat) {
    n == LevelStart(Depth(n)) && Depth(n) <= LAST_SAFE_LEVEL + 1
  }

  /** The whole-file invariant. */
  ghost predicate FileInv(gs: seq<Group>, per: nat, hash: HashFn) {
    && WholeLevels(|gs|)
    && AllGood(gs, per)
    && Placed(ListingOf(gs), hash)
    && Unique(ListingOf(gs))
  }

  ghost function Contents(gs: seq<Group>): Directory
    requires AllShaped(gs)
  {
    DirectoryOf(ListingOf(gs))
  }

  lemma ContentsReported(gs: seq<Group>, name: string)
    requires AllShaped(gs)
    requires name in Contents(gs)
    ensures Reported(Contents(gs)[name])
  {
    var a := PlaceOf(ListingOf(gs), name);
    ReportIsReported(gs[a.0].nsl[a.1]);
  }

  lemma InsertIntoFile(gs: seq<Group>, per: nat, hash: HashFn, i: nat, pos: nat, base: MetaBase)
    requires FileInv(gs, per, hash) && i < |gs| && OnPath(i, hash(base.name))
    requires CanInsert(gs[i], pos, base) && Clear(gs[i].bits, pos, pos + DentrySlots(|base.name|))
    requires base.name !in Contents(gs)
    ensures var gs' := gs[i := Insert(gs[i], pos, base, hash(base.name))];
            && FileInv(gs', per, hash)
            && Contents(gs') == Contents(gs)[base.name := Stored(base, Padded(base.cloudId))]
  {
    hide RunsWhole, BitsOwned, Entries, Unique, OnPath, DirectoryOf, WholeLevels, Stored, Report, Padded;
    var h := hash(base.name);
    SlotsCoverName(|base.name|);
    var e := Entry(base.name, NewSlot(gs[i].nsl[pos], base, h));
    InsertEntry(gs[i], pos, base, h);
    var gs' := gs[i := Insert(gs[i], pos, base, h)];
    var es := ListingOf(gs);
    assert ListingOf(gs') == es[i := es[i][pos := e]];
    PutEntry(es, i, pos, e);
  }

  lemma DeleteFromFile(gs: seq<Group>, per: nat, hash: HashFn, i: nat, p: nat)
    requires FileInv(gs, per, hash) && i < |gs| && p in Entries(gs[i])
    ensures var gs' := gs[i := Delete(gs[i], p)];
            && FileInv(gs', per, hash)
            && Contents(gs') == Contents(gs) - {Entries(gs[i])[p].name}
  {
    hide RunsWhole, BitsOwned, Unique, OnPath, DirectoryOf, WholeLevels;
    DeleteEntry(gs[i], p);
    var gs' := gs[i := Delete(gs[i], p)];
    var es := ListingOf(gs);
    assert ListingOf(gs') == es[i := es[i] - {p}];
    DropEntry(es, i, p);
  }

  lemma ModifyInFile(gs: seq<Group>, per: nat, hash: HashFn, i: nat, p: nat, base: MetaBase)
    requires FileInv(gs, per, hash) && i < |gs| && p in Entries(gs[i]) && Entries(gs[i])[p].name == base.name
    ensures base.name in Contents(gs)
    ensures |Contents(gs)[base.name].cloudId| == RECORD_ID_LEN
    ensures var gs' := gs[i := Modify(gs[i], p, base)];
            && FileInv(gs', per, hash)
            && Contents(gs') == Contents(gs)[base.name :=
                 Stored(base, Overlaid(Contents(gs)[base.name].cloudId, base.cloudId))]
  {
    hide RunsWhole, BitsOwned, Unique, OnPath, DirectoryOf, WholeLevels, Stored, Overlaid;
    var d := gs[i].nsl[p];
    var e := Entry(base.name, FillSlot(d, base, Overlaid(d.recordId, base.cloudId)));
    ModifyEntry(gs[i], p, base);
    var gs' := gs[i := Modify(gs[i], p, base)];
    var es := ListingOf(gs);
    assert ListingOf(gs') == es[i := es[i][p := e]];
    EntryInDirectory(es, i, p);
    PutEntry(es, i, p, e);
  }

  /** Groups appended by growth are empty, so the directory stays the same. */
  lemma GrowFile(gs: seq<Group>, per: nat, hash: HashFn, more: seq<Group>)
    requires FileInv(gs, per, hash) && per <= MAX_PER_GROUP
    requires forall k :: 0 <= k < |more| ==> more[k] == EmptyGroup(per)
    requires WholeLevels(|gs + more|)
    ensures FileInv(gs + more, per, hash)
    ensures Contents(gs + more) == Contents(gs)
  {
    hide RunsWhole, BitsOwned, Unique, OnPath, DirectoryOf, WholeLevels, EmptyGroup;
    assert Entries(EmptyGroup(per)) == map[];
    AppendEmpty(ListingOf(gs), ListingOf(more));
    assert ListingOf(gs + more) == ListingOf(gs) + ListingOf(more);
  }

  /** The first two groups of a file, group k holding one entry. */
  function PairWith(per: nat, hash: HashFn, base: MetaBase, k: nat): seq<Group>
    requires k < 2 && per <= MAX_PER_GROUP && 1 <= |base.name| <= 8 * per && |base.cloudId| <= RECORD_ID_LEN
  {
    [EmptyGroup(per), EmptyGroup(per)][k := Insert(EmptyGroup(per), 0, base, hash(base.name))]
  }

  lemma FreshPair(per: nat, hash: HashFn)
    requires per <= MAX_PER_GROUP
    ensures var gs := [EmptyGroup(per), EmptyGroup(per)];
            AllShaped(gs) && FileInv(gs, per, hash) && Contents(gs) == map[]
  {
    hide EmptyGroup;
    assert Depth(0) == 0;
    assert DirectoryOf([]) == map[];
    GrowFile([], per, hash, [EmptyGroup(per), EmptyGroup(per)]);
    assert [] + [EmptyGroup(per), EmptyGroup(per)] == [EmptyGroup(per), EmptyGroup(per)];
  }

  lemma PairHoldsOne(per: nat, hash: HashFn, base: MetaBase, k: nat)
    requires k < 2 && per <= MAX_PER_GROUP && 1 <= |base.name| <= 8 * per && |base.cloudId| <= RECORD_ID_LEN
    ensures var gs := PairWith(per, hash, base, k);
            && AllShaped(gs) && |gs| == 2 && FileInv(gs, per, hash) && Contents(gs).Keys == {base.name}
            && Entries(gs[1 - k]) == map[] && gs[1 - k] == EmptyGroup(per)
            && Entries(gs[k]).Keys == {0} && Entries(gs[k])[0].name == base.name
  {
    hide FileInv, Contents, Insert, EmptyGroup;
    var gs := [EmptyGroup(per), EmptyGroup(per)];
    var g := gs[k];
    FreshPair(per, hash);
    assert Entries(EmptyGroup(per)) == map[];
    EmptyIsClear(per);
    assert OnPath(k, hash(base.name));
    InsertEntry(g, 0, base, hash(base.name));
    InsertIntoFile(gs, per, hash, k, 0, base);
  }

  lemma EmptyIsClear(per: nat)
    requires per <= MAX_PER_GROUP
    ensures Clear(EmptyGroup(per).bits, 0, per)
  {
  }
}
