/** Creates by several processes on one dentry file. A create holds no lock between its search for the name
    and the writing of the entry. Which interleavings keep every name unique? */
module RacingCreates {
  import opened Layout
  import opened Bitmap
  import opened Dentries
  import opened Groups
  import opened DentryFiles
  import opened MetaFiles

  /** A create under way: what it is to create, and the groups it has looked at without finding the name. */
  datatype Search = Search(base: MetaBase, looked: set<nat>)

  /** The file, and the creates under way by process. */
  datatype World = World(gs: seq<Group>, searches: map<nat, Search>)

  /** Looking at one group, and filling a slot of one group, each happen under that group's lock. */
  datatype Step =
    | Begin(pid: nat, base: MetaBase)
    | Look(pid: nat, i: nat)
    | Grow(pid: nat)
    | Put(pid: nat, i: nat, pos: nat)

  ghost predicate Shows(gs: seq<Group>, i: nat, name: string) {
    i < |gs| && Shaped(gs[i]) && exists p: int :: p in Entries(gs[i]) && Entries(gs[i])[p].name == name
  }

  /** Every group the name may be in has been looked at. */
  ghost predicate Searched(s: Search, h: u32) {
    forall level: nat :: level <= LAST_SAFE_LEVEL ==> HomeBlock(level, h) in s.looked && HomeBlock(level, h) + 1 in s.looked
  }

  /** What a look at group i covers: a bucket whose first block is past the end is not looked at further. */
  function Covered(gs: seq<Group>, i: nat): set<nat> {
    if i >= |gs| && i % 2 == 0 then {i, i + 1} else {i}
  }

  /** When a process may take a step. A create puts its entry only after a search that found nothing, into
      a group on the name's path, where the first fitting run of clear bits is. */
  ghost predicate Enabled(w: World, e: Step, hash: HashFn) {
    match e
    case Begin(pid, base) => pid !in w.searches && Creatable(base)
    case Look(pid, _) => pid in w.searches
    case Grow(pid) => pid in w.searches && Depth(|w.gs|) <= LAST_SAFE_LEVEL
    case Put(pid, i, pos) =>
      && pid in w.searches && Searched(w.searches[pid], hash(w.searches[pid].base.name))
      && i < |w.gs| && OnPath(i, hash(w.searches[pid].base.name))
      && pos < PER_GROUP <= |w.gs[i].bits| && FirstFit(w.gs[i].bits, DentrySlots(|w.searches[pid].base.name|), PER_GROUP, pos)
  }

  /** A look that finds the name ends the create, and so does putting the entry. */
  ghost function Next(w: World, e: Step, hash: HashFn): World {
    match e
    case Begin(pid, base) => w.(searches := w.searches[pid := Search(base, {})])
    case Look(pid, i) =>
      if pid !in w.searches then w
      else if Shows(w.gs, i, w.searches[pid].base.name) then w.(searches := w.searches - {pid})
      else w.(searches := w.searches[pid := w.searches[pid].(looked := w.searches[pid].looked + Covered(w.gs, i))])
    case Grow(_) => w.(gs := WithLevel(w.gs, Depth(|w.gs|)))
    case Put(pid, i, pos) =>
      if pid !in w.searches || i >= |w.gs| || !CanInsert(w.gs[i], pos, w.searches[pid].base) then w
      else
        var base := w.searches[pid].base;
        World(w.gs[i := Insert(w.gs[i], pos, base, hash(base.name))], w.searches - {pid})
  }

  ghost function Exec(w: World, steps: seq<Step>, hash: HashFn): World {
    if steps == [] then w else Next(Exec(w, steps[..|steps| - 1], hash), steps[|steps| - 1], hash)
  }

  ghost predicate Legal(w: World, steps: seq<Step>, hash: HashFn) {
    steps == [] ||
    (Legal(w, steps[..|steps| - 1], hash) && Enabled(Exec(w, steps[..|steps| - 1], hash), steps[|steps| - 1], hash))
  }

  /** The file is laid out as it should be, but for what names it holds; every create is of what fits. */
  ghost predicate Laid(w: World) {
    WholeLevels(|w.gs|) && AllGood(w.gs, PER_GROUP) && forall pid :: pid in w.searches ==> Creatable(w.searches[pid].base)
  }

  ghost predicate Start(w: World, hash: HashFn) {
    FileInv(w.gs, PER_GROUP, hash) && w.searches == map[]
  }

  // ---------------------------------------------------------------------
  // One step
  // ---------------------------------------------------------------------

  lemma PutFits(w: World, e: Step, hash: HashFn)
    requires Laid(w) && e.Put? && Enabled(w, e, hash)
    ensures var base := w.searches[e.pid].base;
            && CanInsert(w.gs[e.i], e.pos, base) && Clear(w.gs[e.i].bits, e.pos, e.pos + DentrySlots(|base.name|))
            && Next(w, e, hash) == World(w.gs[e.i := Insert(w.gs[e.i], e.pos, base, hash(base.name))], w.searches - {e.pid})
  {
    hide RunsWhole, BitsOwned, Insert, FirstFit, WholeLevels, OnPath;
    FirstFitInside(w.gs[e.i], DentrySlots(|w.searches[e.pid].base.name|), e.pos);
  }

  /** A step keeps the layout, and every entry where it is; only a put adds an entry. */
  lemma StepKeeps(w: World, e: Step, hash: HashFn)
    requires Laid(w) && Enabled(w, e, hash)
    ensures Laid(Next(w, e, hash)) && AllShaped(w.gs) && AllShaped(Next(w, e, hash).gs)
    ensures forall i: nat, p: int, name: string :: IsAt(w.gs, i, p, name) ==> IsAt(Next(w, e, hash).gs, i, p, name)
    ensures e.Put? ==> SamePlaces(w.gs, Next(w, e, hash).gs, w.searches[e.pid].base.name)
    ensures !e.Put? ==> forall i: nat, p: int, name: string :: IsAt(Next(w, e, hash).gs, i, p, name) ==> IsAt(w.gs, i, p, name)
  {
    hide Insert, CanInsert, WithLevel, Enabled, SamePlaces, Good, Shaped, WholeLevels;
    GoodIsShaped(w.gs);
    match e
    case Grow(_) =>
      GrowKeepsLaid(w, e, hash);
    case Put(_, _, _) =>
      PutKeepsLaid(w, e, hash);
    case _ =>
      LookKeeps(w, e, hash);
  }

  lemma GoodIsShaped(gs: seq<Group>)
    requires AllGood(gs, PER_GROUP)
    ensures AllShaped(gs)
  {
    hide RunsWhole, BitsOwned;
  }

  lemma LookKeeps(w: World, e: Step, hash: HashFn)
    requires Laid(w) && Enabled(w, e, hash) && (e.Begin? || e.Look?)
    ensures Laid(Next(w, e, hash)) && Next(w, e, hash).gs == w.gs
  {
    hide Good, WholeLevels, Shows, Creatable, Covered;
  }

  lemma GrowKeepsLaid(w: World, e: Step, hash: HashFn)
    requires Laid(w) && Enabled(w, e, hash) && e.Grow? && AllShaped(w.gs)
    ensures Laid(Next(w, e, hash)) && AllShaped(Next(w, e, hash).gs)
    ensures forall i: nat, p: int, name: string :: IsAt(w.gs, i, p, name) <==> IsAt(Next(w, e, hash).gs, i, p, name)
  {
    hide RunsWhole, BitsOwned, EmptyGroup, LevelStart, IsAt, Depth;
    GrowsWhole(|w.gs|);
    forall name: string ensures AllShaped(WithLevel(w.gs, Depth(|w.gs|))) && SamePlaces(w.gs, WithLevel(w.gs, Depth(|w.gs|)), name) {
      GrowthMovesNothing(w.gs, Depth(|w.gs|), name);
    }
    forall i: nat, p: int, name: string ensures IsAt(w.gs, i, p, name) <==> IsAt(Next(w, e, hash).gs, i, p, name) {
      assert SamePlaces(w.gs, WithLevel(w.gs, Depth(|w.gs|)), name + "x");
    }
  }

  lemma GrowsWhole(n: nat)
    requires WholeLevels(n) && Depth(n) <= LAST_SAFE_LEVEL
    ensures WholeLevels(LevelStart(Depth(n) + 1)) && n <= LevelStart(Depth(n) + 1)
  {
    hide LevelOf;
    DepthOfWholeLevels(Depth(n) + 1);
  }

  lemma PutKeepsLaid(w: World, e: Step, hash: HashFn)
    requires Laid(w) && Enabled(w, e, hash) && e.Put? && AllShaped(w.gs)
    ensures Laid(Next(w, e, hash)) && AllShaped(Next(w, e, hash).gs)
    ensures SamePlaces(w.gs, Next(w, e, hash).gs, w.searches[e.pid].base.name)
    ensures forall i: nat, p: int, name: string :: IsAt(w.gs, i, p, name) ==> IsAt(Next(w, e, hash).gs, i, p, name)
    ensures IsAt(Next(w, e, hash).gs, e.i, e.pos, w.searches[e.pid].base.name) && !IsAt(w.gs, e.i, e.pos, w.searches[e.pid].base.name)
  {
    hide RunsWhole, BitsOwned, Insert, CanInsert, WholeLevels, Entries, NewSlot, Next, Creatable, FirstFit, OnPath, Searched;
    var base := w.searches[e.pid].base;
    PutFits(w, e, hash);
    InsertMovesNothing(w.gs, e.i, e.pos, base, hash(base.name));
    InsertEntry(w.gs[e.i], e.pos, base, hash(base.name));
  }

  // ---------------------------------------------------------------------
  // Runs
  // ---------------------------------------------------------------------

  ghost function Before(w: World, steps: seq<Step>, k: nat, hash: HashFn): World
    requires k <= |steps|
  {
    Exec(w, steps[..k], hash)
  }

  lemma BeforeShorter(w: World, steps: seq<Step>, k: nat, hash: HashFn)
    requires k < |steps|
    ensures Before(w, steps[..|steps| - 1], k, hash) == Before(w, steps, k, hash)
  {
    assert steps[..|steps| - 1][..k] == steps[..k];
  }

  lemma {:induction false} LegalBefore(w: World, steps: seq<Step>, k: nat, hash: HashFn)
    requires Legal(w, steps, hash) && k <= |steps|
    ensures Legal(w, steps[..k], hash)
    ensures k < |steps| ==> Enabled(Before(w, steps, k, hash), steps[k], hash)
                            && Before(w, steps, k + 1, hash) == Next(Before(w, steps, k, hash), steps[k], hash)
    decreases |steps|
  {
    if k == |steps| {
      assert steps[..k] == steps;
    } else {
      assert steps[..k + 1][..k] == steps[..k];
      if k == |steps| - 1 {
        assert steps[..k + 1] == steps;
      } else {
        LegalBefore(w, steps[..|steps| - 1], k, hash);
        assert steps[..|steps| - 1][..k] == steps[..k];
      }
    }
  }

  lemma {:induction false} LaidRun(w: World, steps: seq<Step>, hash: HashFn)
    requires Laid(w) && Legal(w, steps, hash)
    ensures Laid(Exec(w, steps, hash)) && AllShaped(Exec(w, steps, hash).gs)
  {
    hide Laid, Enabled, Next;
    if steps == [] {
      LaidIsShaped(w);
    } else {
      LaidRun(w, steps[..|steps| - 1], hash);
      StepKeeps(Exec(w, steps[..|steps| - 1], hash), steps[|steps| - 1], hash);
    }
  }

  lemma LaidIsShaped(w: World)
    requires Laid(w)
    ensures AllShaped(w.gs)
  {
    GoodIsShaped(w.gs);
  }

  /** Entries stay where they are to the end of the run. */
  lemma {:induction false} Persists(w: World, steps: seq<Step>, k: nat, hash: HashFn, i: nat, p: int, name: string)
    requires Laid(w) && Legal(w, steps, hash) && k <= |steps|
    requires AllShaped(Before(w, steps, k, hash).gs) && IsAt(Before(w, steps, k, hash).gs, i, p, name)
    ensures AllShaped(Exec(w, steps, hash).gs) && IsAt(Exec(w, steps, hash).gs, i, p, name)
    decreases |steps|
  {
    hide Laid, Enabled, Next, IsAt, AllShaped;
    LaidRun(w, steps, hash);
    if k == |steps| {
      assert steps[..k] == steps;
    } else {
      var init := steps[..|steps| - 1];
      BeforeShorter(w, steps, k, hash);
      LaidRun(w, init, hash);
      Persists(w, init, k, hash, i, p, name);
      StepKeeps(Exec(w, init, hash), steps[|steps| - 1], hash);
    }
  }

  // ---------------------------------------------------------------------
  // The race
  // ---------------------------------------------------------------------

  /** Step k puts an entry of the name into group i while process q, which is creating the same name, has
      already looked at that group. */
  ghost predicate Slips(w: World, steps: seq<Step>, hash: HashFn, k: nat, q: nat, i: nat, name: string) {
    && k < |steps| && steps[k].Put? && steps[k].i == i
    && var s := Before(w, steps, k, hash).searches;
       && steps[k].pid in s && s[steps[k].pid].base.name == name
       && q in s && q != steps[k].pid && s[q].base.name == name && i in s[q].looked
  }

  /** Two creates of one name race: the first puts its entry behind the back of the second's search, and
      the second goes on to put its own. */
  ghost predicate Race(w: World, steps: seq<Step>, hash: HashFn, a: nat, b: nat) {
    && a < b < |steps| && steps[a].Put? && steps[b].Put?
    && steps[b].pid in Before(w, steps, b, hash).searches
    && Slips(w, steps, hash, a, steps[b].pid, steps[a].i, Before(w, steps, b, hash).searches[steps[b].pid].base.name)
  }

  ghost predicate RaceFree(w: World, steps: seq<Step>, hash: HashFn) {
    forall a: nat, b: nat :: !Race(w, steps, hash, a, b)
  }

  lemma SlipsStay(w: World, steps: seq<Step>, hash: HashFn, k: nat, q: nat, i: nat, name: string)
    requires steps != [] && Slips(w, steps[..|steps| - 1], hash, k, q, i, name)
    ensures Slips(w, steps, hash, k, q, i, name)
  {
    BeforeShorter(w, steps, k, hash);
  }

  lemma RaceStays(w: World, steps: seq<Step>, hash: HashFn, a: nat, b: nat)
    requires steps != [] && Race(w, steps[..|steps| - 1], hash, a, b)
    ensures Race(w, steps, hash, a, b)
  {
    hide Before, Slips;
    BeforeShorter(w, steps, b, hash);
    SlipsStay(w, steps, hash, a, steps[b].pid, steps[a].i, Before(w, steps, b, hash).searches[steps[b].pid].base.name);
  }

  lemma RaceFreeBefore(w: World, steps: seq<Step>, hash: HashFn)
    requires steps != [] && RaceFree(w, steps, hash)
    ensures RaceFree(w, steps[..|steps| - 1], hash)
  {
    hide Race;
    var init := steps[..|steps| - 1];
    if a: nat, b: nat :| Race(w, init, hash, a, b) {
      RaceStays(w, steps, hash, a, b);
    }
  }

  /** What a search has looked at shows the name only where it slipped in since. */
  ghost predicate Informed(w: World, steps: seq<Step>, hash: HashFn) {
    var now := Exec(w, steps, hash);
    forall q: nat, i: nat :: q in now.searches && i in now.searches[q].looked && Shows(now.gs, i, now.searches[q].base.name) ==>
      exists k: nat :: Slips(w, steps, hash, k, q, i, now.searches[q].base.name)
  }

  lemma ShowsIsAt(gs: seq<Group>, i: nat, name: string)
    requires AllShaped(gs)
    ensures Shows(gs, i, name) <==> exists p: int :: IsAt(gs, i, p, name)
  {
    hide Entries;
    if p: int :| IsAt(gs, i, p, name) {
      assert Entries(gs[i])[p].name == name;
    }
    if Shows(gs, i, name) {
      var p: int :| p in Entries(gs[i]) && Entries(gs[i])[p].name == name;
      assert IsAt(gs, i, p, name);
    }
  }

  /** Only a put makes a group show a name: the put's own group and name. */
  lemma NewlyShown(w: World, e: Step, hash: HashFn, i: nat, name: string)
    requires Laid(w) && Enabled(w, e, hash) && !Shows(w.gs, i, name) && Shows(Next(w, e, hash).gs, i, name)
    ensures e.Put? && e.i == i && e.pid in w.searches && w.searches[e.pid].base.name == name
  {
    hide Laid, Next, IsAt, Shows, Searched, OnPath, FirstFit;
    StepKeeps(w, e, hash);
    ShowsIsAt(w.gs, i, name);
    ShowsIsAt(Next(w, e, hash).gs, i, name);
    var p: int :| IsAt(Next(w, e, hash).gs, i, p, name);
    if e.Put? && e.i != i {
      SameGroup(w, e, hash, i);
    }
  }

  lemma SameGroup(w: World, e: Step, hash: HashFn, i: nat)
    requires Laid(w) && Enabled(w, e, hash) && e.Put? && e.i != i
    ensures forall name :: Shows(Next(w, e, hash).gs, i, name) ==> Shows(w.gs, i, name)
  {
    hide Enabled, Laid, Insert, CanInsert, Entries, Shaped;
    PutFits(w, e, hash);
  }

  lemma LookMisses(w: World, e: Step, hash: HashFn, i: nat)
    requires e.Look? && e.pid in w.searches && e.pid in Next(w, e, hash).searches
    requires i in Next(w, e, hash).searches[e.pid].looked && i !in w.searches[e.pid].looked
    ensures !Shows(w.gs, i, w.searches[e.pid].base.name)
  {
    hide Entries;
  }

  /** Who is searching for what after a step, and what it had looked at before. */
  lemma SearchesAfter(w: World, e: Step, hash: HashFn, q: nat)
    requires Laid(w) && Enabled(w, e, hash) && q in Next(w, e, hash).searches
    ensures e.Begin? && e.pid == q ==> Next(w, e, hash).searches[q].looked == {}
    ensures !(e.Begin? && e.pid == q) ==>
              && q in w.searches && Next(w, e, hash).searches[q].base == w.searches[q].base
              && w.searches[q].looked <= Next(w, e, hash).searches[q].looked
              && (!(e.Look? && e.pid == q) ==> Next(w, e, hash).searches[q].looked == w.searches[q].looked)
    ensures e.Put? ==> q != e.pid
  {
    hide Shows, Covered, Searched, OnPath, WholeLevels, Good, Insert, CanInsert, FirstFit;
    if e.Put? {
      PutFits(w, e, hash);
    }
  }

  lemma {:induction false} InformedRun(w: World, steps: seq<Step>, hash: HashFn)
    requires Laid(w) && w.searches == map[] && Legal(w, steps, hash)
    ensures Informed(w, steps, hash)
  {
    hide Laid, Enabled, Next, Shows, Slips, Before;
    if steps != [] {
      var init, e := steps[..|steps| - 1], steps[|steps| - 1];
      var was, now := Exec(w, init, hash), Exec(w, steps, hash);
      LaidRun(w, init, hash);
      InformedRun(w, init, hash);
      forall q: nat, i: nat | q in now.searches && i in now.searches[q].looked && Shows(now.gs, i, now.searches[q].base.name)
        ensures exists k: nat :: Slips(w, steps, hash, k, q, i, now.searches[q].base.name)
      {
        SlippedIn(w, steps, hash, q, i);
      }
    }
  }

  lemma SlippedIn(w: World, steps: seq<Step>, hash: HashFn, q: nat, i: nat)
    requires steps != [] && Legal(w, steps, hash) && Laid(Exec(w, steps[..|steps| - 1], hash))
    requires Informed(w, steps[..|steps| - 1], hash)
    requires var now := Exec(w, steps, hash);
             q in now.searches && i in now.searches[q].looked && Shows(now.gs, i, now.searches[q].base.name)
    ensures exists k: nat :: Slips(w, steps, hash, k, q, i, Exec(w, steps, hash).searches[q].base.name)
  {
    hide Laid, Enabled, Next, Shows, Slips;
    var init, e := steps[..|steps| - 1], steps[|steps| - 1];
    var was, now := Exec(w, init, hash), Exec(w, steps, hash);
    SearchesAfter(was, e, hash, q);
    var name := now.searches[q].base.name;
    if Shows(was.gs, i, name) {
      if i !in was.searches[q].looked {
        LookMisses(was, e, hash, i);
      }
      var k: nat :| Slips(w, init, hash, k, q, i, name);
      SlipsStay(w, steps, hash, k, q, i, name);
    } else {
      NewlyShown(was, e, hash, i, name);
      LastSlips(w, steps, hash, q, i, name);
    }
  }

  lemma LastSlips(w: World, steps: seq<Step>, hash: HashFn, q: nat, i: nat, name: string)
    requires steps != [] && steps[|steps| - 1].Put? && steps[|steps| - 1].i == i
    requires var s := Exec(w, steps[..|steps| - 1], hash).searches;
             && steps[|steps| - 1].pid in s && s[steps[|steps| - 1].pid].base.name == name
             && q in s && q != steps[|steps| - 1].pid && s[q].base.name == name && i in s[q].looked
    ensures Slips(w, steps, hash, |steps| - 1, q, i, name)
  {
  }

  // ---------------------------------------------------------------------
  // Unique exactly without a race
  // ---------------------------------------------------------------------

  lemma InvIsLaid(w: World, hash: HashFn)
    requires Start(w, hash)
    ensures Laid(w) && AllShaped(w.gs)
  {
    hide Unique, Placed, WholeLevels, Good;
    GoodIsShaped(w.gs);
  }

  lemma GrowKeepsInv(gs: seq<Group>, hash: HashFn)
    requires FileInv(gs, PER_GROUP, hash) && Depth(|gs|) <= LAST_SAFE_LEVEL
    ensures FileInv(WithLevel(gs, Depth(|gs|)), PER_GROUP, hash)
  {
    hide AllGood, Unique, Placed, EmptyGroup, Depth, LevelStart;
    GrowsWhole(|gs|);
    var level := Depth(|gs|);
    if WithLevel(gs, level) != gs {
      var more := seq(LevelStart(level + 1) - |gs|, _ => EmptyGroup(PER_GROUP));
      assert WithLevel(gs, level) == gs + more;
      GrowFile(gs, PER_GROUP, hash, more);
    }
  }

  /** A name in the file was looked for in its place. */
  lemma LookedThere(gs: seq<Group>, hash: HashFn, s: Search)
    requires FileInv(gs, PER_GROUP, hash) && AllShaped(gs) && Searched(s, hash(s.base.name)) && s.base.name in Contents(gs)
    ensures exists i: nat :: i in s.looked && Shows(gs, i, s.base.name)
  {
    hide AllGood, Unique, Contents, HomeBlock, LevelOf, WholeLevels, Depth, Entries;
    var name := s.base.name;
    InDirectoryIffAt(gs, name);
    var i: nat, p: int :| IsAt(gs, i, p, name);
    ShowsIsAt(gs, i, name);
    assert At(ListingOf(gs), i, p);
    LevelInFile(|gs|, i);
    assert LevelOf(i) <= LAST_SAFE_LEVEL by {
      SafeDepth(|gs|);
    }
    assert i == HomeBlock(LevelOf(i), hash(name)) || i == HomeBlock(LevelOf(i), hash(name)) + 1;
  }

  lemma SafeDepth(n: nat)
    requires WholeLevels(n)
    ensures Depth(n) <= LAST_SAFE_LEVEL + 1
  {
  }

  /** The last put of a race-free run is of a new name. */
  lemma PutIsNew(w: World, steps: seq<Step>, hash: HashFn)
    requires steps != [] && steps[|steps| - 1].Put? && Laid(w) && w.searches == map[]
    requires Legal(w, steps, hash) && RaceFree(w, steps, hash)
    requires var was := Exec(w, steps[..|steps| - 1], hash); FileInv(was.gs, PER_GROUP, hash) && AllShaped(was.gs)
    ensures var was := Exec(w, steps[..|steps| - 1], hash); was.searches[steps[|steps| - 1].pid].base.name !in Contents(was.gs)
  {
    hide Laid, FileInv, Next, Shows, Slips, Contents, FirstFit, OnPath, Searched;
    var init, e := steps[..|steps| - 1], steps[|steps| - 1];
    var was := Exec(w, init, hash);
    var s := was.searches[e.pid];
    InformedRun(w, init, hash);
    if s.base.name in Contents(was.gs) {
      LookedThere(was.gs, hash, s);
      var i: nat :| i in s.looked && Shows(was.gs, i, s.base.name);
      var k: nat :| Slips(w, init, hash, k, e.pid, i, s.base.name);
      SlipsRace(w, steps, hash, k, i);
      assert false;
    }
  }

  lemma SlipsRace(w: World, steps: seq<Step>, hash: HashFn, k: nat, i: nat)
    requires steps != [] && steps[|steps| - 1].Put? && steps[|steps| - 1].pid in Exec(w, steps[..|steps| - 1], hash).searches
    requires Slips(w, steps[..|steps| - 1], hash, k, steps[|steps| - 1].pid, i,
                   Exec(w, steps[..|steps| - 1], hash).searches[steps[|steps| - 1].pid].base.name)
    ensures Race(w, steps, hash, k, |steps| - 1)
  {
    SlipsStay(w, steps, hash, k, steps[|steps| - 1].pid, i,
              Exec(w, steps[..|steps| - 1], hash).searches[steps[|steps| - 1].pid].base.name);
  }

  /** Without a race the whole invariant is kept. */
  lemma {:induction false} RaceFreeKeeps(w: World, steps: seq<Step>, hash: HashFn)
    requires Start(w, hash) && Legal(w, steps, hash) && RaceFree(w, steps, hash)
    ensures FileInv(Exec(w, steps, hash).gs, PER_GROUP, hash)
  {
    hide FileInv, RaceFree, Laid, Shows, Searched, FirstFit, WithLevel, Insert, CanInsert, AllShaped, Contents, Covered, Creatable;
    if steps != [] {
      var init, e := steps[..|steps| - 1], steps[|steps| - 1];
      InvIsLaid(w, hash);
      RaceFreeBefore(w, steps, hash);
      RaceFreeKeeps(w, init, hash);
      LaidRun(w, init, hash);
      var was := Exec(w, init, hash);
      if e.Put? {
        PutIsNew(w, steps, hash);
        PutFits(was, e, hash);
        CreateEffect(was.gs, hash, e.i, e.pos, was.searches[e.pid].base);
      } else if e.Grow? {
        GrowKeepsInv(was.gs, hash);
      }
    }
  }

  lemma TwoPlaces(gs: seq<Group>, name: string, i: nat, p: int, j: nat, q: int)
    requires AllShaped(gs) && IsAt(gs, i, p, name) && IsAt(gs, j, q, name) && (i, p) != (j, q)
    ensures !Unique(ListingOf(gs))
  {
    hide Entries;
    assert At(ListingOf(gs), i, p) && At(ListingOf(gs), j, q);
  }

  /** After a race the name is in two places. */
  lemma RaceBreaks(w: World, steps: seq<Step>, hash: HashFn, a: nat, b: nat)
    requires Laid(w) && Legal(w, steps, hash) && Race(w, steps, hash, a, b)
    ensures AllShaped(Exec(w, steps, hash).gs) && !Unique(ListingOf(Exec(w, steps, hash).gs))
  {
    hide Laid, Enabled, Next, Exec, Legal, IsAt, Unique, SamePlaces, AllShaped;
    var name := Before(w, steps, b, hash).searches[steps[b].pid].base.name;
    PutThenThere(w, steps, hash, a);
    PutThenThere(w, steps, hash, b);
    LegalBefore(w, steps, b, hash);
    assert steps[..b][..a + 1] == steps[..a + 1];
    Persists(w, steps[..b], a + 1, hash, steps[a].i, steps[a].pos, name);
    Persists(w, steps, a + 1, hash, steps[a].i, steps[a].pos, name);
    Persists(w, steps, b + 1, hash, steps[b].i, steps[b].pos, name);
    TwoPlaces(Exec(w, steps, hash).gs, name, steps[a].i, steps[a].pos, steps[b].i, steps[b].pos);
  }

  lemma PutThenThere(w: World, steps: seq<Step>, hash: HashFn, k: nat)
    requires Laid(w) && Legal(w, steps, hash) && k < |steps| && steps[k].Put?
    ensures var was, now := Before(w, steps, k, hash), Before(w, steps, k + 1, hash);
            && steps[k].pid in was.searches && AllShaped(was.gs) && AllShaped(now.gs)
            && IsAt(now.gs, steps[k].i, steps[k].pos, was.searches[steps[k].pid].base.name)
            && !IsAt(was.gs, steps[k].i, steps[k].pos, was.searches[steps[k].pid].base.name)
  {
    hide Laid, Next, Exec, Legal, IsAt, Searched, OnPath, FirstFit, AllShaped;
    LegalBefore(w, steps, k, hash);
    LaidRun(w, steps[..k], hash);
    PutKeepsLaid(Before(w, steps, k, hash), steps[k], hash);
  }

  /** Creates on one file keep its names unique if and only if no two of one name race. */
  lemma UniqueIffRaceFree(w: World, steps: seq<Step>, hash: HashFn)
    requires Start(w, hash) && Legal(w, steps, hash)
    ensures AllShaped(Exec(w, steps, hash).gs)
    ensures Unique(ListingOf(Exec(w, steps, hash).gs)) <==> RaceFree(w, steps, hash)
  {
    hide Laid, Exec, Legal, Race, AllShaped, Placed, WholeLevels, AllGood, Unique;
    InvIsLaid(w, hash);
    LaidRun(w, steps, hash);
    if RaceFree(w, steps, hash) {
      RaceFreeKeeps(w, steps, hash);
    } else {
      var a: nat, b: nat :| Race(w, steps, hash, a, b);
      RaceBreaks(w, steps, hash, a, b);
    }
  }

  // ---------------------------------------------------------------------
  // Two creates that both succeed
  // ---------------------------------------------------------------------

  lemma {:induction false} ExecAppend(w: World, a: seq<Step>, b: seq<Step>, hash: HashFn)
    ensures Exec(w, a + b, hash) == Exec(Exec(w, a, hash), b, hash)
    ensures Legal(w, a + b, hash) <==> Legal(w, a, hash) && Legal(Exec(w, a, hash), b, hash)
  {
    hide Enabled, Next;
    if b == [] {
      assert a + b == a;
    } else {
      ExecAppend(w, a, b[..|b| - 1], hash);
      assert (a + b)[..|a + b| - 1] == a + b[..|b| - 1];
    }
  }

  lemma ExecOne(w: World, e: Step, hash: HashFn)
    ensures Exec(w, [e], hash) == Next(w, e, hash)
    ensures Legal(w, [e], hash) <==> Enabled(w, e, hash)
  {
    assert [e][..0] == [];
  }

  /** A search of the first n levels of a file of one level. */
  function Looks(pid: nat, h: u32, n: nat): seq<Step> {
    if n == 0 then []
    else if n == 1 then [Look(pid, 0)] + [Look(pid, 1)]
    else Looks(pid, h, n - 1) + [Look(pid, HomeBlock(n - 1, h))]
  }

  function Blocks(h: u32, n: nat): set<nat> {
    if n == 0 then {} else Blocks(h, n - 1) + {HomeBlock(n - 1, h), HomeBlock(n - 1, h) + 1}
  }

  lemma BlocksCover(h: u32, n: nat, level: nat)
    requires level < n
    ensures HomeBlock(level, h) in Blocks(h, n) && HomeBlock(level, h) + 1 in Blocks(h, n)
  {
    hide HomeBlock;
  }

  /** Process pid, searching for a name the two groups do not show. */
  ghost predicate Clueless(w: World, pid: nat) {
    |w.gs| == 2 && pid in w.searches && forall i: nat :: !Shows(w.gs, i, w.searches[pid].base.name)
  }

  function HavingLooked(w: World, pid: nat, looked: set<nat>): World
    requires pid in w.searches
  {
    w.(searches := w.searches[pid := w.searches[pid].(looked := w.searches[pid].looked + looked)])
  }

  lemma LookOn(w: World, pid: nat, i: nat, hash: HashFn)
    requires Clueless(w, pid)
    ensures Enabled(w, Look(pid, i), hash) && Next(w, Look(pid, i), hash) == HavingLooked(w, pid, Covered(w.gs, i))
  {
    hide Shows, Covered;
  }

  lemma FurtherLook(w: World, pid: nat, a: set<nat>, b: set<nat>)
    requires Clueless(w, pid)
    ensures Clueless(HavingLooked(w, pid, a), pid)
    ensures HavingLooked(HavingLooked(w, pid, a), pid, b) == HavingLooked(w, pid, a + b)
  {
    hide Shows;
    assert w.searches[pid].looked + a + b == w.searches[pid].looked + (a + b);
  }

  lemma OneMoreLook(w: World, steps: seq<Step>, pid: nat, looked: set<nat>, i: nat, hash: HashFn)
    requires Clueless(w, pid) && Legal(w, steps, hash) && Exec(w, steps, hash) == HavingLooked(w, pid, looked)
    ensures Legal(w, steps + [Look(pid, i)], hash)
    ensures Exec(w, steps + [Look(pid, i)], hash) == HavingLooked(w, pid, looked + Covered(w.gs, i))
  {
    hide Enabled, Next, Exec, Legal, Shows, Covered;
    var now := Exec(w, steps, hash);
    FurtherLook(w, pid, looked, Covered(w.gs, i));
    LookOn(now, pid, i, hash);
    ExecOne(now, Look(pid, i), hash);
    ExecAppend(w, steps, [Look(pid, i)], hash);
  }

  lemma {:induction false} LooksRun(w: World, pid: nat, h: u32, n: nat, hash: HashFn)
    requires Clueless(w, pid)
    ensures Legal(w, Looks(pid, h, n), hash) && Exec(w, Looks(pid, h, n), hash) == HavingLooked(w, pid, Blocks(h, n))
  {
    hide Enabled, Next, Shows, HomeBlock;
    if n == 0 {
      assert w.searches[pid].looked + {} == w.searches[pid].looked;
    } else {
      LooksRun(w, pid, h, n - 1, hash);
      var i, before := HomeBlock(n - 1, h), Looks(pid, h, n - 1);
      FarBlock(h, n - 1);
      OneMoreLook(w, before, pid, Blocks(h, n - 1), i, hash);
      if n == 1 {
        assert before + [Look(pid, 0)] == [Look(pid, 0)] && Blocks(h, 0) + Covered(w.gs, 0) == {0};
        OneMoreLook(w, [Look(pid, 0)], pid, {0}, 1, hash);
        assert {0} + Covered(w.gs, 1) == Blocks(h, 1);
      }
    }
  }

  lemma FarBlock(h: u32, level: nat)
    ensures HomeBlock(level, h) % 2 == 0 && (level == 0 ==> HomeBlock(level, h) == 0) && (level > 0 ==> HomeBlock(level, h) >= 2)
  {
    HomeBlockEven(level, h);
    if level > 0 {
      Pow2Monotone(0, level);
    }
  }

  /** Both processes begin, both search the whole path, and then both put their entry. */
  function BothPut(base: MetaBase, hash: HashFn): seq<Step> {
    var h, slots := hash(base.name), DentrySlots(|base.name|);
    [Begin(0, base)] + [Begin(1, base)] + Looks(0, h, LAST_SAFE_LEVEL + 1) + Looks(1, h, LAST_SAFE_LEVEL + 1)
    + [Put(0, 0, 0)] + [Put(1, 0, slots)]
  }

  /** On a file of one empty bucket both creates of a name of up to 208 bytes succeed, and the name is in the
      file twice. */
  lemma BothCreatesSucceed(base: MetaBase, hash: HashFn)
    requires Creatable(base) && |base.name| <= 208
    ensures var w := World([EmptyGroup(PER_GROUP), EmptyGroup(PER_GROUP)], map[]);
            && Start(w, hash) && Legal(w, BothPut(base, hash), hash)
            && AllShaped(Exec(w, BothPut(base, hash), hash).gs) && !Unique(ListingOf(Exec(w, BothPut(base, hash), hash).gs))
            && !RaceFree(w, BothPut(base, hash), hash)
  {
    hide FileInv, EmptyGroup, Looks, Exec, Legal, Unique, RaceFree, AllShaped, Insert, Contents;
    var w0 := World([EmptyGroup(PER_GROUP), EmptyGroup(PER_GROUP)], map[]);
    var h, slots, n := hash(base.name), DentrySlots(|base.name|), LAST_SAFE_LEVEL + 1;
    FreshPair(PER_GROUP, hash);
    PairHoldsOne(PER_GROUP, hash, base, 0);
    var begun, all := [Begin(0, base)] + [Begin(1, base)], Blocks(h, n);
    var w1 := Exec(w0, begun, hash);
    BothBegin(w0, base, hash);
    SearchEmpty(w1, 0, base, hash);
    var w2 := HavingLooked(w1, 0, all);
    SearchEmpty(w2, 1, base, hash);
    var w3 := HavingLooked(w2, 1, all);
    ExecAppend(w0, begun, Looks(0, h, n), hash);
    ExecAppend(w0, begun + Looks(0, h, n), Looks(1, h, n), hash);
    var searched := begun + Looks(0, h, n) + Looks(1, h, n);
    assert Exec(w0, searched, hash) == w3 && Legal(w0, searched, hash);
    TwoPuts(w3, base, hash);
    var w4 := Next(w3, Put(0, 0, 0), hash);
    ExecOne(w3, Put(0, 0, 0), hash);
    ExecOne(w4, Put(1, 0, slots), hash);
    ExecAppend(w0, searched, [Put(0, 0, 0)], hash);
    ExecAppend(w0, searched + [Put(0, 0, 0)], [Put(1, 0, slots)], hash);
    UniqueIffRaceFree(w0, BothPut(base, hash), hash);
  }

  lemma BothBegin(w: World, base: MetaBase, hash: HashFn)
    requires w.searches == map[] && Creatable(base)
    ensures var steps := [Begin(0, base)] + [Begin(1, base)];
            && Legal(w, steps, hash)
            && Exec(w, steps, hash) == World(w.gs, map[0 := Search(base, {}), 1 := Search(base, {})])
  {
    ExecOne(w, Begin(0, base), hash);
    ExecOne(Next(w, Begin(0, base), hash), Begin(1, base), hash);
    ExecAppend(w, [Begin(0, base)], [Begin(1, base)], hash);
  }

  lemma SearchEmpty(w: World, pid: nat, base: MetaBase, hash: HashFn)
    requires w.gs == [EmptyGroup(PER_GROUP), EmptyGroup(PER_GROUP)] && pid in w.searches && w.searches[pid].base == base
    ensures var h, n := hash(base.name), LAST_SAFE_LEVEL + 1;
            Legal(w, Looks(pid, h, n), hash) && Exec(w, Looks(pid, h, n), hash) == HavingLooked(w, pid, Blocks(h, n))
  {
    hide Legal, Exec, Looks, Blocks, HavingLooked;
    assert Entries(EmptyGroup(PER_GROUP)) == map[];
    LooksRun(w, pid, hash(base.name), LAST_SAFE_LEVEL + 1, hash);
  }

  lemma EverythingLooked(s: Search, h: u32)
    requires Blocks(h, LAST_SAFE_LEVEL + 1) <= s.looked
    ensures Searched(s, h)
  {
    hide HomeBlock, Blocks;
    forall level: nat | level <= LAST_SAFE_LEVEL ensures HomeBlock(level, h) in s.looked && HomeBlock(level, h) + 1 in s.looked {
      BlocksCover(h, LAST_SAFE_LEVEL + 1, level);
    }
  }

  /** An empty group has its first fit at 0, and one with an entry there has it behind that entry. */
  lemma FirstFits(base: MetaBase, h: u32)
    requires Creatable(base) && |base.name| <= 208
    ensures var g, slots := EmptyGroup(PER_GROUP), DentrySlots(|base.name|);
            && 1 <= slots <= 26 && FirstFit(g.bits, slots, PER_GROUP, 0) && CanInsert(g, 0, base)
            && CanInsert(Insert(g, 0, base, h), slots, base)
            && FirstFit(Insert(g, 0, base, h).bits, slots, PER_GROUP, slots)
            && Clear(Insert(g, 0, base, h).bits, slots, slots + slots)
  {
    hide NameOver, NewSlot;
    var g, slots := EmptyGroup(PER_GROUP), DentrySlots(|base.name|);
    var bits := Insert(g, 0, base, h).bits;
    assert |bits| == 56 && forall j :: 0 <= j < 56 ==> bits[j] == (j < slots);
    forall p: nat | p < slots ensures !Fits(bits, slots, PER_GROUP, p) {
      assert bits[p];
    }
  }

  /** Both entries go into the first group, one behind the other. */
  lemma TwoPuts(w: World, base: MetaBase, hash: HashFn)
    requires w.gs == [EmptyGroup(PER_GROUP), EmptyGroup(PER_GROUP)] && Creatable(base) && |base.name| <= 208
    requires 0 in w.searches && 1 in w.searches && w.searches[0].base == w.searches[1].base == base
    requires Blocks(hash(base.name), LAST_SAFE_LEVEL + 1) <= w.searches[0].looked
    requires Blocks(hash(base.name), LAST_SAFE_LEVEL + 1) <= w.searches[1].looked
    ensures Enabled(w, Put(0, 0, 0), hash)
    ensures Enabled(Next(w, Put(0, 0, 0), hash), Put(1, 0, DentrySlots(|base.name|)), hash)
    ensures var gs := Next(Next(w, Put(0, 0, 0), hash), Put(1, 0, DentrySlots(|base.name|)), hash).gs;
            AllShaped(gs) && !Unique(ListingOf(gs))
  {
    hide EmptyGroup, Insert, FirstFit, CanInsert, Clear, Blocks, Searched, FileInv, Contents, AllShaped, Unique, SamePlaces, OnPath;
    var h, slots := hash(base.name), DentrySlots(|base.name|);
    EverythingLooked(w.searches[0], h);
    EverythingLooked(w.searches[1], h);
    FirstFits(base, h);
    FirstOnPath(h);
    PairHoldsOne(PER_GROUP, hash, base, 0);
    var pair := PairWith(PER_GROUP, hash, base, 0);
    assert Next(w, Put(0, 0, 0), hash) == World(pair, w.searches - {0});
    CreateEffect(pair, hash, 0, slots, base);
  }

  lemma FirstOnPath(h: u32)
    ensures OnPath(0, h)
  {
  }
}
