/** Fresh names: "name(k).ext" with the least k not yet taken. */
module NewNames {
  import opened Common
  import opened Dentries
  import opened Groups
  import opened DentryFiles
  import opened ChildLists
  import opened LockTraces
  import opened MetaFiles
  import opened Decimal

  /** Position of the last dot, or the length if there is none. */
  function LastDot(s: string): (r: nat)
    ensures r <= |s|
    ensures r < |s| ==> s[r] == '.' && forall j :: r < j < |s| ==> s[j] != '.'
    ensures r == |s| ==> '.' !in s
  {
    DotFrom(s, |s|)
  }

  function DotFrom(s: string, n: nat): (r: nat)
    requires n <= |s| && forall j :: n <= j < |s| ==> s[j] != '.'
    ensures r <= |s|
    ensures r < |s| ==> s[r] == '.' && forall j :: r < j < |s| ==> s[j] != '.'
    ensures r == |s| ==> '.' !in s
  {
    if n == 0 then |s| else if s[n - 1] == '.' then n - 1 else DotFrom(s, n - 1)
  }

  /** The k-th name tried. */
  function Candidate(oldName: string, k: nat): string {
    var dot := LastDot(oldName);
    oldName[..dot] + "(" + ToString(k) + ")" + oldName[dot..]
  }

  /** The k-th candidate is the name with k in parentheses put in front of its extension, which starts at the last
      dot; a name without a dot has none. */
  lemma CandidateSays(oldName: string, k: nat) returns (stem: string, number: string, ext: string)
    ensures oldName == stem + ext && Candidate(oldName, k) == stem + "(" + number + ")" + ext
    ensures AllDigits(number) && Value(number) == k
    ensures if '.' in oldName then ext != "" && ext[0] == '.' && '.' !in ext[1..] else ext == ""
  {
    hide Digits, Value;
    var dot := LastDot(oldName);
    stem, number, ext := oldName[..dot], ToString(k), oldName[dot..];
    DigitsReadBack(k);
  }

  lemma CandidatesDiffer(oldName: string, j: nat, k: nat)
    requires Candidate(oldName, j) == Candidate(oldName, k)
    ensures j == k
  {
    hide ToString, LastDot;
    var dot := LastDot(oldName);
    var stem, ext := oldName[..dot], oldName[dot..];
    var a, b := Candidate(oldName, j), Candidate(oldName, k);
    assert a[|stem| + 1..|a| - |ext| - 1] == ToString(j);
    assert b[|stem| + 1..|b| - |ext| - 1] == ToString(k);
    ToStringInjective(j, k);
  }

  ghost function Tried(oldName: string, k: nat): set<string> {
    set j | 1 <= j < k :: Candidate(oldName, j)
  }

  /** The first k - 1 candidates are k - 1 different names. */
  lemma {:induction false} TriedCount(oldName: string, k: nat)
    requires k >= 1
    ensures |Tried(oldName, k)| == k - 1
  {
    hide Candidate;
    if k == 1 {
      assert Tried(oldName, k) == {};
    } else {
      TriedCount(oldName, k - 1);
      assert Candidate(oldName, k - 1) !in Tried(oldName, k - 1) by {
        if Candidate(oldName, k - 1) in Tried(oldName, k - 1) {
          var j :| 1 <= j < k - 1 && Candidate(oldName, j) == Candidate(oldName, k - 1);
          CandidatesDiffer(oldName, j, k - 1);
        }
      }
      assert Tried(oldName, k) == Tried(oldName, k - 1) + {Candidate(oldName, k - 1)};
    }
  }

  /** Pigeonhole: if every candidate before k is taken, k - 1 is at most the number of names. */
  lemma AllTakenBound(oldName: string, k: nat, names: set<string>)
    requires k >= 1 && forall j :: 1 <= j < k ==> Candidate(oldName, j) in names
    ensures k - 1 <= |names|
  {
    hide Candidate;
    TriedCount(oldName, k);
    SubsetCount(Tried(oldName, k), names);
  }

  /** k is the least number whose candidate is not a name of the directory. */
  ghost predicate LeastFree(m: Directory, oldName: string, k: nat) {
    k >= 1 && Candidate(oldName, k) !in m && forall j :: 1 <= j < k ==> Candidate(oldName, j) in m
  }

  method FirstFree(oldName: string, names: set<string>) returns (newName: string, ghost k: nat)
    ensures 1 <= k <= |names| + 1
    ensures newName == Candidate(oldName, k) && newName !in names
    ensures forall j :: 1 <= j < k ==> Candidate(oldName, j) in names
  {
    hide LastDot, ToString;
    var lastDot := LastDot(oldName);
    var name, extension := oldName[..lastDot], oldName[lastDot..];
    var renameTimes := 1;
    var conflict := true;
    newName := "";
    while conflict
      invariant 1 <= renameTimes
      invariant conflict ==> forall j :: 1 <= j < renameTimes ==> Candidate(oldName, j) in names
      invariant conflict ==> renameTimes - 1 <= |names|
      invariant !conflict ==> 1 <= renameTimes - 1 <= |names| + 1 && newName == Candidate(oldName, renameTimes - 1) && newName !in names
                              && forall j :: 1 <= j < renameTimes - 1 ==> Candidate(oldName, j) in names
      decreases conflict, |names| + 1 - renameTimes
    {
      newName := name + "(" + ToString(renameTimes) + ")" + extension;
      assert newName == Candidate(oldName, renameTimes);
      if newName !in names {
        conflict := false;
      } else {
        AllTakenBound(oldName, renameTimes + 1, names);
      }
      renameTimes := renameTimes + 1;
    }
    k := renameTimes - 1;
  }

  /** The new name is the first candidate that is free. */
  ghost predicate FreshFor(m: Directory, oldName: string, newName: string) {
    exists k: nat :: LeastFree(m, oldName, k) && newName == Candidate(oldName, k)
  }

  method NamesOf(metaBases: seq<MetaBase>) returns (fileNames: set<string>)
    ensures fileNames == NamesIn(metaBases)
  {
    fileNames := {};
    for i := 0 to |metaBases|
      invariant fileNames == NamesIn(metaBases[..i])
    {
      assert metaBases[..i + 1] == metaBases[..i] + [metaBases[i]];
      fileNames := fileNames + {metaBases[i].name};
    }
    assert metaBases[..|metaBases|] == metaBases;
  }

  /** The names a listing shows. */
  ghost function Listed(gs: seq<Group>, uninitialised: Group, fails: set<nat>): set<string>
    requires AllShaped(gs) && Shaped(uninitialised)
  {
    NamesIn(Relisted(ListingOf(gs), Listable(uninitialised), fails, PER_GROUP, |gs|))
  }

  lemma ListedIsDirectory(gs: seq<Group>, hash: HashFn, uninitialised: Group)
    requires AllShaped(gs) && FileInv(gs, PER_GROUP, hash) && Shaped(uninitialised)
    ensures Listed(gs, uninitialised, {}) == Contents(gs).Keys
  {
    hide FileInv, Contents, Listable, DistinctNames, Relisted, Children;
    RelistedAll(ListingOf(gs), Listable(uninitialised), {}, PER_GROUP, |gs|);
    ListingIsDirectory(gs, PER_GROUP, hash);
  }

  /** Lists the directory and tries names until one is not listed, which takes at most one try more than
      there are names listed. If no read fails these are the directory's, and creating the name cannot
      find it taken. */
  method GetNewName(file: CloudDiskMetaFile, oldName: string, uninitialised: Group, io: Io)
    returns (ret: int, newName: string, ghost k: nat)
    requires file.Valid() && file.Unlocked(io) && Decodable(uninitialised) && |uninitialised.nsl| == PER_GROUP
    modifies file`trace
    ensures file.Valid() && file.Unlocked(io)
    ensures ret == E_OK ==>
              var listed := Listed(file.groups, uninitialised, io.readFails);
              && newName == Candidate(oldName, k) && newName !in listed
              && 1 <= k <= |listed| + 1 && forall j :: 1 <= j < k ==> Candidate(oldName, j) in listed
    ensures ret == E_OK && io.readFails == {} ==> LeastFree(file.Dir(), oldName, k) && k <= |file.Dir()| + 1
    ensures Quiet(io) && file.fd >= 0 ==> ret == E_OK
  {
    hide FileInv, Contents, After, Candidate, Decodable, Listable, Relisted, Shaped, AllShaped;
    DecodableIsShaped(uninitialised);
    newName, k := "", 0;
    var metaBases;
    ret, metaBases := file.LoadChildren(uninitialised, io);
    if ret != E_OK {
      return;
    }
    if io.readFails == {} {
      ListedIsDirectory(file.groups, file.hash, uninitialised);
    }
    var fileNames := NamesOf(metaBases);
    newName, k := FirstFree(oldName, fileNames);
  }
}
