/** The recycle bin's cached size: tasks capture a version when issued and apply later, under a
    lock, unless a reset has moved the version on. */
module RecycleSizes {
  import opened Common
  import opened Dentries
  import opened Decimal

  const SLOT_COUNT: nat := 1024
  const TWO63: int := 0x8000_0000_0000_0000
  const TWO64: int := 0x1_0000_0000_0000_0000

  /** int64 wrap-around, as the atomic version counters have it. */
  function Wrap64(x: int): int {
    (x + TWO63) % TWO64 - TWO63
  }

  lemma WrapEqual(x: int, y: int)
    ensures Wrap64(x) == Wrap64(y) <==> (x - y) % TWO64 == 0
  {
    var a, b := x + TWO63, y + TWO63;
    var qa, qb := a / TWO64, b / TWO64;
    assert a == qa * TWO64 + a % TWO64 && b == qb * TWO64 + b % TWO64;
    var d := a % TWO64 - b % TWO64;
    assert x - y == (qa - qb) * TWO64 + d;
  }

  // ---------------------------------------------------------------------
  // The cache file
  // ---------------------------------------------------------------------

  function SkipSpaces(s: string): string {
    if s != "" && IsSpace(s[0]) then SkipSpaces(s[1..]) else s
  }

  /** The longest run of digits at the front. */
  function LeadingDigits(s: string): (r: string)
    ensures AllDigits(r)
  {
    if s != "" && IsDigit(s[0]) then [s[0]] + LeadingDigits(s[1..]) else ""
  }

  /** std::from_chars into an int64; 0 on no digits or out of range. */
  function FromChars(s: string): int {
    var negative := s != "" && s[0] == '-';
    var digits := LeadingDigits(if negative then s[1..] else s);
    if digits == "" then 0
    else
      var v: int := if negative then 0 - Value(digits) else Value(digits);
      if -TWO63 <= v < TWO63 then v else 0
  }

  /** ReadCachedSize: 31 bytes at most, and nothing negative. */
  function ParseSize(content: string): nat {
    var text := SkipSpaces(if |content| > 31 then content[..31] else content);
    if text == "" then 0
    else
      var v := FromChars(text);
      if v < 0 then 0 else v
  }

  function StoredSize(files: map<string, string>, key: string): nat {
    if key in files then ParseSize(files[key]) else 0
  }

  lemma {:induction false} DigitsLength(n: nat, k: nat)
    requires k >= 1 && n < Ten(k)
    ensures |Digits(n)| <= k
  {
    if n >= 10 {
      assert k > 1;
      DigitsLength(n / 10, k - 1);
    }
  }

  function Ten(k: nat): nat {
    if k == 0 then 1 else 10 * Ten(k - 1)
  }

  lemma {:induction false} LeadingDigitsAll(s: string)
    requires AllDigits(s)
    ensures LeadingDigits(s) == s
  {
    if s != "" {
      LeadingDigitsAll(s[1..]);
      assert s == [s[0]] + s[1..];
    }
  }

  lemma NineteenDigits()
    ensures Ten(19) > TWO63
  {
    assert Ten(5) == 100000;
    assert Ten(10) == 10000000000;
    assert Ten(15) == 1000000000000000;
  }

  lemma NothingToSkip(s: string)
    requires s != "" && !IsSpace(s[0])
    ensures SkipSpaces(s) == s
  {
  }

  /** What WriteCachedSize writes, ReadCachedSize reads back. */
  lemma SizeReadsBack(n: nat)
    requires n < TWO63
    ensures ParseSize(ToString(n)) == n
  {
    hide Ten, Digits, Value, LeadingDigits, SkipSpaces;
    DigitsReadBack(n);
    NineteenDigits();
    DigitsLength(n, 19);
    var s := Digits(n);
    assert IsDigit(s[0]);
    NothingToSkip(s);
    LeadingDigitsAll(s);
  }

  /** Reading a size: blanks in front and whatever follows the digits are passed over. */
  lemma SizeReads(blanks: string, n: nat, tail: string)
    requires forall c :: c in blanks ==> c == ' ' || c == '\n' || c == '\t' || c == '\r' || c == '\U{0B}' || c == '\U{0C}'
    requires n < TWO63 && |blanks| + |ToString(n)| + |tail| <= 31 && (tail != "" ==> !('0' <= tail[0] <= '9'))
    ensures ParseSize(blanks + ToString(n) + tail) == n
  {
    hide Digits, Value, SkipSpaces, LeadingDigits;
    var s := Digits(n);
    DigitsReadBack(n);
    assert IsDigit(s[0]);
    Skipped(blanks, s + tail);
    assert blanks + (s + tail) == blanks + ToString(n) + tail;
    DigitsThenTail(s, tail);
  }

  /** Nothing but blanks, anything that does not start with a number, and a negative number are no size; a text
      of more than 31 bytes is cut. */
  lemma SizeReadsZero(content: string)
    ensures content == "" || !('0' <= content[0] <= '9' || IsSpace(content[0])) ==> ParseSize(content) == 0
    ensures |content| > 31 ==> ParseSize(content) == ParseSize(content[..31])
  {
    hide Value;
    if content != "" && !IsSpace(content[0]) {
      var text := if |content| > 31 then content[..31] else content;
      NothingToSkip(text);
    }
  }

  lemma {:induction false} Skipped(blanks: string, rest: string)
    requires (forall c :: c in blanks ==> IsSpace(c)) && rest != "" && !IsSpace(rest[0])
    ensures SkipSpaces(blanks + rest) == rest
  {
    if blanks == "" {
      assert blanks + rest == rest;
    } else {
      Skipped(blanks[1..], rest);
      assert (blanks + rest)[1..] == blanks[1..] + rest;
    }
  }

  lemma {:induction false} DigitsThenTail(s: string, tail: string)
    requires AllDigits(s) && (tail != "" ==> !IsDigit(tail[0]))
    ensures LeadingDigits(s + tail) == s
  {
    if s == "" {
      assert s + tail == tail;
    } else {
      DigitsThenTail(s[1..], tail);
      assert (s + tail)[1..] == s[1..] + tail && s == [s[0]] + s[1..];
    }
  }

  // ---------------------------------------------------------------------
  // Tasks
  // ---------------------------------------------------------------------

  datatype Kind = Increase(delta: int) | Decrease(delta: int) | ResetZero | ResetTo(bases: seq<MetaBase>)

  datatype Task = Task(key: string, kind: Kind, version: int)

  /** The cache's shared state: version slots and cache files. */
  datatype Cache = Cache(slots: seq<int>, files: map<string, string>)

  /** How a task's file accesses go. A write can fail before touching the file, or leave part of the text. */
  datatype FileIo = FileIo(readFails: bool, write: WriteOutcome)
  datatype WriteOutcome = Written | OpenFails | Partial(left: string)

  const GOOD_IO: FileIo := FileIo(false, Written)

  predicate IsReset(kind: Kind) { kind.ResetZero? || kind.ResetTo? }

  predicate Filtered(b: MetaBase) {
    b.position & 1 == 0 || (b.mode / 0x1000) % 16 == 4
  }

  /** What one listed child adds to a reset's total. */
  function Share(b: MetaBase): nat {
    if Filtered(b) || AsInt64(b.size) <= 0 then 0 else AsInt64(b.size)
  }

  function Total(bases: seq<MetaBase>): nat {
    if bases == [] then 0 else Total(bases[..|bases| - 1]) + Share(bases[|bases| - 1])
  }

  /** A child counts if it is on the device, is no directory and has a size a signed word can hold. */
  ghost predicate CountsInBin(b: MetaBase) {
    b.position % 2 == 1 && !(0x4000 <= b.mode % 0x1_0000 < 0x5000) && 0 < b.size < 0x8000_0000_0000_0000
  }

  lemma ShareSays(b: MetaBase)
    ensures Share(b) == if CountsInBin(b) then b.size else 0
  {
    LowBit(b.position);
  }

  lemma LowBit(p: bv8)
    ensures p & 1 == 0 <==> p % 2 != 1
  {
  }

  /** A total is the sum of the sizes that count. */
  lemma TotalSays(bases: seq<MetaBase>, b: MetaBase)
    ensures Total([]) == 0
    ensures Total(bases + [b]) == Total(bases) + if CountsInBin(b) then b.size else 0
  {
    ShareSays(b);
    assert (bases + [b])[..|bases|] == bases;
  }

  function ResetValue(kind: Kind): nat
    requires IsReset(kind)
  {
    if kind.ResetZero? then 0 else Total(kind.bases)
  }

  /** The size a task computes from the current one. */
  function NewSize(kind: Kind, cur: nat): nat {
    match kind
    case Increase(d) => if cur + d < 0 then 0 else cur + d
    case Decrease(d) => if cur - d < 0 then 0 else cur - d
    case _ => ResetValue(kind)
  }

  function WrittenTo(files: map<string, string>, key: string, size: nat, w: WriteOutcome): map<string, string> {
    match w
    case Written => files[key := ToString(size)]
    case OpenFails => files
    case Partial(left) => files[key := left]
  }

  function SlotOf(hash: string -> nat, key: string): nat {
    hash(key) % SLOT_COUNT
  }

  /** One task body, under the lock. */
  function RunTask(c: Cache, hash: string -> nat, t: Task, io: FileIo): (r: Cache)
    requires |c.slots| == SLOT_COUNT
    ensures |r.slots| == SLOT_COUNT
  {
    var s := SlotOf(hash, t.key);
    if c.slots[s] != t.version then c
    else if !IsReset(t.kind) && io.readFails then c
    else
      var files := WrittenTo(c.files, t.key, NewSize(t.kind, StoredSize(c.files, t.key)), io.write);
      if IsReset(t.kind) && io.write.Written? then Cache(c.slots[s := Wrap64(c.slots[s] + 1)], files)
      else c.(files := files)
  }

  lemma WrittenReads(n: int)
    ensures 0 <= n < TWO63 ==> ParseSize(ToString(n)) == n
  {
    if 0 <= n < TWO63 {
      SizeReadsBack(n);
    }
  }

  /** Undisturbed and at its version, a task does its arithmetic on the stored size. */
  lemma TaskSays(c: Cache, hash: string -> nat, t: Task)
    requires |c.slots| == SLOT_COUNT
    ensures c.slots[SlotOf(hash, t.key)] == t.version ==>
              var before, now := StoredSize(c.files, t.key), StoredSize(RunTask(c, hash, t, GOOD_IO).files, t.key);
              match t.kind
              case Increase(d) => 0 <= before + d < TWO63 ==> now == before + d
              case Decrease(d) => before - d < TWO63 ==> now == if before - d < 0 then 0 else before - d
              case ResetZero => now == 0
              case ResetTo(bases) => Total(bases) < TWO63 ==> now == Total(bases)
  {
    hide ParseSize, ToString, Total, Wrap64;
    WrittenReads(NewSize(t.kind, StoredSize(c.files, t.key)));
  }

  lemma OthersKept(c: Cache, hash: string -> nat, t: Task, io: FileIo)
    requires |c.slots| == SLOT_COUNT
    ensures var after := RunTask(c, hash, t, io).files;
            forall k :: k != t.key ==> (k in after <==> k in c.files) && (k in after ==> after[k] == c.files[k])
  {
    hide ParseSize, ToString, Total, Wrap64, NewSize;
  }

  lemma StaleKept(c: Cache, hash: string -> nat, t: Task, io: FileIo)
    requires |c.slots| == SLOT_COUNT
    ensures c.slots[SlotOf(hash, t.key)] != t.version ==> RunTask(c, hash, t, io) == c
  {
  }

  predicate ValidParams(userId: int, bundleName: string) {
    userId >= 0 && bundleName != "" && '/' !in bundleName && !HasDotDot(bundleName)
  }

  predicate HasDotDot(s: string) {
    exists i :: 0 <= i < |s| - 1 && s[i] == '.' && s[i + 1] == '.'
  }

  function CacheFilePath(userId: int, bundleName: string): string {
    "/data/service/el2/" + ToString(userId) + "/hmdfs/cloudfile_manager/" + bundleName + "/RecycleSizeCache"
  }

  /** Valid users and bundles have cache files of their own. */
  lemma CacheFilePathInjective(u1: int, b1: string, u2: int, b2: string)
    requires ValidParams(u1, b1) && ValidParams(u2, b2)
    requires CacheFilePath(u1, b1) == CacheFilePath(u2, b2)
    ensures u1 == u2 && b1 == b2
  {
    var pre, mid, post := "/data/service/el2/", "/hmdfs/cloudfile_manager/", "/RecycleSizeCache";
    ToStringChars(u1, '/');
    ToStringChars(u2, '/');
    PathParts(pre, ToString(u1), mid, b1, post, ToString(u2), b2);
    ToStringInjective(u1, u2);
  }

  lemma PathParts(pre: string, n1: string, mid: string, b1: string, post: string, n2: string, b2: string)
    requires '/' !in n1 && '/' !in n2 && mid != "" && mid[0] == '/'
    requires pre + n1 + mid + b1 + post == pre + n2 + mid + b2 + post
    ensures n1 == n2 && b1 == b2
  {
    var x, y := mid + (b1 + post), mid + (b2 + post);
    assert pre + n1 + mid + b1 + post == pre + (n1 + x);
    assert pre + n2 + mid + b2 + post == pre + (n2 + y);
    DropFront(pre, n1 + x, n2 + y);
    SlashSplits(n1, x, n2, y);
    DropFront(mid, b1 + post, b2 + post);
    assert b1 == (b1 + post)[..|b1|] && b2 == (b2 + post)[..|b2|];
  }

  lemma DropFront(a: string, x: string, y: string)
    requires a + x == a + y
    ensures x == y
  {
    assert (a + x)[|a|..] == x && (a + y)[|a|..] == y;
  }

  lemma SlashSplits(a: string, x: string, b: string, y: string)
    requires '/' !in a && '/' !in b && x != "" && y != "" && x[0] == '/' && y[0] == '/'
    requires a + x == b + y
    ensures a == b && x == y
  {
    assert (a + x)[|a|] == '/' && (b + y)[|b|] == '/';
    assert |a| == |b|;
    assert a == (a + x)[..|a|] && x == (a + x)[|a|..];
  }

  class RecycleSizeCache {
    const hash: string -> nat
    const slots: array<int>
    var files: map<string, string>

    ghost predicate Valid()
      reads this
    {
      slots.Length == SLOT_COUNT
    }

    ghost function View(): Cache
      reads this, slots
    {
      Cache(slots[..], files)
    }

    method GetCacheVersion(key: string) returns (v: int)
      requires Valid()
      ensures v == View().slots[SlotOf(hash, key)]
    {
      v := slots[SlotOf(hash, key)];
    }

    method AddCacheVersion(key: string)
      requires Valid()
      modifies slots
      ensures View() == old(View()).(slots := old(View()).slots[SlotOf(hash, key) := Wrap64(old(View()).slots[SlotOf(hash, key)] + 1)])
    {
      slots[SlotOf(hash, key)] := Wrap64(slots[SlotOf(hash, key)] + 1);
    }

    method ReadCachedSize(key: string, io: FileIo) returns (ret: int, size: nat)
      requires Valid()
      ensures ret == if io.readFails then E_PATH else E_OK
      ensures size == if ret == E_OK then StoredSize(files, key) else 0
    {
      if io.readFails {
        return E_PATH, 0;
      }
      return E_OK, StoredSize(files, key);
    }

    method WriteCachedSize(key: string, size: int, io: FileIo) returns (ret: int)
      requires Valid()
      modifies this`files
      ensures files == WrittenTo(old(files), key, if size < 0 then 0 else size, io.write)
      ensures ret == E_OK <==> io.write.Written?
    {
      var val := ToString(if size < 0 then 0 else size);
      match io.write
      case Written => files := files[key := val]; ret := E_OK;
      case OpenFails => ret := E_PATH;
      case Partial(left) => files := files[key := left]; ret := E_PATH;
    }

    /** Issuing an increase or a decrease: nothing to do for bad parameters, filtered or empty entries. */
    method IssueChange(userId: int, bundleName: string, base: MetaBase, up: bool) returns (ret: int, task: Option<Task>)
      requires Valid()
      ensures ret == if ValidParams(userId, bundleName) then E_OK else E_INVAL_ARG
      ensures ret == E_OK <==> userId >= 0 && bundleName != "" && '/' !in bundleName && !HasDotDot(bundleName)
      ensures task.Some? <==> ret == E_OK && CountsInBin(base)
      ensures task.Some? ==>
                && task.value.kind == (if up then Increase(base.size) else Decrease(base.size))
                && task.value.version == View().slots[SlotOf(hash, task.value.key)]
                && task.value.key == "/data/service/el2/" + ToString(userId) + "/hmdfs/cloudfile_manager/" + bundleName + "/RecycleSizeCache"
    {
      ShareSays(base);
      if !ValidParams(userId, bundleName) {
        return E_INVAL_ARG, None;
      }
      if Filtered(base) {
        return E_OK, None;
      }
      var delta := AsInt64(base.size);
      if delta <= 0 {
        return E_OK, None;
      }
      var path := CacheFilePath(userId, bundleName);
      var myVersion := GetCacheVersion(path);
      return E_OK, Some(Task(path, if up then Increase(delta) else Decrease(delta), myVersion));
    }

    method IssueReset(userId: int, bundleName: string, kind: Kind) returns (ret: int, task: Option<Task>)
      requires Valid() && IsReset(kind)
      ensures ret == if ValidParams(userId, bundleName) then E_OK else E_INVAL_ARG
      ensures var key := "/data/service/el2/" + ToString(userId) + "/hmdfs/cloudfile_manager/" + bundleName + "/RecycleSizeCache";
              task == if ret != E_OK then None else Some(Task(key, kind, View().slots[SlotOf(hash, key)]))
    {
      if !ValidParams(userId, bundleName) {
        return E_INVAL_ARG, None;
      }
      var path := CacheFilePath(userId, bundleName);
      var myVersion := GetCacheVersion(path);
      return E_OK, Some(Task(path, kind, myVersion));
    }

    method SumOf(metaBases: seq<MetaBase>) returns (total: nat)
      ensures total == Total(metaBases)
    {
      total := 0;
      for i := 0 to |metaBases|
        invariant total == Total(metaBases[..i])
      {
        var b := metaBases[i];
        assert metaBases[..i + 1][..i] == metaBases[..i];
        if Filtered(b) {
          continue;
        }
        var delta := AsInt64(b.size);
        if delta <= 0 {
          continue;
        }
        total := total + delta;
      }
      assert metaBases[..|metaBases|] == metaBases;
    }

    /** A detached task, run under the lock. */
    method Run(t: Task, io: FileIo)
      requires Valid()
      modifies this`files, slots
      ensures View() == RunTask(old(View()), hash, t, io)
      // Undisturbed and with the version it was issued at, the task does its arithmetic on the stored size.
      ensures io == GOOD_IO && old(slots[SlotOf(hash, t.key)]) == t.version ==>
                var before, now := StoredSize(old(files), t.key), StoredSize(files, t.key);
                match t.kind
                case Increase(d) => 0 <= before + d < TWO63 ==> now == before + d
                case Decrease(d) => before - d < TWO63 ==> now == if before - d < 0 then 0 else before - d
                case ResetZero => now == 0
                case ResetTo(bases) => Total(bases) < TWO63 ==> now == Total(bases)
      ensures old(slots[SlotOf(hash, t.key)]) != t.version ==> files == old(files) && slots[..] == old(slots[..])
      ensures forall k :: k != t.key ==> (k in files <==> k in old(files)) && (k in files ==> files[k] == old(files)[k])
    {
      hide ParseSize, ToString, Total, Wrap64, RunTask, StoredSize;
      TaskSays(View(), hash, t);
      OthersKept(View(), hash, t, io);
      StaleKept(View(), hash, t, io);
      Body(t, io);
    }

    method Body(t: Task, io: FileIo)
      requires Valid()
      modifies this`files, slots
      ensures View() == RunTask(old(View()), hash, t, io)
    {
      var version := GetCacheVersion(t.key);
      if version != t.version {
        return;
      }
      match t.kind
      case Increase(delta) =>
        var ret, cur := ReadCachedSize(t.key, io);
        if ret != E_OK {
          return;
        }
        ret := WriteCachedSize(t.key, cur + delta, io);
      case Decrease(delta) =>
        var ret, cur := ReadCachedSize(t.key, io);
        if ret != E_OK {
          return;
        }
        var left: int := cur - delta;
        if left < 0 {
          left := 0;
        }
        ret := WriteCachedSize(t.key, left, io);
      case ResetZero =>
        var ret := WriteCachedSize(t.key, 0, io);
        if ret != E_OK {
          return;
        }
        AddCacheVersion(t.key);
      case ResetTo(metaBases) =>
        var total := SumOf(metaBases);
        var ret := WriteCachedSize(t.key, total, io);
        if ret != E_OK {
          return;
        }
        AddCacheVersion(t.key);
    }
  }

  // ---------------------------------------------------------------------
  // Every interleaving
  // ---------------------------------------------------------------------

  /** Issue a task, or run the one issued at an earlier position. */
  datatype Event = Issue(key: string, kind: Kind) | RunIssued(at: nat, io: FileIo)

  /** An interleaving: tasks run after they are issued. */
  predicate WellFormed(evs: seq<Event>) {
    forall n :: 0 <= n < |evs| && evs[n].RunIssued? ==> evs[n].at < n && evs[evs[n].at].Issue?
  }

  function Start(): (c: Cache)
    ensures |c.slots| == SLOT_COUNT
  {
    Cache(seq(SLOT_COUNT, _ => 0), map[])
  }

  /** The task issued at position p, with the version it captured. */
  function TaskAt(evs: seq<Event>, hash: string -> nat, p: nat): Task
    requires WellFormed(evs) && p < |evs| && evs[p].Issue?
    decreases p, 1
  {
    Task(evs[p].key, evs[p].kind, StateAt(evs, hash, p).slots[SlotOf(hash, evs[p].key)])
  }

  /** The cache after the first n events. */
  function StateAt(evs: seq<Event>, hash: string -> nat, n: nat): (c: Cache)
    requires WellFormed(evs) && n <= |evs|
    ensures |c.slots| == SLOT_COUNT
    decreases n, 0
  {
    if n == 0 then Start()
    else
      var c := StateAt(evs, hash, n - 1);
      var e := evs[n - 1];
      if e.Issue? then c else RunTask(c, hash, TaskAt(evs, hash, e.at), e.io)
  }

  /** The run at position n passes the version check. */
  predicate Passes(evs: seq<Event>, hash: string -> nat, n: nat)
    requires WellFormed(evs) && n < |evs| && evs[n].RunIssued?
  {
    var t := TaskAt(evs, hash, evs[n].at);
    StateAt(evs, hash, n).slots[SlotOf(hash, t.key)] == t.version
  }

  /** The run at position n is a reset that succeeds, on a key of slot s. */
  predicate ResetsSlot(evs: seq<Event>, hash: string -> nat, n: nat, s: nat)
    requires WellFormed(evs) && n < |evs|
  {
    && evs[n].RunIssued?
    && IsReset(evs[evs[n].at].kind) && evs[n].io.write.Written?
    && SlotOf(hash, evs[evs[n].at].key) == s
    && Passes(evs, hash, n)
  }

  /** How many resets of slot s succeed in positions a .. b-1. */
  function ResetCount(evs: seq<Event>, hash: string -> nat, a: nat, b: nat, s: nat): nat
    requires WellFormed(evs) && a <= b <= |evs|
    decreases b
  {
    if a == b then 0
    else ResetCount(evs, hash, a, b - 1, s) + if ResetsSlot(evs, hash, b - 1, s) then 1 else 0
  }

  lemma WrapStep(x: int)
    ensures Wrap64(Wrap64(x) + 1) == Wrap64(x + 1)
    ensures Wrap64(0) == 0
  {
    WrapEqual(Wrap64(x) + 1, x + 1);
    var q := (x + TWO63) / TWO64;
    assert Wrap64(x) - x == -q * TWO64;
  }

  /** A slot's version is the number of its successful resets, modulo 2^64. */
  lemma {:induction false} VersionCounts(evs: seq<Event>, hash: string -> nat, n: nat, s: nat)
    requires WellFormed(evs) && n <= |evs| && s < SLOT_COUNT
    ensures StateAt(evs, hash, n).slots[s] == Wrap64(ResetCount(evs, hash, 0, n, s))
  {
    hide WrittenTo, StoredSize, NewSize, SlotOf, Wrap64;
    if n == 0 {
      WrapStep(0);
    } else {
      VersionCounts(evs, hash, n - 1, s);
      WrapStep(ResetCount(evs, hash, 0, n - 1, s));
    }
  }

  lemma {:induction false} CountsAdd(evs: seq<Event>, hash: string -> nat, a: nat, b: nat, c: nat, s: nat)
    requires WellFormed(evs) && a <= b <= c <= |evs|
    ensures ResetCount(evs, hash, a, c, s) == ResetCount(evs, hash, a, b, s) + ResetCount(evs, hash, b, c, s)
    decreases c
  {
    hide ResetsSlot;
    if b < c {
      CountsAdd(evs, hash, a, b, c - 1, s);
    }
  }

  lemma {:induction false} CountZeroIff(evs: seq<Event>, hash: string -> nat, a: nat, b: nat, s: nat)
    requires WellFormed(evs) && a <= b <= |evs|
    ensures ResetCount(evs, hash, a, b, s) <= b - a
    ensures ResetCount(evs, hash, a, b, s) == 0 <==> (forall r :: a <= r < b ==> !ResetsSlot(evs, hash, r, s))
    decreases b
  {
    hide ResetsSlot;
    if a < b {
      CountZeroIff(evs, hash, a, b - 1, s);
    }
  }

  /** In every interleaving, I/O failures included: a task passes its check exactly when the number
      of successful resets of its version slot since it was issued is a multiple of 2^64. */
  lemma PassesIff(evs: seq<Event>, hash: string -> nat, n: nat)
    requires WellFormed(evs) && n < |evs| && evs[n].RunIssued?
    ensures var p := evs[n].at;
            Passes(evs, hash, n) <==> ResetCount(evs, hash, p, n, SlotOf(hash, evs[p].key)) % TWO64 == 0
  {
    hide Wrap64, SlotOf, RunTask, ResetCount;
    var p := evs[n].at;
    var s := SlotOf(hash, evs[p].key);
    SlotInRange(hash, evs[p].key);
    VersionCounts(evs, hash, n, s);
    VersionCounts(evs, hash, p, s);
    CountsAdd(evs, hash, 0, p, n, s);
    WrapEqual(ResetCount(evs, hash, 0, n, s), ResetCount(evs, hash, 0, p, s));
  }

  lemma SlotInRange(hash: string -> nat, key: string)
    ensures SlotOf(hash, key) < SLOT_COUNT
  {
  }

  /** So, short of 2^64 events in between, exactly when no key of its slot was reset since it was issued. */
  lemma StaleTaskExcluded(evs: seq<Event>, hash: string -> nat, n: nat)
    requires WellFormed(evs) && n < |evs| && evs[n].RunIssued? && n - evs[n].at < TWO64
    ensures var p := evs[n].at;
            Passes(evs, hash, n) <==> (forall r :: p < r < n ==> !ResetsSlot(evs, hash, r, SlotOf(hash, evs[p].key)))
  {
    hide Passes, SlotOf;
    var p := evs[n].at;
    var s := SlotOf(hash, evs[p].key);
    PassesIff(evs, hash, n);
    CountZeroIff(evs, hash, p, n, s);
    assert !ResetsSlot(evs, hash, p, s);
  }

  /** Whatever a run changes after a successful reset of its key was issued after that reset. */
  lemma LateTasksAreNewer(evs: seq<Event>, hash: string -> nat, r: nat, n: nat)
    requires WellFormed(evs) && r < n < |evs| < TWO64 && evs[n].RunIssued? && evs[r].RunIssued?
    requires evs[evs[n].at].key == evs[evs[r].at].key
    requires ResetsSlot(evs, hash, r, SlotOf(hash, evs[evs[r].at].key)) && Passes(evs, hash, n)
    ensures r < evs[n].at
  {
    hide Passes, SlotOf;
    StaleTaskExcluded(evs, hash, n);
  }

  // ---------------------------------------------------------------------
  // Without I/O failures: the size as a fold, without versions
  // ---------------------------------------------------------------------

  predicate AllIoGood(evs: seq<Event>) {
    forall n :: 0 <= n < |evs| && evs[n].RunIssued? ==> evs[n].io == GOOD_IO
  }

  /** The run at r is a reset of a key in slot s. */
  predicate ResetRun(evs: seq<Event>, hash: string -> nat, r: nat, s: nat)
    requires WellFormed(evs) && r < |evs|
  {
    evs[r].RunIssued? && IsReset(evs[evs[r].at].kind) && SlotOf(hash, evs[evs[r].at].key) == s
  }

  /** The run at n counts: since its task was issued, no counting reset of a key in its slot ran. */
  predicate Counts(evs: seq<Event>, hash: string -> nat, n: nat)
    requires WellFormed(evs) && n < |evs| && evs[n].RunIssued?
    decreases n
  {
    var p := evs[n].at;
    forall r :: p < r < n && ResetRun(evs, hash, r, SlotOf(hash, evs[p].key)) ==> !Counts(evs, hash, r)
  }

  /** The size of a key's bin after n events: counting runs on the key applied in order, a reset
      starting over from its total, a decrease clamped at zero. */
  function ExpectedSize(evs: seq<Event>, hash: string -> nat, n: nat, key: string): nat
    requires WellFormed(evs) && n <= |evs|
  {
    if n == 0 then 0
    else
      var before := ExpectedSize(evs, hash, n - 1, key);
      if evs[n - 1].RunIssued? && evs[evs[n - 1].at].key == key && Counts(evs, hash, n - 1) then
        match evs[evs[n - 1].at].kind
        case Increase(d) => if before + d >= 0 then before + d else 0
        case Decrease(d) => if before - d >= 0 then before - d else 0
        case ResetZero => 0
        case ResetTo(bases) => Total(bases)
      else before
  }

  lemma {:induction false} PassesIsCounts(evs: seq<Event>, hash: string -> nat, n: nat)
    requires WellFormed(evs) && AllIoGood(evs) && n < |evs| < TWO64 && evs[n].RunIssued?
    ensures Passes(evs, hash, n) <==> Counts(evs, hash, n)
    decreases n
  {
    hide Passes, SlotOf;
    StaleTaskExcluded(evs, hash, n);
    var s := SlotOf(hash, evs[evs[n].at].key);
    forall r | 0 <= r < n
      ensures ResetsSlot(evs, hash, r, s) <==> ResetRun(evs, hash, r, s) && Counts(evs, hash, r)
    {
      if evs[r].RunIssued? {
        PassesIsCounts(evs, hash, r);
      }
    }
  }

  /** The stored size is the expected one, for every key, after every interleaving in which no file
      access fails and no size reaches 2^63. */
  lemma {:induction false} SizeIsFold(evs: seq<Event>, hash: string -> nat, n: nat, key: string)
    requires WellFormed(evs) && AllIoGood(evs) && n <= |evs| < TWO64
    requires forall m :: 0 <= m <= n ==> ExpectedSize(evs, hash, m, key) < TWO63
    ensures StoredSize(StateAt(evs, hash, n).files, key) == ExpectedSize(evs, hash, n, key)
  {
    hide Passes, SlotOf, Wrap64, ParseSize, Counts, Total;
    if n > 0 {
      SizeIsFold(evs, hash, n - 1, key);
      if evs[n - 1].RunIssued? {
        PassesIsCounts(evs, hash, n - 1);
        RunChangesFile(evs, hash, n - 1, key);
        SizeReadsBack(ExpectedSize(evs, hash, n, key));
      }
    }
  }

  lemma RunChangesFile(evs: seq<Event>, hash: string -> nat, n: nat, key: string)
    requires WellFormed(evs) && AllIoGood(evs) && n < |evs| && evs[n].RunIssued?
    ensures var c, c', t := StateAt(evs, hash, n), StateAt(evs, hash, n + 1), evs[evs[n].at];
            if t.key == key && Passes(evs, hash, n)
            then c'.files == c.files[key := ToString(NewSize(t.kind, StoredSize(c.files, key)))]
            else StoredSize(c'.files, key) == StoredSize(c.files, key)
  {
    hide Wrap64, NewSize, ParseSize;
  }

  // ---------------------------------------------------------------------
  // The size as a sum
  // ---------------------------------------------------------------------

  /** The run at n acts on the key. */
  predicate Acts(evs: seq<Event>, hash: string -> nat, n: nat, key: string)
    requires WellFormed(evs) && n < |evs|
  {
    evs[n].RunIssued? && evs[evs[n].at].key == key && Counts(evs, hash, n)
  }

  /** The increases minus the decreases that act on the key at positions a .. b-1. */
  ghost function Balance(evs: seq<Event>, hash: string -> nat, a: nat, b: nat, key: string): int
    requires WellFormed(evs) && a <= b <= |evs|
    decreases b
  {
    if a == b then 0
    else
      Balance(evs, hash, a, b - 1, key)
      + if !Acts(evs, hash, b - 1, key) then 0
        else match evs[evs[b - 1].at].kind
          case Increase(d) => d
          case Decrease(d) => -d
          case _ => 0
  }

  /** What a reset leaves: nothing, or the sum of the listed sizes that count. */
  ghost function LeftBy(kind: Kind): nat {
    match kind
    case ResetTo(bases) => Total(bases)
    case _ => 0
  }

  /** Position r is where the counting starts for the key up to n: after its last acting reset, or at 0. */
  ghost predicate CountsFrom(evs: seq<Event>, hash: string -> nat, r: nat, n: nat, key: string)
    requires WellFormed(evs) && r <= n <= |evs|
  {
    && (r > 0 ==> Acts(evs, hash, r - 1, key) && IsReset(evs[evs[r - 1].at].kind))
    && (forall m :: r <= m < n && Acts(evs, hash, m, key) ==> !IsReset(evs[evs[m].at].kind))
  }

  ghost function Opening(evs: seq<Event>, r: nat): nat
    requires WellFormed(evs) && r <= |evs| && (r > 0 ==> evs[r - 1].RunIssued?)
  {
    if r == 0 then 0 else LeftBy(evs[evs[r - 1].at].kind)
  }

  /** Over every interleaving without failing file accesses: as long as the running sum stays within zero and
      2^63, the stored size is what the last acting reset left, plus the increases that acted since, minus the
      decreases. */
  lemma {:induction false} SizeIsSum(evs: seq<Event>, hash: string -> nat, r: nat, n: nat, key: string)
    requires WellFormed(evs) && AllIoGood(evs) && r <= n <= |evs| < TWO64 && CountsFrom(evs, hash, r, n, key)
    requires forall m :: r <= m <= n ==> 0 <= Opening(evs, r) + Balance(evs, hash, r, m, key) < TWO63
    ensures StoredSize(StateAt(evs, hash, n).files, key) == Opening(evs, r) + Balance(evs, hash, r, n, key)
    decreases n
  {
    hide Counts, Total, ParseSize, Passes, ToString, Wrap64, SlotOf;
    if n > r {
      SizeIsSum(evs, hash, r, n - 1, key);
    }
    if n > 0 && evs[n - 1].RunIssued? {
      PassesIsCounts(evs, hash, n - 1);
      RunChangesFile(evs, hash, n - 1, key);
      SizeReadsBack(Opening(evs, r) + Balance(evs, hash, r, n, key));
    }
  }
}
