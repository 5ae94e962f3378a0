/** Record locks on dentry groups: what one operation does with them, and what
    that guarantees when several processes interleave. */
module LockTraces {

  datatype Event = Lock(g: nat) | Read(g: nat) | Write(g: nat) | Unlock(g: nat)

  /** Free, or holding one group's lock (`seen`: read since locking), or out of discipline. */
  datatype Hold = Free | Held(g: nat, seen: bool) | Broken

  function Step(h: Hold, e: Event): Hold {
    match e
    case Lock(g) => if h == Free then Held(g, false) else Broken
    case Read(g) => if h.Held? && h.g == g then Held(g, true) else Broken
    case Write(g) => if h == Held(g, true) then h else Broken
    case Unlock(g) => if h.Held? && h.g == g then Free else Broken
  }

  /** At most one lock held, reads under it, writes only of a group read under it. */
  function After(trace: seq<Event>): Hold {
    if trace == [] then Free else Step(After(trace[..|trace| - 1]), trace[|trace| - 1])
  }

  lemma AfterNext(trace: seq<Event>, e: Event)
    ensures After(trace + [e]) == Step(After(trace), e)
  {
    assert (trace + [e])[..|trace|] == trace;
  }

  /** From a point where no lock is held, what was done before does not matter. */
  lemma {:induction false} AfterFree(t: seq<Event>, more: seq<Event>)
    requires After(t) == Free
    ensures After(t + more) == After(more)
  {
    if more == [] {
      assert t + more == t;
    } else {
      var init, e := more[..|more| - 1], more[|more| - 1];
      AfterFree(t, init);
      AfterNext(t + init, e);
      AfterNext(init, e);
      assert t + more == (t + init) + [e] && more == init + [e];
    }
  }

  // ---------------------------------------------------------------------
  // Several processes
  // ---------------------------------------------------------------------

  /** One step of process `pid`; a write puts `edit` applied to the process's buffer. */
  datatype Act<!V> = Act(pid: nat, e: Event, edit: V -> V)

  function HoldOf<V>(log: seq<Act<V>>, pid: nat): Hold {
    if log == [] then Free
    else
      var h := HoldOf(log[..|log| - 1], pid);
      var last := log[|log| - 1];
      if last.pid == pid then Step(h, last.e) else h
  }

  ghost predicate Taken<V>(log: seq<Act<V>>, g: nat) {
    exists pid: nat :: HoldOf(log, pid).Held? && HoldOf(log, pid).g == g
  }

  /** What record locks see to: a lock is granted only when nobody holds it. */
  ghost predicate Granted<V>(log: seq<Act<V>>) {
    log == [] ||
    (var init, last := log[..|log| - 1], log[|log| - 1];
     Granted(init) && (last.e.Lock? ==> !Taken(init, last.e.g)))
  }

  /** The steps of one process. */
  function Project<V>(log: seq<Act<V>>, pid: nat): seq<Event> {
    if log == [] then []
    else
      var init, last := Project(log[..|log| - 1], pid), log[|log| - 1];
      if last.pid == pid then init + [last.e] else init
  }

  /** The log is an interleaving of processes that each keep to the discipline, as far as they have got:
      every process's steps are a beginning of a trace that ends with no lock held. */
  ghost predicate Interleaves<V>(log: seq<Act<V>>, traces: nat -> seq<Event>) {
    forall pid: nat :: Project(log, pid) <= traces(pid) && After(traces(pid)) == Free
  }

  lemma {:induction false} HoldIsAfter<V>(log: seq<Act<V>>, pid: nat)
    ensures HoldOf(log, pid) == After(Project(log, pid))
  {
    if log != [] {
      var init, last := log[..|log| - 1], log[|log| - 1];
      HoldIsAfter(init, pid);
      if last.pid == pid {
        AfterNext(Project(init, pid), last.e);
      }
    }
  }

  /** What is broken stays broken. */
  lemma {:induction false} BeginningHolds(trace: seq<Event>, n: nat)
    requires n <= |trace| && After(trace) != Broken
    ensures After(trace[..n]) != Broken
    decreases |trace|
  {
    if n < |trace| {
      BeginningHolds(trace[..|trace| - 1], n);
      assert trace[..|trace| - 1][..n] == trace[..n];
    } else {
      assert trace[..n] == trace;
    }
  }

  datatype World<V> = World(file: seq<V>, buffers: map<nat, V>)

  /** What happens: reads fill the process's buffer, writes store the edited buffer. */
  ghost function Run<V>(log: seq<Act<V>>, file: seq<V>): (w: World<V>)
    ensures |w.file| == |file|
  {
    if log == [] then World(file, map[])
    else
      var w, last := Run(log[..|log| - 1], file), log[|log| - 1];
      if last.e.g >= |file| then w
      else match last.e
        case Read(g) => w.(buffers := w.buffers[last.pid := w.file[g]])
        case Write(g) =>
          if last.pid !in w.buffers then w
          else
            var v := last.edit(w.buffers[last.pid]);
            World(w.file[g := v], w.buffers[last.pid := v])
        case _ => w
  }

  /** What should happen: every write edits the group as it is at that moment. */
  ghost function Atomic<V>(log: seq<Act<V>>, file: seq<V>): (r: seq<V>)
    ensures |r| == |file|
  {
    if log == [] then file
    else
      var r, last := Atomic(log[..|log| - 1], file), log[|log| - 1];
      if last.e.Write? && last.e.g < |file| then r[last.e.g := last.edit(r[last.e.g])] else r
  }

  /** At every point of an interleaving each process holds at most one group's lock, has read only under
      it, and has written only a group read under it. */
  lemma NeverBroken<V>(log: seq<Act<V>>, traces: nat -> seq<Event>, pid: nat)
    requires Interleaves(log, traces)
    ensures HoldOf(log, pid) != Broken
  {
    hide Project, After;
    var done := Project(log, pid);
    BeginningHolds(traces(pid), |done|);
    assert traces(pid)[..|done|] == done;
    HoldIsAfter(log, pid);
  }

  lemma InterleavesBefore<V>(log: seq<Act<V>>, traces: nat -> seq<Event>)
    requires log != [] && Interleaves(log, traces)
    ensures Interleaves(log[..|log| - 1], traces)
  {
    hide After;
    forall pid: nat ensures Project(log[..|log| - 1], pid) <= traces(pid) {
      assert Project(log[..|log| - 1], pid) <= Project(log, pid);
    }
  }

  /** No two processes hold the same group. */
  lemma {:induction false} Exclusive<V>(log: seq<Act<V>>, traces: nat -> seq<Event>, p: nat, q: nat)
    requires Granted(log) && Interleaves(log, traces)
    requires HoldOf(log, p).Held? && HoldOf(log, q).Held? && HoldOf(log, p).g == HoldOf(log, q).g
    ensures p == q
  {
    hide Interleaves;
    var init, last := log[..|log| - 1], log[|log| - 1];
    InterleavesBefore(log, traces);
    NeverBroken(init, traces, p);
    NeverBroken(init, traces, q);
    if HoldOf(init, p).Held? && HoldOf(init, q).Held? {
      Exclusive(init, traces, p, q);
    }
  }

  /** In every interleaving the interleaved run and the atomic run leave the same
      file: no process's group update is lost to another's. */
  lemma {:induction false} NoLostUpdate<V>(log: seq<Act<V>>, traces: nat -> seq<Event>, file: seq<V>)
    requires Granted(log) && Interleaves(log, traces)
    ensures Run(log, file).file == Atomic(log, file)
    ensures forall pid: nat :: var h := HoldOf(log, pid); h.Held? && h.seen && h.g < |file| ==>
              pid in Run(log, file).buffers && Run(log, file).buffers[pid] == Run(log, file).file[h.g]
  {
    hide Interleaves;
    if log != [] {
      var init, last := log[..|log| - 1], log[|log| - 1];
      InterleavesBefore(log, traces);
      NoLostUpdate(init, traces, file);
      NeverBroken(log, traces, last.pid);
      forall pid: nat | HoldOf(log, pid).Held? && HoldOf(log, pid).seen && HoldOf(log, pid).g < |file|
        ensures var h := HoldOf(log, pid);
                pid in Run(log, file).buffers && Run(log, file).buffers[pid] == Run(log, file).file[h.g]
      {
        if pid != last.pid && last.e.Write? && HoldOf(init, pid).g == last.e.g {
          NeverBroken(init, traces, last.pid);
          Exclusive(init, traces, pid, last.pid);
        }
      }
    }
  }

  /** One operation after another. */
  function Joined(segments: seq<seq<Event>>): seq<Event> {
    if segments == [] then [] else Joined(segments[..|segments| - 1]) + segments[|segments| - 1]
  }

  lemma JoinedOne(segment: seq<Event>)
    ensures Joined([segment]) == segment
  {
    assert [segment][..0] == [] && [] + segment == segment;
  }

  lemma {:induction false} JoinedFree(segments: seq<seq<Event>>)
    requires forall k :: 0 <= k < |segments| ==> After(segments[k]) == Free
    ensures After(Joined(segments)) == Free
  {
    if segments != [] {
      JoinedFree(segments[..|segments| - 1]);
      AfterFree(Joined(segments[..|segments| - 1]), segments[|segments| - 1]);
    }
  }

  /** Processes that each carry out operation after operation, every one of which starts and ends without a
      lock: however they interleave, and wherever each has got to, no group update is lost. */
  lemma OperationsLoseNothing<V>(operations: nat -> seq<seq<Event>>, log: seq<Act<V>>, file: seq<V>)
    requires forall pid: nat, k: nat :: k < |operations(pid)| ==> After(operations(pid)[k]) == Free
    requires forall pid: nat :: Project(log, pid) <= Joined(operations(pid))
    requires Granted(log)
    ensures Run(log, file).file == Atomic(log, file)
  {
    hide After, Project, Joined, Run, Atomic;
    var traces := (pid: nat) => Joined(operations(pid));
    forall pid: nat ensures After(traces(pid)) == Free {
      JoinedFree(operations(pid));
    }
    assert Interleaves(log, traces);
    NoLostUpdate(log, traces, file);
  }
}
