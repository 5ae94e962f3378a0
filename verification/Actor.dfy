/** The actor: a haltable command queue, commands with a budget of tries, and the main loop,
    as a state machine whose steps interleave with those of other threads. */
module Actors {
  import opened Common

  datatype Importance = VITAL | SUBVITAL | NORMAL | TRIVIAL

  /** A command: `id` tells commands apart, `tries` is what is left of its budget. */
  datatype Cmd = Cmd(id: nat, importance: Importance, tries: nat)

  // ---------------------------------------------------------------------
  // The queue
  // ---------------------------------------------------------------------

  datatype Queue = Queue(items: seq<Cmd>, halted: bool)

  function Pushed(q: Queue, c: Cmd): Queue {
    if q.halted then q else q.(items := q.items + [c])
  }

  function PushedFront(q: Queue, c: Cmd): Queue {
    if q.halted then q else q.(items := [c] + q.items)
  }

  class ThreadSafeQueue {
    var items: seq<Cmd>
    var halted: bool

    ghost function View(): Queue
      reads this
    {
      Queue(items, halted)
    }

    constructor ()
      ensures View() == Queue([], false)
    {
      items, halted := [], false;
    }

    method Push(c: Cmd)
      modifies this
      ensures View() == Pushed(old(View()), c)
    {
      if !halted {
        items := items + [c];
      }
    }

    method PushFront(c: Cmd)
      modifies this
      ensures View() == PushedFront(old(View()), c)
    {
      if !halted {
        items := [c] + items;
      }
    }

    /** Returns once there is something to pop or the queue is halted; None stands for the
        exception that the queue was halted. */
    method WaitAndPop() returns (r: Option<Cmd>)
      requires items != [] || halted
      modifies this
      ensures old(items) == [] ==> r == None && View() == old(View())
      ensures old(items) != [] ==> r == Some(old(items)[0]) && View() == old(View()).(items := old(items)[1..])
    {
      if halted && items == [] {
        return None;
      }
      r := Some(items[0]);
      items := items[1..];
    }

    /** IsExistStopTask. */
    method HasVital() returns (r: bool)
      ensures r == AnyVital(items)
    {
      r := false;
      for i := 0 to |items|
        invariant r == AnyVital(items[..i])
      {
        assert items[..i + 1] == items[..i] + [items[i]];
        if items[i].importance == VITAL {
          r := true;
        }
      }
      assert items[..|items|] == items;
    }

    method Halt()
      modifies this
      ensures View() == old(View()).(halted := true)
    {
      halted := true;
    }
  }

  predicate AnyVital(items: seq<Cmd>) {
    exists c :: c in items && c.importance == VITAL
  }

  // ---------------------------------------------------------------------
  // The machine
  // ---------------------------------------------------------------------

  /** Where the main loop stands. A held command is in nobody else's hands. */
  datatype Pc =
    | Idle
    | Popped(cmd: Cmd)
    | Failed(cmd: Cmd)
    | Retrying(cmd: Cmd)
    | RebootStop
    | RebootStart
    | Exited(drained: bool)

  /** The actor's state; executions, budgets and the last command executed are kept for the record. */
  datatype State = State(queue: Queue, delayed: seq<Cmd>, pc: Pc, nextId: nat,
                         executed: map<nat, nat>, budget: map<nat, nat>, last: Option<nat>)

  datatype Outcome = Success | Throws | ThrowsQueueStop | ThrowsOther

  datatype Step =
    | Submit(importance: Importance, tries: nat)   // Recv, StartActor, StopActor's Stop
    | Halt
    | Fire(k: nat)                                 // a delayed retry wakes up
    | Pop
    | Drain
    | Execute(outcome: Outcome)
    | Decide
    | PushRetry
    | PushStop
    | PushStart

  /** The steps other threads take. */
  predicate IsForeign(st: Step) { st.Submit? || st.Halt? || st.Fire? }

  /** A new command enters the queue, unless the queue is halted. */
  function Submitted(s: State, importance: Importance, tries: nat): State {
    s.(queue := Pushed(s.queue, Cmd(s.nextId, importance, tries)), nextId := s.nextId + 1,
       executed := s.executed[s.nextId := 0], budget := s.budget[s.nextId := tries])
  }

  predicate Enabled(s: State, st: Step) {
    match st
    case Submit(_, _) => true
    case Halt => true
    case Fire(k) => k < |s.delayed|
    case Pop => s.pc.Idle? && s.queue.items != []
    case Drain => s.pc.Idle? && s.queue.items == [] && s.queue.halted
    case Execute(_) => s.pc.Popped? && s.pc.cmd.id in s.executed
    case Decide => s.pc.Failed?
    case PushRetry => s.pc.Retrying?
    case PushStop => s.pc.RebootStop?
    case PushStart => s.pc.RebootStart?
  }

  /** operator(): no tries left throws without executing; otherwise one try is used up. */
  function Executed(s: State, c: Cmd, outcome: Outcome): State
    requires c.id in s.executed
  {
    if c.tries == 0 then s.(pc := Failed(c))
    else
      var c' := c.(tries := c.tries - 1);
      var pc' := match outcome
                 case Success => Idle
                 case Throws => Failed(c')
                 case ThrowsQueueStop => Exited(false)
                 case ThrowsOther => Idle;
      s.(pc := pc', executed := s.executed[c.id := s.executed[c.id] + 1], last := Some(c.id))
  }

  /** ExceptionHandler, up to the push it decides on. */
  function Decided(s: State, c: Cmd): State {
    if AnyVital(s.queue.items) && c.tries > 0 then s.(pc := Idle)
    else if c.importance == TRIVIAL then
      if c.tries > 0 then s.(pc := Idle, delayed := s.delayed + [c]) else s.(pc := Idle)
    else if c.tries > 0 then s.(pc := Retrying(c))
    else if c.importance == VITAL then s.(pc := Exited(false))
    else if c.importance == NORMAL then s.(pc := RebootStop)
    else s.(pc := Idle)
  }

  function Next(s: State, st: Step, retryTimes: nat): State
    requires Enabled(s, st)
  {
    match st
    case Submit(importance, tries) => Submitted(s, importance, tries)
    case Halt => s.(queue := s.queue.(halted := true))
    case Fire(k) => s.(queue := Pushed(s.queue, s.delayed[k]), delayed := s.delayed[..k] + s.delayed[k + 1..])
    case Pop => s.(pc := Popped(s.queue.items[0]), queue := s.queue.(items := s.queue.items[1..]))
    case Drain => s.(pc := Exited(true))
    case Execute(outcome) => Executed(s, s.pc.cmd, outcome)
    case Decide => Decided(s, s.pc.cmd)
    case PushRetry => s.(pc := Idle, queue := PushedFront(s.queue, s.pc.cmd))
    case PushStop => Submitted(s, VITAL, 1).(pc := RebootStart)
    case PushStart => Submitted(s, SUBVITAL, retryTimes).(pc := Idle)
  }

  const START: State := State(Queue([], false), [], Idle, 0, map[], map[], None)

  /** A finite run of the machine. */
  ghost predicate IsRun(from: State, steps: seq<Step>, end: State, retryTimes: nat)
    decreases |steps|
  {
    if steps == [] then from == end
    else Enabled(from, steps[0]) && IsRun(Next(from, steps[0], retryTimes), steps[1..], end, retryTimes)
  }

  // ---------------------------------------------------------------------
  // Budgets
  // ---------------------------------------------------------------------

  function Held(pc: Pc): seq<Cmd> {
    if pc.Popped? || pc.Failed? || pc.Retrying? then [pc.cmd] else []
  }

  predicate DistinctIds(xs: seq<Cmd>) {
    forall i, j :: 0 <= i < j < |xs| ==> xs[i].id != xs[j].id
  }

  predicate Apart(xs: seq<Cmd>, ys: seq<Cmd>) {
    forall i, j :: 0 <= i < |xs| && 0 <= j < |ys| ==> xs[i].id != ys[j].id
  }

  /** No command is in two places. */
  predicate OnePlace(s: State) {
    && DistinctIds(s.queue.items) && DistinctIds(s.delayed)
    && Apart(s.queue.items, s.delayed) && Apart(s.queue.items, Held(s.pc)) && Apart(s.delayed, Held(s.pc))
  }

  predicate Accounted(s: State, xs: seq<Cmd>) {
    forall k :: 0 <= k < |xs| ==>
      && xs[k].id in s.executed && xs[k].id in s.budget
      && s.executed[xs[k].id] + xs[k].tries == s.budget[xs[k].id]
  }

  /** Executions so far plus tries left make up the initial budget, for every live command;
      and no command ever executes more often than its budget. */
  predicate BudgetInv(s: State) {
    && OnePlace(s)
    && Accounted(s, s.queue.items) && Accounted(s, s.delayed) && Accounted(s, Held(s.pc))
    && s.executed.Keys == s.budget.Keys
    && (forall id :: id in s.executed ==> id < s.nextId && s.executed[id] <= s.budget[id])
  }

  lemma SubmitKeepsBudget(s: State, importance: Importance, tries: nat, pc: Pc)
    requires BudgetInv(s) && Held(pc) == Held(s.pc)
    ensures BudgetInv(Submitted(s, importance, tries).(pc := pc))
  {
  }

  lemma FireKeepsBudget(s: State, k: nat, retryTimes: nat)
    requires BudgetInv(s) && Enabled(s, Fire(k))
    ensures BudgetInv(Next(s, Fire(k), retryTimes))
  {
  }

  lemma PopKeepsBudget(s: State, retryTimes: nat)
    requires BudgetInv(s) && Enabled(s, Pop)
    ensures BudgetInv(Next(s, Pop, retryTimes))
  {
  }

  lemma ExecuteKeepsBudget(s: State, outcome: Outcome, retryTimes: nat)
    requires BudgetInv(s) && Enabled(s, Execute(outcome))
    ensures BudgetInv(Next(s, Execute(outcome), retryTimes))
  {
    assert Held(s.pc)[0] == s.pc.cmd;
  }

  lemma DecideKeepsBudget(s: State, retryTimes: nat)
    requires BudgetInv(s) && Enabled(s, Decide)
    ensures BudgetInv(Next(s, Decide, retryTimes))
  {
    assert Held(s.pc)[0] == s.pc.cmd;
  }

  lemma RetryKeepsBudget(s: State, retryTimes: nat)
    requires BudgetInv(s) && Enabled(s, PushRetry)
    ensures BudgetInv(Next(s, PushRetry, retryTimes))
  {
    assert Held(s.pc)[0] == s.pc.cmd;
  }

  lemma QuietStepKeepsBudget(s: State, st: Step, retryTimes: nat)
    requires BudgetInv(s) && Enabled(s, st) && (st.Halt? || st.Drain?)
    ensures BudgetInv(Next(s, st, retryTimes))
  {
  }

  lemma StepKeepsBudget(s: State, st: Step, retryTimes: nat)
    requires BudgetInv(s) && Enabled(s, st)
    ensures BudgetInv(Next(s, st, retryTimes))
  {
    hide BudgetInv, Decided, Executed, Submitted, Pushed, PushedFront;
    match st
    case Submit(importance, tries) =>
      SubmitKeepsBudget(s, importance, tries, s.pc);
      SubmitKeepsPc(s, importance, tries);
    case Halt => QuietStepKeepsBudget(s, st, retryTimes);
    case Fire(k) => FireKeepsBudget(s, k, retryTimes);
    case Pop => PopKeepsBudget(s, retryTimes);
    case Drain => QuietStepKeepsBudget(s, st, retryTimes);
    case Execute(outcome) => ExecuteKeepsBudget(s, outcome, retryTimes);
    case Decide => DecideKeepsBudget(s, retryTimes);
    case PushRetry => RetryKeepsBudget(s, retryTimes);
    case PushStop => SubmitKeepsBudget(s, VITAL, 1, RebootStart);
    case PushStart => SubmitKeepsBudget(s, SUBVITAL, retryTimes, Idle);
  }

  lemma SubmitKeepsPc(s: State, importance: Importance, tries: nat)
    ensures Submitted(s, importance, tries).(pc := s.pc) == Submitted(s, importance, tries)
  {
  }

  /** Over every run, every command's body executes at most its initial number of tries. */
  lemma {:induction false} RunKeepsBudget(from: State, steps: seq<Step>, end: State, retryTimes: nat)
    requires BudgetInv(from) && IsRun(from, steps, end, retryTimes)
    ensures BudgetInv(end)
    decreases |steps|
  {
    hide BudgetInv, Next, Enabled;
    if steps != [] {
      StepKeepsBudget(from, steps[0], retryTimes);
      RunKeepsBudget(Next(from, steps[0], retryTimes), steps[1..], end, retryTimes);
    }
  }

  lemma StartInvariants()
    ensures BudgetInv(START) && RetryInv(START)
  {
  }

  function Tries(xs: seq<Cmd>): nat {
    if xs == [] then 0 else Tries(xs[..|xs| - 1]) + xs[|xs| - 1].tries
  }

  /** Everything that may still execute. */
  function Remaining(s: State): nat {
    Tries(s.queue.items) + Tries(s.delayed) + Tries(Held(s.pc))
  }

  lemma {:induction false} TriesAdd(xs: seq<Cmd>, ys: seq<Cmd>)
    ensures Tries(xs + ys) == Tries(xs) + Tries(ys)
  {
    if ys == [] {
      assert xs + ys == xs;
    } else {
      var n := |ys| - 1;
      TriesAdd(xs, ys[..n]);
      assert (xs + ys)[..|xs| + n] == xs + ys[..n];
    }
  }

  lemma TriesOne(c: Cmd)
    ensures Tries([c]) == c.tries
  {
  }

  /** What a step may add to the total. */
  function Added(st: Step, retryTimes: nat): nat {
    match st
    case Submit(_, tries) => tries
    case PushStop => 1
    case PushStart => retryTimes
    case _ => 0
  }

  /** Each execution uses up budget; only new commands, and a reboot's Stop and Start, add any. */
  lemma RemainingFalls(s: State, st: Step, retryTimes: nat)
    requires Enabled(s, st)
    ensures Remaining(Next(s, st, retryTimes)) <= Remaining(s) + Added(st, retryTimes)
    ensures st.Execute? && s.pc.cmd.tries > 0 ==> Remaining(Next(s, st, retryTimes)) < Remaining(s)
  {
    hide AnyVital, Pushed, Tries;
    TriesNone();
    match st
    case Submit(importance, tries) => PushAdds(s.queue, Cmd(s.nextId, importance, tries));
    case Fire(k) =>
      PushAdds(s.queue, s.delayed[k]);
      TriesWithout(s.delayed, k);
    case Pop => TriesWithout(s.queue.items, 0);
    case Execute(_) =>
      TriesOne(s.pc.cmd);
      TriesOne(s.pc.cmd.(tries := if s.pc.cmd.tries > 0 then s.pc.cmd.tries - 1 else 0));
    case Decide => TriesAdd(s.delayed, [s.pc.cmd]);
    case PushRetry => TriesAdd([s.pc.cmd], s.queue.items);
    case PushStop => PushAdds(s.queue, Cmd(s.nextId, VITAL, 1));
    case PushStart => PushAdds(s.queue, Cmd(s.nextId, SUBVITAL, retryTimes));
    case _ =>
  }

  lemma TriesNone()
    ensures Tries([]) == 0
  {
  }

  lemma TriesWithout(xs: seq<Cmd>, k: nat)
    requires k < |xs|
    ensures Tries(xs[..k] + xs[k + 1..]) + xs[k].tries == Tries(xs)
    ensures k == 0 ==> Tries(xs[1..]) + Tries([xs[0]]) == Tries(xs)
  {
    hide Tries;
    var before, after := xs[..k], xs[k + 1..];
    assert xs == before + ([xs[k]] + after);
    TriesAdd(before, [xs[k]] + after);
    TriesAdd([xs[k]], after);
    TriesAdd(before, after);
    TriesOne(xs[k]);
    assert k == 0 ==> before + after == xs[1..];
  }

  lemma PushAdds(q: Queue, c: Cmd)
    ensures Tries(Pushed(q, c).items) <= Tries(q.items) + c.tries
  {
    TriesAdd(q.items, [c]);
    TriesOne(c);
  }

  // ---------------------------------------------------------------------
  // Attempts of one command are consecutive
  // ---------------------------------------------------------------------

  /** A command above TRIVIAL that has executed and is still live. */
  predicate UnderRetry(s: State, c: Cmd) {
    c.importance != TRIVIAL && c.id in s.executed && s.executed[c.id] > 0
  }

  /** Such a command is the last one executed, and is either held by the main loop or first in the queue. */
  predicate RetryInv(s: State) {
    && (forall k :: 0 <= k < |s.delayed| ==> s.delayed[k].importance == TRIVIAL)
    && (forall k :: 0 <= k < |s.queue.items| && UnderRetry(s, s.queue.items[k]) ==>
          k == 0 && s.pc.Idle? && s.last == Some(s.queue.items[k].id))
    && (forall k :: 0 <= k < |Held(s.pc)| && UnderRetry(s, Held(s.pc)[k]) ==> s.last == Some(Held(s.pc)[k].id))
  }

  lemma SubmitKeepsRetry(s: State, importance: Importance, tries: nat, pc: Pc)
    requires BudgetInv(s) && RetryInv(s) && Held(pc) == Held(s.pc) && (s.pc.Idle? ==> pc.Idle?)
    ensures RetryInv(Submitted(s, importance, tries).(pc := pc))
  {
    hide OnePlace;
  }

  lemma ExecuteKeepsRetry(s: State, outcome: Outcome, retryTimes: nat)
    requires BudgetInv(s) && RetryInv(s) && Enabled(s, Execute(outcome))
    ensures RetryInv(Next(s, Execute(outcome), retryTimes))
  {
    assert Held(s.pc)[0] == s.pc.cmd;
  }

  lemma MoveKeepsRetry(s: State, st: Step, retryTimes: nat)
    requires RetryInv(s) && Enabled(s, st) && (st.Halt? || st.Drain? || st.Pop? || st.Decide? || st.PushRetry?)
    ensures RetryInv(Next(s, st, retryTimes))
  {
    assert s.pc.Failed? || s.pc.Retrying? ==> Held(s.pc)[0] == s.pc.cmd;
  }

  lemma FireKeepsRetry(s: State, k: nat, retryTimes: nat)
    requires RetryInv(s) && Enabled(s, Fire(k))
    ensures RetryInv(Next(s, Fire(k), retryTimes))
  {
  }

  lemma StepKeepsRetry(s: State, st: Step, retryTimes: nat)
    requires BudgetInv(s) && RetryInv(s) && Enabled(s, st)
    ensures RetryInv(Next(s, st, retryTimes))
  {
    hide BudgetInv, RetryInv, Decided, Executed, Submitted, Pushed, PushedFront;
    match st
    case Submit(importance, tries) =>
      SubmitKeepsRetry(s, importance, tries, s.pc);
      SubmitKeepsPc(s, importance, tries);
    case Fire(k) => FireKeepsRetry(s, k, retryTimes);
    case Execute(outcome) => ExecuteKeepsRetry(s, outcome, retryTimes);
    case PushStop => SubmitKeepsRetry(s, VITAL, 1, RebootStart);
    case PushStart => SubmitKeepsRetry(s, SUBVITAL, retryTimes, Idle);
    case _ => MoveKeepsRetry(s, st, retryTimes);
  }

  /** So from the start on, in every run. */
  lemma {:induction false} RunKeepsRetry(from: State, steps: seq<Step>, end: State, retryTimes: nat)
    requires BudgetInv(from) && RetryInv(from) && IsRun(from, steps, end, retryTimes)
    ensures RetryInv(end)
    decreases |steps|
  {
    hide BudgetInv, RetryInv, Next, Enabled;
    if steps != [] {
      StepKeepsBudget(from, steps[0], retryTimes);
      StepKeepsRetry(from, steps[0], retryTimes);
      RunKeepsRetry(Next(from, steps[0], retryTimes), steps[1..], end, retryTimes);
    }
  }

  /** In every run: when a command above TRIVIAL executes again, the last one executed is itself. */
  lemma AttemptsAreConsecutive(steps: seq<Step>, s: State, outcome: Outcome, retryTimes: nat)
    requires IsRun(START, steps, s, retryTimes) && Enabled(s, Execute(outcome)) && UnderRetry(s, s.pc.cmd)
    ensures s.last == Some(s.pc.cmd.id)
  {
    hide BudgetInv;
    StartInvariants();
    RunKeepsRetry(START, steps, s, retryTimes);
    assert Held(s.pc)[0] == s.pc.cmd;
  }

  // ---------------------------------------------------------------------
  // Shutdown
  // ---------------------------------------------------------------------

  function Pops(steps: seq<Step>): nat {
    if steps == [] then 0 else (if steps[0].Pop? then 1 else 0) + Pops(steps[1..])
  }

  function MainSteps(steps: seq<Step>): nat {
    if steps == [] then 0 else (if IsForeign(steps[0]) then 0 else 1) + MainSteps(steps[1..])
  }

  function Rank(pc: Pc): nat {
    match pc
    case Idle => 1
    case Popped(_) => 5
    case Failed(_) => 4
    case Retrying(_) => 2
    case RebootStop => 3
    case RebootStart => 2
    case Exited(_) => 0
  }

  function Measure(s: State): nat {
    5 * |s.queue.items| + Rank(s.pc)
  }

  /** Once halted, nothing enters the queue and it only loses its front. */
  lemma HaltedStep(s: State, st: Step, retryTimes: nat)
    requires s.queue.halted && Enabled(s, st)
    ensures var n := Next(s, st, retryTimes);
            && n.queue.halted
            && (st.Pop? ==> s.queue.items != [])
            && n.queue.items == (if st.Pop? then s.queue.items[1..] else s.queue.items)
            && (if IsForeign(st) then Measure(n) == Measure(s) else Measure(n) < Measure(s))
            && (n.pc == Exited(true) ==> s.pc == Exited(true) || s.queue.items == [])
  {
  }

  /** After Halt, whatever the other threads do: the queue is popped in order and never refilled;
      the main loop takes at most 5 * |queue| + 5 further steps; and if it leaves because the queue
      has run dry, everything that was queued, Stop included, was popped first. */
  lemma {:induction false} ShutdownDrains(from: State, steps: seq<Step>, end: State, retryTimes: nat)
    requires from.queue.halted && IsRun(from, steps, end, retryTimes)
    ensures Pops(steps) <= |from.queue.items| && end.queue.items == from.queue.items[Pops(steps)..]
    ensures MainSteps(steps) + Measure(end) <= Measure(from)
    ensures end.pc == Exited(true) && from.pc != Exited(true) ==> Pops(steps) == |from.queue.items|
    decreases |steps|
  {
    hide Next, Enabled, Measure;
    if steps != [] {
      var mid := Next(from, steps[0], retryTimes);
      HaltedStep(from, steps[0], retryTimes);
      ShutdownDrains(mid, steps[1..], end, retryTimes);
      if steps[0].Pop? {
        assert from.queue.items[1..][Pops(steps[1..])..] == from.queue.items[Pops(steps)..];
      }
    }
  }

  /** The main loop is about to leave early: a VITAL command is out of tries, or a body reports the
      queue's stop. */
  predicate GivesUp(s: State, st: Step) {
    || (st.Decide? && s.pc.Failed? && s.pc.cmd.importance == VITAL && s.pc.cmd.tries == 0)
    || (st == Execute(ThrowsQueueStop) && s.pc.Popped? && s.pc.cmd.tries > 0)
  }

  lemma GivesUpIff(s: State, st: Step, retryTimes: nat)
    requires Enabled(s, st) && s.pc != Exited(false)
    ensures Next(s, st, retryTimes).pc == Exited(false) <==> GivesUp(s, st)
  {
  }

  ghost predicate NeverGivesUp(from: State, steps: seq<Step>, retryTimes: nat)
    decreases |steps|
  {
    steps != [] && Enabled(from, steps[0]) ==>
      !GivesUp(from, steps[0]) && NeverGivesUp(Next(from, steps[0], retryTimes), steps[1..], retryTimes)
  }

  lemma {:induction false} NotEarly(from: State, steps: seq<Step>, end: State, retryTimes: nat)
    requires IsRun(from, steps, end, retryTimes) && NeverGivesUp(from, steps, retryTimes) && from.pc != Exited(false)
    ensures end.pc != Exited(false)
    decreases |steps|
  {
    hide Next, Enabled, GivesUp;
    if steps != [] {
      GivesUpIff(from, steps[0], retryTimes);
      NotEarly(Next(from, steps[0], retryTimes), steps[1..], end, retryTimes);
    }
  }

  /** If no VITAL command fails, a main loop that leaves after Halt has popped everything queued. */
  lemma OrderlyShutdown(from: State, steps: seq<Step>, end: State, retryTimes: nat)
    requires from.queue.halted && IsRun(from, steps, end, retryTimes) && NeverGivesUp(from, steps, retryTimes)
    requires !from.pc.Exited? && end.pc.Exited?
    ensures Pops(steps) == |from.queue.items| && end.queue.items == []
  {
    hide IsRun, NeverGivesUp, Pops;
    NotEarly(from, steps, end, retryTimes);
    ShutdownDrains(from, steps, end, retryTimes);
  }

  /** A live main loop on a halted queue can always go on, so it does exit. */
  lemma HaltedProgress(s: State) returns (st: Step)
    requires s.queue.halted && BudgetInv(s) && !s.pc.Exited?
    ensures Enabled(s, st) && !IsForeign(st)
  {
    match s.pc
    case Idle => st := if s.queue.items == [] then Drain else Pop;
    case Popped(c) =>
      assert Held(s.pc)[0] == c;
      st := Execute(Success);
    case Failed(_) => st := Decide;
    case Retrying(_) => st := PushRetry;
    case RebootStop => st := PushStop;
    case RebootStart => st := PushStart;
  }

  // ---------------------------------------------------------------------
  // What becomes of a command that fails
  // ---------------------------------------------------------------------

  /** An exception makes the handler go one of six ways, by importance, tries left and a queued Stop. */
  lemma DecideSays(s: State, retryTimes: nat)
    requires Enabled(s, Decide)
    ensures var c, n := s.pc.cmd, Next(s, Decide, retryTimes);
            && n.queue == s.queue && n.executed == s.executed
            && (c.importance == NORMAL && c.tries == 0 ==> n.pc == RebootStop && n.delayed == s.delayed)
            && (c.importance == VITAL && c.tries == 0 ==> n.pc == Exited(false) && n.delayed == s.delayed)
            && (c.importance == SUBVITAL && c.tries == 0 ==> n.pc == Idle && n.delayed == s.delayed)
            && (c.importance == TRIVIAL && c.tries == 0 ==> n.pc == Idle && n.delayed == s.delayed)
            && (c.tries > 0 && (exists v :: v in s.queue.items && v.importance == VITAL) ==> n.pc == Idle && n.delayed == s.delayed)
            && (c.tries > 0 && !(exists v :: v in s.queue.items && v.importance == VITAL) ==>
                  if c.importance == TRIVIAL then n.pc == Idle && n.delayed == s.delayed + [c]
                  else n.pc == Retrying(c) && n.delayed == s.delayed)
  {
  }

  /** A retry goes in front of the queue; a delayed one wakes up at its end; a halted queue takes neither. */
  lemma RetrySays(s: State, k: nat, retryTimes: nat)
    ensures Enabled(s, PushRetry) ==>
              var n := Next(s, PushRetry, retryTimes);
              n.pc == Idle && n.queue.items == (if s.queue.halted then s.queue.items else [s.pc.cmd] + s.queue.items)
    ensures Enabled(s, Fire(k)) ==>
              var n := Next(s, Fire(k), retryTimes);
              && n.queue.items == (if s.queue.halted then s.queue.items else s.queue.items + [s.delayed[k]])
              && multiset(n.delayed) == multiset(s.delayed) - multiset{s.delayed[k]}
  {
    if Enabled(s, Fire(k)) {
      assert s.delayed == s.delayed[..k] + [s.delayed[k]] + s.delayed[k + 1..];
    }
  }

  /** A reboot appends a Stop of one try and then a Start of the configured number of tries. */
  lemma RebootSays(s: State, retryTimes: nat)
    ensures s.pc == RebootStop ==>
              && Enabled(s, PushStop)
              && var n := Next(s, PushStop, retryTimes);
                 n.pc == RebootStart && (!s.queue.halted ==> n.queue.items == s.queue.items + [Cmd(s.nextId, VITAL, 1)])
    ensures s.pc == RebootStart ==>
              && Enabled(s, PushStart)
              && var n := Next(s, PushStart, retryTimes);
                 n.pc == Idle && (!s.queue.halted ==> n.queue.items == s.queue.items + [Cmd(s.nextId, SUBVITAL, retryTimes)])
  {
  }

  /** The state and the step at which the main loop last did something, if it did. */
  ghost function LastMain(from: State, steps: seq<Step>, retryTimes: nat): (r: Option<(State, Step)>)
    ensures r.Some? ==> Enabled(r.value.0, r.value.1) && !IsForeign(r.value.1)
    decreases |steps|
  {
    if steps == [] || !Enabled(from, steps[0]) then None
    else
      var later := LastMain(Next(from, steps[0], retryTimes), steps[1..], retryTimes);
      if later.Some? then later
      else if IsForeign(steps[0]) then None
      else Some((from, steps[0]))
  }

  lemma ForeignKeepsPc(s: State, st: Step, retryTimes: nat)
    requires Enabled(s, st) && IsForeign(st)
    ensures Next(s, st, retryTimes).pc == s.pc
  {
  }

  /** Other threads do not move the main loop. */
  lemma {:induction false} PcIsLastMains(from: State, steps: seq<Step>, end: State, retryTimes: nat)
    requires IsRun(from, steps, end, retryTimes)
    ensures var l := LastMain(from, steps, retryTimes);
            end.pc == if l.Some? then Next(l.value.0, l.value.1, retryTimes).pc else from.pc
    decreases |steps|
  {
    hide Next, Enabled, IsForeign;
    if steps != [] {
      PcIsLastMains(Next(from, steps[0], retryTimes), steps[1..], end, retryTimes);
      if IsForeign(steps[0]) {
        ForeignKeepsPc(from, steps[0], retryTimes);
      }
    }
  }

  /** The reboot is due: a NORMAL command without tries left is being decided on. */
  ghost predicate RebootDue(s: State, st: Step) {
    st == Decide && s.pc.Failed? && s.pc.cmd.importance == NORMAL && s.pc.cmd.tries == 0
  }

  lemma RebootStepIff(s: State, st: Step, retryTimes: nat)
    requires Enabled(s, st) && !IsForeign(st)
    ensures Next(s, st, retryTimes).pc == RebootStop <==> RebootDue(s, st)
  {
  }

  lemma {:induction false} LastMainIsReached(from: State, steps: seq<Step>, end: State, retryTimes: nat)
    requires IsRun(from, steps, end, retryTimes) && BudgetInv(from) && LastMain(from, steps, retryTimes).Some?
    ensures BudgetInv(LastMain(from, steps, retryTimes).value.0)
    decreases |steps|
  {
    hide Next, Enabled, IsForeign, BudgetInv;
    if steps != [] {
      var n := Next(from, steps[0], retryTimes);
      if LastMain(n, steps[1..], retryTimes).Some? {
        StepKeepsBudget(from, steps[0], retryTimes);
        LastMainIsReached(n, steps[1..], end, retryTimes);
      }
    }
  }

  /** In every run: the actor is about to reboot if and only if the last thing its main loop did was to decide on
      a NORMAL command that had no tries left, having executed as often as it was given tries for. */
  lemma RebootsIff(steps: seq<Step>, s: State, retryTimes: nat)
    requires IsRun(START, steps, s, retryTimes)
    ensures var l := LastMain(START, steps, retryTimes);
            && (Enabled(s, PushStop) <==> l.Some? && RebootDue(l.value.0, l.value.1))
            && (Enabled(s, PushStop) ==>
                  var w := l.value.0;
                  w.pc.cmd.id in w.executed && w.pc.cmd.id in w.budget && w.executed[w.pc.cmd.id] == w.budget[w.pc.cmd.id])
  {
    hide Next, BudgetInv, LastMain, IsRun;
    PcIsLastMains(START, steps, s, retryTimes);
    var l := LastMain(START, steps, retryTimes);
    if l.Some? {
      RebootStepIff(l.value.0, l.value.1, retryTimes);
      StartInvariants();
      LastMainIsReached(START, steps, s, retryTimes);
      HeldIsAccounted(l.value.0);
    }
  }

  lemma HeldIsAccounted(s: State)
    requires BudgetInv(s)
    ensures s.pc.Failed? ==>
              s.pc.cmd.id in s.executed && s.pc.cmd.id in s.budget && s.executed[s.pc.cmd.id] + s.pc.cmd.tries == s.budget[s.pc.cmd.id]
  {
    if s.pc.Failed? {
      assert Held(s.pc)[0] == s.pc.cmd;
    }
  }

  // ---------------------------------------------------------------------
  // What is done is done
  // ---------------------------------------------------------------------

  /** The command is in nobody's hands any more. */
  ghost predicate Gone(s: State, id: nat) {
    id < s.nextId && (forall c :: c in s.queue.items || c in s.delayed || c in Held(s.pc) ==> c.id != id)
  }

  /** A body that succeeds, or throws something the loop does not know, is done with; one that throws has a try
      less and is to be decided on; every execution is counted once. */
  lemma ExecuteSays(s: State, outcome: Outcome, retryTimes: nat)
    requires BudgetInv(s) && Enabled(s, Execute(outcome))
    ensures var c, n := s.pc.cmd, Next(s, Execute(outcome), retryTimes);
            && n.queue == s.queue && n.delayed == s.delayed
            && (c.tries > 0 ==> n.executed == s.executed[c.id := s.executed[c.id] + 1])
            && (c.tries > 0 && (outcome.Success? || outcome.ThrowsOther?) ==> n.pc == Idle && Gone(n, c.id))
            && (c.tries > 0 && outcome.Throws? ==> n.pc == Failed(c.(tries := c.tries - 1)))
            && (c.tries > 0 && outcome.ThrowsQueueStop? ==> n.pc == Exited(false))
            && (c.tries == 0 ==> n.pc == Failed(c) && n.executed == s.executed)
  {
    assert Held(s.pc)[0] == s.pc.cmd;
  }

  lemma GoneStaysGone(s: State, st: Step, id: nat, retryTimes: nat)
    requires BudgetInv(s) && Gone(s, id) && id in s.executed && Enabled(s, st)
    ensures var n := Next(s, st, retryTimes); Gone(n, id) && id in n.executed && n.executed[id] == s.executed[id]
  {
    hide BudgetInv;
    assert s.pc.Popped? || s.pc.Failed? || s.pc.Retrying? ==> s.pc.cmd in Held(s.pc);
  }

  /** In every run, what is gone neither comes back nor executes again. */
  lemma {:induction false} GoneForGood(from: State, steps: seq<Step>, end: State, id: nat, retryTimes: nat)
    requires BudgetInv(from) && IsRun(from, steps, end, retryTimes) && Gone(from, id) && id in from.executed
    ensures Gone(end, id) && id in end.executed && end.executed[id] == from.executed[id]
    decreases |steps|
  {
    hide BudgetInv, Next, Enabled, Gone;
    if steps != [] {
      StepKeepsBudget(from, steps[0], retryTimes);
      GoneStaysGone(from, steps[0], id, retryTimes);
      GoneForGood(Next(from, steps[0], retryTimes), steps[1..], end, id, retryTimes);
    }
  }

  // ---------------------------------------------------------------------
  // The loop itself
  // ---------------------------------------------------------------------

  lemma {:induction false} RunOn(from: State, steps: seq<Step>, mid: State, st: Step, retryTimes: nat)
    requires IsRun(from, steps, mid, retryTimes) && Enabled(mid, st)
    ensures IsRun(from, steps + [st], Next(mid, st, retryTimes), retryTimes)
    decreases |steps|
  {
    hide Next, Enabled;
    if steps == [] {
      assert ([] + [st])[1..] == [] && IsRun(Next(mid, st, retryTimes), [], Next(mid, st, retryTimes), retryTimes);
    } else {
      RunOn(Next(from, steps[0], retryTimes), steps[1..], mid, st, retryTimes);
      assert (steps + [st])[1..] == steps[1..] + [st];
    }
  }

  class DfsuActor {
    const pendingCmds: ThreadSafeQueue
    const retryTimes: nat
    var retryTasks: seq<Cmd>
    var nextId: nat

    constructor (retryTimes: nat)
      ensures this.retryTimes == retryTimes && Mirrors(START) && fresh(pendingCmds)
    {
      pendingCmds := new ThreadSafeQueue();
      this.retryTimes, retryTasks, nextId := retryTimes, [], 0;
    }

    /** The machine is in the state the actor is in. */
    ghost predicate Mirrors(s: State)
      reads this, pendingCmds
    {
      s.queue == pendingCmds.View() && s.delayed == retryTasks && s.nextId == nextId
    }

    method StartCtx()
      modifies this`nextId, pendingCmds
      ensures pendingCmds.View() == Pushed(old(pendingCmds.View()), Cmd(old(nextId), SUBVITAL, retryTimes)) && nextId == old(nextId) + 1
    {
      pendingCmds.Push(Cmd(nextId, SUBVITAL, retryTimes));
      nextId := nextId + 1;
    }

    method StopCtx()
      modifies this`nextId, pendingCmds
      ensures pendingCmds.View() == Pushed(old(pendingCmds.View()), Cmd(old(nextId), VITAL, 1)) && nextId == old(nextId) + 1
    {
      pendingCmds.Push(Cmd(nextId, VITAL, 1));
      nextId := nextId + 1;
    }

    /** What to do about a command that threw; false ends the loop. The steps are the machine's from the failure
        to where the loop goes on. */
    method ExceptionHandler(op: Cmd, ghost s: State) returns (goOn: bool, ghost steps: seq<Step>, ghost n: State)
      requires Mirrors(s) && s.pc == Failed(op)
      modifies this, pendingCmds
      ensures IsRun(s, steps, n, retryTimes) && Mirrors(n) && n.pc == if goOn then Idle else Exited(false)
      ensures goOn <==> !(op.importance == VITAL && op.tries == 0)
      // An exhausted NORMAL command reboots; an exhausted other one changes nothing.
      ensures op.tries == 0 && !pendingCmds.halted ==>
                && retryTasks == old(retryTasks)
                && pendingCmds.items == old(pendingCmds.items)
                   + if op.importance == NORMAL then [Cmd(old(nextId), VITAL, 1), Cmd(old(nextId) + 1, SUBVITAL, retryTimes)] else []
      // One with tries left is tried again, unless a Stop is queued.
      ensures op.tries > 0 && !pendingCmds.halted ==>
                var stopping := exists v :: v in old(pendingCmds.items) && v.importance == VITAL;
                && retryTasks == old(retryTasks) + (if !stopping && op.importance == TRIVIAL then [op] else [])
                && pendingCmds.items == (if !stopping && op.importance != TRIVIAL then [op] else []) + old(pendingCmds.items)
      ensures pendingCmds.halted == old(pendingCmds.halted)
      ensures pendingCmds.halted ==> pendingCmds.items == old(pendingCmds.items)
    {
      goOn, steps, n := true, [Decide], Next(s, Decide, retryTimes);
      var stopping := pendingCmds.HasVital();
      if stopping && op.tries > 0 {
        return;
      }
      if op.importance == TRIVIAL {
        if op.tries > 0 {
          retryTasks := retryTasks + [op];
          return;
        }
      } else {
        if op.tries > 0 {
          pendingCmds.PushFront(op);
          RunOn(s, steps, n, PushRetry, retryTimes);
          steps, n := steps + [PushRetry], Next(n, PushRetry, retryTimes);
          return;
        }
        if op.importance == VITAL {
          return false, steps, n;
        }
        if op.importance == NORMAL {
          StopCtx();
          RunOn(s, steps, n, PushStop, retryTimes);
          steps, n := steps + [PushStop], Next(n, PushStop, retryTimes);
          StartCtx();
          RunOn(s, steps, n, PushStart, retryTimes);
          steps, n := steps + [PushStart], Next(n, PushStart, retryTimes);
          return;
        }
      }
    }

    /** One turn of the main loop, once there is something to pop or the queue is halted. The outcome is what the
        command's body does. */
    method Turn(outcome: Outcome, ghost s: State) returns (goOn: bool, ghost steps: seq<Step>, ghost n: State)
      requires Mirrors(s) && BudgetInv(s) && s.pc == Idle && (pendingCmds.items != [] || pendingCmds.halted)
      modifies this, pendingCmds
      ensures IsRun(s, steps, n, retryTimes) && Mirrors(n) && if goOn then n.pc == Idle else n.pc.Exited?
      ensures old(pendingCmds.items) == [] ==> !goOn
      ensures old(pendingCmds.items) != [] && old(pendingCmds.items)[0].tries > 0 && outcome.Success? ==>
                goOn && pendingCmds.items == old(pendingCmds.items)[1..] && retryTasks == old(retryTasks)
    {
      hide BudgetInv;
      var popped := pendingCmds.WaitAndPop();
      if popped.None? {
        return false, [Drain], Next(s, Drain, retryTimes);
      }
      var cmd := popped.value;
      steps, n := [Pop], Next(s, Pop, retryTimes);
      PopKeepsBudget(s, retryTimes);
      HeldIsKnown(n);
      RunOn(s, steps, n, Execute(outcome), retryTimes);
      steps, n := steps + [Execute(outcome)], Next(n, Execute(outcome), retryTimes);
      if cmd.tries > 0 {
        cmd := cmd.(tries := cmd.tries - 1);
        match outcome
        case Success => return true, steps, n;
        case ThrowsOther => return true, steps, n;
        case ThrowsQueueStop => return false, steps, n;
        case Throws =>
      }
      ghost var more, end;
      goOn, more, end := ExceptionHandler(cmd, n);
      RunThen(s, steps, n, more, end, retryTimes);
      steps, n := steps + more, end;
    }
  }

  lemma HeldIsKnown(s: State)
    requires BudgetInv(s)
    ensures s.pc.Popped? ==> s.pc.cmd.id in s.executed
  {
    if s.pc.Popped? {
      assert Held(s.pc)[0] == s.pc.cmd;
    }
  }

  lemma {:induction false} RunThen(from: State, steps: seq<Step>, mid: State, more: seq<Step>, end: State, retryTimes: nat)
    requires IsRun(from, steps, mid, retryTimes) && IsRun(mid, more, end, retryTimes)
    ensures IsRun(from, steps + more, end, retryTimes)
    decreases |steps|
  {
    hide Next, Enabled;
    if steps == [] {
      assert [] + more == more;
    } else {
      RunThen(Next(from, steps[0], retryTimes), steps[1..], mid, more, end, retryTimes);
      assert (steps + more)[1..] == steps[1..] + more;
    }
  }
}
