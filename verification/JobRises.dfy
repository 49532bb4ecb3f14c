/** Counters that are raised again after they have fallen to zero: when that lets a waiting job through
    too early, when it loses a wakeup, and that a phase can do the first. */
module JobRises {
  import opened Results
  import opened JobProtocol
  import opened JobSafety
  import opened JobTheorems

  ghost predicate Goes(s: State, step: Step, t: State) {
    Enabled(s, step) && t == Next(s, step)
  }

  /** A run with every state it passes. */
  ghost predicate Trace(states: seq<State>, steps: seq<Step>) {
    && |states| == |steps| + 1
    && forall i :: 0 <= i < |steps| ==> Goes(states[i], steps[i], states[i + 1])
  }

  lemma {:induction false} TraceRuns(states: seq<State>, steps: seq<Step>)
    requires Trace(states, steps)
    ensures Run(states[0], steps, states[|steps|])
    decreases |steps|
  {
    if steps != [] {
      assert states[1..][0] == states[1];
      TraceRuns(states[1..], steps[1..]);
    }
  }

  lemma TraceJoins(first: seq<State>, before: seq<Step>, second: seq<State>, after: seq<Step>)
    requires Trace(first, before) && Trace(second, after) && first[|before|] == second[0]
    ensures Trace(first + second[1..], before + after)
    ensures (first + second[1..])[|before| + |after|] == second[|after|]
  {
    hide Goes;
    var states, steps := first + second[1..], before + after;
    forall i | 0 <= i < |steps| ensures Goes(states[i], steps[i], states[i + 1]) {
      if i >= |before| {
        assert states[i] == second[i - |before|] && states[i + 1] == second[i - |before| + 1];
        assert steps[i] == after[i - |before|];
      }
    }
  }

  function Created(): Counter { FreeCounter().(refs := 1, holds := 1) }

  function Pending(value: nat, external: nat, waiters: seq<nat>): Counter {
    Created().(value := value, refs := value + 1, external := external, waiters := waiters)
  }

  lemma Creates(s: State) returns (t: State)
    requires s.freeCounters != [] && s.freeCounters[0] < |s.counters| && s.counters[s.freeCounters[0]] == FreeCounter()
    ensures Goes(s, CreateCounter, t)
    ensures t == s.(freeCounters := s.freeCounters[1..], counters := s.counters[s.freeCounters[0] := Created()])
  {
    t := Next(s, CreateCounter);
  }

  /** IncrementCounter. */
  lemma Increments(s: State, c: nat) returns (s1: State, t: State)
    requires c < |s.counters| && s.counters[c] == Created()
    ensures Goes(s, IncrementRef(c), s1) && Goes(s1, IncrementValue(c), t)
    ensures t == s.(counters := s.counters[c := Pending(1, 1, [])])
  {
    s1 := Next(s, IncrementRef(c));
    t := Next(s1, IncrementValue(c));
  }

  // --- when a flush comes above zero ------------------------------------------------------------------

  /** Only raising a counter before its waiters are collected marks it. */
  lemma MarkedByRaise(s: State, step: Step, c: nat)
    requires Enabled(s, step) && c < |s.counters| && !s.counters[c].early
    ensures |Next(s, step).counters| == |s.counters|
    ensures var x, y := s.counters[c], Next(s, step).counters[c];
      y.early ==> x.flushing > 0 && y.flushing == x.flushing && y.value == x.value + 1
  {
    hide HandAll, WakeAll;
  }

  /** The first moment at which the waiters of a counter can be collected above zero is the one after
      it was raised between its fall to zero and their collection. */
  lemma EarlyIsTheWindow(s: State, step: Step, c: nat)
    requires Reachable(s) && Enabled(s, step) && c < |s.counters| && !s.counters[c].early
    ensures |Next(s, step).counters| == |s.counters|
    ensures Next(s, step).counters[c].early <==> Enabled(Next(s, step), Flush(c)) && Next(s, step).counters[c].value > 0
  {
    ReachableInv(s);
    StepKeeps(s, step);
    MarkedByRaise(s, step, c);
    hide Next, Reachable, ListsOk, Records, Sleepers;
    assert CounterOk(Next(s, step), c);
  }

  /** RunJob with an accumulate counter, as far as the wait list of the counter waited for. */
  function RegisterSteps(s: State, j: nat, waitFor: Option<nat>, accumulate: nat, hasFunction: bool, priority: nat): seq<Step>
    requires accumulate < |s.counters| && (waitFor.Some? ==> waitFor.value < |s.counters|)
  {
    [ AllocateJob(HandleOf(s, waitFor), HandleOf(s, Some(accumulate)), hasFunction, priority), JobRef(j), JobValue(j), JobLink(j) ]
  }

  function HandleOf(s: State, c: Option<nat>): Option<Handle>
    requires c.Some? ==> c.value < |s.counters|
  {
    if c.None? then None else Some(Handle(c.value, s.counters[c.value].generation))
  }

  /** The first half: the record is taken and filled in, the reference counted. */
  lemma RegisterStart(s: State, waitFor: Option<Handle>, accumulate: Option<Handle>, hasFunction: bool, priority: nat)
    returns (s1: State, s2: State)
    requires s.freeJobs != [] && s.freeJobs[0] < |s.jobs| && priority < PRIORITIES
    requires accumulate.Some? ==> s.IsCounterValid(accumulate.value)
    ensures Goes(s, AllocateJob(waitFor, accumulate, hasFunction, priority), s1) && Goes(s1, JobRef(s.freeJobs[0]), s2)
    ensures var j := s.freeJobs[0];
      s2 == s.(jobs := s.jobs[j := Job(waitFor, accumulate, hasFunction, priority, if accumulate.Some? then Referenced else Registered, 0)],
               freeJobs := s.freeJobs[1..], inFlight := s.inFlight + 1,
               counters := if accumulate.None? then s.counters
                           else s.counters[accumulate.value.index := s.counters[accumulate.value.index].(refs := s.counters[accumulate.value.index].refs + 1)])
  {
    s1 := Next(s, AllocateJob(waitFor, accumulate, hasFunction, priority));
    s2 := Next(s1, JobRef(s.freeJobs[0]));
  }

  /** The second half for a job that waits: the value is counted, the job linked. */
  lemma RegisterFinish(s: State, j: nat, c: nat, other: nat) returns (s1: State, s2: State)
    requires j < |s.jobs| && s.jobs[j].stage.Referenced? && c < |s.counters| && other < |s.counters| && c != other
    requires s.jobs[j].accumulate.Some? && s.jobs[j].accumulate.value.index == c
    requires s.jobs[j].waitFor == Some(Handle(other, s.counters[other].generation))
    requires s.counters[other].value > 0 && s.counters[other].refs > 0
    ensures Goes(s, JobValue(j), s1) && Goes(s1, JobLink(j), s2)
    ensures s2 == s.(jobs := s.jobs[j := s.jobs[j].(stage := Waiting(other))],
                     counters := s.counters[c := s.counters[c].Raised()]
                                           [other := s.counters[other].(waiters := s.counters[other].waiters + [j])])
  {
    s1 := Next(s, JobValue(j));
    s2 := Next(s1, JobLink(j));
  }

  /** What a registration whose job has to wait leaves behind. */
  ghost predicate Registers(s: State, t: State, c: nat, other: nat, hasFunction: bool, priority: nat)
    requires c < |s.counters| && other < |s.counters| && s.freeJobs != [] && s.freeJobs[0] < |s.jobs|
  {
    var j := s.freeJobs[0];
    && t.jobs == s.jobs[j := Job(HandleOf(s, Some(other)), HandleOf(s, Some(c)), hasFunction, priority, Waiting(other), 0)]
    && t.freeJobs == s.freeJobs[1..] && t.inFlight == s.inFlight + 1
    && t.counters == s.counters[c := s.counters[c].(refs := s.counters[c].refs + 1).Raised()]
                               [other := s.counters[other].(waiters := s.counters[other].waiters + [j])]
    && t == s.(jobs := t.jobs, freeJobs := t.freeJobs, inFlight := t.inFlight, counters := t.counters)
  }

  lemma RegisterWaiting(s: State, c: nat, other: nat, hasFunction: bool, priority: nat) returns (states: seq<State>)
    requires s.freeJobs != [] && s.freeJobs[0] < |s.jobs| && priority < PRIORITIES
    requires c < |s.counters| && other < |s.counters| && c != other && s.counters[c].refs > 0
    requires s.counters[other].value > 0 && s.counters[other].refs > 0
    ensures Trace(states, RegisterSteps(s, s.freeJobs[0], Some(other), c, hasFunction, priority))
    ensures states[0] == s && Registers(s, states[4], c, other, hasFunction, priority)
  {
    hide Goes;
    var j := s.freeJobs[0];
    var s1, s2 := RegisterStart(s, HandleOf(s, Some(other)), HandleOf(s, Some(c)), hasFunction, priority);
    var s3, s4 := RegisterFinish(s2, j, c, other);
    states := [s, s1, s2, s3, s4];
  }

  // --- a join that is flushed early -------------------------------------------------------------------

  /** The moment between the subtraction that reaches zero and the collection of the waiters: the
      creator still holds the counter, another counter is pending, two records are free; `done` is what
      the waiting system will complete. */
  predicate BetweenDropAndFlush(s: State, c: nat, other: nat, done: nat) {
    && c < |s.counters| && other < |s.counters| && done < |s.counters| && c != other && done != c && done != other
    && s.counters[c].flushing > 0 && s.counters[c].value == 0 && s.counters[c].refs > 0
    && s.counters[other].value > 0 && s.counters[other].refs > 0 && s.counters[done].refs > 0
    && |s.freeJobs| >= 2 && s.freeJobs[0] < |s.jobs| && s.freeJobs[1] < |s.jobs| && s.freeJobs[0] != s.freeJobs[1]
    && s.freeJobs[0] !in s.counters[c].waiters
  }

  /** Registering the next predecessor of a join there, with an empty job that waits for `other` and
      raises the join counter again, then the system's job, which waits for the join; the waiters are
      collected last. */
  function JoinSteps(s: State, c: nat, other: nat, done: nat, priority: nat): seq<Step>
    requires BetweenDropAndFlush(s, c, other, done)
  {
    RegisterSteps(s, s.freeJobs[0], Some(other), c, false, priority) + RegisterSteps(s, s.freeJobs[1], Some(c), done, true, priority)
    + [Flush(c)]
  }

  lemma {:induction false} HandAllMarks(jobs: seq<Job>, list: seq<nat>, j: nat)
    requires j < |jobs|
    ensures j in list ==> HandAll(jobs, list)[j].stage == Ready
    ensures j !in list ==> HandAll(jobs, list)[j] == jobs[j]
    decreases |list|
  {
    if list != [] {
      var mid := if list[0] < |jobs| then jobs[list[0] := jobs[list[0]].(stage := Ready, handed := jobs[list[0]].handed + 1)] else jobs;
      HandAllMarks(mid, list[1..], j);
      assert j in list <==> j == list[0] || j in list[1..];
      if j !in list[1..] && j == list[0] {
        assert HandAll(mid, list[1..])[j] == mid[j];
      }
    }
  }

  /** The waiting job `run` has been handed to dispatch while the join is still at one, because the
      predecessor behind `splice` is still pending. */
  predicate FlushedEarly(s: State, run: nat, splice: nat, c: nat, other: nat) {
    && run < |s.jobs| && splice < |s.jobs| && c < |s.counters| && other < |s.counters|
    && s.jobs[run].stage == Ready && s.jobs[splice].stage == Waiting(other)
    && s.counters[c].value == 1 && s.counters[other].value > 0
  }

  /** A counter that rises again can let a job through too early: from every such state there is a
      run in which the job that waits for the join does not wait for the predecessor registered last. */
  lemma RisingJoinFlushedEarly(s: State, c: nat, other: nat, done: nat, priority: nat) returns (states: seq<State>)
    requires BetweenDropAndFlush(s, c, other, done) && priority < PRIORITIES
    ensures Trace(states, JoinSteps(s, c, other, done, priority)) && states[0] == s
    ensures FlushedEarly(states[9], s.freeJobs[1], s.freeJobs[0], c, other)
  {
    var run := s.freeJobs[1];
    var first := RegisterWaiting(s, c, other, false, priority);
    var second := RegisterWaiting(first[4], done, c, true, priority);
    var last := second[4];
    HandAllMarks(last.jobs, last.counters[c].waiters, run);
    HandAllMarks(last.jobs, last.counters[c].waiters, s.freeJobs[0]);
    var end := Next(last, Flush(c));
    assert Goes(last, Flush(c), end);
    hide Goes;
    var splices := RegisterSteps(s, s.freeJobs[0], Some(other), c, false, priority);
    var runs := RegisterSteps(s, run, Some(c), done, true, priority);
    assert RegisterSteps(first[4], run, Some(c), done, true, priority) == runs;
    TraceJoins(first, splices, second, runs);
    TraceJoins(first + second[1..], splices + runs, [last, end], [Flush(c)]);
    states := first + second[1..] + [last, end][1..];
  }

  // --- when a wakeup is lost --------------------------------------------------------------------------

  /** Someone still has to wake the thread: its flag is up while the counter is up or about to be
      collected, or a notification is on its way. */
  predicate Assured(s: State, w: nat)
    requires w < |s.waiters|
  {
    s.waiters[w].Asleep? ==>
      && s.waiters[w].counter < |s.counters|
      && var x := s.counters[s.waiters[w].counter];
         (x.threadWaiting && (x.value > 0 || x.flushing > 0)) || x.notifying > 0
  }

  /** The thread goes to sleep although its flag was collected and notified in the meantime, or the last
      notification finds the counter up again and no newer flag. */
  predicate Uncovered(s: State, step: Step, w: nat)
    requires w < |s.waiters|
  {
    match step
    case WaitSleep(v) =>
      && v == w && !s.waiters[w].Idle? && s.waiters[w].counter < |s.counters|
      && !s.counters[s.waiters[w].counter].threadWaiting && s.counters[s.waiters[w].counter].notifying == 0
    case Notify(c) =>
      && s.waiters[w] == Asleep(c) && c < |s.counters|
      && s.counters[c].notifying == 1 && s.counters[c].value > 0 && !s.counters[c].threadWaiting
    case _ => false
  }

  /** Assured, a thread asleep at zero has a notification coming; and it is assured as long as its counter
      has not risen again. */
  lemma AssuredIsWoken(s: State, w: nat)
    requires Reachable(s) && w < |s.waiters| && s.waiters[w].Asleep?
    ensures s.waiters[w].counter < |s.counters|
    ensures var x := s.counters[s.waiters[w].counter];
      && (Assured(s, w) && x.value == 0 ==> x.notifying > 0 || (x.flushing > 0 && x.threadWaiting))
      && (!x.risen ==> Assured(s, w))
  {
    ReachableInv(s);
    assert WaiterOk(s, w);
  }

  lemma LossOf(s: State, step: Step, w: nat)
    requires Enabled(s, step) && w < |s.waiters| && Assured(s, w)
    requires !s.waiters[w].Idle? ==> s.waiters[w].counter < |s.counters| && s.waiters[w].counter !in s.freeCounters
    ensures |Next(s, step).waiters| == |s.waiters|
    ensures !Assured(Next(s, step), w) <==> Uncovered(s, step, w)
  {
    hide HandAll;
  }

  /** The exact condition: a thread's wakeup stops being assured at exactly these steps. */
  lemma UncoveredIsTheLoss(s: State, step: Step, w: nat)
    requires Reachable(s) && Enabled(s, step) && w < |s.waiters| && Assured(s, w)
    ensures |Next(s, step).waiters| == |s.waiters|
    ensures !Assured(Next(s, step), w) <==> Uncovered(s, step, w)
  {
    hide *;
    ReachableInv(s);
    if !s.waiters[w].Idle? { HeldInUse(s, w); }
    LossOf(s, step, w);
  }

  /** The counter a thread waits for is not in the pool. */
  lemma HeldInUse(s: State, w: nat)
    requires Inv(s) && w < |s.waiters| && !s.waiters[w].Idle?
    ensures s.waiters[w].counter < |s.counters| && s.waiters[w].counter !in s.freeCounters
  {
    assert WaiterOk(s, w);
    assert CounterOk(s, s.waiters[w].counter);
  }

  /** And once it is not, the thread sleeps on if the counter falls before another thread raises a flag. */
  lemma UncoveredSleepsOn(s: State, w: nat, c: nat) returns (states: seq<State>)
    requires w < |s.waiters| && s.waiters[w] == Asleep(c) && c < |s.counters| && !Assured(s, w)
    requires !s.counters[c].threadWaiting && s.counters[c].flushing == 0
    requires s.counters[c].value == 1 && s.counters[c].external == 1 && s.counters[c].dropping == 0 && s.counters[c].raising == 0
    ensures Trace(states, [DecrementCounter(c), DropValue(c), Flush(c)]) && states[0] == s && NeverWoken(states[3], w, c)
  {
    states := FallsOnce(s, c);
  }

  // --- a run that loses one --------------------------------------------------------------------------

  /** A thread is about to sleep on a counter that a client holds at one. */
  predicate AboutToSleep(s: State, w: nat, c: nat) {
    && w < |s.waiters| && s.waiters[w] == Flagged(c) && c < |s.counters|
    && s.counters[c].value == 1 && s.counters[c].external > 0 && s.counters[c].refs > 0 && s.counters[c].holds > 0
    && s.counters[c].threadWaiting && s.counters[c].flushing == 0 && s.counters[c].notifying == 0
  }

  /** The counter falls, is raised again before the thread sleeps, and falls once more. */
  function SleepSteps(w: nat, c: nat): seq<Step> {
    [ DecrementCounter(c), DropValue(c), Flush(c), Notify(c), IncrementRef(c), IncrementValue(c), WaitSleep(w),
      DecrementCounter(c), DropValue(c), Flush(c) ]
  }

  /** The counter is at zero, the thread sleeps on it, and nobody is going to notify it. */
  predicate NeverWoken(s: State, w: nat, c: nat) {
    && w < |s.waiters| && s.waiters[w] == Asleep(c) && c < |s.counters|
    && s.counters[c].value == 0 && s.counters[c].flushing == 0 && s.counters[c].notifying == 0 && !s.counters[c].threadWaiting
    && s.counters[c].external == 0 && s.counters[c].dropping == 0 && s.counters[c].raising == 0
  }

  lemma FallsOnce(s: State, c: nat) returns (states: seq<State>)
    requires c < |s.counters| && s.counters[c].value == 1 && s.counters[c].external > 0
    ensures Trace(states, [DecrementCounter(c), DropValue(c), Flush(c)]) && states[0] == s
    ensures var x := s.counters[c];
      && states[3].waiters == s.waiters && |states[3].counters| == |s.counters|
      && var y := x.(value := 0, external := x.external - 1, fallen := true, waiters := [], threadWaiting := false);
         states[3].counters[c] == if x.threadWaiting then y.(notifying := x.notifying + 1) else y.(releasing := x.releasing + 1)
  {
    hide HandAll, WakeAll;
    var s1 := Next(s, DecrementCounter(c));
    var s2 := Next(s1, DropValue(c));
    var s3 := Next(s2, Flush(c));
    assert Goes(s, DecrementCounter(c), s1) && Goes(s1, DropValue(c), s2) && Goes(s2, Flush(c), s3);
    hide Goes;
    states := [s, s1, s2, s3];
  }

  lemma NotifiedBefore(s: State, w: nat, c: nat) returns (s1: State, t: State)
    requires w < |s.waiters| && s.waiters[w] == Flagged(c) && c < |s.counters| && s.counters[c].notifying > 0 && s.counters[c].refs > 0
    ensures Goes(s, Notify(c), s1) && Goes(s1, IncrementRef(c), t)
    ensures |t.waiters| == |s.waiters| && t.waiters[w] == Flagged(c)
    ensures var x := s.counters[c];
      t.counters == s.counters[c := x.(notifying := x.notifying - 1, releasing := x.releasing + 1, refs := x.refs + 1, raising := x.raising + 1)]
  {
    s1 := Next(s, Notify(c));
    t := Next(s1, IncrementRef(c));
  }

  lemma SleepsAgain(s: State, w: nat, c: nat) returns (states: seq<State>)
    requires w < |s.waiters| && s.waiters[w] == Flagged(c) && c < |s.counters| && s.counters[c].notifying > 0 && s.counters[c].refs > 0
    ensures Trace(states, [Notify(c), IncrementRef(c), IncrementValue(c), WaitSleep(w)]) && states[0] == s
    ensures var x := s.counters[c].Raised();
      && |states[4].waiters| == |s.waiters| && states[4].waiters[w] == Asleep(c) && |states[4].counters| == |s.counters|
      && states[4].counters[c] ==
           x.(notifying := x.notifying - 1, releasing := x.releasing + 1, refs := x.refs + 1, external := x.external + 1)
  {
    var s1, s2 := NotifiedBefore(s, w, c);
    var s3 := Next(s2, IncrementValue(c));
    var s4 := Next(s3, WaitSleep(w));
    assert Goes(s2, IncrementValue(c), s3) && Goes(s3, WaitSleep(w), s4);
    hide Goes;
    states := [s, s1, s2, s3, s4];
  }

  /** A counter that rises again can lose a wakeup: from every such state there is a run after which
      the thread sleeps on a counter that stays at zero, with no notification to come. */
  lemma RisingCounterLosesWakeup(s: State, w: nat, c: nat) returns (states: seq<State>)
    requires AboutToSleep(s, w, c)
    requires s.counters[c].external == 1 && s.counters[c].dropping == 0 && s.counters[c].raising == 0
    ensures Trace(states, SleepSteps(w, c)) && states[0] == s && NeverWoken(states[10], w, c)
  {
    var first := FallsOnce(s, c);
    var second := SleepsAgain(first[3], w, c);
    var third := FallsOnce(second[4], c);
    var falls := [DecrementCounter(c), DropValue(c), Flush(c)];
    var sleeps := [Notify(c), IncrementRef(c), IncrementValue(c), WaitSleep(w)];
    TraceJoins(first, falls, second, sleeps);
    TraceJoins(first + second[1..], falls + sleeps, third, falls);
    assert falls + sleeps + falls == SleepSteps(w, c);
    states := first + second[1..] + third[1..];
  }

  function OneThread(counter: Counter, free: seq<nat>, waiter: Waiter): State {
    State([counter], free, [], [], 0, [[], [], []], [waiter])
  }

  lemma Flags(s: State, w: nat, c: nat) returns (s1: State, t: State)
    requires w < |s.waiters| && s.waiters[w] == Idle && c < |s.counters| && s.counters[c].holds > 0 && s.counters[c].value > 0
    ensures Goes(s, WaitBegin(w, c), s1) && Goes(s1, WaitFlag(w), t)
    ensures t == s.(waiters := s.waiters[w := Flagged(c)], counters := s.counters[c := s.counters[c].(threadWaiting := true)])
  {
    s1 := Next(s, WaitBegin(w, c));
    t := Next(s1, WaitFlag(w));
  }

  /** Such a state is reached by a client that creates a counter, holds it, and waits for it. */
  lemma AboutToSleepReached()
    ensures Reachable(OneThread(Pending(1, 1, []).(threadWaiting := true), [], Flagged(0)))
    ensures AboutToSleep(OneThread(Pending(1, 1, []).(threadWaiting := true), [], Flagged(0)), 0, 0)
  {
    hide Goes, Run;
    var s := OneThread(FreeCounter(), [0], Idle);
    var s1 := Creates(s);
    var s2, s3 := Increments(s1, 0);
    var s4, s5 := Flags(s3, 0, 0);
    assert s5.counters == [Pending(1, 1, []).(threadWaiting := true)] && s5.waiters == [Flagged(0)];
    assert Initial(s) by { assert |s.counters| == 1 && s.counters[0] == FreeCounter() && 0 in s.freeCounters; }
    hide Initial;
    TraceRuns([s, s1, s2, s3, s4, s5], [CreateCounter, IncrementRef(0), IncrementValue(0), WaitBegin(0, 0), WaitFlag(0)]);
  }
}
