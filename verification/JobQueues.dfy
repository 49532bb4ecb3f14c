/** The run queues: one for each priority, first in first out, the most urgent first. */
module JobQueues {
  import opened Lists
  import opened Results
  import opened JobProtocol
  import opened JobSafety
  import opened JobTheorems

  /** The step makes a worker run job j of this queue. */
  predicate Starts(s: State, step: Step, p: nat, j: nat) {
    && Enabled(s, step) && j < |s.jobs| && j < |Next(s, step).jobs|
    && s.jobs[j].stage == Queued(p) && Next(s, step).jobs[j].stage == Running
  }

  /** What a step takes out of the queue. */
  ghost function Leaving(s: State, step: Step, p: nat): seq<nat> {
    if j: nat :| Starts(s, step, p, j) then [j] else []
  }

  /** What it puts in: a dispatched job of this priority that has a function. */
  function Entering(s: State, step: Step, p: nat): seq<nat> {
    if step.Dispatch? && step.j < |s.jobs| && s.jobs[step.j].hasFunction && s.jobs[step.j].priority == p then [step.j] else []
  }

  ghost function Left(s: State, steps: seq<Step>, p: nat): seq<nat>
    decreases |steps|
  {
    if steps == [] || !Enabled(s, steps[0]) then [] else Leaving(s, steps[0], p) + Left(Next(s, steps[0]), steps[1..], p)
  }

  ghost function Entered(s: State, steps: seq<Step>, p: nat): seq<nat>
    decreases |steps|
  {
    if steps == [] || !Enabled(s, steps[0]) then [] else Entering(s, steps[0], p) + Entered(Next(s, steps[0]), steps[1..], p)
  }

  lemma FlushStartsNone(s: State, c: nat, p: nat, j: nat)
    requires Inv(s) && Enabled(s, Flush(c))
    ensures !Starts(s, Flush(c), p, j)
  {
    assert CounterOk(s, c) && Holds(s.jobs, s.counters[c].waiters, Waiting(c));
    HandAllSpec(s.jobs, s.counters[c].waiters, c);
  }

  lemma PopsTheFirst(s: State, step: Step, p: nat, j: nat)
    requires Starts(s, step, p, j) && !step.Flush?
    ensures step.Pop? && j == s.queues[step.p][0]
  {}

  /** Only taking the first job of the queue starts one, and that one. */
  lemma StartsIsPop(s: State, step: Step, p: nat, j: nat)
    requires Inv(s) && p < PRIORITIES
    ensures Starts(s, step, p, j) <==> step == Pop(p) && Enabled(s, step) && j == s.queues[p][0]
  {
    QueuesThere(s);
    if Starts(s, step, p, j) {
      hide CounterOk, JobOk, WaiterOk, Books, Records, Sleepers;
      if step.Flush? {
        FlushStartsNone(s, step.c, p, j);
      } else {
        PopsTheFirst(s, step, p, j);
      }
    } else if step == Pop(p) && Enabled(s, step) {
      assert s.jobs[s.queues[p][0]].stage == Queued(p);
    }
  }

  lemma QueuesThere(s: State)
    requires Inv(s)
    ensures |s.queues| == PRIORITIES
  {}

  lemma QueuesAfter(s: State, step: Step, p: nat)
    requires Enabled(s, step) && p < |s.queues|
    ensures |Next(s, step).queues| == |s.queues|
    ensures Next(s, step).queues[p] == if step == Pop(p) then s.queues[p][1..] else s.queues[p] + Entering(s, step, p)
  {}

  lemma QueueStep(s: State, step: Step, p: nat)
    requires Inv(s) && Enabled(s, step) && p < PRIORITIES
    ensures |Next(s, step).queues| == |s.queues| == PRIORITIES
    ensures s.queues[p] + Entering(s, step, p) == Leaving(s, step, p) + Next(s, step).queues[p]
  {
    hide Inv, Starts, Next;
    QueuesThere(s);
    QueuesAfter(s, step, p);
    forall j: nat ensures Starts(s, step, p, j) <==> step == Pop(p) && j == s.queues[p][0] {
      StartsIsPop(s, step, p, j);
    }
    if step == Pop(p) {
      assert Starts(s, step, p, s.queues[p][0]);
    }
  }

  /** First in, first out, over every run: what waited in a queue followed by all that entered it is all
      that workers took from it, in that order, followed by what waits there now. */
  lemma {:induction false} FirstInFirstOut(s: State, steps: seq<Step>, t: State, p: nat)
    requires Inv(s) && Run(s, steps, t) && p < PRIORITIES
    ensures |t.queues| == |s.queues| == PRIORITIES && s.queues[p] + Entered(s, steps, p) == Left(s, steps, p) + t.queues[p]
    decreases |steps|
  {
    hide Inv, Starts, Enabled, Next;
    if steps == [] {
      QueuesThere(s);
    } else {
      var next := Next(s, steps[0]);
      QueueStep(s, steps[0], p);
      StepKeeps(s, steps[0]);
      FirstInFirstOut(next, steps[1..], t, p);
      var entering, leaving := Entering(s, steps[0], p), Leaving(s, steps[0], p);
      var entered, left := Entered(next, steps[1..], p), Left(next, steps[1..], p);
      assert s.queues[p] + (entering + entered) == (s.queues[p] + entering) + entered;
      assert leaving + (left + t.queues[p]) == (leaving + left) + t.queues[p];
      assert leaving + (next.queues[p] + entered) == (leaving + next.queues[p]) + entered;
    }
  }

  /** The most urgent first: a job that a worker starts has work and the priority of its queue, and no
      job that still waits in a queue is more urgent. */
  lemma MostUrgentFirst(s: State, step: Step, p: nat, j: nat, k: nat)
    requires Reachable(s) && p < PRIORITIES && Starts(s, step, p, j) && k < |s.jobs| && s.jobs[k].stage.Queued?
    ensures s.jobs[j].priority == p && s.jobs[j].hasFunction && s.jobs[k].priority >= p
  {
    hide Reachable;
    ReachableInv(s);
    StartsIsPop(s, step, p, j);
    assert JobOk(s, j) && JobOk(s, k) && Placed(s, k);
  }
}
