/** A counter and a job record from the pool and back: a client creates the counter, registers a job that
    counts for it, waits for it, and gives it up; a worker runs the job. */
module JobLives {
  import opened Results
  import opened Generations
  import opened JobProtocol
  import opened JobTheorems
  import opened JobRises
  import opened JoinRuns

  // --- what single steps do ---------------------------------------------------------------------------

  lemma Helps(s: State, w: nat) returns (t: State)
    requires w < |s.waiters| && s.waiters[w].Flagged?
    ensures Goes(s, WaitHelp(w), t) && t == s.(waiters := s.waiters[w := Checking(s.waiters[w].counter)])
  {
    t := Next(s, WaitHelp(w));
  }

  lemma Returns(s: State, w: nat) returns (t: State)
    requires w < |s.waiters| && s.waiters[w].Checking? && s.waiters[w].counter < |s.counters| && s.counters[s.waiters[w].counter].value == 0
    ensures Goes(s, WaitReturn(w), t) && t == s.(waiters := s.waiters[w := Idle])
  {
    t := Next(s, WaitReturn(w));
  }

  /** No job waits, but a thread has raised its flag. */
  lemma FlushesFlag(s: State, c: nat) returns (s1: State, t: State)
    requires c < |s.counters| && s.counters[c].flushing > 0 && s.counters[c].waiters == [] && s.counters[c].threadWaiting
    requires s.counters[c].notifying == 0 && forall w :: 0 <= w < |s.waiters| ==> s.waiters[w] == Idle
    ensures Goes(s, Flush(c), s1) && Goes(s1, Notify(c), t)
    ensures var x := s.counters[c];
      t == s.(counters := s.counters[c := x.(flushing := x.flushing - 1, threadWaiting := false, releasing := x.releasing + 1)])
  {
    s1 := Next(s, Flush(c));
    assert HandAll(s.jobs, []) == s.jobs;
    t := Next(s1, Notify(c));
    assert WakeAll(s1.waiters, s1.counters) == s1.waiters;
  }

  lemma GivesUp(s: State, c: nat) returns (t: State)
    requires c < |s.counters| && s.counters[c].holds == 1 && forall w :: 0 <= w < |s.waiters| ==> s.waiters[w] == Idle
    ensures Goes(s, ReleaseCounter(c), t)
    ensures t == s.(counters := s.counters[c := s.counters[c].(holds := 0, releasing := s.counters[c].releasing + 1)])
  {
    t := Next(s, ReleaseCounter(c));
  }

  lemma Recycles(s: State, c: nat) returns (s1: State, t: State)
    requires c < |s.counters| && s.counters[c].releasing > 0 && s.counters[c].refs == 1 && s.counters[c].recycling == 0
    ensures Goes(s, DropRef(c), s1) && Goes(s1, Recycle(c), t)
    ensures var x := s.counters[c];
      t == s.(freeCounters := [c] + s.freeCounters,
              counters := s.counters[c := x.(refs := 0, releasing := x.releasing - 1, generation := NextGeneration(x.generation))])
  {
    s1 := Next(s, DropRef(c));
    t := Next(s1, Recycle(c));
  }

  // --- the run ----------------------------------------------------------------------------------------

  function Pool(counter: Counter, free: seq<nat>, job: Job, freeJobs: seq<nat>, inFlight: nat, queue: seq<nat>, waiter: Waiter): State {
    State([counter], free, [job], freeJobs, inFlight, [queue, [], []], [waiter])
  }

  const HANDLE := Handle(0, 1)

  function TheJob(stage: Stage, handed: nat): Job { Job(None, Some(HANDLE), true, 0, stage, handed) }

  function Registering(): seq<Step> {
    [ CreateCounter, AllocateJob(None, Some(HANDLE), true, 0), JobRef(0), JobValue(0), JobLink(0), Dispatch(0) ]
  }

  /** The client waits and helps, a worker runs the job. */
  function Running(): seq<Step> {
    [ WaitBegin(0, 0), WaitFlag(0), WaitHelp(0), Pop(0), Return(0), Complete(0), DropValue(0), WaitReturn(0) ]
  }

  function GivingBack(): seq<Step> {
    [ Flush(0), Notify(0), DropRef(0), ReleaseCounter(0), DropRef(0), Recycle(0) ]
  }

  function Start(): State { Pool(FreeCounter(), [0], FreeJob(), [0], 0, [], Idle) }

  function Dispatched(): State { Pool(Pending(1, 0, []), [], TheJob(Queued(0), 1), [], 1, [0], Idle) }

  function Waited(): State {
    Pool(Created().(refs := 2, threadWaiting := true, fallen := true, flushing := 1), [], TheJob(Free, 1), [0], 0, [], Idle)
  }

  function Back(): State {
    Pool(FreeCounter().(generation := NextGeneration(1), fallen := true), [0], TheJob(Free, 1), [0], 0, [], Idle)
  }

  lemma Registered()
    ensures Run(Start(), Registering(), Dispatched())
  {
    hide Goes, Run;
    var s := Start();
    var s1 := Creates(s);
    var s2, s3 := RegisterStart(s1, None, Some(HANDLE), true, 0);
    var s4, s5 := RegistersReady(s3, 0, 0);
    var s6 := Dispatches(s5, 0);
    assert s6.jobs == Dispatched().jobs && s6.counters == Dispatched().counters && s6.queues[0] == [0];
    assert s6 == Dispatched();
    TraceRuns([s, s1, s2, s3, s4, s5, s6], Registering());
  }

  lemma RunsToZero()
    ensures Run(Dispatched(), Running(), Waited())
  {
    hide Goes, Run;
    var s := Dispatched();
    var s1, s2 := Flags(s, 0, 0);
    var s3 := Helps(s2, 0);
    var s4, s5 := Runs(s3, 0);
    var s6 := Completes(s5, 0, 0);
    var s7 := Drops(s6, 0);
    var s8 := Returns(s7, 0);
    assert s8.jobs == Waited().jobs && s8.counters == Waited().counters && s8.freeJobs == [0] && s8.waiters == [Idle];
    TraceRuns([s, s1, s2, s3, s4, s5, s6, s7, s8], Running());
  }

  lemma GivenBack()
    ensures Run(Waited(), GivingBack(), Back())
  {
    hide Goes, Run;
    var s := Waited();
    var s1, s2 := FlushesFlag(s, 0);
    var s3 := Releases(s2, 0);
    var s4 := GivesUp(s3, 0);
    var s5, s6 := Recycles(s4, 0);
    assert s6.counters == Back().counters && s6.freeCounters == [0];
    TraceRuns([s, s1, s2, s3, s4, s5, s6], GivingBack());
  }

  /** The protocol lets a counter live its whole life: the job has run once, the client's wait is over, record
      and slot are back in their pools, and the slot has its next generation. */
  lemma CounterComesBack()
    ensures Initial(Start()) && Run(Start(), Registering() + Running() + GivingBack(), Back()) && Reachable(Back())
  {
    hide Run;
    Registered();
    RunsToZero();
    GivenBack();
    RunJoins(Start(), Registering(), Dispatched(), Running(), Waited());
    RunJoins(Start(), Registering() + Running(), Waited(), GivingBack(), Back());
    assert Initial(Start()) by { assert Start().counters[0] == FreeCounter() && 0 in Start().freeCounters; }
  }
}
