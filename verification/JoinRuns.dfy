/** A phase of three systems, the third after the other two: while a worker stands between the drop of
    the third one's join counter and the collection of its waiters, the main thread has yet to
    register the second splice. */
module JoinRuns {
  import opened Results
  import opened JobProtocol
  import opened JobTheorems
  import opened JobRises

  // --- what single steps do ---------------------------------------------------------------------------

  lemma Dispatches(s: State, j: nat) returns (t: State)
    requires j < |s.jobs| && s.jobs[j].stage.Ready? && s.jobs[j].priority < |s.queues|
    ensures Goes(s, Dispatch(j), t)
    ensures var p := s.jobs[j].priority;
      t == if s.jobs[j].hasFunction then s.SetStage(j, Queued(p)).(queues := s.queues[p := s.queues[p] + [j]])
           else s.SetStage(j, Finished)
  {
    t := Next(s, Dispatch(j));
  }

  lemma Completes(s: State, j: nat, c: nat) returns (t: State)
    requires j < |s.jobs| && s.jobs[j].stage.Finished? && s.inFlight > 0
    requires s.jobs[j].accumulate.Some? && c == s.jobs[j].accumulate.value.index < |s.counters|
    ensures Goes(s, Complete(j), t)
    ensures t == s.(jobs := s.jobs[j := s.jobs[j].(stage := Free)], freeJobs := [j] + s.freeJobs, inFlight := s.inFlight - 1,
                    counters := s.counters[c := s.counters[c].(dropping := s.counters[c].dropping + 1)])
  {
    t := Next(s, Complete(j));
  }

  lemma Drops(s: State, c: nat) returns (t: State)
    requires c < |s.counters| && s.counters[c].dropping > 0 && s.counters[c].value > 0
    ensures Goes(s, DropValue(c), t)
    ensures var x := s.counters[c].(value := s.counters[c].value - 1, dropping := s.counters[c].dropping - 1);
      t == s.(counters := s.counters[c := if x.value == 0 then x.(flushing := x.flushing + 1, fallen := true)
                                          else x.(releasing := x.releasing + 1)])
  {
    t := Next(s, DropValue(c));
  }

  lemma Runs(s: State, j: nat) returns (s1: State, t: State)
    requires j < |s.jobs| && s.queues == [[j], [], []]
    ensures Goes(s, Pop(0), s1) && Goes(s1, Return(j), t)
    ensures t == s.(jobs := s.jobs[j := s.jobs[j].(stage := Finished)], queues := [[], [], []])
  {
    s1 := Next(s, Pop(0));
    assert [j][1..] == [] && s.queues[0] == [j];
    assert s1.queues == [[], [], []];
    t := Next(s1, Return(j));
    assert t.jobs == s.jobs[j := s.jobs[j].(stage := Finished)];
  }

  /** Two waiting jobs are collected, no thread waits. */
  lemma Flushes(s: State, c: nat, j: nat, k: nat) returns (t: State)
    requires c < |s.counters| && s.counters[c].flushing > 0 && s.counters[c].waiters == [j, k] && !s.counters[c].threadWaiting
    requires j < |s.jobs| && k < |s.jobs| && j != k
    ensures Goes(s, Flush(c), t)
    ensures var x := s.counters[c];
      t == s.(jobs := s.jobs[j := s.jobs[j].(stage := Ready, handed := s.jobs[j].handed + 1)]
                            [k := s.jobs[k].(stage := Ready, handed := s.jobs[k].handed + 1)],
              counters := s.counters[c := x.(flushing := x.flushing - 1, waiters := [], releasing := x.releasing + 1)])
  {
    t := Next(s, Flush(c));
    var first := s.jobs[j := s.jobs[j].(stage := Ready, handed := s.jobs[j].handed + 1)];
    var both := first[k := first[k].(stage := Ready, handed := first[k].handed + 1)];
    assert [j, k][1..] == [k] && [k][1..] == [];
    assert HandAll(both, []) == both;
    assert HandAll(first, [k]) == both;
    assert HandAll(s.jobs, [j, k]) == both;
  }

  lemma Releases(s: State, c: nat) returns (t: State)
    requires c < |s.counters| && s.counters[c].releasing > 0 && s.counters[c].refs > 1
    ensures Goes(s, DropRef(c), t)
    ensures var x := s.counters[c];
      t == s.(counters := s.counters[c := x.(refs := x.refs - 1, releasing := x.releasing - 1)])
  {
    t := Next(s, DropRef(c));
  }

  // --- the main thread registers ----------------------------------------------------------------------

  /** The counters are the phase's, the three systems' and the join; the second system runs on the main
      thread, which holds its completion. The records are the first system's job, the two empty jobs
      that finish the first and the second system, and the first splice. */
  function At(counters: seq<Counter>, free: seq<nat>, jobs: seq<Job>, freeJobs: seq<nat>, queue: seq<nat>): State
    requires |freeJobs| <= 4
  {
    State(counters, free, jobs, freeJobs, 4 - |freeJobs|, [queue, [], []], [])
  }

  const PHASE := Handle(0, 1)
  const FIRST := Handle(1, 1)
  const SECOND := Handle(2, 1)
  const JOIN := Handle(4, 1)

  function FreeJob(): Job { Job(None, None, false, 0, Free, 0) }

  function System(stage: Stage, handed: nat): Job { Job(None, Some(FIRST), true, 0, stage, handed) }

  function Empty(waitFor: Handle, accumulate: Handle, stage: Stage, handed: nat): Job {
    Job(Some(waitFor), Some(accumulate), false, 0, stage, handed)
  }

  function Fresh(): State {
    At([FreeCounter(), FreeCounter(), FreeCounter(), FreeCounter(), FreeCounter()], [0, 1, 2, 3, 4],
       [FreeJob(), FreeJob(), FreeJob(), FreeJob()], [0, 1, 2, 3], [])
  }

  function CountersCreated(): State {
    At([Pending(1, 1, []), Created(), Pending(1, 1, []), Created(), FreeCounter()], [4],
       [FreeJob(), FreeJob(), FreeJob(), FreeJob()], [0, 1, 2, 3], [])
  }

  function CreateSteps(): seq<Step> {
    [ CreateCounter, IncrementRef(0), IncrementValue(0), CreateCounter, CreateCounter, IncrementRef(2), IncrementValue(2), CreateCounter ]
  }

  lemma CreatesCounters()
    ensures Run(Fresh(), CreateSteps(), CountersCreated())
  {
    hide Goes, Run;
    var s := Fresh();
    var s1 := Creates(s);
    var s2, s3 := Increments(s1, 0);
    var s4 := Creates(s3);
    var s5 := Creates(s4);
    var s6, s7 := Increments(s5, 2);
    var s8 := Creates(s7);
    assert s8 == CountersCreated();
    TraceRuns([s, s1, s2, s3, s4, s5, s6, s7, s8], CreateSteps());
  }

  /** The first system's job, which waits for nothing, and the empty jobs that finish the first two. */
  function RegisterSystems(): seq<Step> {
    [ AllocateJob(None, Some(FIRST), true, 0), JobRef(0), JobValue(0), JobLink(0), Dispatch(0),
      AllocateJob(Some(FIRST), Some(PHASE), false, 0), JobRef(1), JobValue(1), JobLink(1),
      AllocateJob(Some(SECOND), Some(PHASE), false, 0), JobRef(2), JobValue(2), JobLink(2) ]
  }

  function SystemDispatched(): State {
    At([Pending(1, 1, []), Pending(1, 0, []), Pending(1, 1, []), Created(), FreeCounter()], [4],
       [System(Queued(0), 1), FreeJob(), FreeJob(), FreeJob()], [1, 2, 3], [0])
  }

  function SystemsRegistered(): State {
    At([Pending(3, 1, []), Pending(1, 0, [1]), Pending(1, 1, [2]), Created(), FreeCounter()], [4],
       [System(Queued(0), 1), Empty(FIRST, PHASE, Waiting(1), 0), Empty(SECOND, PHASE, Waiting(2), 0), FreeJob()], [3], [0])
  }

  /** The first splice of the third system's join; the second one is still to come. */
  function FirstSplice(): seq<Step> {
    [ CreateCounter, AllocateJob(Some(FIRST), Some(JOIN), false, 0), JobRef(3), JobValue(3), JobLink(3) ]
  }

  function Spliced(): State {
    At([Pending(3, 1, []), Pending(1, 0, [1, 3]), Pending(1, 1, [2]), Created(), Pending(1, 0, [])], [],
       [System(Queued(0), 1), Empty(FIRST, PHASE, Waiting(1), 0), Empty(SECOND, PHASE, Waiting(2), 0),
        Empty(FIRST, JOIN, Waiting(1), 0)], [], [0])
  }

  lemma RegistersReady(s: State, j: nat, c: nat) returns (s1: State, t: State)
    requires j < |s.jobs| && s.jobs[j].stage.Referenced? && s.jobs[j].waitFor.None?
    requires s.jobs[j].accumulate.Some? && c == s.jobs[j].accumulate.value.index < |s.counters|
    ensures Goes(s, JobValue(j), s1) && Goes(s1, JobLink(j), t)
    ensures t == s.(jobs := s.jobs[j := s.jobs[j].(stage := Ready, handed := s.jobs[j].handed + 1)],
                    counters := s.counters[c := s.counters[c].Raised()])
  {
    s1 := Next(s, JobValue(j));
    t := Next(s1, JobLink(j));
  }

  lemma {:induction false} RunJoins(s: State, first: seq<Step>, t: State, second: seq<Step>, u: State)
    requires Run(s, first, t) && Run(t, second, u)
    ensures Run(s, first + second, u)
    decreases |first|
  {
    hide Enabled, Next;
    if first == [] {
      assert first + second == second;
    } else {
      RunJoins(Next(s, first[0]), first[1..], t, second, u);
      assert (first + second)[1..] == first[1..] + second;
    }
  }

  /** A registration whose job has to wait, as a run. */
  lemma RegistersWaiting(s: State, c: nat, other: nat, t: State)
    requires s.freeJobs != [] && s.freeJobs[0] < |s.jobs| && c < |s.counters| && other < |s.counters| && c != other
    requires s.counters[c].refs > 0 && s.counters[other].value > 0 && s.counters[other].refs > 0
    requires Registers(s, t, c, other, false, 0)
    ensures Run(s, RegisterSteps(s, s.freeJobs[0], Some(other), c, false, 0), t)
  {
    hide Goes;
    var states := RegisterWaiting(s, c, other, false, 0);
    TraceRuns(states, RegisterSteps(s, s.freeJobs[0], Some(other), c, false, 0));
    assert states[4] == t;
  }

  function FirstFinished(): State {
    At([Pending(2, 1, []), Pending(1, 0, [1]), Pending(1, 1, []), Created(), FreeCounter()], [4],
       [System(Queued(0), 1), Empty(FIRST, PHASE, Waiting(1), 0), FreeJob(), FreeJob()], [2, 3], [0])
  }

  function JoinCreated(): State {
    At([Pending(3, 1, []), Pending(1, 0, [1]), Pending(1, 1, [2]), Created(), Created()], [],
       [System(Queued(0), 1), Empty(FIRST, PHASE, Waiting(1), 0), Empty(SECOND, PHASE, Waiting(2), 0), FreeJob()], [3], [0])
  }

  /** The states are told apart entry by entry. */
  lemma RegisteredIs(s: State, t: State, c: nat, other: nat)
    requires c < |s.counters| == |t.counters| && other < |s.counters| && |s.jobs| == |t.jobs|
    requires s.freeJobs != [] && s.freeJobs[0] < |s.jobs| && t.freeJobs == s.freeJobs[1..]
    requires t == s.(jobs := t.jobs, freeJobs := t.freeJobs, inFlight := s.inFlight + 1, counters := t.counters)
    requires forall i :: 0 <= i < |s.jobs| ==>
      (t.jobs[i] == if i == s.freeJobs[0] then Job(HandleOf(s, Some(other)), HandleOf(s, Some(c)), false, 0, Waiting(other), 0)
                    else s.jobs[i])
    requires c != other && forall i :: 0 <= i < |s.counters| ==>
      (t.counters[i] == if i == c then s.counters[c].(refs := s.counters[c].refs + 1).Raised()
                        else if i == other then s.counters[other].(waiters := s.counters[other].waiters + [s.freeJobs[0]])
                        else s.counters[i])
    ensures Registers(s, t, c, other, false, 0)
  {}

  lemma RegistersFirst()
    ensures Run(CountersCreated(), RegisterSystems()[..5], SystemDispatched())
  {
    hide Goes, Run;
    var s := CountersCreated();
    assert [0, 1, 2, 3][1..] == [1, 2, 3];
    var s1, s2 := RegisterStart(s, None, Some(FIRST), true, 0);
    var s3, s4 := RegistersReady(s2, 0, 1);
    var s5 := Dispatches(s4, 0);
    assert s5.jobs == SystemDispatched().jobs && s5.counters == SystemDispatched().counters;
    assert s5.queues[0] == [0];
    assert s5 == SystemDispatched();
    TraceRuns([s, s1, s2, s3, s4, s5], RegisterSystems()[..5]);
  }

  lemma RegistersFinishes()
    ensures Run(SystemDispatched(), RegisterSystems()[5..9], FirstFinished())
    ensures Run(FirstFinished(), RegisterSystems()[9..], SystemsRegistered())
  {
    hide Run;
    assert [1, 2, 3][1..] == [2, 3] && [2, 3][1..] == [3];
    RegisteredIs(SystemDispatched(), FirstFinished(), 0, 1);
    RegistersWaiting(SystemDispatched(), 0, 1, FirstFinished());
    assert RegisterSteps(SystemDispatched(), 1, Some(1), 0, false, 0) == RegisterSystems()[5..9];
    RegisteredIs(FirstFinished(), SystemsRegistered(), 0, 2);
    RegistersWaiting(FirstFinished(), 0, 2, SystemsRegistered());
    assert RegisterSteps(FirstFinished(), 2, Some(2), 0, false, 0) == RegisterSystems()[9..];
  }

  lemma RegistersSplice()
    ensures Run(SystemsRegistered(), FirstSplice()[..1], JoinCreated())
    ensures Run(JoinCreated(), FirstSplice()[1..], Spliced())
  {
    hide Run, Goes;
    var s := SystemsRegistered();
    var s1 := Creates(s);
    assert s1 == JoinCreated();
    TraceRuns([s, s1], FirstSplice()[..1]);
    RegisteredIs(JoinCreated(), Spliced(), 4, 1);
    RegistersWaiting(JoinCreated(), 4, 1, Spliced());
    assert RegisterSteps(JoinCreated(), 3, Some(1), 4, false, 0) == FirstSplice()[1..];
  }

  // --- a worker runs ----------------------------------------------------------------------------------

  /** One worker runs the first system's job to its end, collects the jobs that waited for it, completes
      both, and counts down the join. */
  function WorkerSteps(): seq<Step> {
    [ Pop(0), Return(0), Complete(0), DropValue(1), Flush(1), Dispatch(1), Complete(1), DropValue(0), DropRef(0),
      Dispatch(3), Complete(3), DropValue(4) ]
  }

  function Collected(): State {
    At([Pending(3, 1, []), Created().(refs := 2, fallen := true, releasing := 1), Pending(1, 1, [2]), Created(), Pending(1, 0, [])], [],
       [System(Free, 1), Empty(FIRST, PHASE, Ready, 1), Empty(SECOND, PHASE, Waiting(2), 0), Empty(FIRST, JOIN, Ready, 1)], [0], [])
  }

  function Finishing(): State {
    At([Pending(2, 1, []), Created().(refs := 2, fallen := true, releasing := 1), Pending(1, 1, [2]), Created(), Pending(1, 0, [])], [],
       [System(Free, 1), Empty(FIRST, PHASE, Free, 1), Empty(SECOND, PHASE, Waiting(2), 0), Empty(FIRST, JOIN, Ready, 1)], [1, 0], [])
  }

  function InTheWindow(): State {
    At([Pending(2, 1, []), Created().(refs := 2, fallen := true, releasing := 1), Pending(1, 1, [2]), Created(),
        Created().(refs := 2, fallen := true, flushing := 1)], [],
       [System(Free, 1), Empty(FIRST, PHASE, Free, 1), Empty(SECOND, PHASE, Waiting(2), 0), Empty(FIRST, JOIN, Free, 1)], [3, 1, 0], [])
  }

  lemma WorkerCollects()
    ensures Run(Spliced(), WorkerSteps()[..5], Collected())
  {
    hide Goes, Run;
    var s := Spliced();
    var s1, s2 := Runs(s, 0);
    var s3 := Completes(s2, 0, 1);
    var s4 := Drops(s3, 1);
    var s5 := Flushes(s4, 1, 1, 3);
    assert s5.jobs == Collected().jobs && s5.counters == Collected().counters;
    assert s5.freeJobs == [0];
    TraceRuns([s, s1, s2, s3, s4, s5], WorkerSteps()[..5]);
  }

  lemma WorkerFinishes()
    ensures Run(Collected(), WorkerSteps()[5..9], Finishing())
  {
    hide Goes, Run;
    var s := Collected();
    var s1 := Dispatches(s, 1);
    var s2 := Completes(s1, 1, 0);
    var s3 := Drops(s2, 0);
    var s4 := Releases(s3, 0);
    assert s4.jobs == Finishing().jobs && s4.counters == Finishing().counters;
    assert s4.freeJobs == [1, 0];
    TraceRuns([s, s1, s2, s3, s4], WorkerSteps()[5..9]);
  }

  lemma WorkerDrops()
    ensures Run(Finishing(), WorkerSteps()[9..], InTheWindow())
  {
    hide Goes, Run;
    var s := Finishing();
    var s1 := Dispatches(s, 3);
    var s2 := Completes(s1, 3, 4);
    var s3 := Drops(s2, 4);
    assert s3.jobs == InTheWindow().jobs && s3.counters == InTheWindow().counters;
    assert s3.freeJobs == [3, 1, 0];
    TraceRuns([s, s1, s2, s3], WorkerSteps()[9..]);
  }

  /** What the main thread has done when the worker starts. */
  function MainSteps(): seq<Step> {
    CreateSteps() + RegisterSystems() + FirstSplice()
  }

  lemma MainThreadRegisters()
    ensures Run(Fresh(), MainSteps(), Spliced())
  {
    hide Run;
    CreatesCounters();
    RegistersFirst();
    RegistersFinishes();
    RegistersSplice();
    RunJoins(SystemDispatched(), RegisterSystems()[5..9], FirstFinished(), RegisterSystems()[9..], SystemsRegistered());
    assert RegisterSystems()[5..9] + RegisterSystems()[9..] == RegisterSystems()[5..];
    RunJoins(CountersCreated(), RegisterSystems()[..5], SystemDispatched(), RegisterSystems()[5..], SystemsRegistered());
    assert RegisterSystems()[..5] + RegisterSystems()[5..] == RegisterSystems();
    RunJoins(SystemsRegistered(), FirstSplice()[..1], JoinCreated(), FirstSplice()[1..], Spliced());
    assert FirstSplice()[..1] + FirstSplice()[1..] == FirstSplice();
    RunJoins(Fresh(), CreateSteps(), CountersCreated(), RegisterSystems(), SystemsRegistered());
    RunJoins(Fresh(), CreateSteps() + RegisterSystems(), SystemsRegistered(), FirstSplice(), Spliced());
  }

  lemma WorkerRuns()
    ensures Run(Spliced(), WorkerSteps(), InTheWindow())
  {
    hide Run;
    WorkerCollects();
    WorkerFinishes();
    WorkerDrops();
    RunJoins(Collected(), WorkerSteps()[5..9], Finishing(), WorkerSteps()[9..], InTheWindow());
    assert WorkerSteps()[5..9] + WorkerSteps()[9..] == WorkerSteps()[5..];
    RunJoins(Spliced(), WorkerSteps()[..5], Collected(), WorkerSteps()[5..], InTheWindow());
    assert WorkerSteps()[..5] + WorkerSteps()[5..] == WorkerSteps();
  }

  /** The phase reaches the window: the main thread registers up to the first splice, a worker runs the
      first system's job and stands before the collection of the join's waiters. */
  lemma WindowReached()
    ensures Initial(Fresh()) && Run(Fresh(), MainSteps() + WorkerSteps(), InTheWindow())
    ensures BetweenDropAndFlush(InTheWindow(), 4, 2, 3) && !InTheWindow().counters[4].risen
  {
    assert Initial(Fresh()) by {
      hide Run;
      assert |Fresh().jobs| == 4 && |Fresh().counters| == 5;
    }
    hide Run;
    MainThreadRegisters();
    WorkerRuns();
    RunJoins(Fresh(), MainSteps(), Spliced(), WorkerSteps(), InTheWindow());
  }

  /** The main thread then registers the second splice and the third system's job, the worker collects:
      the third system's job is ready while the second system has not finished. */
  lemma PhaseJoinFlushedEarly() returns (end: State)
    ensures Initial(Fresh()) && BetweenDropAndFlush(InTheWindow(), 4, 2, 3)
    ensures Run(Fresh(), MainSteps() + WorkerSteps() + JoinSteps(InTheWindow(), 4, 2, 3, 0), end)
    ensures FlushedEarly(end, 1, 3, 4, 2)
  {
    hide Run;
    WindowReached();
    var s := InTheWindow();
    var states := RisingJoinFlushedEarly(s, 4, 2, 3, 0);
    TraceRuns(states, JoinSteps(s, 4, 2, 3, 0));
    end := states[9];
    RunJoins(Fresh(), MainSteps() + WorkerSteps(), s, JoinSteps(s, 4, 2, 3, 0), end);
  }
}
