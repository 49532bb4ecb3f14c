/** The counter protocol of the job system as a state machine whose steps are the atomic operations
    and the critical sections of the source. Any number of threads may be at any of its program
    points; a state says how many, per counter. */
module JobProtocol {
  import opened Generations
  import opened Lists
  import opened Results

  /** Slot index and generation. */
  datatype Handle = Handle(index: nat, generation: nat)

  /** Where a job record is: in the free list, in a wait list, in a queue, or in the hands of the
      thread that is registering, dispatching, running or completing it. */
  datatype Stage =
    | Free
    | Allocated                  // RunJob: filled in, nothing counted yet
    | Referenced                 // the accumulate reference is taken, the value not yet raised
    | Registered                 // counted; the wait list has not been looked at yet
    | Waiting(counter: nat)
    | Ready                      // DispatchReady is about to be called
    | Queued(priority: nat)
    | Running
    | Finished                   // Complete is about to be called

  datatype Job = Job(
    waitFor: Option<Handle>, accumulate: Option<Handle>, hasFunction: bool, priority: nat,
    stage: Stage,
    handed: nat)                 // how often this submission was handed to DispatchReady
  {
    /** The job is one of the pending completions of counter c. */
    predicate CountsFor(c: nat) {
      && accumulate.Some? && accumulate.value.index == c
      && !stage.Free? && !stage.Allocated? && !stage.Referenced?
    }

    predicate RefersTo(c: nat) {
      accumulate.Some? && accumulate.value.index == c && stage.Referenced?
    }
  }

  datatype Counter = Counter(
    value: nat, refs: nat, generation: nat, waiters: seq<nat>, threadWaiting: bool,
    fallen: bool,                // history: has reached zero from above since it was created
    risen: bool,                 // history: has been raised after that
    early: bool,                 // history: has been raised while its waiters were about to be collected
    holds: nat,                  // creator references not yet released
    external: nat,               // IncrementCounter calls not yet paired
    raising: nat,                // IncrementCounter between the reference and the value
    dropping: nat,               // DecrementCounter before the subtraction
    flushing: nat,               // the subtraction reached zero, ReleaseWaiters not yet entered
    notifying: nat,              // ReleaseWaiters before notify_all
    releasing: nat,              // DropCounterRef before the subtraction
    recycling: nat)              // the last reference is gone, the slot not yet in the free list
  {
    /** One more completion is pending. */
    function Raised(): Counter {
      this.(value := value + 1, risen := risen || fallen, early := early || flushing > 0)
    }
  }

  /** A thread inside WaitForCounter. */
  datatype Waiter = Idle | Checking(counter: nat) | Flagged(counter: nat) | Asleep(counter: nat)

  const PRIORITIES := 3

  datatype State = State(
    counters: seq<Counter>, freeCounters: seq<nat>,
    jobs: seq<Job>, freeJobs: seq<nat>, inFlight: nat,
    queues: seq<seq<nat>>, waiters: seq<Waiter>)
  {
    predicate IsCounterValid(h: Handle) {
      h.index < |counters| && counters[h.index].generation == h.generation && counters[h.index].refs != 0
    }

    function SetCounter(c: nat, x: Counter): State
      requires c < |counters|
    {
      this.(counters := counters[c := x])
    }

    function SetStage(j: nat, stage: Stage): State
      requires j < |jobs|
    {
      this.(jobs := jobs[j := jobs[j].(stage := stage)])
    }

    function Hand(j: nat): State
      requires j < |jobs|
    {
      this.(jobs := jobs[j := jobs[j].(stage := Ready, handed := jobs[j].handed + 1)])
    }
  }

  datatype Step =
    | CreateCounter
    | ReleaseCounter(c: nat)
    | IncrementRef(c: nat) | IncrementValue(c: nat)
    | DecrementCounter(c: nat)
    | DropValue(c: nat)
    | Flush(c: nat)
    | Notify(c: nat)
    | DropRef(c: nat)
    | Recycle(c: nat)
    | AllocateJob(waitFor: Option<Handle>, accumulate: Option<Handle>, hasFunction: bool, priority: nat)
    | JobRef(j: nat) | JobValue(j: nat)
    | JobLink(j: nat)
    | Dispatch(j: nat)
    | Pop(p: nat)
    | Return(j: nat)
    | Complete(j: nat)
    | WaitBegin(w: nat, c: nat)
    | WaitReturn(w: nat)
    | WaitFlag(w: nat)
    | WaitHelp(w: nat)
    | WaitSleep(w: nat)

  predicate WaitedOn(s: State, c: nat) {
    exists w :: 0 <= w < |s.waiters| && (s.waiters[w] == Checking(c) || s.waiters[w] == Flagged(c) || s.waiters[w] == Asleep(c))
  }

  /** The steps a thread can take; the guards are the branches of the source, the assertions in
      GetSlot, and that a thread which waits for a counter, or passes it to Release, holds it. */
  predicate Enabled(s: State, step: Step) {
    match step
    case CreateCounter => s.freeCounters != [] && s.freeCounters[0] < |s.counters|
    case ReleaseCounter(c) =>
      c < |s.counters| && s.counters[c].holds > 0 && (s.counters[c].holds > 1 || !WaitedOn(s, c))
    case IncrementRef(c) => c < |s.counters| && s.counters[c].refs != 0
    case IncrementValue(c) => c < |s.counters| && s.counters[c].raising > 0
    case DecrementCounter(c) => c < |s.counters| && s.counters[c].external > 0
    case DropValue(c) => c < |s.counters| && s.counters[c].dropping > 0 && s.counters[c].value > 0
    case Flush(c) => c < |s.counters| && s.counters[c].flushing > 0
    case Notify(c) => c < |s.counters| && s.counters[c].notifying > 0
    case DropRef(c) => c < |s.counters| && s.counters[c].releasing > 0 && s.counters[c].refs > 0
    case Recycle(c) => c < |s.counters| && s.counters[c].recycling > 0
    case AllocateJob(_, _, _, p) => s.freeJobs != [] && s.freeJobs[0] < |s.jobs| && p < PRIORITIES
    case JobRef(j) =>
      && j < |s.jobs| && s.jobs[j].stage.Allocated?
      && (s.jobs[j].accumulate.Some? ==> s.IsCounterValid(s.jobs[j].accumulate.value))
    case JobValue(j) =>
      j < |s.jobs| && s.jobs[j].stage.Referenced? && s.jobs[j].accumulate.Some? && s.jobs[j].accumulate.value.index < |s.counters|
    case JobLink(j) =>
      && j < |s.jobs| && s.jobs[j].stage.Registered?
      && (s.jobs[j].waitFor.Some? ==> s.IsCounterValid(s.jobs[j].waitFor.value))
    case Dispatch(j) => j < |s.jobs| && s.jobs[j].stage.Ready? && s.jobs[j].priority < |s.queues|
    case Pop(p) =>
      && p < |s.queues| && s.queues[p] != [] && s.queues[p][0] < |s.jobs|
      && forall q :: 0 <= q < p ==> s.queues[q] == []
    case Return(j) => j < |s.jobs| && s.jobs[j].stage.Running?
    case Complete(j) =>
      && j < |s.jobs| && s.jobs[j].stage.Finished? && s.inFlight > 0
      && (s.jobs[j].accumulate.Some? ==> s.jobs[j].accumulate.value.index < |s.counters|)
    case WaitBegin(w, c) => w < |s.waiters| && s.waiters[w].Idle? && c < |s.counters| && s.counters[c].holds > 0
    case WaitReturn(w) =>
      w < |s.waiters| && !s.waiters[w].Idle? && s.waiters[w].counter < |s.counters| && s.counters[s.waiters[w].counter].value == 0
    case WaitFlag(w) =>
      w < |s.waiters| && s.waiters[w].Checking? && s.waiters[w].counter < |s.counters| && s.counters[s.waiters[w].counter].value != 0
    case WaitHelp(w) => w < |s.waiters| && s.waiters[w].Flagged?
    case WaitSleep(w) =>
      w < |s.waiters| && s.waiters[w].Flagged? && s.waiters[w].counter < |s.counters| && s.counters[s.waiters[w].counter].value != 0
  }

  /** Every job of the collected list becomes ready. */
  function HandAll(jobs: seq<Job>, list: seq<nat>): (r: seq<Job>)
    ensures |r| == |jobs|
    decreases |list|
  {
    if list == [] then jobs
    else if list[0] < |jobs| then
      HandAll(jobs[list[0] := jobs[list[0]].(stage := Ready, handed := jobs[list[0]].handed + 1)], list[1..])
    else HandAll(jobs, list[1..])
  }

  /** notify_all wakes every sleeper; those whose counter is not zero go back to sleep. */
  function WakeAll(waiters: seq<Waiter>, counters: seq<Counter>): (r: seq<Waiter>)
    ensures |r| == |waiters|
  {
    seq(|waiters|, w requires 0 <= w < |waiters| =>
      if waiters[w].Asleep? && waiters[w].counter < |counters| && counters[waiters[w].counter].value == 0
      then Idle else waiters[w])
  }

  function Next(s: State, step: Step): State
    requires Enabled(s, step)
  {
    match step
    case CreateCounter =>
      var c := s.freeCounters[0];
      s.(freeCounters := s.freeCounters[1..])
       .SetCounter(c, s.counters[c].(value := 0, refs := 1, fallen := false, risen := false, early := false, holds := 1))
    case ReleaseCounter(c) =>
      var x := s.counters[c];
      s.SetCounter(c, x.(holds := x.holds - 1, releasing := x.releasing + 1))
    case IncrementRef(c) =>
      var x := s.counters[c];
      s.SetCounter(c, x.(refs := x.refs + 1, raising := x.raising + 1))
    case IncrementValue(c) =>
      var x := s.counters[c];
      s.SetCounter(c, x.Raised().(raising := x.raising - 1, external := x.external + 1))
    case DecrementCounter(c) =>
      var x := s.counters[c];
      s.SetCounter(c, x.(external := x.external - 1, dropping := x.dropping + 1))
    case DropValue(c) =>
      var x := s.counters[c].(value := s.counters[c].value - 1, dropping := s.counters[c].dropping - 1);
      s.SetCounter(c, if x.value == 0 then x.(flushing := x.flushing + 1, fallen := true)
                      else x.(releasing := x.releasing + 1))
    case Flush(c) =>
      var x := s.counters[c].(flushing := s.counters[c].flushing - 1, waiters := [], threadWaiting := false);
      s.(jobs := HandAll(s.jobs, s.counters[c].waiters))
       .SetCounter(c, if s.counters[c].threadWaiting then x.(notifying := x.notifying + 1)
                      else x.(releasing := x.releasing + 1))
    case Notify(c) =>
      var x := s.counters[c];
      s.(waiters := WakeAll(s.waiters, s.counters))
       .SetCounter(c, x.(notifying := x.notifying - 1, releasing := x.releasing + 1))
    case DropRef(c) =>
      var x := s.counters[c].(refs := s.counters[c].refs - 1, releasing := s.counters[c].releasing - 1);
      s.SetCounter(c, if x.refs == 0 then x.(recycling := x.recycling + 1) else x)
    case Recycle(c) =>
      var x := s.counters[c];
      s.(freeCounters := [c] + s.freeCounters)
       .SetCounter(c, x.(recycling := x.recycling - 1, generation := NextGeneration(x.generation)))
    case AllocateJob(waitFor, accumulate, hasFunction, priority) =>
      var j := s.freeJobs[0];
      s.(freeJobs := s.freeJobs[1..], inFlight := s.inFlight + 1,
         jobs := s.jobs[j := Job(waitFor, accumulate, hasFunction, priority, Allocated, 0)])
    case JobRef(j) =>
      if s.jobs[j].accumulate.None? then s.SetStage(j, Registered)
      else
        var c := s.jobs[j].accumulate.value.index;
        s.SetStage(j, Referenced).SetCounter(c, s.counters[c].(refs := s.counters[c].refs + 1))
    case JobValue(j) =>
      var c := s.jobs[j].accumulate.value.index;
      s.SetStage(j, Registered).SetCounter(c, s.counters[c].Raised())
    case JobLink(j) =>
      if s.jobs[j].waitFor.Some? && s.counters[s.jobs[j].waitFor.value.index].value != 0 then
        var c := s.jobs[j].waitFor.value.index;
        s.SetStage(j, Waiting(c)).SetCounter(c, s.counters[c].(waiters := s.counters[c].waiters + [j]))
      else s.Hand(j)
    case Dispatch(j) =>
      if !s.jobs[j].hasFunction then s.SetStage(j, Finished)
      else
        var p := s.jobs[j].priority;
        s.SetStage(j, Queued(p)).(queues := s.queues[p := s.queues[p] + [j]])
    case Pop(p) =>
      s.SetStage(s.queues[p][0], Running).(queues := s.queues[p := s.queues[p][1..]])
    case Return(j) => s.SetStage(j, Finished)
    case Complete(j) =>
      var t := s.SetStage(j, Free).(freeJobs := [j] + s.freeJobs, inFlight := s.inFlight - 1);
      if s.jobs[j].accumulate.None? then t
      else
        var c := s.jobs[j].accumulate.value.index;
        t.SetCounter(c, t.counters[c].(dropping := t.counters[c].dropping + 1))
    case WaitBegin(w, c) => s.(waiters := s.waiters[w := Checking(c)])
    case WaitReturn(w) => s.(waiters := s.waiters[w := Idle])
    case WaitFlag(w) =>
      var c := s.waiters[w].counter;
      s.(waiters := s.waiters[w := Flagged(c)]).SetCounter(c, s.counters[c].(threadWaiting := true))
    case WaitHelp(w) => s.(waiters := s.waiters[w := Checking(s.waiters[w].counter)])
    case WaitSleep(w) => s.(waiters := s.waiters[w := Asleep(s.waiters[w].counter)])
  }

  function FreeCounter(): Counter { Counter(0, 0, 1, [], false, false, false, false, 0, 0, 0, 0, 0, 0, 0, 0) }

  /** A freshly built job system: every pool is free, nothing waits. */
  predicate Initial(s: State) {
    && (forall c :: 0 <= c < |s.counters| ==>
          s.counters[c] == FreeCounter() && c in s.freeCounters)
    && Distinct(s.freeCounters) && (forall i :: 0 <= i < |s.freeCounters| ==> s.freeCounters[i] < |s.counters|)
    && (forall j :: 0 <= j < |s.jobs| ==> s.jobs[j].stage == Free && j in s.freeJobs)
    && Distinct(s.freeJobs) && (forall i :: 0 <= i < |s.freeJobs| ==> s.freeJobs[i] < |s.jobs|)
    && |s.freeJobs| == |s.jobs| && s.inFlight == 0
    && s.queues == [[], [], []]
    && (forall w :: 0 <= w < |s.waiters| ==> s.waiters[w] == Idle)
  }

  /** A run: any steps of any threads, in any order. */
  ghost predicate Run(s: State, steps: seq<Step>, t: State)
    decreases |steps|
  {
    if steps == [] then s == t
    else Enabled(s, steps[0]) && Run(Next(s, steps[0]), steps[1..], t)
  }
}
