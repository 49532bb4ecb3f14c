/** What every step of the counter protocol keeps. */
module JobSafety {
  import opened Lists
  import opened Results
  import opened JobProtocol

  predicate Concerns(x: Job, c: nat, referenced: bool) {
    if referenced then x.RefersTo(c) else x.CountsFor(c)
  }

  /** How many jobs are pending completions of c (or, with `referenced`, hold a reference to c
      without counting yet). */
  ghost function Count(jobs: seq<Job>, c: nat, referenced: bool): nat
  {
    if jobs == [] then 0
    else Count(jobs[..|jobs| - 1], c, referenced) + (if Concerns(jobs[|jobs| - 1], c, referenced) then 1 else 0)
  }

  lemma {:induction false} CountUpdate(jobs: seq<Job>, c: nat, referenced: bool, j: nat, y: Job)
    requires j < |jobs|
    ensures Count(jobs[j := y], c, referenced) + (if Concerns(jobs[j], c, referenced) then 1 else 0)
         == Count(jobs, c, referenced) + (if Concerns(y, c, referenced) then 1 else 0)
  {
    var n := |jobs| - 1;
    if j < n {
      CountUpdate(jobs[..n], c, referenced, j, y);
      assert jobs[j := y][..n] == jobs[..n][j := y];
    } else {
      assert jobs[j := y][..n] == jobs[..n];
    }
  }

  lemma {:induction false} CountZero(jobs: seq<Job>, c: nat, referenced: bool, j: nat)
    requires j < |jobs| && Concerns(jobs[j], c, referenced)
    ensures Count(jobs, c, referenced) > 0
  {
    var n := |jobs| - 1;
    if j < n {
      CountZero(jobs[..n], c, referenced, j);
    }
  }

  // --- the invariant --------------------------------------------------------------------------------

  /** The books of one counter: what is pending, who holds it, who still has to look after it. */
  ghost predicate CounterOk(s: State, c: nat)
    requires c < |s.counters|
  {
    var x := s.counters[c];
    && x.value == Count(s.jobs, c, false) + x.dropping + x.external
    && x.refs == x.value + Count(s.jobs, c, true) + x.raising + x.flushing + x.notifying + x.releasing + x.holds
    && (x.fallen && !x.risen ==> x.value == 0) && (x.flushing > 0 || x.notifying > 0 ==> x.fallen)
    && (x.early ==> x.risen) && (x.flushing > 0 && !x.early ==> x.value == 0 && x.flushing == 1)
    && (x.waiters != [] ==> x.value > 0 || x.flushing > 0)
    && x.recycling + (if c in s.freeCounters then 1 else 0) == (if x.refs == 0 then 1 else 0)
  }

  predicate InHand(stage: Stage) {
    !stage.Free? && !stage.Waiting? && !stage.Queued?
  }

  /** A record is where its stage says. */
  predicate Placed(s: State, j: nat)
    requires j < |s.jobs|
  {
    match s.jobs[j].stage
    case Free => j in s.freeJobs
    case Waiting(c) => c < |s.counters| && j in s.counters[c].waiters
    case Queued(p) => p < |s.queues| && j in s.queues[p]
    case _ => true
  }

  predicate Holds(jobs: seq<Job>, list: seq<nat>, stage: Stage) {
    Distinct(list) && forall i :: 0 <= i < |list| ==> list[i] < |jobs| && jobs[list[i]].stage == stage
  }

  predicate HandleOk(s: State, h: Handle) {
    h.index < |s.counters| && s.counters[h.index].generation == h.generation
  }

  predicate JobOk(s: State, j: nat)
    requires j < |s.jobs|
  {
    var x := s.jobs[j];
    && (!x.stage.Free? ==> x.priority < PRIORITIES)
    && (x.stage.Queued? ==> x.stage.priority == x.priority && x.hasFunction)
    && (x.stage.Referenced? ==> x.accumulate.Some?)
    && (x.accumulate.Some? && !x.stage.Free? && !x.stage.Allocated? ==> HandleOk(s, x.accumulate.value))
    && (x.stage.Waiting? ==> x.waitFor.Some? && x.waitFor.value.index == x.stage.counter && HandleOk(s, x.waitFor.value))
    && (!x.stage.Free? ==> x.handed == if x.stage.Allocated? || x.stage.Referenced? || x.stage.Registered? || x.stage.Waiting? then 0 else 1)
  }

  /** A thread that waits holds the counter, and unless the counter has risen again someone still has
      to wake it. */
  predicate WaiterOk(s: State, w: nat)
    requires w < |s.waiters|
  {
    !s.waiters[w].Idle? ==>
      && s.waiters[w].counter < |s.counters|
      && var x := s.counters[s.waiters[w].counter];
         && x.holds > 0
         && (s.waiters[w].Flagged? && !x.risen ==> x.fallen || (x.threadWaiting && (x.value > 0 || x.flushing > 0)))
         && (s.waiters[w].Asleep? && !x.risen ==>
               (x.threadWaiting && (x.value > 0 || x.flushing > 0)) || x.notifying > 0)
  }

  ghost predicate Books(s: State) {
    forall c :: 0 <= c < |s.counters| ==> CounterOk(s, c)
  }

  predicate ListsOk(s: State) {
    && (forall j :: 0 <= j < |s.jobs| ==> Placed(s, j))
    && Holds(s.jobs, s.freeJobs, Free)
    && (forall c :: 0 <= c < |s.counters| ==> Holds(s.jobs, s.counters[c].waiters, Waiting(c)))
    && |s.queues| == PRIORITIES
    && (forall p :: 0 <= p < PRIORITIES ==> Holds(s.jobs, s.queues[p], Queued(p)))
    && |s.freeJobs| + s.inFlight == |s.jobs|
    && Distinct(s.freeCounters) && (forall i :: 0 <= i < |s.freeCounters| ==> s.freeCounters[i] < |s.counters|)
  }

  predicate Records(s: State) {
    forall j :: 0 <= j < |s.jobs| ==> JobOk(s, j)
  }

  predicate Sleepers(s: State) {
    forall w :: 0 <= w < |s.waiters| ==> WaiterOk(s, w)
  }

  ghost predicate Inv(s: State) {
    Books(s) && ListsOk(s) && Records(s) && Sleepers(s)
  }

  // --- steps of one counter -------------------------------------------------------------------------

  /** A step that only changes the books of one counter. */
  lemma CounterOnly(s: State, c: nat, x: Counter)
    requires Inv(s) && c < |s.counters|
    requires x.waiters == s.counters[c].waiters && x.generation == s.counters[c].generation
    requires CounterOk(s.SetCounter(c, x), c)
    requires forall w :: 0 <= w < |s.waiters| ==> WaiterOk(s.SetCounter(c, x), w)
    ensures Inv(s.SetCounter(c, x))
  {
    var t := s.SetCounter(c, x);
    forall d | 0 <= d < |t.counters| ensures CounterOk(t, d) {
      assert CounterOk(s, d);
    }
    forall j | 0 <= j < |t.jobs| ensures Placed(t, j) && JobOk(t, j) {
      assert Placed(s, j) && JobOk(s, j);
    }
  }

  predicate ClientStep(step: Step) {
    step.ReleaseCounter? || step.IncrementRef? || step.IncrementValue? || step.DecrementCounter?
  }

  predicate DropStep(step: Step) {
    step.DropValue? || step.DropRef?
  }

  lemma ClientKeeps(s: State, step: Step)
    requires Inv(s) && Enabled(s, step) && ClientStep(step)
    ensures Inv(Next(s, step))
  {
    hide Count, Holds, Placed, JobOk;
    var c := step.c;
    assert CounterOk(s, c);
    var t := Next(s, step);
    var x := t.counters[c];
    assert t == s.SetCounter(c, x);
    assert CounterOk(t, c);
    forall w | 0 <= w < |s.waiters| ensures WaiterOk(t, w) {
      assert WaiterOk(s, w);
    }
    CounterOnly(s, c, x);
  }

  lemma DropKeeps(s: State, step: Step)
    requires Inv(s) && Enabled(s, step) && DropStep(step)
    ensures Inv(Next(s, step))
  {
    hide Count, Holds, Placed, JobOk;
    var c := step.c;
    assert CounterOk(s, c);
    var t := Next(s, step);
    var x := t.counters[c];
    assert t == s.SetCounter(c, x);
    assert CounterOk(t, c);
    forall w | 0 <= w < |s.waiters| ensures WaiterOk(t, w) {
      assert WaiterOk(s, w);
    }
    CounterOnly(s, c, x);
  }

  // --- slots ----------------------------------------------------------------------------------------

  lemma CreateKeeps(s: State)
    requires Inv(s) && Enabled(s, CreateCounter)
    ensures Inv(Next(s, CreateCounter))
  {
    var t := Next(s, CreateCounter);
    var c := s.freeCounters[0];
    assert CounterOk(s, c);
    forall d | 0 <= d < |t.counters| ensures CounterOk(t, d) {
      assert CounterOk(s, d);
      assert d != c ==> (d in s.freeCounters <==> d in t.freeCounters);
      assert c !in t.freeCounters;
    }
    forall j | 0 <= j < |t.jobs| ensures Placed(t, j) && JobOk(t, j) {
      assert Placed(s, j) && JobOk(s, j);
    }
    forall w | 0 <= w < |s.waiters| ensures WaiterOk(t, w) {
      assert WaiterOk(s, w);
    }
  }

  /** A slot goes back to the pool only when no job, client or thread refers to it. */
  lemma RecycleSafe(s: State, c: nat)
    requires Inv(s) && Enabled(s, Recycle(c))
    ensures s.counters[c].value == 0 && s.counters[c].refs == 0 && s.counters[c].waiters == []
    ensures s.counters[c].holds == 0 && s.counters[c].external == 0
    ensures forall j :: 0 <= j < |s.jobs| ==> !s.jobs[j].CountsFor(c) && !s.jobs[j].RefersTo(c) && s.jobs[j].stage != Waiting(c)
    ensures forall w :: 0 <= w < |s.waiters| && !s.waiters[w].Idle? ==> s.waiters[w].counter != c
    ensures c !in s.freeCounters
  {
    assert CounterOk(s, c);
    forall j | 0 <= j < |s.jobs|
      ensures !s.jobs[j].CountsFor(c) && !s.jobs[j].RefersTo(c) && s.jobs[j].stage != Waiting(c)
    {
      assert Placed(s, j);
      if Concerns(s.jobs[j], c, false) { CountZero(s.jobs, c, false, j); }
      if Concerns(s.jobs[j], c, true) { CountZero(s.jobs, c, true, j); }
    }
    forall w | 0 <= w < |s.waiters| && !s.waiters[w].Idle? ensures s.waiters[w].counter != c {
      assert WaiterOk(s, w);
    }
  }

  lemma RecycleKeeps(s: State, c: nat)
    requires Inv(s) && Enabled(s, Recycle(c))
    ensures Inv(Next(s, Recycle(c)))
  {
    RecycleSafe(s, c);
    var t := Next(s, Recycle(c));
    forall d | 0 <= d < |t.counters| ensures CounterOk(t, d) {
      assert CounterOk(s, d);
      assert d in t.freeCounters <==> d == c || d in s.freeCounters;
    }
    forall j | 0 <= j < |t.jobs| ensures Placed(t, j) && JobOk(t, j) {
      assert Placed(s, j) && JobOk(s, j);
    }
    forall w | 0 <= w < |s.waiters| ensures WaiterOk(t, w) {
      assert WaiterOk(s, w);
    }
  }

  // --- jobs in one thread's hands --------------------------------------------------------------------

  function WithJob(s: State, j: nat, y: Job): State
    requires j < |s.jobs|
  {
    s.(jobs := s.jobs[j := y])
  }

  /** A job changes stage inside the hands of a thread. */
  lemma InHandOnly(s: State, j: nat, y: Job)
    requires Inv(s) && j < |s.jobs| && InHand(s.jobs[j].stage) && InHand(y.stage)
    requires JobOk(WithJob(s, j, y), j)
    requires forall d :: 0 <= d < |s.counters| ==>
      (y.CountsFor(d) <==> s.jobs[j].CountsFor(d)) && (y.RefersTo(d) <==> s.jobs[j].RefersTo(d))
    ensures Inv(WithJob(s, j, y))
  {
    var t := WithJob(s, j, y);
    forall d | 0 <= d < |t.counters| ensures CounterOk(t, d) {
      assert CounterOk(s, d);
      BooksAfter(s, j, y, d);
    }
    forall i | 0 <= i < |t.jobs| ensures Placed(t, i) && JobOk(t, i) {
      assert Placed(s, i) && JobOk(s, i);
    }
    forall w | 0 <= w < |s.waiters| ensures WaiterOk(t, w) {
      assert WaiterOk(s, w);
    }
    HoldsElsewhere(s, j, y);
  }

  /** The same when the job's counter gains a reference or a completion. */
  lemma InHandCounted(s: State, t: State, j: nat, y: Job, c: nat, x: Counter)
    requires Inv(s) && j < |s.jobs| && c < |s.counters|
    requires t == WithJob(s, j, y).SetCounter(c, x)
    requires InHand(s.jobs[j].stage) && InHand(y.stage)
    requires JobOk(t, j)
    requires forall d :: 0 <= d < |s.counters| && d != c ==>
      !y.CountsFor(d) && !s.jobs[j].CountsFor(d) && !y.RefersTo(d) && !s.jobs[j].RefersTo(d)
    requires CounterOk(t, c)
    requires x == s.counters[c].(refs := x.refs) || x == s.counters[c].Raised()
    ensures Inv(t)
  {
    forall d | 0 <= d < |t.counters| ensures CounterOk(t, d) {
      assert CounterOk(s, d);
      BooksAfter(s, j, y, d);
    }
    forall i | 0 <= i < |t.jobs| ensures Placed(t, i) && JobOk(t, i) {
      assert Placed(s, i) && JobOk(s, i);
    }
    forall w | 0 <= w < |s.waiters| ensures WaiterOk(t, w) {
      assert WaiterOk(s, w);
    }
    HoldsElsewhere(s, j, y);
  }

  lemma HoldsElsewhere(s: State, j: nat, y: Job)
    requires ListsOk(s) && j < |s.jobs| && InHand(s.jobs[j].stage)
    ensures Holds(s.jobs[j := y], s.freeJobs, Free)
    ensures forall c :: 0 <= c < |s.counters| ==> Holds(s.jobs[j := y], s.counters[c].waiters, Waiting(c))
    ensures forall p :: 0 <= p < PRIORITIES ==> Holds(s.jobs[j := y], s.queues[p], Queued(p))
  {}

  /** The books when a job changes stage: its counter sees the change, the others do not. */
  lemma BooksAfter(s: State, j: nat, y: Job, d: nat)
    requires j < |s.jobs| && d < |s.counters|
    ensures Count(s.jobs[j := y], d, false) + (if s.jobs[j].CountsFor(d) then 1 else 0)
         == Count(s.jobs, d, false) + (if y.CountsFor(d) then 1 else 0)
    ensures Count(s.jobs[j := y], d, true) + (if s.jobs[j].RefersTo(d) then 1 else 0)
         == Count(s.jobs, d, true) + (if y.RefersTo(d) then 1 else 0)
  {
    CountUpdate(s.jobs, d, false, j, y);
    CountUpdate(s.jobs, d, true, j, y);
  }

  lemma JobRefKeeps(s: State, j: nat)
    requires Inv(s) && Enabled(s, JobRef(j))
    ensures Inv(Next(s, JobRef(j)))
  {
    assert JobOk(s, j);
    var t := Next(s, JobRef(j));
    if s.jobs[j].accumulate.None? {
      InHandOnly(s, j, t.jobs[j]);
    } else {
      var c := s.jobs[j].accumulate.value.index;
      assert CounterOk(s, c);
      BooksAfter(s, j, t.jobs[j], c);
      InHandCounted(s, t, j, t.jobs[j], c, t.counters[c]);
    }
  }

  lemma JobValueKeeps(s: State, j: nat)
    requires Inv(s) && Enabled(s, JobValue(j))
    ensures Inv(Next(s, JobValue(j)))
  {
    assert JobOk(s, j);
    var t := Next(s, JobValue(j));
    var c := s.jobs[j].accumulate.value.index;
    assert CounterOk(s, c);
    BooksAfter(s, j, t.jobs[j], c);
    InHandCounted(s, t, j, t.jobs[j], c, t.counters[c]);
  }

  lemma ReturnKeeps(s: State, j: nat)
    requires Inv(s) && Enabled(s, Return(j))
    ensures Inv(Next(s, Return(j)))
  {
    assert JobOk(s, j);
    InHandOnly(s, j, s.jobs[j].(stage := Finished));
  }

  // --- lists ----------------------------------------------------------------------------------------

  lemma HoldsAppend(jobs: seq<Job>, list: seq<nat>, j: nat, y: Job)
    requires Holds(jobs, list, y.stage) && j < |jobs| && jobs[j].stage != y.stage
    ensures Holds(jobs[j := y], list + [j], y.stage)
  {}

  lemma HoldsOther(jobs: seq<Job>, list: seq<nat>, stage: Stage, j: nat, y: Job)
    requires Holds(jobs, list, stage) && j < |jobs| && jobs[j].stage != stage
    ensures Holds(jobs[j := y], list, stage)
  {}

  lemma HoldsRemove(jobs: seq<Job>, list: seq<nat>, stage: Stage, y: Job)
    requires Holds(jobs, list, stage) && list != []
    ensures Holds(jobs[list[0] := y], list[1..], stage)
    ensures list[0] !in list[1..] && forall j :: j in list && j != list[0] ==> j in list[1..]
  {
    assert list == [list[0]] + list[1..];
  }

  lemma JobLinkKeeps(s: State, j: nat)
    requires Inv(s) && Enabled(s, JobLink(j))
    ensures Inv(Next(s, JobLink(j)))
  {
    assert JobOk(s, j);
    var t := Next(s, JobLink(j));
    if t.jobs[j].stage.Ready? {
      InHandOnly(s, j, t.jobs[j]);
    } else {
      var c := s.jobs[j].waitFor.value.index;
      LinkWaiting(s, t, j, c);
    }
  }

  lemma LinkWaiting(s: State, t: State, j: nat, c: nat)
    requires Inv(s) && Enabled(s, JobLink(j)) && t == Next(s, JobLink(j))
    requires s.jobs[j].waitFor.Some? && c == s.jobs[j].waitFor.value.index && s.counters[c].value != 0
    ensures Inv(t)
  {
    hide Count;
    var y := t.jobs[j];
    assert JobOk(s, j);
    forall d | 0 <= d < |t.counters| ensures CounterOk(t, d) && Holds(t.jobs, t.counters[d].waiters, Waiting(d)) {
      assert CounterOk(s, d);
      BooksAfter(s, j, y, d);
      if d == c {
        HoldsAppend(s.jobs, s.counters[c].waiters, j, y);
      } else {
        HoldsOther(s.jobs, s.counters[d].waiters, Waiting(d), j, y);
      }
    }
    forall i | 0 <= i < |t.jobs| ensures Placed(t, i) && JobOk(t, i) {
      assert Placed(s, i) && JobOk(s, i);
    }
    forall w | 0 <= w < |s.waiters| ensures WaiterOk(t, w) {
      assert WaiterOk(s, w);
    }
  }

  lemma DispatchKeeps(s: State, j: nat)
    requires Inv(s) && Enabled(s, Dispatch(j))
    ensures Inv(Next(s, Dispatch(j)))
  {
    assert JobOk(s, j);
    var t := Next(s, Dispatch(j));
    if !s.jobs[j].hasFunction {
      InHandOnly(s, j, t.jobs[j]);
    } else {
      var p := s.jobs[j].priority;
      var y := t.jobs[j];
      forall q | 0 <= q < PRIORITIES ensures Holds(t.jobs, t.queues[q], Queued(q)) {
        if q == p {
          HoldsAppend(s.jobs, s.queues[p], j, y);
        } else {
          HoldsOther(s.jobs, s.queues[q], Queued(q), j, y);
        }
      }
      QueueStep(s, t, j, y);
    }
  }

  /** A job enters or leaves a queue. */
  lemma QueueStep(s: State, t: State, j: nat, y: Job)
    requires Inv(s) && j < |s.jobs| && t == WithJob(s, j, y).(queues := t.queues) && |t.queues| == PRIORITIES
    requires s.jobs[j].stage.Ready? || s.jobs[j].stage.Queued?
    requires y == s.jobs[j].(stage := y.stage) && (y.stage.Running? || (y.stage == Queued(y.priority) && y.hasFunction))
    requires forall q :: 0 <= q < PRIORITIES ==> Holds(t.jobs, t.queues[q], Queued(q))
    requires Placed(t, j)
    requires forall i, q :: 0 <= i < |s.jobs| && i != j && 0 <= q < PRIORITIES && i in s.queues[q] ==> i in t.queues[q]
    ensures Inv(t)
  {
    forall d | 0 <= d < |t.counters| ensures CounterOk(t, d) {
      assert CounterOk(s, d);
      BooksAfter(s, j, y, d);
    }
    forall i | 0 <= i < |t.jobs| ensures Placed(t, i) && JobOk(t, i) {
      assert Placed(s, i) && JobOk(s, i);
    }
    forall w | 0 <= w < |s.waiters| ensures WaiterOk(t, w) {
      assert WaiterOk(s, w);
    }
  }

  lemma PopKeeps(s: State, p: nat)
    requires Inv(s) && Enabled(s, Pop(p))
    ensures Inv(Next(s, Pop(p)))
  {
    var t := Next(s, Pop(p));
    var j := s.queues[p][0];
    assert s.jobs[j].stage == Queued(p);
    var y := t.jobs[j];
    forall q | 0 <= q < PRIORITIES ensures Holds(t.jobs, t.queues[q], Queued(q)) {
      if q == p {
        HoldsRemove(s.jobs, s.queues[p], Queued(p), y);
      } else {
        HoldsOther(s.jobs, s.queues[q], Queued(q), j, y);
      }
    }
    HoldsRemove(s.jobs, s.queues[p], Queued(p), y);
    QueueStep(s, t, j, y);
  }

  lemma AllocateKeeps(s: State, step: Step)
    requires Inv(s) && step.AllocateJob? && Enabled(s, step)
    ensures Inv(Next(s, step))
  {
    var t := Next(s, step);
    var j := s.freeJobs[0];
    var y := t.jobs[j];
    assert s.jobs[j].stage == Free;
    HoldsRemove(s.jobs, s.freeJobs, Free, y);
    forall d | 0 <= d < |t.counters| ensures CounterOk(t, d) {
      assert CounterOk(s, d);
      BooksAfter(s, j, y, d);
    }
    ElsewhereAfter(s, t, j, y);
  }

  /** What a job that is in no wait list and no queue leaves alone when it changes. */
  lemma ElsewhereAfter(s: State, t: State, j: nat, y: Job)
    requires Inv(s) && j < |s.jobs| && t == s.(jobs := s.jobs[j := y], freeJobs := t.freeJobs, inFlight := t.inFlight, counters := t.counters)
    requires s.jobs[j].stage.Free? || InHand(s.jobs[j].stage)
    requires y.stage.Free? || InHand(y.stage)
    requires |t.counters| == |s.counters| && forall c :: 0 <= c < |s.counters| ==>
      t.counters[c] == s.counters[c].(dropping := t.counters[c].dropping)
    requires Placed(t, j) && JobOk(t, j)
    requires forall i :: 0 <= i < |s.jobs| && i != j && i in s.freeJobs ==> i in t.freeJobs
    ensures forall i :: 0 <= i < |t.jobs| ==> Placed(t, i) && JobOk(t, i)
    ensures forall c :: 0 <= c < |t.counters| ==> Holds(t.jobs, t.counters[c].waiters, Waiting(c))
    ensures forall p :: 0 <= p < PRIORITIES ==> Holds(t.jobs, t.queues[p], Queued(p))
    ensures Sleepers(t)
  {
    forall i | 0 <= i < |t.jobs| ensures Placed(t, i) && JobOk(t, i) {
      assert Placed(s, i) && JobOk(s, i);
    }
    forall c | 0 <= c < |t.counters| ensures Holds(t.jobs, t.counters[c].waiters, Waiting(c)) {
      HoldsOther(s.jobs, s.counters[c].waiters, Waiting(c), j, y);
    }
    forall p | 0 <= p < PRIORITIES ensures Holds(t.jobs, t.queues[p], Queued(p)) {
      HoldsOther(s.jobs, s.queues[p], Queued(p), j, y);
    }
    forall w | 0 <= w < |s.waiters| ensures WaiterOk(t, w) {
      assert WaiterOk(s, w);
    }
  }

  lemma CompleteKeeps(s: State, j: nat)
    requires Inv(s) && Enabled(s, Complete(j))
    ensures Inv(Next(s, Complete(j)))
  {
    hide Count;
    assert JobOk(s, j);
    var t := Next(s, Complete(j));
    var y := t.jobs[j];
    forall d | 0 <= d < |t.counters| ensures CounterOk(t, d) {
      assert CounterOk(s, d);
      BooksAfter(s, j, y, d);
    }
    forall i | 0 <= i < |t.freeJobs| ensures t.freeJobs[i] < |t.jobs| && t.jobs[t.freeJobs[i]].stage == Free {
      assert i > 0 ==> t.freeJobs[i] == s.freeJobs[i - 1];
    }
    assert j !in s.freeJobs;
    ElsewhereAfter(s, t, j, y);
  }

  // --- waking up ------------------------------------------------------------------------------------

  lemma {:induction false} HandAllSpec(jobs: seq<Job>, list: seq<nat>, c: nat)
    requires Holds(jobs, list, Waiting(c))
    ensures forall i :: 0 <= i < |jobs| ==>
      HandAll(jobs, list)[i] == if i in list then jobs[i].(stage := Ready, handed := jobs[i].handed + 1) else jobs[i]
    ensures forall d: nat, referenced: bool :: Count(HandAll(jobs, list), d, referenced) == Count(jobs, d, referenced)
    decreases |list|
  {
    if list != [] {
      var j, rest := list[0], list[1..];
      var y := jobs[j].(stage := Ready, handed := jobs[j].handed + 1);
      var mid := jobs[j := y];
      HoldsRemove(jobs, list, Waiting(c), y);
      HandAllSpec(mid, rest, c);
      forall d: nat, referenced: bool ensures Count(mid, d, referenced) == Count(jobs, d, referenced) {
        CountUpdate(jobs, d, referenced, j, y);
      }
      forall i | 0 <= i < |jobs| ensures HandAll(jobs, list)[i] ==
        if i in list then jobs[i].(stage := Ready, handed := jobs[i].handed + 1) else jobs[i]
      {
        assert i in list <==> i == j || i in rest;
      }
    }
  }

  lemma FlushLists(s: State, c: nat)
    requires Inv(s) && Enabled(s, Flush(c))
    ensures ListsOk(Next(s, Flush(c))) && Records(Next(s, Flush(c)))
  {
    hide Count, HandAll;
    var t := Next(s, Flush(c));
    var list := s.counters[c].waiters;
    HandAllSpec(s.jobs, list, c);
    forall i | 0 <= i < |t.jobs| ensures Placed(t, i) && JobOk(t, i) {
      assert Placed(s, i) && JobOk(s, i);
    }
    forall d | 0 <= d < |t.counters| ensures Holds(t.jobs, t.counters[d].waiters, Waiting(d)) {
      assert Holds(s.jobs, s.counters[d].waiters, Waiting(d));
    }
    forall p | 0 <= p < PRIORITIES ensures Holds(t.jobs, t.queues[p], Queued(p)) {
      assert Holds(s.jobs, s.queues[p], Queued(p));
    }
  }

  lemma FlushKeeps(s: State, c: nat)
    requires Inv(s) && Enabled(s, Flush(c))
    ensures Inv(Next(s, Flush(c)))
  {
    var t := Next(s, Flush(c));
    FlushLists(s, c);
    HandAllSpec(s.jobs, s.counters[c].waiters, c);
    hide ListsOk, Records, HandAll, Count;
    forall d | 0 <= d < |t.counters| ensures CounterOk(t, d) {
      assert CounterOk(s, d);
    }
    forall w | 0 <= w < |s.waiters| ensures WaiterOk(t, w) {
      assert WaiterOk(s, w);
      assert CounterOk(s, c);
    }
  }

  lemma NotifyKeeps(s: State, c: nat)
    requires Inv(s) && Enabled(s, Notify(c))
    ensures Inv(Next(s, Notify(c)))
  {
    hide Count, Holds;
    var t := Next(s, Notify(c));
    forall d | 0 <= d < |t.counters| ensures CounterOk(t, d) {
      assert CounterOk(s, d);
    }
    forall i | 0 <= i < |t.jobs| ensures Placed(t, i) && JobOk(t, i) {
      assert Placed(s, i) && JobOk(s, i);
    }
    forall w | 0 <= w < |s.waiters| ensures WaiterOk(t, w) {
      assert WaiterOk(s, w);
      assert CounterOk(s, c);
    }
  }

  predicate WaitStep(step: Step) {
    step.WaitBegin? || step.WaitReturn? || step.WaitFlag? || step.WaitHelp? || step.WaitSleep?
  }

  /** The flag of a waiting thread is no part of the books. */
  lemma FlagKeeps(s: State, t: State)
    requires Inv(s) && t == s.(waiters := t.waiters, counters := t.counters) && |t.counters| == |s.counters|
    requires forall d :: 0 <= d < |s.counters| ==> t.counters[d] == s.counters[d].(threadWaiting := t.counters[d].threadWaiting)
    ensures Books(t) && ListsOk(t) && Records(t)
  {
    hide Count, Holds, WaiterOk;
    forall d | 0 <= d < |t.counters| ensures CounterOk(t, d) {
      assert CounterOk(s, d);
    }
    forall i | 0 <= i < |t.jobs| ensures Placed(t, i) && JobOk(t, i) {
      assert Placed(s, i) && JobOk(s, i);
    }
  }

  lemma WaitKeeps(s: State, step: Step)
    requires Inv(s) && WaitStep(step) && Enabled(s, step)
    ensures Inv(Next(s, step))
  {
    hide Books, ListsOk, Records, WaiterOk;
    var t := Next(s, step);
    FlagKeeps(s, t);
    forall w | 0 <= w < |s.waiters| ensures WaiterOk(t, w) {
      WaitWaiter(s, step, w);
    }
  }

  lemma WaitWaiter(s: State, step: Step, w: nat)
    requires Inv(s) && WaitStep(step) && Enabled(s, step) && w < |s.waiters|
    ensures |Next(s, step).waiters| == |s.waiters| && WaiterOk(Next(s, step), w)
  {
    hide Count, ListsOk, Records;
    assert WaiterOk(s, w);
    assert WaiterOk(s, step.w);
    assert s.waiters[step.w].Idle? || CounterOk(s, s.waiters[step.w].counter);
  }

  /** Every step keeps the invariant. */
  lemma StepKeeps(s: State, step: Step)
    requires Inv(s) && Enabled(s, step)
    ensures Inv(Next(s, step))
  {
    hide Inv, Next;
    match step
    case CreateCounter => CreateKeeps(s);
    case ReleaseCounter(_) => ClientKeeps(s, step);
    case IncrementRef(_) => ClientKeeps(s, step);
    case IncrementValue(_) => ClientKeeps(s, step);
    case DecrementCounter(_) => ClientKeeps(s, step);
    case DropValue(_) => DropKeeps(s, step);
    case DropRef(_) => DropKeeps(s, step);
    case Flush(c) => FlushKeeps(s, c);
    case Notify(c) => NotifyKeeps(s, c);
    case Recycle(c) => RecycleKeeps(s, c);
    case AllocateJob(_, _, _, _) => AllocateKeeps(s, step);
    case JobRef(j) => JobRefKeeps(s, j);
    case JobValue(j) => JobValueKeeps(s, j);
    case JobLink(j) => JobLinkKeeps(s, j);
    case Dispatch(j) => DispatchKeeps(s, j);
    case Pop(p) => PopKeeps(s, p);
    case Return(j) => ReturnKeeps(s, j);
    case Complete(j) => CompleteKeeps(s, j);
    case WaitBegin(_, _) => WaitKeeps(s, step);
    case WaitReturn(_) => WaitKeeps(s, step);
    case WaitFlag(_) => WaitKeeps(s, step);
    case WaitHelp(_) => WaitKeeps(s, step);
    case WaitSleep(_) => WaitKeeps(s, step);
  }

  lemma InitialInv(s: State)
    requires Initial(s)
    ensures Inv(s)
  {
    forall c | 0 <= c < |s.counters| ensures CounterOk(s, c) {
      NothingCounts(s.jobs, c, false);
      NothingCounts(s.jobs, c, true);
    }
  }

  lemma {:induction false} NothingCounts(jobs: seq<Job>, c: nat, referenced: bool)
    requires forall j :: 0 <= j < |jobs| ==> jobs[j].stage == Free
    ensures Count(jobs, c, referenced) == 0
  {
    if jobs != [] {
      NothingCounts(jobs[..|jobs| - 1], c, referenced);
    }
  }

  /** The invariant holds all along every run. */
  lemma {:induction false} RunKeeps(s: State, steps: seq<Step>, t: State)
    requires Inv(s) && Run(s, steps, t)
    ensures Inv(t)
    decreases |steps|
  {
    if steps != [] {
      StepKeeps(s, steps[0]);
      RunKeeps(Next(s, steps[0]), steps[1..], t);
    }
  }
}
