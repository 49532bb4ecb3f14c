/** What the counter protocol promises its clients, over every interleaving. */
module JobTheorems {
  import opened Lists
  import opened Results
  import opened JobProtocol
  import opened JobSafety

  /** Every state that some run of the job system reaches. */
  ghost predicate Reachable(s: State) {
    exists init, steps :: Initial(init) && Run(init, steps, s)
  }

  lemma ReachableInv(s: State)
    requires Reachable(s)
    ensures Inv(s)
  {
    var init, steps :| Initial(init) && Run(init, steps, s);
    InitialInv(init);
    RunKeeps(init, steps, s);
  }

  /** The job linked to counter c is handed over by the collection of c's waiters, which happens at
      zero unless the counter was raised while that collection was on its way. */
  ghost predicate HandedBy(s: State, step: Step, j: nat, c: nat)
    requires Enabled(s, step) && j < |s.jobs| && j < |Next(s, step).jobs|
  {
    && step == Flush(c) && c < |s.counters| && (!s.counters[c].early ==> s.counters[c].value == 0)
    && Next(s, step).jobs[j] == s.jobs[j].(stage := Ready, handed := 1)
  }

  /** The waiters of a counter are collected. */
  lemma LinkedAtFlush(s: State, j: nat, c: nat, d: nat)
    requires Inv(s) && Enabled(s, Flush(d)) && j < |s.jobs| && s.jobs[j].stage == Waiting(c)
    ensures Next(s, Flush(d)).jobs[j] == s.jobs[j] || HandedBy(s, Flush(d), j, c)
  {
    assert Placed(s, j) && JobOk(s, j);
    assert CounterOk(s, c) && CounterOk(s, d);
    HandAllSpec(s.jobs, s.counters[d].waiters, d);
    assert Holds(s.jobs, s.counters[d].waiters, Waiting(d));
  }

  lemma LinkedElsewhere(s: State, step: Step, j: nat, c: nat)
    requires Inv(s) && Enabled(s, step) && !step.Flush? && j < |s.jobs| && s.jobs[j].stage == Waiting(c)
    ensures |Next(s, step).jobs| == |s.jobs| && Next(s, step).jobs[j] == s.jobs[j]
  {
    if step.Pop? {
      assert s.jobs[s.queues[step.p][0]].stage == Queued(step.p);
    } else if step.AllocateJob? {
      assert s.jobs[s.freeJobs[0]].stage == Free;
    }
  }

  /** Dispatched once, and only at zero: a linked job leaves the wait list only when its counter's
      waiters are collected, and the counter is zero then unless it was raised in between. */
  lemma LinkedUntilZero(s: State, step: Step, j: nat, c: nat)
    requires Reachable(s) && Enabled(s, step) && j < |s.jobs| && s.jobs[j].stage == Waiting(c)
    ensures |Next(s, step).jobs| == |s.jobs|
    ensures Next(s, step).jobs[j] == s.jobs[j] || HandedBy(s, step, j, c)
  {
    hide Reachable, Inv, Enabled, HandedBy;
    ReachableInv(s);
    if step.Flush? {
      LinkedAtFlush(s, j, c, step.c);
    } else {
      LinkedElsewhere(s, step, j, c);
    }
  }

  /** Between registration and completion a job is handed to dispatch exactly once. */
  lemma HandedOnce(s: State, j: nat)
    requires Reachable(s) && j < |s.jobs|
    ensures s.jobs[j].stage.Waiting? ==> s.jobs[j].handed == 0
    ensures s.jobs[j].stage.Ready? || s.jobs[j].stage.Queued? || s.jobs[j].stage.Running? || s.jobs[j].stage.Finished? ==>
      s.jobs[j].handed == 1
  {
    ReachableInv(s);
    assert JobOk(s, j);
  }

  // --- conservation of records ----------------------------------------------------------------------

  ghost function WaitPlaces(counters: seq<Counter>, j: nat): nat {
    if counters == [] then 0
    else WaitPlaces(counters[..|counters| - 1], j) + multiset(counters[|counters| - 1].waiters)[j]
  }

  ghost function QueuePlaces(queues: seq<seq<nat>>, j: nat): nat {
    if queues == [] then 0
    else QueuePlaces(queues[..|queues| - 1], j) + multiset(queues[|queues| - 1])[j]
  }

  lemma {:induction false} DistinctCount(list: seq<nat>, j: nat)
    requires Distinct(list)
    ensures multiset(list)[j] == if j in list then 1 else 0
  {
    if list != [] {
      var n := |list| - 1;
      DistinctCount(list[..n], j);
      assert list == list[..n] + [list[n]];
    }
  }

  lemma PlaceCount(jobs: seq<Job>, list: seq<nat>, stage: Stage, j: nat)
    requires Holds(jobs, list, stage)
    ensures multiset(list)[j] == if j in list then 1 else 0
    ensures j in list ==> j < |jobs| && jobs[j].stage == stage
  {
    DistinctCount(list, j);
  }

  lemma {:induction false} WaitPlacesOf(jobs: seq<Job>, counters: seq<Counter>, j: nat)
    requires j < |jobs|
    requires forall c :: 0 <= c < |counters| ==> Holds(jobs, counters[c].waiters, Waiting(c))
    ensures WaitPlaces(counters, j) ==
      if jobs[j].stage.Waiting? && jobs[j].stage.counter < |counters| && j in counters[jobs[j].stage.counter].waiters then 1 else 0
  {
    if counters != [] {
      var n := |counters| - 1;
      WaitPlacesOf(jobs, counters[..n], j);
      PlaceCount(jobs, counters[n].waiters, Waiting(n), j);
      hide Holds;
    }
  }

  lemma {:induction false} QueuePlacesOf(jobs: seq<Job>, queues: seq<seq<nat>>, j: nat)
    requires j < |jobs|
    requires forall p :: 0 <= p < |queues| ==> Holds(jobs, queues[p], Queued(p))
    ensures QueuePlaces(queues, j) ==
      if jobs[j].stage.Queued? && jobs[j].stage.priority < |queues| && j in queues[jobs[j].stage.priority] then 1 else 0
  {
    if queues != [] {
      var n := |queues| - 1;
      QueuePlacesOf(jobs, queues[..n], j);
      PlaceCount(jobs, queues[n], Queued(n), j);
      hide Holds;
    }
  }

  /** Each record is in exactly one of the free list, one wait list, one queue or one thread's
      hands, and free plus in-flight records are all the records. */
  lemma RecordsConserved(s: State, j: nat)
    requires Reachable(s) && j < |s.jobs|
    ensures multiset(s.freeJobs)[j] + WaitPlaces(s.counters, j) + QueuePlaces(s.queues, j)
            + (if InHand(s.jobs[j].stage) then 1 else 0) == 1
    ensures |s.freeJobs| + s.inFlight == |s.jobs|
  {
    ReachableInv(s);
    assert Placed(s, j);
    DistinctCount(s.freeJobs, j);
    WaitPlacesOf(s.jobs, s.counters, j);
    QueuePlacesOf(s.jobs, s.queues, j);
  }

  // --- counters -------------------------------------------------------------------------------------

  /** The assertions of the source hold: no decrement goes below zero, no reference is dropped
      twice, a slot is recycled at zero with an empty wait list, and the counter a completing job
      counts down is still the one it was registered with. */
  lemma AssertionsHold(s: State, c: nat)
    requires Reachable(s) && c < |s.counters|
    ensures s.counters[c].dropping > 0 ==> s.counters[c].value > 0
    ensures s.counters[c].releasing > 0 ==> s.counters[c].refs > 0
    ensures s.counters[c].recycling > 0 ==>
      s.counters[c].value == 0 && s.counters[c].waiters == [] && s.counters[c].holds == 0 && c !in s.freeCounters
    ensures forall j :: 0 <= j < |s.jobs| && s.jobs[j].CountsFor(c) ==> s.IsCounterValid(s.jobs[j].accumulate.value)
  {
    ReachableInv(s);
    assert CounterOk(s, c);
    forall j | 0 <= j < |s.jobs| && s.jobs[j].CountsFor(c) ensures s.IsCounterValid(s.jobs[j].accumulate.value) {
      assert JobOk(s, j);
      CountZero(s.jobs, c, false, j);
    }
  }

  /** No waiter is stranded: while jobs wait on a counter, either completions are still pending or
      the thread that brought it to zero has yet to collect them; and the slot stays valid. */
  lemma NoStrandedWaiter(s: State, c: nat)
    requires Reachable(s) && c < |s.counters| && s.counters[c].waiters != []
    ensures s.counters[c].value > 0 || s.counters[c].flushing > 0
    ensures s.counters[c].refs > 0 && s.counters[c].recycling == 0
  {
    ReachableInv(s);
    assert CounterOk(s, c);
  }

  /** A thread gets out of its wait only while the counter it waits for is at zero. */
  lemma WaitEndsAtZero(s: State, step: Step, w: nat)
    requires Enabled(s, step) && w < |s.waiters| && !s.waiters[w].Idle?
    ensures |Next(s, step).waiters| == |s.waiters|
    ensures Next(s, step).waiters[w].Idle? ==> s.waiters[w].counter < |s.counters| && s.counters[s.waiters[w].counter].value == 0
  {
    hide HandAll;
  }

  /** No lost wakeup: a thread asleep on a counter that is zero still has a notify coming, as long as
      that counter never rose again after falling to zero. */
  lemma NoLostWakeup(s: State, w: nat)
    requires Reachable(s) && w < |s.waiters| && s.waiters[w].Asleep?
    ensures s.waiters[w].counter < |s.counters|
    ensures var x := s.counters[s.waiters[w].counter];
      && x.holds > 0
      && (x.value == 0 && !x.risen ==> x.notifying > 0 || (x.flushing > 0 && x.threadWaiting))
  {
    ReachableInv(s);
    assert WaiterOk(s, w);
  }

  // --- no deadlock ----------------------------------------------------------------------------------

  /** No thread is anywhere inside the job system and no client holds a counter up. */
  predicate Quiescent(s: State) {
    && (forall j :: 0 <= j < |s.jobs| ==> s.jobs[j].stage.Free? || s.jobs[j].stage.Waiting?)
    && (forall c :: 0 <= c < |s.counters| ==>
          s.counters[c].external == 0 && s.counters[c].dropping == 0 && s.counters[c].flushing == 0)
  }

  /** Each waiting job waits for a counter of lower rank than the one it completes: the dependency
      graph the clients built has no cycle. */
  ghost predicate Ranked(s: State, rank: nat -> nat) {
    forall j :: 0 <= j < |s.jobs| && s.jobs[j].stage.Waiting? && s.jobs[j].accumulate.Some? ==>
      rank(s.jobs[j].stage.counter) < rank(s.jobs[j].accumulate.value.index)
  }

  lemma {:induction false} PendingJob(jobs: seq<Job>, c: nat) returns (j: nat)
    requires Count(jobs, c, false) > 0
    ensures j < |jobs| && jobs[j].CountsFor(c)
  {
    var n := |jobs| - 1;
    if jobs[n].CountsFor(c) {
      j := n;
    } else {
      j := PendingJob(jobs[..n], c);
    }
  }

  /** A waiting job waits for another waiting job, further down the graph. */
  lemma WaitsOnLower(s: State, rank: nat -> nat, j: nat) returns (k: nat)
    requires Inv(s) && Quiescent(s) && Ranked(s, rank)
    requires j < |s.jobs| && s.jobs[j].stage.Waiting?
    ensures k < |s.jobs| && s.jobs[k].stage.Waiting? && rank(s.jobs[k].stage.counter) < rank(s.jobs[j].stage.counter)
  {
    var c := s.jobs[j].stage.counter;
    assert Placed(s, j);
    assert CounterOk(s, c);
    k := PendingJob(s.jobs, c);
  }

  lemma {:induction false} NoWaiterBelow(s: State, rank: nat -> nat, n: nat)
    requires Inv(s) && Quiescent(s) && Ranked(s, rank)
    ensures forall j :: 0 <= j < |s.jobs| && s.jobs[j].stage.Waiting? ==> rank(s.jobs[j].stage.counter) >= n
  {
    if n > 0 {
      NoWaiterBelow(s, rank, n - 1);
      forall j | 0 <= j < |s.jobs| && s.jobs[j].stage.Waiting? ensures rank(s.jobs[j].stage.counter) >= n {
        var k := WaitsOnLower(s, rank, j);
      }
    }
  }

  /** Work never gets stuck: when no thread is busy and no client holds a counter, every job has
      run. */
  lemma QuiescentIsDone(s: State, rank: nat -> nat)
    requires Reachable(s) && Quiescent(s) && Ranked(s, rank)
    ensures forall j :: 0 <= j < |s.jobs| ==> s.jobs[j].stage == Free
    ensures forall c :: 0 <= c < |s.counters| ==> s.counters[c].value == 0 && s.counters[c].waiters == []
  {
    ReachableInv(s);
    forall j | 0 <= j < |s.jobs| ensures s.jobs[j].stage == Free {
      if s.jobs[j].stage.Waiting? {
        NoWaiterBelow(s, rank, rank(s.jobs[j].stage.counter) + 1);
      }
    }
    forall c | 0 <= c < |s.counters| ensures s.counters[c].value == 0 && s.counters[c].waiters == [] {
      assert CounterOk(s, c);
      if Count(s.jobs, c, false) > 0 {
        var k := PendingJob(s.jobs, c);
      }
    }
  }
}
