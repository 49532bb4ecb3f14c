/** The order in which registered jobs start, over all runs of the job system: a job that has been handed
    to dispatch finds finished whatever it waited for directly or through other jobs, unless one of the
    counters it waited for so was raised between its fall to zero and the collection of its waiters. */
module JobHistories {
  import opened Results
  import opened JobProtocol
  import opened JobSafety
  import opened JobTheorems
  import B = JobBuilders

  /** What a run has registered so far. `births` numbers the counters in the order of their creation, by
      slot. `log` holds the registrations in the order in which they looked at the wait list, `slot` and
      `entry` which record a registration has and back, `done` those whose job has completed; `early` are
      the counters that were raised between a fall to zero and the collection of their waiters. */
  datatype History = History(births: seq<nat>, created: nat, log: seq<B.Job>, slot: seq<nat>, entry: seq<nat>, done: set<nat>, early: set<nat>)
  {
    function Named(h: Option<Handle>): Option<nat> {
      if h.Some? && h.value.index < |births| then Some(births[h.value.index]) else None
    }
  }

  /** The counter that the step raises between its fall to zero and the collection of its waiters. */
  function RaisedEarly(s: State, h: History, step: Step): set<nat>
    requires |h.births| == |s.counters|
  {
    match step
    case IncrementValue(c) => if c < |s.counters| && s.counters[c].flushing > 0 then {h.births[c]} else {}
    case JobValue(j) =>
      if j < |s.jobs| && s.jobs[j].accumulate.Some? && s.jobs[j].accumulate.value.index < |s.counters|
         && s.counters[s.jobs[j].accumulate.value.index].flushing > 0
      then {h.births[s.jobs[j].accumulate.value.index]} else {}
    case _ => {}
  }

  /** What the step adds. */
  function Track(s: State, h: History, step: Step): History
    requires Enabled(s, step) && |h.births| == |s.counters| && |h.entry| == |s.jobs|
  {
    match step
    case CreateCounter => h.(births := h.births[s.freeCounters[0] := h.created], created := h.created + 1)
    case JobLink(j) =>
      var x := s.jobs[j];
      h.(log := h.log + [B.Job(h.Named(x.waitFor), h.Named(x.accumulate), x.hasFunction)],
         slot := h.slot + [j], entry := h.entry[j := |h.log|])
    case Complete(j) => h.(done := h.done + {h.entry[j]})
    case _ => h.(early := h.early + RaisedEarly(s, h, step))
  }

  /** A run, with what it has registered so far. */
  ghost predicate HistoryRun(s: State, h: History, steps: seq<Step>, t: State, g: History)
    decreases |steps|
  {
    if steps == [] then s == t && h == g
    else
      && Enabled(s, steps[0]) && |h.births| == |s.counters| && |h.entry| == |s.jobs|
      && HistoryRun(Next(s, steps[0]), Track(s, h, steps[0]), steps[1..], t, g)
  }

  /** Nothing is registered yet. */
  predicate Unwritten(s: State, h: History) {
    && h == History(seq(|s.counters|, c => c), |s.counters|, [], [], h.entry, {}, {}) && |h.entry| == |s.jobs|
  }

  ghost predicate Recorded(s: State, h: History) {
    exists init, start, steps :: Initial(init) && Unwritten(init, start) && HistoryRun(init, start, steps, s, h)
  }

  // --- the invariant ----------------------------------------------------------------------------------

  predicate Linked(stage: Stage) {
    stage.Waiting? || stage.Ready? || stage.Queued? || stage.Running? || stage.Finished?
  }

  predicate Sized(s: State, h: History) {
    && |h.births| == |s.counters| && |h.entry| == |s.jobs| && |h.slot| == |h.log|
    && forall i :: 0 <= i < |h.slot| ==> h.slot[i] < |s.jobs|
  }

  /** Counters have names of their own, and names yet to be given are in no registration. */
  predicate NamesOk(h: History) {
    && (forall c :: 0 <= c < |h.births| ==> h.births[c] < h.created)
    && (forall c, d :: 0 <= c < d < |h.births| ==> h.births[c] != h.births[d])
  }

  /** A registration that has not completed is in its record. */
  predicate EntryOk(s: State, h: History, i: nat)
    requires Sized(s, h) && i < |h.log|
  {
    i !in h.done ==> Linked(s.jobs[h.slot[i]].stage) && h.entry[h.slot[i]] == i
  }

  /** A record that has been registered stands for its entry. */
  predicate RecordOk(s: State, h: History, j: nat)
    requires Sized(s, h) && j < |s.jobs|
  {
    Linked(s.jobs[j].stage) ==>
      && h.entry[j] < |h.log| && h.entry[j] !in h.done && h.slot[h.entry[j]] == j
      && h.log[h.entry[j]].into == h.Named(s.jobs[j].accumulate)
      && (s.jobs[j].stage.Waiting? ==> s.jobs[j].stage.counter < |h.births| && h.log[h.entry[j]].wait == Some(h.births[s.jobs[j].stage.counter]))
  }

  /** The job of registration i has been handed to dispatch. */
  predicate Handed(s: State, h: History, i: nat)
    requires Sized(s, h) && i < |h.log|
  {
    i in h.done || !s.jobs[h.slot[i]].stage.Waiting?
  }

  predicate OrderOk(s: State, h: History, i: nat)
    requires Sized(s, h) && i < |h.log|
  {
    Handed(s, h, i) && B.Above(h.log, i) !! h.early ==> B.StartsAfter(h.log, i) <= h.done
  }

  predicate EarlyOk(s: State, h: History) {
    |h.births| == |s.counters| && forall c :: 0 <= c < |s.counters| && s.counters[c].early ==> h.births[c] in h.early
  }

  ghost predicate HistoryOk(s: State, h: History) {
    && Sized(s, h) && NamesOk(h) && (forall i :: i in h.done ==> i < |h.log|)
    && (forall i :: 0 <= i < |h.log| ==> EntryOk(s, h, i) && OrderOk(s, h, i))
    && (forall j :: 0 <= j < |s.jobs| ==> RecordOk(s, h, j))
    && EarlyOk(s, h)
  }

  lemma OnlyRaising(s: State, step: Step, c: nat)
    requires Enabled(s, step) && c < |s.counters| && |Next(s, step).counters| == |s.counters|
    requires Next(s, step).counters[c].value > s.counters[c].value
    ensures step == IncrementValue(c) || (step.JobValue? && s.jobs[step.j].accumulate.value.index == c)
  {}

  lemma Raises(s: State, step: Step, c: nat)
    requires Enabled(s, step) && c < |s.counters|
    ensures |Next(s, step).counters| == |s.counters|
    ensures step == IncrementValue(c) || (step.JobValue? && s.jobs[step.j].accumulate.value.index == c) ==>
      Next(s, step).counters[c].value > s.counters[c].value
  {}

  /** A counter is on record as raised early exactly from a step on that raises it while the collection of
      its waiters is on its way. */
  lemma EarlyIsRaised(s: State, h: History, step: Step, c: nat)
    requires HistoryOk(s, h) && Enabled(s, step) && c < |s.counters|
    ensures |Next(s, step).counters| == |s.counters|
    ensures h.births[c] in Track(s, h, step).early <==>
      h.births[c] in h.early || (s.counters[c].flushing > 0 && Next(s, step).counters[c].value > s.counters[c].value)
  {
    Raises(s, step, c);
    if Next(s, step).counters[c].value > s.counters[c].value {
      OnlyRaising(s, step, c);
    }
    hide Next, Enabled;
    assert forall d :: 0 <= d < |h.births| && d != c ==> h.births[d] != h.births[c];
  }

  // --- a counter at zero ------------------------------------------------------------------------------

  /** A job that counts for a counter at zero has completed. */
  lemma CountedIsDone(s: State, h: History, c: nat, i: nat)
    requires Inv(s) && HistoryOk(s, h) && c < |s.counters| && s.counters[c].value == 0
    requires i < |h.log| && h.log[i].into == Some(h.births[c])
    ensures i in h.done
  {
    if i !in h.done {
      var j := h.slot[i];
      assert EntryOk(s, h, i) && RecordOk(s, h, j);
      assert JobOk(s, j) && CounterOk(s, c);
      assert s.jobs[j].CountsFor(c);
      CountZero(s.jobs, c, false, j);
    }
  }

  /** A counter at zero stands for everything behind it. */
  lemma {:induction false} ZeroCovers(s: State, h: History, c: nat, n: nat)
    requires Inv(s) && HistoryOk(s, h) && c < |s.counters| && s.counters[c].value == 0 && n <= |h.log|
    requires B.Under(h.log, Some(h.births[c]), n) !! h.early
    ensures B.Behind(h.log, Some(h.births[c]), n) <= h.done
  {
    if n > 0 {
      ZeroCovers(s, h, c, n - 1);
      if h.log[n - 1].into == Some(h.births[c]) {
        CountedIsDone(s, h, c, n - 1);
        assert OrderOk(s, h, n - 1);
      }
    }
  }

  // --- steps ------------------------------------------------------------------------------------------

  lemma EarlyKeeps(s: State, h: History, step: Step)
    requires Enabled(s, step) && EarlyOk(s, h) && |h.entry| == |s.jobs|
    requires step.CreateCounter? ==> forall c :: 0 <= c < |h.births| ==> h.births[c] < h.created
    ensures |Next(s, step).counters| == |s.counters| && |Next(s, step).jobs| == |s.jobs|
    ensures EarlyOk(Next(s, step), Track(s, h, step)) && h.early <= Track(s, h, step).early
  {
    hide HandAll, WakeAll;
  }

  /** A record that stays registered, or not, with the same target; it may be handed over when all it
      waits for is done. */
  predicate Carries(x: Job, y: Job, ready: bool) {
    && (Linked(x.stage) <==> Linked(y.stage))
    && (Linked(y.stage) ==> y.accumulate == x.accumulate && (y.stage.Waiting? ==> x.stage == y.stage)
                            && (x.stage.Waiting? && !y.stage.Waiting? ==> ready))
  }

  /** Nothing that registration i starts after holds it any more. */
  predicate Cleared(h: History, i: nat) {
    i < |h.log| && (B.Above(h.log, i) !! h.early ==> B.StartsAfter(h.log, i) <= h.done)
  }

  lemma CarryKeeps(s: State, h: History, t: State, g: History)
    requires HistoryOk(s, h) && |t.jobs| == |s.jobs| && |t.counters| == |s.counters|
    requires g == h.(early := g.early) && h.early <= g.early && EarlyOk(t, g)
    requires forall j :: 0 <= j < |s.jobs| ==>
      Carries(s.jobs[j], t.jobs[j], Cleared(h, h.entry[j]))
    ensures HistoryOk(t, g)
  {
    hide B.StartsAfter, B.Above;
    forall i | 0 <= i < |h.log| ensures EntryOk(t, g, i) && OrderOk(t, g, i) {
      assert EntryOk(s, h, i) && OrderOk(s, h, i);
      var j := h.slot[i];
      assert RecordOk(s, h, j);
      assert Carries(s.jobs[j], t.jobs[j], Cleared(h, h.entry[j]));
    }
    forall j | 0 <= j < |t.jobs| ensures RecordOk(t, g, j) {
      assert RecordOk(s, h, j);
      assert Carries(s.jobs[j], t.jobs[j], Cleared(h, h.entry[j]));
    }
  }

  /** Most steps register nothing, complete nothing and hand over nothing that waits. */
  predicate Quiet(step: Step) {
    !step.CreateCounter? && !step.JobLink? && !step.Complete? && !step.Flush?
  }

  lemma QuietCarries(s: State, step: Step, j: nat)
    requires Inv(s) && Enabled(s, step) && Quiet(step) && j < |s.jobs|
    ensures |Next(s, step).jobs| == |s.jobs| && Carries(s.jobs[j], Next(s, step).jobs[j], false)
  {
    hide WakeAll, Books, Records, Sleepers;
    if step.Pop? {
      assert s.jobs[s.queues[step.p][0]].stage == Queued(step.p);
    } else if step.AllocateJob? {
      assert s.jobs[s.freeJobs[0]].stage == Free;
    }
  }

  lemma QuietKeeps(s: State, h: History, step: Step)
    requires Inv(s) && HistoryOk(s, h) && Enabled(s, step) && Quiet(step)
    ensures HistoryOk(Next(s, step), Track(s, h, step))
  {
    EarlyKeeps(s, h, step);
    hide Next, Inv, Cleared;
    forall j | 0 <= j < |s.jobs|
      ensures Carries(s.jobs[j], Next(s, step).jobs[j], Cleared(h, h.entry[j]))
    {
      QuietCarries(s, step, j);
    }
    CarryKeeps(s, h, Next(s, step), Track(s, h, step));
  }

  /** Waiters are collected at zero, when everything behind the counter is done. */
  lemma FlushCarries(s: State, h: History, c: nat, j: nat)
    requires Inv(s) && HistoryOk(s, h) && Enabled(s, Flush(c)) && j < |s.jobs|
    ensures |Next(s, Flush(c)).jobs| == |s.jobs|
    ensures Carries(s.jobs[j], Next(s, Flush(c)).jobs[j], Cleared(h, h.entry[j]))
  {
    hide B.Behind, B.Under;
    var list := s.counters[c].waiters;
    HandAllSpec(s.jobs, list, c);
    assert Next(s, Flush(c)).jobs == HandAll(s.jobs, list);
    hide Next, HandAll;
    if j in list {
      assert s.jobs[j].stage == Waiting(c) && RecordOk(s, h, j) && CounterOk(s, c);
      if B.Above(h.log, h.entry[j]) !! h.early {
        ZeroCovers(s, h, c, h.entry[j]);
      }
    }
  }

  lemma FlushKeeps(s: State, h: History, c: nat)
    requires Inv(s) && HistoryOk(s, h) && Enabled(s, Flush(c))
    ensures HistoryOk(Next(s, Flush(c)), Track(s, h, Flush(c)))
  {
    EarlyKeeps(s, h, Flush(c));
    hide Next, Inv, Cleared;
    forall j | 0 <= j < |s.jobs|
      ensures Carries(s.jobs[j], Next(s, Flush(c)).jobs[j], Cleared(h, h.entry[j]))
    {
      FlushCarries(s, h, c, j);
    }
    CarryKeeps(s, h, Next(s, Flush(c)), Track(s, h, Flush(c)));
  }

  /** A slot given out again: no registered job counts for it or waits on it. */
  lemma CreateKeeps(s: State, h: History)
    requires Inv(s) && HistoryOk(s, h) && Enabled(s, CreateCounter)
    ensures HistoryOk(Next(s, CreateCounter), Track(s, h, CreateCounter))
  {
    var t, g, c := Next(s, CreateCounter), Track(s, h, CreateCounter), s.freeCounters[0];
    assert CounterOk(s, c);
    EarlyKeeps(s, h, CreateCounter);
    forall j | 0 <= j < |s.jobs| ensures RecordOk(t, g, j) {
      assert RecordOk(s, h, j) && Placed(s, j);
      if Linked(s.jobs[j].stage) && s.jobs[j].CountsFor(c) {
        CountZero(s.jobs, c, false, j);
      }
    }
    forall i | 0 <= i < |g.log| ensures EntryOk(t, g, i) && OrderOk(t, g, i) {
      assert EntryOk(s, h, i) && OrderOk(s, h, i);
    }
  }

  lemma CompleteKeeps(s: State, h: History, j: nat)
    requires Inv(s) && HistoryOk(s, h) && Enabled(s, Complete(j))
    ensures HistoryOk(Next(s, Complete(j)), Track(s, h, Complete(j)))
  {
    hide B.StartsAfter;
    var t, g, e := Next(s, Complete(j)), Track(s, h, Complete(j)), h.entry[j];
    EarlyKeeps(s, h, Complete(j));
    assert RecordOk(s, h, j);
    assert g.done == h.done + {e} && EntryOk(s, h, e) && OrderOk(s, h, e);
    hide Next, Track, Inv;
    forall i | 0 <= i < |g.log| ensures EntryOk(t, g, i) && OrderOk(t, g, i) {
      assert EntryOk(s, h, i) && OrderOk(s, h, i);
    }
    forall k | 0 <= k < |t.jobs| ensures RecordOk(t, g, k) {
      assert RecordOk(s, h, k);
    }
  }

  /** A job that need not wait is handed over when everything behind its counter is done. */
  lemma LinkedReady(s: State, h: History, j: nat)
    requires Inv(s) && HistoryOk(s, h) && Enabled(s, JobLink(j)) && Next(s, JobLink(j)).jobs[j].stage.Ready?
    ensures Cleared(Track(s, h, JobLink(j)).(done := h.done), |h.log|)
  {
    var x, wait := s.jobs[j], h.Named(s.jobs[j].waitFor);
    var job := B.Job(wait, h.Named(x.accumulate), x.hasFunction);
    B.BehindNext(h.log, job, None);
    B.UnderPrefix(h.log, [job], wait, |h.log|);
    if x.waitFor.Some? && B.Above(h.log + [job], |h.log|) !! h.early {
      ZeroCovers(s, h, x.waitFor.value.index, |h.log|);
    }
  }

  lemma LinkKeeps(s: State, h: History, j: nat)
    requires Inv(s) && HistoryOk(s, h) && Enabled(s, JobLink(j))
    ensures HistoryOk(Next(s, JobLink(j)), Track(s, h, JobLink(j)))
  {
    hide B.StartsAfter;
    var t, g, n := Next(s, JobLink(j)), Track(s, h, JobLink(j)), |h.log|;
    EarlyKeeps(s, h, JobLink(j));
    assert forall k :: 0 <= k < |s.jobs| && k != j ==> t.jobs[k] == s.jobs[k];
    forall i | 0 <= i < n ensures EntryOk(t, g, i) && OrderOk(t, g, i) {
      assert EntryOk(s, h, i) && OrderOk(s, h, i);
      B.StartsAsBefore(h.log, g.log, i);
    }
    assert EntryOk(t, g, n) && OrderOk(t, g, n) && RecordOk(t, g, j) by {
      if t.jobs[j].stage.Ready? { LinkedReady(s, h, j); }
    }
    forall k | 0 <= k < |t.jobs| ensures RecordOk(t, g, k) {
      assert RecordOk(s, h, k);
    }
  }

  /** Every step keeps the record of what started after what. */
  lemma StepKeeps(s: State, h: History, step: Step)
    requires Inv(s) && HistoryOk(s, h) && Enabled(s, step)
    ensures HistoryOk(Next(s, step), Track(s, h, step))
  {
    hide HistoryOk, Inv, Next, Enabled;
    match step
    case CreateCounter => CreateKeeps(s, h);
    case JobLink(j) => LinkKeeps(s, h, j);
    case Complete(j) => CompleteKeeps(s, h, j);
    case Flush(c) => FlushKeeps(s, h, c);
    case _ => QuietKeeps(s, h, step);
  }

  lemma UnwrittenOk(s: State, h: History)
    requires Initial(s) && Unwritten(s, h)
    ensures HistoryOk(s, h)
  {}

  lemma {:induction false} RunKeeps(s: State, h: History, steps: seq<Step>, t: State, g: History)
    requires Inv(s) && HistoryOk(s, h) && HistoryRun(s, h, steps, t, g)
    ensures Inv(t) && HistoryOk(t, g)
    decreases |steps|
  {
    hide Inv, HistoryOk, Track, Enabled;
    if steps != [] {
      JobSafety.StepKeeps(s, steps[0]);
      StepKeeps(s, h, steps[0]);
      RunKeeps(Next(s, steps[0]), Track(s, h, steps[0]), steps[1..], t, g);
    }
  }

  lemma RecordedOk(s: State, h: History)
    requires Recorded(s, h)
    ensures Inv(s) && HistoryOk(s, h)
  {
    hide Inv, HistoryOk, Initial, Unwritten;
    var init, start, steps :| Initial(init) && Unwritten(init, start) && HistoryRun(init, start, steps, s, h);
    InitialInv(init);
    UnwrittenOk(init, start);
    RunKeeps(init, start, steps, s, h);
  }

  // --- what starts after what -------------------------------------------------------------------------

  /** In every run a job handed to dispatch finds every job it starts after completed, if none of the
      counters above it was raised early. */
  lemma BehindIsFinished(s: State, h: History, i: nat)
    requires Recorded(s, h) && i < |h.log|
    ensures Sized(s, h)
    ensures Handed(s, h, i) && B.Above(h.log, i) !! h.early ==> B.StartsAfter(h.log, i) <= h.done
  {
    RecordedOk(s, h);
    assert OrderOk(s, h, i);
  }

  /** A counter seen at zero stands for every job registered behind it so far, if none of the counters they
      waited for was raised early. */
  lemma ZeroIsFinished(s: State, h: History, c: nat)
    requires Recorded(s, h) && c < |s.counters| && s.counters[c].value == 0
    ensures c < |h.births|
    ensures B.Under(h.log, Some(h.births[c]), |h.log|) !! h.early ==> B.Behind(h.log, Some(h.births[c]), |h.log|) <= h.done
  {
    RecordedOk(s, h);
    if B.Under(h.log, Some(h.births[c]), |h.log|) !! h.early {
      ZeroCovers(s, h, c, |h.log|);
    }
  }

  /** When a wait is over, every job registered behind its counter by then has completed, under the same
      condition. */
  lemma WaitIsForAll(s: State, h: History, step: Step, w: nat)
    requires Recorded(s, h) && Enabled(s, step) && w < |s.waiters| && !s.waiters[w].Idle?
    requires w < |Next(s, step).waiters| && Next(s, step).waiters[w].Idle?
    ensures s.waiters[w].counter < |h.births|
    ensures var name := Some(h.births[s.waiters[w].counter]);
      B.Under(h.log, name, |h.log|) !! h.early ==> B.Behind(h.log, name, |h.log|) <= h.done
  {
    hide Next, Enabled, Recorded;
    WaitEndsAtZero(s, step, w);
    ZeroIsFinished(s, h, s.waiters[w].counter);
  }

  // --- one client among several -----------------------------------------------------------------------

  function Renamed(c: Option<nat>, names: nat -> nat): Option<nat> {
    if c.None? then None else Some(names(c.value))
  }

  /** The jobs one client registered, at the places they have among all registrations. */
  ghost predicate Among(jobs: seq<B.Job>, all: seq<B.Job>, places: seq<nat>, names: nat -> nat) {
    && |places| == |jobs|
    && (forall i :: 0 <= i < |places| ==>
          (places[i] < |all| && all[places[i]] == B.Job(Renamed(jobs[i].wait, names), Renamed(jobs[i].into, names), jobs[i].work)))
    && (forall i, k :: 0 <= i < k < |places| ==> places[i] < places[k])
  }

  lemma {:induction false} BehindHas(jobs: seq<B.Job>, c: Option<nat>, i: nat, n: nat)
    requires i < n <= |jobs| && c.Some? && jobs[i].into == c
    ensures {i} + B.Behind(jobs, jobs[i].wait, i) <= B.Behind(jobs, c, n)
  {
    if i < n - 1 {
      BehindHas(jobs, c, i, n - 1);
    }
  }

  /** What others register in between takes nothing away from what a job starts after. */
  lemma {:induction false} BehindAmong(jobs: seq<B.Job>, all: seq<B.Job>, places: seq<nat>, names: nat -> nat, c: Option<nat>, n: nat, m: nat)
    requires Among(jobs, all, places, names) && n <= |jobs| && m <= |all|
    requires forall i :: 0 <= i < n ==> places[i] < m
    ensures forall i :: i in B.Behind(jobs, c, n) ==> i < n && places[i] in B.Behind(all, Renamed(c, names), m)
    decreases n
  {
    if n > 0 && c.Some? {
      BehindAmong(jobs, all, places, names, c, n - 1, m);
      if jobs[n - 1].into == c {
        var p := places[n - 1];
        BehindAmong(jobs, all, places, names, jobs[n - 1].wait, n - 1, p);
        BehindHas(all, Renamed(c, names), p, m);
      }
    }
  }

  /** So a client's job that has been handed to dispatch finds completed all that its client made it
      start after, whatever other threads registered meanwhile. */
  lemma StartedAfterOwn(s: State, h: History, jobs: seq<B.Job>, places: seq<nat>, names: nat -> nat, k: nat)
    requires Recorded(s, h) && Among(jobs, h.log, places, names) && k < |jobs|
    ensures Sized(s, h)
    ensures Handed(s, h, places[k]) && B.Above(h.log, places[k]) !! h.early ==> forall i :: i in B.StartsAfter(jobs, k) ==> i < k && places[i] in h.done
  {
    BehindIsFinished(s, h, places[k]);
    BehindAmong(jobs, h.log, places, names, jobs[k].wait, k, places[k]);
  }

  /** And a counter at zero that its client knows as c has behind it completed all that its client put
      there. */
  lemma ZeroCoversOwn(s: State, h: History, jobs: seq<B.Job>, places: seq<nat>, names: nat -> nat, c: nat, slot: nat)
    requires Recorded(s, h) && Among(jobs, h.log, places, names)
    requires slot < |s.counters| && s.counters[slot].value == 0
    ensures slot < |h.births|
    ensures h.births[slot] == names(c) && B.Under(h.log, Some(h.births[slot]), |h.log|) !! h.early ==> forall i :: i in B.Behind(jobs, Some(c), |jobs|) ==> i < |jobs| && places[i] in h.done
  {
    ZeroIsFinished(s, h, slot);
    BehindAmong(jobs, h.log, places, names, Some(c), |jobs|, |h.log|);
  }
}
