/** Job builders: what every job dispatched through one waits for, and what its counters stand for.
    Both are read off the list of registrations: a job waits for everything that was registered before
    it into the counter it waits for, with whatever that waits for in turn. JobHistories proves that
    runs of the job system keep to this. */
module JobBuilders {
  import opened Alignments
  import opened Results

  /** RunJob: the counter waited for, the counter accumulated into, and whether it does work; a splice
      job does none. */
  datatype Job = Job(wait: Option<nat>, into: Option<nat>, work: bool)

  /** What counter c stands for after the first n registrations: the jobs that are done when it is seen at
      zero then. */
  function Behind(jobs: seq<Job>, c: Option<nat>, n: nat): set<nat>
    requires n <= |jobs|
    decreases n
  {
    if n == 0 || c.None? then {}
    else Behind(jobs, c, n - 1) + if jobs[n - 1].into == c then {n - 1} + Behind(jobs, jobs[n - 1].wait, n - 1) else {}
  }

  /** The jobs that are done before job k starts. */
  function StartsAfter(jobs: seq<Job>, k: nat): set<nat>
    requires k < |jobs|
  {
    Behind(jobs, jobs[k].wait, k)
  }

  function Named(c: Option<nat>): set<nat> {
    if c.Some? then {c.value} else {}
  }

  /** The counters that the jobs behind c waited for. */
  function Under(jobs: seq<Job>, c: Option<nat>, n: nat): set<nat>
    requires n <= |jobs|
    decreases n
  {
    if n == 0 || c.None? then {}
    else Under(jobs, c, n - 1) +
         if jobs[n - 1].into == c then Named(jobs[n - 1].wait) + Under(jobs, jobs[n - 1].wait, n - 1) else {}
  }

  /** The counters job k waits for, directly or through other jobs. */
  function Above(jobs: seq<Job>, k: nat): set<nat>
    requires k < |jobs|
  {
    Named(jobs[k].wait) + Under(jobs, jobs[k].wait, k)
  }

  lemma {:induction false} UnderPrefix(jobs: seq<Job>, more: seq<Job>, c: Option<nat>, n: nat)
    requires n <= |jobs|
    ensures Under(jobs + more, c, n) == Under(jobs, c, n)
    decreases n
  {
    if n > 0 && c.Some? {
      UnderPrefix(jobs, more, c, n - 1);
      UnderPrefix(jobs, more, jobs[n - 1].wait, n - 1);
    }
  }

  lemma {:induction false} BehindGrows(jobs: seq<Job>, c: Option<nat>, n: nat, m: nat)
    requires n <= m <= |jobs|
    ensures Behind(jobs, c, n) <= Behind(jobs, c, m)
  {
    if n < m { BehindGrows(jobs, c, n, m - 1); }
  }

  lemma {:induction false} BehindPrefix(jobs: seq<Job>, more: seq<Job>, c: Option<nat>, n: nat)
    requires n <= |jobs|
    ensures Behind(jobs + more, c, n) == Behind(jobs, c, n)
    decreases n
  {
    if n > 0 && c.Some? {
      BehindPrefix(jobs, more, c, n - 1);
      BehindPrefix(jobs, more, jobs[n - 1].wait, n - 1);
    }
  }

  /** One more job: its target now stands for the job and all the job waits for; every other counter
      stands for what it did. */
  lemma BehindNext(jobs: seq<Job>, job: Job, c: Option<nat>)
    ensures Behind(jobs + [job], c, |jobs| + 1) ==
      Behind(jobs, c, |jobs|) + if c.Some? && job.into == c then {|jobs|} + Behind(jobs, job.wait, |jobs|) else {}
    ensures StartsAfter(jobs + [job], |jobs|) == Behind(jobs, job.wait, |jobs|)
  {
    BehindPrefix(jobs, [job], c, |jobs|);
    BehindPrefix(jobs, [job], job.wait, |jobs|);
  }

  datatype Fence = Full | Parallel

  /** mFence, mEntry, mOwnsEntry and mTail. */
  datatype Chain = Chain(fence: Fence, entry: Option<nat>, ownsEntry: bool, tail: Option<nat>)
  {
    function CompletionSoFar(): Option<nat> {
      if tail.Some? then tail else if ownsEntry then entry else None
    }
  }

  lemma StartsAsBefore(jobs: seq<Job>, all: seq<Job>, k: nat)
    requires jobs <= all && k < |jobs|
    ensures StartsAfter(all, k) == StartsAfter(jobs, k) && Above(all, k) == Above(jobs, k)
  {
    assert all == jobs + all[|jobs|..];
    UnderPrefix(jobs, all[|jobs|..], jobs[k].wait, k);
    BehindPrefix(jobs, all[|jobs|..], jobs[k].wait, k);
  }

  /** What the builder keeps: its completion stands for everything dispatched through it, its entry
      for all that later jobs must wait for; and a serial builder makes later jobs wait for all. */
  predicate Keeps(b: Chain, jobs: seq<Job>, steps: set<nat>, barrier: set<nat>) {
    && steps <= Behind(jobs, b.CompletionSoFar(), |jobs|)
    && barrier <= Behind(jobs, b.entry, |jobs|)
    && (b.tail.Some? ==> barrier <= Behind(jobs, b.tail, |jobs|))
    && (b.fence.Full? ==> steps <= barrier && (b.tail.Some? ==> b.entry == b.tail))
    && (b.fence.Parallel? ==> if b.tail.Some? then b.tail != b.entry else steps <= barrier)
  }

  function SoFarWait(b: Chain): Option<nat> {
    if b.tail.Some? then b.tail else b.entry
  }

  /** The splice jobs of DispatchWait. */
  function WaitJobs(b: Chain, counter: nat, joined: nat): seq<Job> {
    (if SoFarWait(b).Some? then [Job(SoFarWait(b), Some(joined), false)] else []) + [Job(Some(counter), Some(joined), false)]
  }

  lemma WaitKeeps(b: Chain, jobs: seq<Job>, steps: set<nat>, barrier: set<nat>, counter: nat, joined: nat)
    requires Keeps(b, jobs, steps, barrier) && counter != joined
    ensures Keeps(Chain(b.fence, Some(joined), b.fence.Parallel?, if b.fence.Full? then Some(joined) else None), jobs + WaitJobs(b, counter, joined),
                  steps, barrier + steps + Behind(jobs, Some(counter), |jobs|))
    ensures jobs + WaitJobs(b, counter, joined) ==
      if SoFarWait(b).Some? then jobs + [Job(SoFarWait(b), Some(joined), false)] + [Job(Some(counter), Some(joined), false)]
      else jobs + [Job(Some(counter), Some(joined), false)]
  {
    var c, first, second := Some(joined), Job(SoFarWait(b), Some(joined), false), Job(Some(counter), Some(joined), false);
    var before := if SoFarWait(b).Some? then jobs + [first] else jobs;
    var after := jobs + WaitJobs(b, counter, joined);
    assert after == before + [second];
    SoFarCovers(b, jobs, steps, barrier);
    BehindNext(jobs, first, c);
    BehindNext(jobs, first, Some(counter));
    BehindNext(before, second, c);
    hide Behind;
    assert Behind(jobs, SoFarWait(b), |jobs|) + Behind(jobs, Some(counter), |jobs|) <= Behind(after, c, |after|);
  }

  lemma SoFarCovers(b: Chain, jobs: seq<Job>, steps: set<nat>, barrier: set<nat>)
    requires Keeps(b, jobs, steps, barrier)
    ensures steps + barrier <= Behind(jobs, SoFarWait(b), |jobs|)
    ensures SoFarWait(b).None? ==> Behind(jobs, SoFarWait(b), |jobs|) == {}
  {}

  lemma TailApart(b: Chain, jobs: seq<Job>, steps: set<nat>, barrier: set<nat>)
    requires Keeps(b, jobs, steps, barrier)
    ensures b.fence.Parallel? && b.tail.Some? ==> b.tail != b.entry
  {}

  /** A parallel job: into the shared tail, which may be new. */
  lemma ParallelKeeps(b: Chain, jobs: seq<Job>, steps: set<nat>, barrier: set<nat>, shared: nat)
    requires Keeps(b, jobs, steps, barrier) && b.fence.Parallel? && b.entry != Some(shared) && (b.tail.Some? ==> b.tail == Some(shared))
    ensures Keeps(b.(tail := Some(shared)), jobs + [Job(b.entry, Some(shared), true)], steps + {|jobs|}, barrier)
    ensures Behind(jobs + [Job(b.entry, Some(shared), true)], b.entry, |jobs| + 1) == Behind(jobs, b.entry, |jobs|)
    ensures barrier <= StartsAfter(jobs + [Job(b.entry, Some(shared), true)], |jobs|)
  {
    var job := Job(b.entry, Some(shared), true);
    BehindNext(jobs, job, Some(shared));
    BehindNext(jobs, job, b.entry);
    hide Behind;
  }

  /** A serial job: into a counter of its own. */
  lemma SerialKeeps(b: Chain, jobs: seq<Job>, steps: set<nat>, barrier: set<nat>, completion: nat)
    requires Keeps(b, jobs, steps, barrier) && b.fence.Full? && b.entry != Some(completion) && b.tail != Some(completion)
    ensures Keeps(b, jobs + [Job(b.entry, Some(completion), true)], steps, barrier)
    ensures {|jobs|} + barrier <= Behind(jobs + [Job(b.entry, Some(completion), true)], Some(completion), |jobs| + 1)
    ensures barrier <= StartsAfter(jobs + [Job(b.entry, Some(completion), true)], |jobs|)
  {
    var job := Job(b.entry, Some(completion), true);
    BehindNext(jobs, job, Some(completion));
    BehindNext(jobs, job, b.entry);
    BehindNext(jobs, job, b.tail);
    hide Behind;
  }

  lemma KeepsMore(b: Chain, jobs: seq<Job>, job: Job, steps: set<nat>, barrier: set<nat>)
    requires Keeps(b, jobs, steps, barrier)
    ensures Keeps(b, jobs + [job], steps, barrier)
  {
    BehindNext(jobs, job, b.CompletionSoFar());
    BehindNext(jobs, job, b.entry);
    BehindNext(jobs, job, b.tail);
    hide Behind;
  }

  /** Jobs n to n + m, side by side behind the entry and into one counter. */
  predicate Fanned(jobs: seq<Job>, entry: Option<nat>, done: nat, n: nat, m: nat) {
    n + m <= |jobs| && forall k :: n <= k < n + m ==> jobs[k] == Job(entry, Some(done), true)
  }

  function Stretch(n: nat, end: nat): (r: set<nat>)
    ensures forall k: nat :: k in r <==> n <= k < end
  {
    if end <= n then {} else Stretch(n, end - 1) + {end - 1}
  }

  lemma {:induction false} FanBehind(jobs: seq<Job>, entry: Option<nat>, done: nat, n: nat, m: nat)
    requires Fanned(jobs, entry, done, n, m)
    ensures Stretch(n, n + m) <= Behind(jobs, Some(done), n + m)
    ensures m > 0 ==> Behind(jobs, entry, n) <= Behind(jobs, Some(done), n + m)
  {
    if m > 0 {
      FanBehind(jobs, entry, done, n, m - 1);
      assert Stretch(n, n + m) == Stretch(n, n + m - 1) + {n + m - 1};
      BehindGrows(jobs, entry, n, n + m - 1);
    }
  }

  class JobLog {
    var jobs: seq<Job>
    var counters: nat

    constructor ()
      ensures jobs == [] && counters == 0
    {
      jobs, counters := [], 0;
    }

    /** A counter nobody uses yet. */
    method CreateCounter() returns (c: nat)
      modifies this`counters
      ensures c == old(counters) && counters == c + 1
    {
      c := counters;
      counters := counters + 1;
    }

    method RunJob(wait: Option<nat>, into: Option<nat>, work: bool)
      modifies this`jobs
      ensures jobs == old(jobs) + [Job(wait, into, work)]
    {
      jobs := jobs + [Job(wait, into, work)];
    }
  }

  predicate Known(c: Option<nat>, counters: nat) {
    c.Some? ==> c.value < counters
  }

  class JobBuilder {
    const log: JobLog
    const parent: Option<nat>
    const fence: Fence
    var entry: Option<nat>
    var ownsEntry: bool
    var tail: Option<nat>
    /** The jobs dispatched through the builder, and those that every later one waits for. */
    ghost var steps: set<nat>
    ghost var barrier: set<nat>

    function Contents(): Chain
      reads this
    {
      Chain(fence, entry, ownsEntry, tail)
    }

    ghost predicate Valid()
      reads this, log
    {
      && Keeps(Contents(), log.jobs, steps, barrier)
      && Known(entry, log.counters) && Known(tail, log.counters) && Known(parent, log.counters)
      && forall i :: i in steps ==> i < |log.jobs|
    }

    constructor (log: JobLog, fence: Fence, waitFor: Option<nat>, parent: Option<nat>)
      requires Known(waitFor, log.counters) && Known(parent, log.counters)
      ensures Valid() && this.log == log && this.fence == fence && this.parent == parent && entry == waitFor
      ensures steps == {} && barrier == Behind(log.jobs, waitFor, |log.jobs|)
    {
      this.log, this.fence, this.parent := log, fence, parent;
      entry, ownsEntry, tail := waitFor, false, None;
      steps, barrier := {}, Behind(log.jobs, waitFor, |log.jobs|);
    }

    /** A step whose completion stands for its jobs and all that they waited for. */
    method AdvanceChain(completion: nat, ghost added: set<nat>)
      requires Valid() && completion < log.counters && forall i :: i in added ==> i < |log.jobs|
      requires added + barrier <= Behind(log.jobs, Some(completion), |log.jobs|)
      requires Some(completion) != entry && Some(completion) != tail
      modifies this`entry, this`ownsEntry, this`tail, this`steps, this`barrier, log`jobs
      ensures Valid() && old(log.jobs) <= log.jobs
      ensures fence.Full? ==> log.jobs == old(log.jobs)
      ensures steps == old(steps) + added && barrier == old(barrier) + (if fence.Full? then added else {})
    {
      steps := steps + added;
      if fence.Full? {
        barrier := barrier + added;
        entry, ownsEntry, tail := Some(completion), false, Some(completion);
      } else if tail.None? {
        tail := Some(completion);
      } else {
        BehindNext(log.jobs, Job(Some(completion), tail, false), tail);
        BehindNext(log.jobs, Job(Some(completion), tail, false), entry);
        log.RunJob(Some(completion), tail, false);
      }
    }

    /** A job starts after everything the builder says later jobs wait for. A serial builder makes the
        next ones wait for it; a parallel one does not. */
    method DispatchJob()
      requires Valid()
      modifies this`entry, this`ownsEntry, this`tail, this`steps, this`barrier, log
      ensures Valid() && old(log.jobs) < log.jobs
      ensures var k := |old(log.jobs)|;
        && log.jobs[k].work && old(barrier) <= StartsAfter(log.jobs, k) && steps == old(steps) + {k}
        && barrier == old(barrier) + (if fence.Full? then {k} else {})
        && (fence.Parallel? ==> entry == old(entry) && |log.jobs| == k + 1
                                && Behind(log.jobs, entry, k + 1) == Behind(old(log.jobs), entry, k))
    {
      hide Keeps, Behind, StartsAfter;
      ghost var jobs, b := log.jobs, Contents();
      if fence.Parallel? {
        if tail.None? {
          var shared := log.CreateCounter();
          tail := Some(shared);
        }
        assert b.entry != tail by { TailApart(b, jobs, steps, barrier); }
        ParallelKeeps(b, jobs, steps, barrier, tail.value);
        log.RunJob(entry, tail, true);
        steps := steps + {|jobs|};
        return;
      }
      var completion := log.CreateCounter();
      SerialKeeps(b, jobs, steps, barrier, completion);
      log.RunJob(entry, Some(completion), true);
      ghost var after := log.jobs;
      AdvanceChain(completion, {|jobs|});
      assert log.jobs == after;
    }

    /** Every later job also waits for the counter, and for all that was dispatched before. */
    method DispatchWait(counter: nat)
      requires Valid() && counter < log.counters
      modifies this`entry, this`ownsEntry, this`tail, this`barrier, log
      ensures Valid() && old(log.jobs) <= log.jobs && steps == old(steps)
      ensures barrier == old(barrier) + old(steps) + Behind(old(log.jobs), Some(counter), |old(log.jobs)|)
    {
      hide Keeps, Behind;
      ghost var jobs := log.jobs;
      var created := log.CreateCounter();
      var joined := Some(created);
      WaitKeeps(Contents(), jobs, steps, barrier, counter, created);
      var soFar := if tail.Some? then tail else entry;
      if soFar.Some? {
        log.RunJob(soFar, joined, false);
      }
      log.RunJob(Some(counter), joined, false);
      barrier := barrier + steps + Behind(jobs, Some(counter), |jobs|);
      if fence.Full? {
        entry, ownsEntry, tail := joined, false, joined;
      } else {
        entry, ownsEntry, tail := joined, true, None;
      }
    }

    /** A counter that stands for everything dispatched so far. */
    method ExtractWaitCounter() returns (extracted: nat)
      requires Valid()
      modifies log
      ensures Valid() && extracted < log.counters && steps <= Behind(log.jobs, Some(extracted), |log.jobs|)
    {
      ghost var jobs := log.jobs;
      extracted := log.CreateCounter();
      var soFar := Contents().CompletionSoFar();
      if soFar.Some? {
        ghost var job := Job(soFar, Some(extracted), false);
        BehindNext(jobs, job, Some(extracted));
        BehindNext(jobs, job, soFar);
        BehindNext(jobs, job, entry);
        BehindNext(jobs, job, tail);
        log.RunJob(soFar, Some(extracted), false);
      }
    }

    /** The destructor: the parent counter stands for everything that was dispatched. */
    method Close()
      requires Valid()
      modifies this`entry, this`ownsEntry, this`tail, log`jobs
      ensures parent.Some? ==> steps <= Behind(log.jobs, parent, |log.jobs|)
    {
      var soFar := Contents().CompletionSoFar();
      if parent.Some? && soFar.Some? {
        BehindNext(log.jobs, Job(soFar, parent, false), parent);
        log.RunJob(soFar, parent, false);
      }
      entry, ownsEntry, tail := None, false, None;
    }
  }

  // --- ParallelFor ----------------------------------------------------------------------------------

  const U32 := 0x1_0000_0000

  function ChunkCount(count: nat, chunkSize: nat): nat
    requires chunkSize > 0
  {
    if count == 0 then 0 else (count - 1) / chunkSize + 1
  }

  datatype Range = Range(begin: nat, end: nat)
  {
    predicate Has(i: nat) { begin <= i < end }
  }

  /** What chunk k works on, in 32-bit arithmetic. */
  function ChunkRange(count: nat, chunkSize: nat, k: nat): Range {
    var begin, next := k * chunkSize % U32, (k * chunkSize + chunkSize) % U32;
    Range(begin, if next < count then next else count)
  }

  /** There is a chunk i / chunkSize, and it and no other works on element i. */
  ghost predicate WorkedOnce(count: nat, chunkSize: nat, i: nat)
    requires chunkSize > 0
  {
    && i / chunkSize < ChunkCount(count, chunkSize)
    && forall k: nat :: k < ChunkCount(count, chunkSize) ==> (ChunkRange(count, chunkSize, k).Has(i) <==> k == i / chunkSize)
  }

  ghost predicate Partitioned(count: nat, chunkSize: nat)
    requires chunkSize > 0
  {
    forall i: nat :: i < count ==> WorkedOnce(count, chunkSize, i)
  }

  lemma CountBounds(count: nat, chunkSize: nat, k: nat)
    requires 0 < count && 0 < chunkSize && k < ChunkCount(count, chunkSize)
    ensures k * chunkSize < count
    ensures k + 1 < ChunkCount(count, chunkSize) ==> k * chunkSize + chunkSize < count
    ensures k + 1 == ChunkCount(count, chunkSize) ==> count <= k * chunkSize + chunkSize
  {
    var q := (count - 1) / chunkSize;
    assert q * chunkSize <= count - 1 < q * chunkSize + chunkSize;
    if k < q {
      MulApart(chunkSize, q, k);
    }
  }

  lemma Unwrapped(x: nat)
    requires x < U32
    ensures x % U32 == x
  {}

  /** Chunk k works on its own stretch as long as its end fits 32 bits. */
  lemma ExactRange(count: nat, chunkSize: nat, k: nat)
    requires 0 < count < U32 && 0 < chunkSize && k < ChunkCount(count, chunkSize) && k * chunkSize + chunkSize < U32
    ensures var next := k * chunkSize + chunkSize;
      ChunkRange(count, chunkSize, k) == Range(k * chunkSize, if next < count then next else count)
  {
    Unwrapped(k * chunkSize);
    Unwrapped(k * chunkSize + chunkSize);
  }

  lemma LastEnd(count: nat, chunkSize: nat, k: nat)
    requires 0 < count && 0 < chunkSize && k < ChunkCount(count, chunkSize)
    ensures k * chunkSize + chunkSize <= ChunkCount(count, chunkSize) * chunkSize
    ensures k + 1 == ChunkCount(count, chunkSize) ==> k * chunkSize + chunkSize == ChunkCount(count, chunkSize) * chunkSize
  {
    var n := ChunkCount(count, chunkSize);
    MulApart(chunkSize, n, k);
    assert (k + 1) * chunkSize == k * chunkSize + chunkSize;
  }

  /** Every element has its chunk, and no chunk begins behind the last element. */
  lemma ChunkOfElement(count: nat, chunkSize: nat, i: nat)
    requires i < count && 0 < chunkSize
    ensures i / chunkSize < ChunkCount(count, chunkSize) && (ChunkCount(count, chunkSize) - 1) * chunkSize < count
  {
    var q, k := (count - 1) / chunkSize, i / chunkSize;
    CountBounds(count, chunkSize, q);
    assert k * chunkSize <= i;
    if k > q {
      MulApart(chunkSize, k, q);
    }
  }

  /** The ranges split the elements between them exactly when the end of the last chunk, rounded up to
      whole chunks, fits 32 bits; there are no more chunks than that takes. */
  lemma RangesSplit(count: nat, chunkSize: nat)
    requires 0 < count < U32 && 0 < chunkSize < U32
    ensures Partitioned(count, chunkSize) <==> ChunkCount(count, chunkSize) * chunkSize < U32
    ensures ChunkCount(count, chunkSize) > 0 && (ChunkCount(count, chunkSize) - 1) * chunkSize < count <= ChunkCount(count, chunkSize) * chunkSize
  {
    CountBounds(count, chunkSize, ChunkCount(count, chunkSize) - 1);
    LastEnd(count, chunkSize, ChunkCount(count, chunkSize) - 1);
    hide ChunkRange, ChunkCount;
    if ChunkCount(count, chunkSize) * chunkSize < U32 {
      forall i: nat | i < count ensures WorkedOnce(count, chunkSize, i) {
        ChunkOfElement(count, chunkSize, i);
        forall k: nat | k < ChunkCount(count, chunkSize) ensures ChunkRange(count, chunkSize, k).Has(i) <==> k == i / chunkSize {
          LastEnd(count, chunkSize, k);
          InRange(count, chunkSize, i, k);
        }
      }
    } else {
      LastIsEmpty(count, chunkSize);
    }
  }

  lemma InRange(count: nat, chunkSize: nat, i: nat, k: nat)
    requires i < count < U32 && 0 < chunkSize && k < ChunkCount(count, chunkSize) && k * chunkSize + chunkSize < U32
    ensures ChunkRange(count, chunkSize, k).Has(i) <==> k == i / chunkSize
  {
    ExactRange(count, chunkSize, k);
    hide ChunkRange, ChunkCount;
    StretchOf(chunkSize, i, k);
  }

  /** The stretch of chunkSize elements that i lies in. */
  lemma StretchOf(chunkSize: nat, i: nat, k: nat)
    requires chunkSize > 0
    ensures k * chunkSize <= i < k * chunkSize + chunkSize <==> k == i / chunkSize
  {
    if k * chunkSize <= i < k * chunkSize + chunkSize {
      DivisionUnique(i, k, i - k * chunkSize, chunkSize);
    }
  }

  /** When it does not fit, the last chunk's end wraps to below its begin: nobody works on the last
      element. */
  lemma LastIsEmpty(count: nat, chunkSize: nat)
    requires 0 < count < U32 && 0 < chunkSize < U32 && ChunkCount(count, chunkSize) * chunkSize >= U32
    ensures !ChunkRange(count, chunkSize, ChunkCount(count, chunkSize) - 1).Has(count - 1)
    ensures !Partitioned(count, chunkSize)
  {
    var k := ChunkCount(count, chunkSize) - 1;
    CountBounds(count, chunkSize, k);
    LastEnd(count, chunkSize, k);
    Unwrapped(k * chunkSize);
    var next := k * chunkSize + chunkSize;
    DivisionUnique(next, 1, next - U32, U32);
    NotWorked(count, chunkSize, k);
  }

  lemma NotWorked(count: nat, chunkSize: nat, k: nat)
    requires 0 < count && 0 < chunkSize && k == ChunkCount(count, chunkSize) - 1 && !ChunkRange(count, chunkSize, k).Has(count - 1)
    ensures !Partitioned(count, chunkSize)
  {
    hide ChunkRange;
    assert k == (count - 1) / chunkSize;
    assert !WorkedOnce(count, chunkSize, count - 1);
  }

  /** The jobs from n on that a step added: chunks behind what later jobs wait for, and a last one
      behind all of them. */
  ghost predicate StepOf(jobs: seq<Job>, n: nat, last: nat, epilogue: bool, barrier: set<nat>) {
    && n <= last < |jobs| && jobs[last].work == epilogue && barrier <= StartsAfter(jobs, last)
    && forall k :: n <= k < last ==> ChunkOf(jobs, k, last, barrier)
  }

  ghost predicate ChunkOf(jobs: seq<Job>, k: nat, last: nat, barrier: set<nat>)
    requires k <= last < |jobs|
  {
    jobs[k].work && barrier <= StartsAfter(jobs, k) && k in StartsAfter(jobs, last)
  }

  lemma StepIs(jobs: seq<Job>, entry: Option<nat>, done: nat, stepDone: nat, n: nat, m: nat, epilogue: bool, barrier: set<nat>)
    requires Fanned(jobs, entry, done, n, m) && |jobs| == n + m && barrier <= Behind(jobs, entry, n)
    ensures var tail := Job(if m == 0 then entry else Some(done), Some(stepDone), epilogue);
      && StepOf(jobs + [tail], n, n + m, epilogue, barrier)
      && Stretch(n, n + m + 1) + barrier <= Behind(jobs + [tail], Some(stepDone), n + m + 1)
  {
    var tail := Job(if m == 0 then entry else Some(done), Some(stepDone), epilogue);
    var all, last := jobs + [tail], n + m;
    FanBehind(jobs, entry, done, n, m);
    BehindNext(jobs, tail, Some(stepDone));
    forall k | n <= k < last ensures ChunkOf(all, k, last, barrier) {
      StartsAsBefore(jobs, all, k);
      BehindGrows(jobs, entry, n, k);
      assert k in Stretch(n, last);
    }
    assert Stretch(n, last + 1) == Stretch(n, last) + {last};
    hide Behind;
  }

  lemma StepStays(jobs: seq<Job>, all: seq<Job>, n: nat, last: nat, epilogue: bool, barrier: set<nat>)
    requires jobs <= all && StepOf(jobs, n, last, epilogue, barrier)
    ensures StepOf(all, n, last, epilogue, barrier)
  {
    hide StartsAfter;
    StartsAsBefore(jobs, all, last);
    forall k | n <= k < last ensures ChunkOf(all, k, last, barrier) {
      assert ChunkOf(jobs, k, last, barrier);
      StartsAsBefore(jobs, all, k);
    }
  }

  /** One step of a builder: chunk jobs side by side behind the builder's entry, and an epilogue behind
      all of them whose completion the builder takes over. */
  method ParallelFor(builder: JobBuilder, count: nat, chunkSize: nat, epilogue: bool) returns (chunks: seq<Range>)
    requires builder.Valid() && chunkSize > 0
    modifies builder`entry, builder`ownsEntry, builder`tail, builder`steps, builder`barrier, builder.log
    ensures builder.Valid() && old(builder.log.jobs) <= builder.log.jobs
    ensures |chunks| == ChunkCount(count, chunkSize) && forall k :: 0 <= k < |chunks| ==> chunks[k] == ChunkRange(count, chunkSize, k)
    ensures StepOf(builder.log.jobs, |old(builder.log.jobs)|, |old(builder.log.jobs)| + |chunks|, epilogue, old(builder.barrier))
    ensures builder.steps == old(builder.steps) + Stretch(|old(builder.log.jobs)|, |old(builder.log.jobs)| + |chunks| + 1)
  {
    hide Keeps, Behind, ChunkRange, StepOf, Stretch;
    var log, entry := builder.log, builder.entry;
    ghost var before, n, barrier := log.jobs, |log.jobs|, builder.barrier;
    BarrierCovered(builder.Contents(), before, builder.steps, barrier);
    var chunksDone := log.CreateCounter();
    var chunkCount := ChunkCount(count, chunkSize);
    chunks := [];
    for chunk := 0 to chunkCount
      invariant builder.Valid() && log.counters > chunksDone && builder.entry == entry && builder.tail == old(builder.tail)
      invariant builder.steps == old(builder.steps) && builder.barrier == barrier
      invariant |chunks| == chunk && forall k :: 0 <= k < chunk ==> chunks[k] == ChunkRange(count, chunkSize, k)
      invariant |log.jobs| == n + chunk && before <= log.jobs && Fanned(log.jobs, entry, chunksDone, n, chunk)
    {
      chunks := chunks + [ChunkRange(count, chunkSize, chunk)];
      KeepsMore(builder.Contents(), log.jobs, Job(entry, Some(chunksDone), true), builder.steps, barrier);
      log.RunJob(entry, Some(chunksDone), true);
    }
    var stepDone := log.CreateCounter();
    var tailWait := if chunkCount == 0 then entry else Some(chunksDone);
    EntryStays(before, log.jobs, entry);
    StepIs(log.jobs, entry, chunksDone, stepDone, n, chunkCount, epilogue, barrier);
    KeepsMore(builder.Contents(), log.jobs, Job(tailWait, Some(stepDone), epilogue), builder.steps, barrier);
    log.RunJob(tailWait, Some(stepDone), epilogue);
    ghost var step := log.jobs;
    builder.AdvanceChain(stepDone, Stretch(n, n + chunkCount + 1));
    StepStays(step, log.jobs, n, n + chunkCount, epilogue, barrier);
  }

  lemma BarrierCovered(b: Chain, jobs: seq<Job>, steps: set<nat>, barrier: set<nat>)
    requires Keeps(b, jobs, steps, barrier)
    ensures barrier <= Behind(jobs, b.entry, |jobs|)
  {}

  lemma EntryStays(jobs: seq<Job>, all: seq<Job>, entry: Option<nat>)
    requires jobs <= all
    ensures Behind(all, entry, |jobs|) == Behind(jobs, entry, |jobs|)
  {
    assert all == jobs + all[|jobs|..];
    BehindPrefix(jobs, all[|jobs|..], entry, |jobs|);
  }
}
