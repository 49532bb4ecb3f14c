/** What the counters of a phase mean: a counter is held up by exactly what is registered against it
    and not complete, and a job that waits no longer has what it waited for. */
module PhaseBoards {
  import opened PhaseJobs

  // --- books ----------------------------------------------------------------------------------------

  ghost predicate Books(b: Board) {
    forall c: Counter :: b.Value(c) == |b.Pending(c)|
  }

  lemma RaiseBooks(b: Board, n: Node)
    requires Books(b) && n !in b.stage
    ensures Books(b.Raise(n))
  {
    forall c: Counter ensures b.Raise(n).Value(c) == |b.Raise(n).Pending(c)| {
      PendingRaised(b, n, c);
      assert n !in b.Pending(c);
    }
  }

  lemma PendingRaised(b: Board, n: Node, c: Counter)
    requires n !in b.stage
    ensures b.Raise(n).Pending(c) == if c == Target(n) then b.Pending(c) + {n} else b.Pending(c)
  {}

  lemma DropBooks(b: Board, n: Node)
    requires Books(b) && n in b.stage && b.stage[n] != Complete
    ensures b.Value(Target(n)) > 0 && Books(b.Drop(n))
  {
    assert n in b.Pending(Target(n));
    forall c: Counter ensures b.Drop(n).Value(c) == |b.Drop(n).Pending(c)| {
      PendingDropped(b, n, c);
    }
  }

  lemma PendingDropped(b: Board, n: Node, c: Counter)
    requires n in b.stage && b.Value(Target(n)) > 0
    ensures b.Drop(n).Pending(c) == if c == Target(n) then b.Pending(c) - {n} else b.Pending(c)
  {}

  /** Stages may change as long as nothing completes. */
  lemma SameBooks(b: Board, b': Board)
    requires Books(b) && b'.value == b.value && b'.stage.Keys == b.stage.Keys
    requires forall n :: n in b.stage ==> (b'.stage[n] == Complete <==> b.stage[n] == Complete)
    ensures Books(b')
  {
    forall c: Counter ensures b'.Value(c) == |b'.Pending(c)| {
      assert b'.Pending(c) == b.Pending(c);
    }
  }

  /** A counter at zero has nothing left pending. */
  lemma AtZero(b: Board, n: Node)
    requires Books(b) && n in b.stage && b.Value(Target(n)) == 0
    ensures b.stage[n] == Complete
  {
    assert b.Pending(Target(n)) == {};
    assert n !in b.Pending(Target(n));
  }

  // --- what has to be there -------------------------------------------------------------------------

  /** The nodes a node relies on were registered before it. */
  predicate Based(cfg: Config, keys: set<Node>, n: Node)
    requires cfg.Known(n)
  {
    match n
    case Splice(i, k) => cfg.preds[i][k] in cfg.order ==> cfg.Launch(cfg.preds[i][k]) in keys
    case Run(i) =>
      if |cfg.preds[i]| == 1 then cfg.preds[i][0] in cfg.order ==> cfg.Launch(cfg.preds[i][0]) in keys
      else forall k :: 0 <= k < |cfg.preds[i]| ==> Splice(i, k) in keys
    case Finish(i) => cfg.Launch(i) in keys
    case BuilderHold(i) => cfg.Launch(i) in keys
    case Chunk(i, _) => BuilderHold(i) in keys
    case Tail(i) => BuilderHold(i) in keys && forall k :: 0 <= k < |cfg.handed[i]| ==> Chunk(i, k) in keys
    case Merge(i) => Tail(i) in keys
    case _ => true
  }

  /** The system has run and everything it handed out is complete. */
  predicate Finished(cfg: Config, b: Board, i: nat)
  {
    && cfg.System(i) && b.Is(cfg.Launch(i), Complete)
    && (cfg.handed[i] != [] ==>
          && b.Is(BuilderHold(i), Complete) && b.Is(Tail(i), Complete) && b.Is(Merge(i), Complete)
          && forall k :: 0 <= k < |cfg.handed[i]| ==> b.Is(Chunk(i, k), Complete))
  }

  predicate PredsFinished(cfg: Config, b: Board, i: nat)
    requires cfg.System(i)
  {
    forall k :: 0 <= k < |cfg.preds[i]| && cfg.preds[i][k] in cfg.order ==> Finished(cfg, b, cfg.preds[i][k])
  }

  /** What a node waited for has come true. */
  predicate Met(cfg: Config, b: Board, n: Node)
    requires cfg.Known(n)
  {
    match n
    case Splice(i, k) => cfg.preds[i][k] in cfg.order ==> Finished(cfg, b, cfg.preds[i][k])
    case Run(i) => PredsFinished(cfg, b, i)
    case MainHold(i) => b.Is(n, Ready) || PredsFinished(cfg, b, i)
    case Finish(i) => Finished(cfg, b, i)
    case Tail(i) => forall k :: 0 <= k < |cfg.handed[i]| ==> b.Is(Chunk(i, k), Complete)
    case Merge(i) => b.Is(Tail(i), Complete)
    case _ => true
  }

  predicate NodeOk(cfg: Config, b: Board, n: Node)
    requires n in b.stage
  {
    && cfg.Known(n) && Based(cfg, b.stage.Keys, n)
    && (b.stage[n] != Waiting ==> Met(cfg, b, n))
    && (n.BuilderHold? && b.stage[n] == Complete ==> Merge(n.system) in b.stage)
    && ((n.MainHold? || n.Run?) && b.stage[n] == Complete ==> HandedOut(cfg, b, n.system))
  }

  predicate NodesOk(cfg: Config, b: Board)
  {
    forall n {:trigger NodeOk(cfg, b, n)} :: n in b.stage ==> NodeOk(cfg, b, n)
  }

  predicate AwakeAt(cfg: Config, b: Board, n: Node)
    requires n in b.stage && cfg.Known(n)
  {
    b.stage[n] == Waiting ==> cfg.WaitsFor(n).Some? && b.Value(cfg.WaitsFor(n).value) > 0
  }

  predicate Awake(cfg: Config, b: Board) {
    forall n :: n in b.stage ==> cfg.Known(n) && AwakeAt(cfg, b, n)
  }

  // --- what zero means ------------------------------------------------------------------------------

  /** mDone at zero: the system has returned and all its chunk tasks are complete. */
  lemma DoneMeansFinished(cfg: Config, b: Board, i: nat)
    requires Books(b) && NodesOk(cfg, b)
    requires cfg.System(i) && cfg.Launch(i) in b.stage && b.Value(Done(i)) == 0
    ensures Finished(cfg, b, i)
  {
    AtZero(b, cfg.Launch(i));
    assert NodeOk(cfg, b, cfg.Launch(i));
    if cfg.handed[i] != [] {
      assert NodeOk(cfg, b, BuilderHold(i));
      AtZero(b, Merge(i));
      assert NodeOk(cfg, b, Merge(i));
      assert NodeOk(cfg, b, Tail(i));
    }
  }

  /** The other way round, so the main thread's wait ends. */
  lemma FinishedMeansDone(cfg: Config, b: Board, i: nat)
    requires Books(b) && NodesOk(cfg, b) && Finished(cfg, b, i)
    ensures b.Value(Done(i)) == 0
  {
    forall n | n in b.stage && Target(n) == Done(i) ensures b.stage[n] == Complete {
      assert NodeOk(cfg, b, n);
    }
    assert b.Pending(Done(i)) == {};
  }

  lemma JoinMeansFinished(cfg: Config, b: Board, i: nat)
    requires Books(b) && NodesOk(cfg, b) && cfg.Known(PhaseJobs.Node.Run(i)) && b.Value(Join(i)) == 0
    requires forall k :: 0 <= k < |cfg.preds[i]| ==> Splice(i, k) in b.stage
    ensures PredsFinished(cfg, b, i)
  {
    forall k | 0 <= k < |cfg.preds[i]| && cfg.preds[i][k] in cfg.order ensures Finished(cfg, b, cfg.preds[i][k]) {
      AtZero(b, Splice(i, k));
      assert NodeOk(cfg, b, Splice(i, k));
    }
  }

  lemma ChunksMeansComplete(cfg: Config, b: Board, i: nat)
    requires Books(b) && cfg.System(i) && b.Value(Chunks(i)) == 0
    requires forall k :: 0 <= k < |cfg.handed[i]| ==> Chunk(i, k) in b.stage
    ensures forall k :: 0 <= k < |cfg.handed[i]| ==> b.Is(Chunk(i, k), Complete)
  {
    forall k | 0 <= k < |cfg.handed[i]| ensures b.Is(Chunk(i, k), Complete) {
      AtZero(b, Chunk(i, k));
    }
  }

  /** A node whose wait counter is zero, or that waits for nothing, has what it waited for. */
  lemma MetAtZero(cfg: Config, b: Board, n: Node)
    requires Books(b) && NodesOk(cfg, b) && n in b.stage && b.stage[n] == Waiting
    requires cfg.Known(n) && (cfg.WaitsFor(n).None? || b.Value(cfg.WaitsFor(n).value) == 0)
    requires !n.MainHold?
    ensures Met(cfg, b, n)
  {
    assert NodeOk(cfg, b, n);
    match n
    case Splice(i, k) => SourceFinished(cfg, b, cfg.preds[i][k]);
    case Run(i) =>
      if |cfg.preds[i]| == 1 {
        SourceFinished(cfg, b, cfg.preds[i][0]);
      } else if cfg.preds[i] != [] {
        JoinMeansFinished(cfg, b, i);
      }
    case Finish(i) => DoneMeansFinished(cfg, b, i);
    case Tail(i) => ChunksMeansComplete(cfg, b, i);
    case Merge(i) => AtZero(b, Tail(i));
    case _ =>
  }

  lemma SourceFinished(cfg: Config, b: Board, p: nat)
    requires Books(b) && NodesOk(cfg, b)
    requires p in cfg.order ==> cfg.Launch(p) in b.stage && b.Value(Done(p)) == 0
    ensures p in cfg.order ==> Finished(cfg, b, p)
  {
    if p in cfg.order {
      assert NodeOk(cfg, b, cfg.Launch(p));
      DoneMeansFinished(cfg, b, p);
    }
  }

  // --- operations -----------------------------------------------------------------------------------

  ghost predicate BoardOk(cfg: Config, b: Board)
  {
    Books(b) && NodesOk(cfg, b) && Awake(cfg, b)
  }

  /** Nothing that was complete or registered is lost. */
  predicate Grows(b: Board, b': Board) {
    && b.stage.Keys <= b'.stage.Keys
    && forall n :: n in b.stage && b.stage[n] == Complete ==> b'.stage[n] == Complete
  }

  lemma MetStays(cfg: Config, b: Board, b': Board, n: Node)
    requires cfg.Known(n) && Grows(b, b') && Met(cfg, b, n)
    requires n.MainHold? ==> (b'.Is(n, Ready) <==> b.Is(n, Ready))
    ensures Met(cfg, b', n)
  {
    forall i: nat | Finished(cfg, b, i) ensures Finished(cfg, b', i) {}
  }

  /** A node other than n is as it was. */
  lemma OtherNodeStays(cfg: Config, b: Board, b': Board, n: Node)
    requires n in b.stage && NodeOk(cfg, b, n) && Grows(b, b') && n in b'.stage && b'.stage[n] == b.stage[n]
    ensures NodeOk(cfg, b', n)
  {
    if b.stage[n] != Waiting {
      MetStays(cfg, b, b', n);
    }
  }

  lemma RaiseNodes(cfg: Config, b: Board, n: Node)
    requires NodesOk(cfg, b) && cfg.Known(n) && n !in b.stage && Based(cfg, b.stage.Keys, n)
    ensures NodesOk(cfg, b.Raise(n))
  {
    var r := b.Raise(n);
    forall m | m in r.stage ensures NodeOk(cfg, r, m) {
      if m != n { OtherNodeStays(cfg, b, r, m); }
    }
  }

  lemma AddNodes(cfg: Config, b: Board, n: Node)
    requires Books(b.Raise(n)) && NodesOk(cfg, b.Raise(n)) && cfg.Known(n)
    ensures NodesOk(cfg, cfg.Add(b, n))
  {
    var r, t := b.Raise(n), cfg.Add(b, n);
    if t != r {
      forall m | m in t.stage ensures NodeOk(cfg, t, m) {
        if m != n {
          OtherNodeStays(cfg, r, t, m);
        } else {
          assert NodeOk(cfg, r, n);
          if !n.MainHold? {
            MetAtZero(cfg, r, n);
            MetStays(cfg, r, t, n);
          }
        }
      }
    }
  }

  lemma AddAwake(cfg: Config, b: Board, n: Node)
    requires Awake(cfg, b) && cfg.Known(n) && n !in b.stage
    ensures Awake(cfg, cfg.Add(b, n))
  {
    var t := cfg.Add(b, n);
    forall m | m in t.stage ensures cfg.Known(m) && AwakeAt(cfg, t, m) {
      if m != n { assert AwakeAt(cfg, b, m); }
    }
  }

  lemma AddShape(cfg: Config, b: Board, n: Node)
    requires cfg.Known(n) && n !in b.stage
    ensures cfg.Add(b, n).stage.Keys == b.stage.Keys + {n} && cfg.Add(b, n).value == b.Raise(n).value
    ensures cfg.Add(b, n).stage[n] == if cfg.WaitsFor(n).None? || cfg.Add(b, n).Value(cfg.WaitsFor(n).value) == 0 then Ready else Waiting
    ensures forall m :: m in b.stage ==> cfg.Add(b, n).stage[m] == b.stage[m]
  {}

  /** Registering a node whose prerequisites are registered. */
  lemma AddKeeps(cfg: Config, b: Board, n: Node)
    requires BoardOk(cfg, b) && cfg.Known(n) && n !in b.stage && Based(cfg, b.stage.Keys, n)
    ensures BoardOk(cfg, cfg.Add(b, n)) && Grows(b, cfg.Add(b, n))
  {
    RaiseBooks(b, n);
    RaiseNodes(cfg, b, n);
    AddNodes(cfg, b, n);
    AddAwake(cfg, b, n);
    AddShape(cfg, b, n);
    AddBooks(cfg, b, n);
  }

  lemma AddBooks(cfg: Config, b: Board, n: Node)
    requires cfg.Known(n) && n !in b.stage && Books(b.Raise(n))
    ensures Books(cfg.Add(b, n))
  {
    SameBooks(b.Raise(n), cfg.Add(b, n));
  }

  /** What has to hold when a node completes. */
  predicate MayComplete(cfg: Config, b: Board, n: Node) {
    && n in b.stage && b.stage[n] in {Ready, Running}
    && (n.BuilderHold? ==> Merge(n.system) in b.stage)
    && (n.MainHold? ==> b.stage[n] == Running)
    && (n.MainHold? || n.Run? ==> HandedOut(cfg, b, n.system))
  }

  lemma DropNodes(cfg: Config, b: Board, n: Node)
    requires NodesOk(cfg, b) && MayComplete(cfg, b, n) && b.Value(Target(n)) > 0
    ensures NodesOk(cfg, b.Drop(n))
  {
    var d := b.Drop(n);
    forall m | m in d.stage ensures NodeOk(cfg, d, m) {
      if m != n { OtherNodeStays(cfg, b, d, m); } else { CompletedOk(cfg, b, d, n); }
    }
  }

  lemma FlushNodes(cfg: Config, d: Board, c: Counter)
    requires Books(d) && NodesOk(cfg, d) && d.Value(c) == 0
    ensures NodesOk(cfg, cfg.Flush(d, c))
  {
    var t := cfg.Flush(d, c);
    forall m | m in t.stage ensures NodeOk(cfg, t, m) {
      assert NodeOk(cfg, d, m);
      if t.stage[m] == d.stage[m] {
        OtherNodeStays(cfg, d, t, m);
      } else {
        MetAtZero(cfg, d, m);
        MetStays(cfg, d, t, m);
      }
    }
  }

  lemma DropAwake(cfg: Config, b: Board, n: Node)
    requires Awake(cfg, b) && n in b.stage && b.Value(Target(n)) > 0
    ensures Awake(cfg, cfg.Drop(b, n))
  {
    var t := cfg.Drop(b, n);
    forall m | m in t.stage ensures cfg.Known(m) && AwakeAt(cfg, t, m) {
      assert AwakeAt(cfg, b, m);
    }
  }

  /** Completing a node, and with it every job whose counter reaches zero by it. */
  lemma DropKeeps(cfg: Config, b: Board, n: Node)
    requires BoardOk(cfg, b) && MayComplete(cfg, b, n)
    ensures b.Value(Target(n)) > 0 && BoardOk(cfg, cfg.Drop(b, n)) && Grows(b, cfg.Drop(b, n))
    ensures cfg.Drop(b, n).stage.Keys == b.stage.Keys && cfg.Drop(b, n).stage[n] == Complete
    ensures forall m :: m in b.stage && m != n ==>
      cfg.Drop(b, n).stage[m] == if b.stage[m] == Waiting && cfg.WaitsOn(m, Target(n)) && cfg.Drop(b, n).Value(Target(n)) == 0 then Ready else b.stage[m]
  {
    DropBooks(b, n);
    DropNodes(cfg, b, n);
    var d, t := b.Drop(n), cfg.Drop(b, n);
    SameBooks(d, t);
    if d.Value(Target(n)) == 0 {
      FlushNodes(cfg, d, Target(n));
    }
    DropAwake(cfg, b, n);
  }

  lemma CompletedOk(cfg: Config, b: Board, d: Board, n: Node)
    requires NodesOk(cfg, b) && MayComplete(cfg, b, n) && d.stage == b.stage[n := Complete]
    ensures NodeOk(cfg, d, n)
  {
    assert NodeOk(cfg, b, n);
    MetStays(cfg, b, d, n);
  }

  /** A job starts; the main thread enters a system whose predecessors are finished. */
  lemma StartKeeps(cfg: Config, b: Board, n: Node)
    requires BoardOk(cfg, b) && b.Is(n, Ready)
    requires n.MainHold? ==> cfg.Known(n) && PredsFinished(cfg, b, n.system)
    ensures BoardOk(cfg, b.Set(n, Running)) && Grows(b, b.Set(n, Running))
  {
    var t := b.Set(n, Running);
    SameBooks(b, t);
    forall m | m in t.stage ensures NodeOk(cfg, t, m) && AwakeAt(cfg, t, m) {
      assert AwakeAt(cfg, b, m);
      if m != n { OtherNodeStays(cfg, b, t, m); } else {
        assert NodeOk(cfg, b, n);
        if n.MainHold? {
          forall i: nat | Finished(cfg, b, i) ensures Finished(cfg, t, i) {}
        } else {
          MetStays(cfg, b, t, n);
        }
      }
    }
  }
}
