/** What every step of a running phase keeps. */
module PhaseSafety {
  import opened Orders
  import opened PhaseRuns
  import opened PhaseJobs
  import opened PhaseBoards

  /** Who registers a node. */
  datatype Thread = MainThread | SystemThread(system: nat)

  predicate Belongs(n: Node, th: Thread) {
    match n
    case BuilderHold(_) => false
    case Chunk(i, _) => th == SystemThread(i)
    case Tail(i) => th == SystemThread(i)
    case Merge(i) => th == SystemThread(i)
    case _ => th == MainThread
  }

  /** A list of fresh nodes that can be registered one after another. */
  predicate Orderly(cfg: Config, keys: set<Node>, todo: seq<Node>, th: Thread)
    decreases |todo|
  {
    todo != [] ==>
      && cfg.Known(todo[0]) && Belongs(todo[0], th) && todo[0] !in keys && Based(cfg, keys, todo[0])
      && Orderly(cfg, keys + {todo[0]}, todo[1..], th)
  }

  /** Nothing th has to register is forgotten. */
  ghost predicate Accounted(cfg: Config, keys: set<Node>, todo: seq<Node>, th: Thread) {
    forall n: Node :: cfg.Known(n) && Belongs(n, th) ==> n in keys || n in todo
  }

  predicate Runnable(n: Node) {
    n.Run? || n.Chunk? || n.MainHold?
  }

  predicate OnlyRunnableRuns(b: Board) {
    forall n :: n in b.stage && b.stage[n] == Running ==> Runnable(n)
  }

  ghost predicate NestedAt(cfg: Config, s: State, i: nat)
    requires i in s.nested
  {
    && Active(cfg, s.board, i) && cfg.handed[i] != [] && s.board.Is(BuilderHold(i), Ready)
    && Orderly(cfg, s.board.stage.Keys, s.nested[i], SystemThread(i))
    && Accounted(cfg, s.board.stage.Keys, s.nested[i], SystemThread(i))
  }

  ghost predicate NestedOk(cfg: Config, s: State)
  {
    && (forall i :: i in s.nested ==> NestedAt(cfg, s, i))
    && (forall i: nat :: BuilderHold(i) in s.board.stage && i !in s.nested ==> s.board.stage[BuilderHold(i)] == Complete)
  }

  ghost predicate TodoOk(cfg: Config, s: State)
  {
    Orderly(cfg, s.board.stage.Keys, s.todo, MainThread) && Accounted(cfg, s.board.stage.Keys, s.todo, MainThread)
  }

  ghost predicate MainsOk(cfg: Config, s: State)
  {
    && (forall x :: 0 <= x < |s.mains| ==> cfg.System(s.mains[x]) && cfg.main[s.mains[x]])
    && (forall x, y :: 0 <= x < y < |s.mains| ==> s.mains[x] != s.mains[y] && Precedes(cfg.order, s.mains[x], s.mains[y]))
    && (forall i: nat :: cfg.System(i) && cfg.main[i] ==> (i in s.mains <==> !s.board.Is(MainHold(i), Complete)))
    && (forall i: nat :: s.board.Is(MainHold(i), Running) ==> s.todo == [] && s.board.Is(Deferral, Complete) && s.mains != [] && i == s.mains[0])
    && (s.mains == [] ==> s.waited == 0)
    && (s.mains != [] ==> WaitedOk(cfg, s.board, s.mains[0], s.waited))
  }

  /** The main thread has waited for the first `waited` predecessors of its next system. */
  predicate WaitedOk(cfg: Config, b: Board, i: nat, waited: nat)
    requires cfg.System(i)
  {
    waited <= |cfg.preds[i]| && forall k :: 0 <= k < waited ==> Finished(cfg, b, cfg.preds[i][k])
  }

  ghost predicate Inv(cfg: Config, s: State)
  {
    && BoardOk(cfg, s.board) && OnlyRunnableRuns(s.board)
    && TodoOk(cfg, s) && NestedOk(cfg, s) && MainsOk(cfg, s)
    && ClosedOk(s)
  }

  predicate ClosedOk(s: State) {
    s.finished ==> s.todo == [] && s.mains == [] && s.board.Is(Deferral, Complete) && s.board.Value(PhaseDone) == 0
  }

  // --- lists of nodes -------------------------------------------------------------------------------

  /** Only what a node relies on matters. */
  lemma BasedMore(cfg: Config, keys: set<Node>, more: set<Node>, n: Node)
    requires cfg.Known(n) && Based(cfg, keys, n) && keys <= more
    ensures Based(cfg, more, n)
  {}

  /** Another thread registers a node. */
  lemma {:induction false} OrderlyBeside(cfg: Config, keys: set<Node>, todo: seq<Node>, th: Thread, n: Node)
    requires Orderly(cfg, keys, todo, th) && !Belongs(n, th)
    ensures Orderly(cfg, keys + {n}, todo, th)
    decreases |todo|
  {
    if todo != [] {
      BasedMore(cfg, keys, keys + {n}, todo[0]);
      OrderlyBeside(cfg, keys + {todo[0]}, todo[1..], th, n);
      assert keys + {n} + {todo[0]} == keys + {todo[0]} + {n};
    }
  }

  lemma AccountedNext(cfg: Config, keys: set<Node>, todo: seq<Node>, th: Thread)
    requires todo != [] && Accounted(cfg, keys, todo, th)
    ensures Accounted(cfg, keys + {todo[0]}, todo[1..], th)
  {
    assert todo == [todo[0]] + todo[1..];
  }

  // --- registering ----------------------------------------------------------------------------------

  /** How the stages look after a registration. */
  predicate Added(b: Board, b': Board, n: Node) {
    && n !in b.stage && b'.stage.Keys == b.stage.Keys + {n} && b'.stage[n] in {Waiting, Ready}
    && forall m :: m in b.stage ==> b'.stage[m] == b.stage[m]
  }

  lemma AddBoard(cfg: Config, b: Board, n: Node)
    requires BoardOk(cfg, b) && OnlyRunnableRuns(b)
    requires cfg.Known(n) && n !in b.stage && Based(cfg, b.stage.Keys, n)
    ensures BoardOk(cfg, cfg.Add(b, n)) && OnlyRunnableRuns(cfg.Add(b, n))
    ensures Added(b, cfg.Add(b, n), n) && Grows(b, cfg.Add(b, n))
  {
    AddKeeps(cfg, b, n);
    AddShape(cfg, b, n);
  }

  lemma TodoAdd(cfg: Config, s: State, t: State)
    requires TodoOk(cfg, s) && s.todo != [] && Added(s.board, t.board, s.todo[0]) && t.todo == s.todo[1..]
    ensures TodoOk(cfg, t)
  {
    AccountedNext(cfg, s.board.stage.Keys, s.todo, MainThread);
  }

  lemma TodoBeside(cfg: Config, s: State, t: State, n: Node)
    requires TodoOk(cfg, s) && Added(s.board, t.board, n) && t.todo == s.todo && !Belongs(n, MainThread)
    ensures TodoOk(cfg, t)
  {
    OrderlyBeside(cfg, s.board.stage.Keys, s.todo, MainThread, n);
  }

  /** A system thread when a node that is not its own is registered. */
  lemma NestedBeside(cfg: Config, s: State, t: State, n: Node, i: nat)
    requires i in s.nested && NestedAt(cfg, s, i) && i in t.nested && t.nested[i] == s.nested[i]
    requires Added(s.board, t.board, n) && !Belongs(n, SystemThread(i))
    ensures NestedAt(cfg, t, i)
  {
    OrderlyBeside(cfg, s.board.stage.Keys, s.nested[i], SystemThread(i), n);
  }

  lemma NestedAdd(cfg: Config, s: State, t: State, n: Node)
    requires NestedOk(cfg, s) && t.nested == s.nested && Added(s.board, t.board, n) && Belongs(n, MainThread)
    ensures NestedOk(cfg, t)
  {
    forall i | i in t.nested ensures NestedAt(cfg, t, i) {
      NestedBeside(cfg, s, t, n, i);
    }
  }

  lemma MainsAdd(cfg: Config, s: State, t: State, n: Node)
    requires MainsOk(cfg, s) && Grows(s.board, t.board) && Added(s.board, t.board, n)
    requires t.mains == s.mains && t.waited == s.waited && (s.todo == [] ==> t.todo == [])
    ensures MainsOk(cfg, t)
  {
    if s.mains != [] {
      WaitedStays(cfg, s.board, t.board, s.mains[0], s.waited);
    }
  }

  lemma WaitedStays(cfg: Config, b: Board, b': Board, i: nat, waited: nat)
    requires cfg.System(i) && WaitedOk(cfg, b, i, waited) && Grows(b, b')
    ensures WaitedOk(cfg, b', i, waited)
  {}

  lemma RegisterKeeps(cfg: Config, s: State)
    requires Inv(cfg, s) && Enabled(cfg, s, Register)
    ensures Inv(cfg, Next(cfg, s, Register))
  {
    var t, n := Next(cfg, s, Register), s.todo[0];
    AddBoard(cfg, s.board, n);
    TodoAdd(cfg, s, t);
    NestedAdd(cfg, s, t, n);
    MainsAdd(cfg, s, t, n);
  }

  // --- handing out chunks ---------------------------------------------------------------------------

  lemma PartsNeedHold(cfg: Config, b: Board, i: nat)
    requires NodesOk(cfg, b) && BuilderHold(i) !in b.stage
    ensures Tail(i) !in b.stage && Merge(i) !in b.stage && forall k: nat :: Chunk(i, k) !in b.stage
  {
    assert Tail(i) in b.stage ==> NodeOk(cfg, b, Tail(i));
    assert Merge(i) in b.stage ==> NodeOk(cfg, b, Merge(i));
    forall k: nat ensures Chunk(i, k) !in b.stage {
      assert Chunk(i, k) in b.stage ==> NodeOk(cfg, b, Chunk(i, k));
    }
  }

  lemma {:induction false} ChunkJobsOrderly(cfg: Config, keys: set<Node>, i: nat, k: nat)
    requires cfg.System(i) && k <= |cfg.handed[i]| && cfg.handed[i] != []
    requires BuilderHold(i) in keys && Tail(i) !in keys && Merge(i) !in keys
    requires forall x :: 0 <= x < |cfg.handed[i]| ==> (Chunk(i, x) in keys <==> x < k)
    ensures Orderly(cfg, keys, cfg.ChunkJobs(i, k), SystemThread(i))
    decreases |cfg.handed[i]| - k
  {
    if k == |cfg.handed[i]| {
      assert cfg.ChunkJobs(i, k)[1..] == [Merge(i)];
      assert [Merge(i)][1..] == [];
      assert Orderly(cfg, keys + {Tail(i)}, [Merge(i)], SystemThread(i));
    } else {
      ChunkJobsOrderly(cfg, keys + {Chunk(i, k)}, i, k + 1);
      assert cfg.ChunkJobs(i, k)[1..] == cfg.ChunkJobs(i, k + 1);
    }
  }

  lemma {:induction false} ChunkJobsAll(cfg: Config, i: nat, k: nat)
    requires i < |cfg.handed| && k <= |cfg.handed[i]|
    ensures Tail(i) in cfg.ChunkJobs(i, k) && Merge(i) in cfg.ChunkJobs(i, k)
    ensures forall x :: k <= x < |cfg.handed[i]| ==> Chunk(i, x) in cfg.ChunkJobs(i, k)
    decreases |cfg.handed[i]| - k
  {
    if k < |cfg.handed[i]| {
      ChunkJobsAll(cfg, i, k + 1);
    }
  }

  /** The list a system starts with. */
  lemma ChunkJobsFresh(cfg: Config, b: Board, i: nat)
    requires NodesOk(cfg, b) && cfg.System(i) && cfg.handed[i] != [] && BuilderHold(i) !in b.stage
    ensures Orderly(cfg, b.stage.Keys + {BuilderHold(i)}, cfg.ChunkJobs(i, 0), SystemThread(i))
    ensures Accounted(cfg, b.stage.Keys + {BuilderHold(i)}, cfg.ChunkJobs(i, 0), SystemThread(i))
  {
    var keys := b.stage.Keys + {BuilderHold(i)};
    PartsNeedHold(cfg, b, i);
    ChunkJobsOrderly(cfg, keys, i, 0);
    ChunkJobsAll(cfg, i, 0);
    forall n: Node | cfg.Known(n) && Belongs(n, SystemThread(i)) ensures n in cfg.ChunkJobs(i, 0) {
      if n.Chunk? { assert 0 <= n.index < |cfg.handed[i]|; }
    }
  }

  lemma NestedBegin(cfg: Config, s: State, t: State, i: nat)
    requires NestedOk(cfg, s) && NodesOk(cfg, s.board) && Active(cfg, s.board, i) && cfg.handed[i] != []
    requires Added(s.board, t.board, BuilderHold(i)) && t.board.stage[BuilderHold(i)] == Ready
    requires t.nested == s.nested[i := cfg.ChunkJobs(i, 0)]
    ensures NestedOk(cfg, t)
  {
    ChunkJobsFresh(cfg, s.board, i);
    forall j | j in t.nested ensures NestedAt(cfg, t, j) {
      if j != i { NestedBeside(cfg, s, t, BuilderHold(i), j); }
    }
  }

  /** ParallelForEachChunk: the hold on the system's own counter, then the list of its chunk jobs. */
  lemma BeginHandKeeps(cfg: Config, s: State, i: nat)
    requires Inv(cfg, s) && Enabled(cfg, s, BeginHand(i))
    ensures Inv(cfg, Next(cfg, s, BeginHand(i)))
  {
    var t, n := Next(cfg, s, BeginHand(i)), BuilderHold(i);
    AddBoard(cfg, s.board, n);
    AddShape(cfg, s.board, n);
    TodoBeside(cfg, s, t, n);
    NestedBegin(cfg, s, t, i);
    MainsAdd(cfg, s, t, n);
  }

  lemma NestedHand(cfg: Config, s: State, t: State, i: nat)
    requires NestedOk(cfg, s) && i in s.nested && s.nested[i] != []
    requires Added(s.board, t.board, s.nested[i][0]) && t.nested == s.nested[i := s.nested[i][1..]]
    ensures NestedOk(cfg, t)
  {
    var n := s.nested[i][0];
    assert NestedAt(cfg, s, i);
    AccountedNext(cfg, s.board.stage.Keys, s.nested[i], SystemThread(i));
    forall j | j in t.nested ensures NestedAt(cfg, t, j) {
      if j != i { NestedBeside(cfg, s, t, n, j); }
    }
  }

  lemma HandKeeps(cfg: Config, s: State, i: nat)
    requires Inv(cfg, s) && Enabled(cfg, s, Hand(i))
    ensures Inv(cfg, Next(cfg, s, Hand(i)))
  {
    var t, n := Next(cfg, s, Hand(i)), s.nested[i][0];
    assert NestedAt(cfg, s, i);
    AddBoard(cfg, s.board, n);
    TodoBeside(cfg, s, t, n);
    NestedHand(cfg, s, t, i);
    MainsAdd(cfg, s, t, n);
  }

  // --- completing -----------------------------------------------------------------------------------

  /** How the stages look after a completion: only sleepers move. */
  predicate Dropped(b: Board, b': Board, n: Node) {
    && n in b.stage && b'.stage.Keys == b.stage.Keys && b'.stage[n] == Complete
    && forall m :: m in b.stage && m != n ==> b'.stage[m] == b.stage[m] || (b.stage[m] == Waiting && b'.stage[m] == Ready)
  }

  lemma DropBoard(cfg: Config, b: Board, n: Node)
    requires BoardOk(cfg, b) && OnlyRunnableRuns(b) && MayComplete(cfg, b, n)
    ensures b.Value(Target(n)) > 0
    ensures BoardOk(cfg, cfg.Drop(b, n)) && OnlyRunnableRuns(cfg.Drop(b, n))
    ensures Dropped(b, cfg.Drop(b, n), n) && Grows(b, cfg.Drop(b, n))
  {
    DropKeeps(cfg, b, n);
  }

  /** Holds never sleep, so completing another node leaves them alone. */
  lemma NestedDrop(cfg: Config, s: State, t: State, n: Node)
    requires NestedOk(cfg, s) && Dropped(s.board, t.board, n) && t.nested == s.nested
    requires !n.BuilderHold? && forall i :: i in s.nested ==> n != cfg.Launch(i)
    ensures NestedOk(cfg, t)
  {
    forall i | i in t.nested ensures NestedAt(cfg, t, i) {
      assert NestedAt(cfg, s, i);
    }
  }

  lemma MainsDrop(cfg: Config, s: State, t: State, n: Node)
    requires MainsOk(cfg, s) && Grows(s.board, t.board) && Dropped(s.board, t.board, n)
    requires t.mains == s.mains && t.waited == s.waited && t.todo == s.todo && !n.MainHold?
    ensures MainsOk(cfg, t)
  {
    if s.mains != [] {
      WaitedStays(cfg, s.board, t.board, s.mains[0], s.waited);
    }
  }

  lemma RestDrop(cfg: Config, s: State, t: State, n: Node)
    requires TodoOk(cfg, s) && ClosedOk(s) && n in s.board.stage && s.board.Value(Target(n)) > 0
    requires t.board == cfg.Drop(s.board, n) && Dropped(s.board, t.board, n) && t.todo == s.todo && t.finished == s.finished
    requires t.mains == s.mains || (s.mains != [] && t.mains == s.mains[1..])
    ensures TodoOk(cfg, t) && ClosedOk(t)
  {
    assert t.board.stage.Keys == s.board.stage.Keys;
  }

  /** A job, or the hold of the registration, completes. */
  lemma CompleteKeeps(cfg: Config, s: State, n: Node)
    requires Inv(cfg, s) && MayComplete(cfg, s.board, n) && !n.MainHold? && !n.BuilderHold?
    requires n.Run? ==> n.system !in s.nested
    requires s.board.Value(Target(n)) > 0
    ensures Inv(cfg, s.(board := cfg.Drop(s.board, n)))
  {
    var t := s.(board := cfg.Drop(s.board, n));
    DropBoard(cfg, s.board, n);
    NestedDrop(cfg, s, t, n);
    MainsDrop(cfg, s, t, n);
    RestDrop(cfg, s, t, n);
  }

  lemma MayEndHand(cfg: Config, s: State, i: nat)
    requires NestedOk(cfg, s) && i in s.nested && s.nested[i] == []
    ensures MayComplete(cfg, s.board, BuilderHold(i))
  {
    assert NestedAt(cfg, s, i);
    assert cfg.Known(Merge(i)) && Belongs(Merge(i), SystemThread(i));
  }

  lemma EndHandKeeps(cfg: Config, s: State, i: nat)
    requires Inv(cfg, s) && Enabled(cfg, s, EndHand(i))
    ensures Inv(cfg, Next(cfg, s, EndHand(i)))
  {
    var t, n := Next(cfg, s, EndHand(i)), BuilderHold(i);
    MayEndHand(cfg, s, i);
    DropBoard(cfg, s.board, n);
    NestedEnd(cfg, s, t, i);
    MainsDrop(cfg, s, t, n);
    RestDrop(cfg, s, t, n);
  }

  lemma NestedEnd(cfg: Config, s: State, t: State, i: nat)
    requires NestedOk(cfg, s) && Dropped(s.board, t.board, BuilderHold(i)) && t.nested == s.nested - {i}
    ensures NestedOk(cfg, t)
  {
    forall j | j in t.nested ensures NestedAt(cfg, t, j) {
      assert NestedAt(cfg, s, j);
    }
  }

  lemma NotNested(cfg: Config, s: State, i: nat)
    requires NestedOk(cfg, s) && HandedOut(cfg, s.board, i)
    ensures i !in s.nested
  {
    assert i in s.nested ==> NestedAt(cfg, s, i);
  }

  /** The function of a system returns on a worker. */
  lemma ReturnKeeps(cfg: Config, s: State, n: Node)
    requires Inv(cfg, s) && Enabled(cfg, s, Return(n))
    ensures Inv(cfg, Next(cfg, s, Return(n)))
  {
    if n.Run? { NotNested(cfg, s, n.system); }
    CompleteKeeps(cfg, s, n);
  }

  lemma LeaveKeeps(cfg: Config, s: State)
    requires Inv(cfg, s) && Enabled(cfg, s, Leave)
    ensures Inv(cfg, Next(cfg, s, Leave))
  {
    var t, n := Next(cfg, s, Leave), MainHold(s.mains[0]);
    NotNested(cfg, s, s.mains[0]);
    DropBoard(cfg, s.board, n);
    NestedDrop(cfg, s, t, n);
    MainsLeave(cfg, s, t);
    RestDrop(cfg, s, t, n);
  }

  lemma MainsLeave(cfg: Config, s: State, t: State)
    requires MainsOk(cfg, s) && s.mains != [] && Dropped(s.board, t.board, MainHold(s.mains[0]))
    requires s.board.Is(MainHold(s.mains[0]), Running)
    requires t.mains == s.mains[1..] && t.waited == 0 && t.todo == s.todo
    ensures MainsOk(cfg, t)
  {
    assert s.mains == [s.mains[0]] + t.mains;
    assert s.mains[0] !in t.mains;
    forall i: nat | cfg.System(i) && cfg.main[i] ensures i in t.mains <==> !t.board.Is(MainHold(i), Complete) {
      assert i in s.mains <==> i == s.mains[0] || i in t.mains;
    }
  }

  // --- running --------------------------------------------------------------------------------------

  lemma StartJobKeeps(cfg: Config, s: State, n: Node)
    requires Inv(cfg, s) && Enabled(cfg, s, Start(n))
    ensures Inv(cfg, Next(cfg, s, Start(n)))
  {
    var t := Next(cfg, s, Start(n));
    StartKeeps(cfg, s.board, n);
    SetControl(cfg, s, t, n);
  }

  lemma SetControl(cfg: Config, s: State, t: State, n: Node)
    requires NestedOk(cfg, s) && MainsOk(cfg, s) && TodoOk(cfg, s)
    requires s.board.Is(n, Ready) && Runnable(n) && t == s.(board := s.board.Set(n, Running)) && Grows(s.board, t.board)
    requires n.MainHold? ==> MainReady(cfg, s) && n == MainHold(s.mains[0])
    ensures NestedOk(cfg, t) && MainsOk(cfg, t) && TodoOk(cfg, t)
  {
    assert t.board.stage.Keys == s.board.stage.Keys;
    forall i | i in t.nested ensures NestedAt(cfg, t, i) {
      assert NestedAt(cfg, s, i);
    }
    if s.mains != [] {
      WaitedStays(cfg, s.board, t.board, s.mains[0], s.waited);
    }
  }

  lemma EnterKeeps(cfg: Config, s: State)
    requires Inv(cfg, s) && Enabled(cfg, s, Enter)
    ensures Inv(cfg, Next(cfg, s, Enter))
  {
    var t, n := Next(cfg, s, Enter), MainHold(s.mains[0]);
    assert NodeOk(cfg, s.board, n);
    StartKeeps(cfg, s.board, n);
    SetControl(cfg, s, t, n);
  }

  lemma NestedFrame(cfg: Config, s: State, t: State)
    requires NestedOk(cfg, s) && t.board == s.board && t.nested == s.nested
    ensures NestedOk(cfg, t)
  {
    forall j | j in s.nested ensures NestedAt(cfg, t, j) {
      assert NestedAt(cfg, s, j);
    }
  }

  /** The wait of the main thread for one predecessor: it ends when the predecessor is finished. */
  lemma AwaitFinished(cfg: Config, s: State)
    requires cfg.Valid() && TodoOk(cfg, s) && MainsOk(cfg, s) && BoardOk(cfg, s.board) && Enabled(cfg, s, Await)
    ensures Finished(cfg, s.board, cfg.preds[s.mains[0]][s.waited])
  {
    var p := cfg.preds[s.mains[0]][s.waited];
    PredIsSystem(cfg, s.mains[0], s.waited);
    AllRegistered(cfg, s, cfg.Launch(p));
    DoneMeansFinished(cfg, s.board, p);
  }

  lemma AwaitKeeps(cfg: Config, s: State)
    requires cfg.Valid() && Inv(cfg, s) && Enabled(cfg, s, Await)
    ensures Inv(cfg, Next(cfg, s, Await))
  {
    AwaitFinished(cfg, s);
    NestedFrame(cfg, s, Next(cfg, s, Await));
    MainsAwait(cfg, s);
  }

  lemma MainsAwait(cfg: Config, s: State)
    requires MainsOk(cfg, s) && Enabled(cfg, s, Await) && Finished(cfg, s.board, cfg.preds[s.mains[0]][s.waited])
    ensures MainsOk(cfg, Next(cfg, s, Await))
  {}

  lemma PredIsSystem(cfg: Config, i: nat, k: nat)
    requires cfg.Valid() && cfg.System(i) && k < |cfg.preds[i]|
    ensures cfg.main[i] ==> cfg.preds[i][k] in cfg.order
    ensures cfg.preds[i][k] in cfg.order ==> cfg.System(cfg.preds[i][k]) && Precedes(cfg.order, cfg.preds[i][k], i)
  {
    var x :| 0 <= x < |cfg.order| && cfg.order[x] == i;
    var p := cfg.preds[i][k];
    if p in cfg.order {
      var y :| 0 <= y < x && cfg.order[..x][y] == p;
      assert cfg.order[y] == p;
    }
  }

  /** Once the main thread has nothing left to register, every job of the phase is on the board. */
  lemma AllRegistered(cfg: Config, s: State, n: Node)
    requires TodoOk(cfg, s) && s.todo == [] && cfg.Known(n) && Belongs(n, MainThread)
    ensures n in s.board.stage
  {}

  lemma WorkKeeps(cfg: Config, s: State, step: Step)
    requires Inv(cfg, s) && Enabled(cfg, s, step) && (step.Work? || step.Close?)
    ensures Inv(cfg, Next(cfg, s, step))
  {
    NestedFrame(cfg, s, Next(cfg, s, step));
  }

  lemma StepKeeps(cfg: Config, s: State, step: Step)
    requires cfg.Valid() && Inv(cfg, s) && Enabled(cfg, s, step)
    ensures Inv(cfg, Next(cfg, s, step))
  {
    match step
    case Register => RegisterKeeps(cfg, s);
    case EndRegistration => CompleteKeeps(cfg, s, Deferral);
    case Start(n) => StartJobKeeps(cfg, s, n);
    case Return(n) => ReturnKeeps(cfg, s, n);
    case Pass(n) => CompleteKeeps(cfg, s, n);
    case BeginHand(i) => BeginHandKeeps(cfg, s, i);
    case Hand(i) => HandKeeps(cfg, s, i);
    case EndHand(i) => EndHandKeeps(cfg, s, i);
    case Await => AwaitKeeps(cfg, s);
    case Enter => EnterKeeps(cfg, s);
    case Leave => LeaveKeeps(cfg, s);
    case Close => WorkKeeps(cfg, s, step);
    case Work(_) => WorkKeeps(cfg, s, step);
  }
}
