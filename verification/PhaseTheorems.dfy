/** What RunPhase promises, over every interleaving of its threads. */
module PhaseTheorems {
  import opened Graphs
  import opened Orders
  import opened Schedules
  import opened Traces
  import opened PhaseRuns
  import opened PhaseJobs
  import opened PhaseBoards
  import opened PhaseSafety
  import opened PhasePrograms

  // --- no early start -------------------------------------------------------------------------------

  /** The system's function has been entered. */
  predicate Begun(cfg: Config, b: Board, i: nat) {
    cfg.System(i) && cfg.Launch(i) in b.stage && b.stage[cfg.Launch(i)] in {Running, Complete}
  }

  /** No system's function is entered, by a worker or by the main thread, before each of its
      predecessors has returned and every chunk task it handed out is complete. */
  lemma NoEarlyStart(cfg: Config, s: State, i: nat)
    requires Reachable(cfg, s) && Begun(cfg, s.board, i)
    ensures PredsFinished(cfg, s.board, i)
  {
    ReachableInv(cfg, s);
    assert NodeOk(cfg, s.board, cfg.Launch(i));
  }

  // --- no deadlock ----------------------------------------------------------------------------------

  /** Nothing is left to do for anyone but the main thread. */
  predicate Quiet(s: State) {
    s.todo == [] && s.nested == map[] && QuietBoard(s.board)
  }

  predicate QuietBoard(b: Board) {
    forall n :: n in b.stage ==> b.stage[n] in {Waiting, Complete} || (n.MainHold? && b.stage[n] == Ready)
  }

  lemma NestedMoves(cfg: Config, s: State, i: nat) returns (step: PhaseJobs.Step)
    requires Inv(cfg, s) && i in s.nested
    ensures Enabled(cfg, s, step) && !step.Work?
  {
    assert NestedAt(cfg, s, i);
    if s.nested[i] == [] {
      DropBooks(s.board, BuilderHold(i));
      step := EndHand(i);
    } else {
      step := Hand(i);
    }
  }

  lemma ReadyMoves(cfg: Config, s: State, n: Node) returns (step: PhaseJobs.Step)
    requires Inv(cfg, s) && s.todo == [] && s.nested == map[] && s.board.Is(n, Ready) && !n.MainHold?
    ensures Enabled(cfg, s, step) && !step.Work?
  {
    DropBooks(s.board, n);
    step := if n.Deferral? then EndRegistration else if n.Run? || n.Chunk? then Start(n) else Pass(n);
  }

  lemma RunningMoves(cfg: Config, s: State, n: Node) returns (step: PhaseJobs.Step)
    requires Inv(cfg, s) && s.nested == map[] && s.board.Is(n, Running)
    ensures Enabled(cfg, s, step) && !step.Work?
  {
    assert NodeOk(cfg, s.board, n);
    DropBooks(s.board, n);
    if n.Chunk? {
      step := Return(n);
    } else {
      var i := n.system;
      step := if !HandedOut(cfg, s.board, i) then BeginHand(i) else if n.Run? then Return(n) else Leave;
    }
  }

  /** A job does not sleep on a counter that is at zero. */
  lemma Awakened(cfg: Config, b: Board, n: Node)
    requires Awake(cfg, b) && QuietBoard(b) && n in b.stage && !n.MainHold?
    requires cfg.Known(n) && (cfg.WaitsFor(n).None? || b.Value(cfg.WaitsFor(n).value) == 0)
    ensures b.stage[n] == Complete
  {
    assert AwakeAt(cfg, b, n);
  }

  lemma ChunksRun(cfg: Config, b: Board, i: nat)
    requires Awake(cfg, b) && QuietBoard(b) && cfg.System(i)
    requires forall k :: 0 <= k < |cfg.handed[i]| ==> Chunk(i, k) in b.stage
    ensures forall k :: 0 <= k < |cfg.handed[i]| ==> b.Is(Chunk(i, k), Complete)
  {
    forall k | 0 <= k < |cfg.handed[i]| ensures b.Is(Chunk(i, k), Complete) {
      Awakened(cfg, b, Chunk(i, k));
    }
  }

  lemma ChunksFollow(cfg: Config, b: Board, i: nat)
    requires Books(b) && NodesOk(cfg, b) && Awake(cfg, b) && QuietBoard(b) && cfg.System(i) && cfg.handed[i] != [] && Tail(i) in b.stage
    ensures b.Is(Tail(i), Complete) && forall k :: 0 <= k < |cfg.handed[i]| ==> b.Is(Chunk(i, k), Complete)
  {
    assert NodeOk(cfg, b, Tail(i));
    ChunksRun(cfg, b, i);
    NothingPending(cfg, b, Chunks(i));
    Awakened(cfg, b, Tail(i));
  }

  /** When the function has returned, its chunk tasks and their splices follow. */
  lemma PartsFollow(cfg: Config, b: Board, i: nat)
    requires BoardOk(cfg, b) && QuietBoard(b) && cfg.System(i) && b.Is(cfg.Launch(i), Complete)
    ensures Finished(cfg, b, i)
  {
    assert NodeOk(cfg, b, cfg.Launch(i));
    if cfg.handed[i] != [] {
      assert NodeOk(cfg, b, BuilderHold(i));
      assert NodeOk(cfg, b, Merge(i));
      ChunksFollow(cfg, b, i);
      NothingPending(cfg, b, Parts(i));
      Awakened(cfg, b, Merge(i));
    }
  }

  lemma NothingPending(cfg: Config, b: Board, c: Counter)
    requires Books(b) && NodesOk(cfg, b)
    requires forall n :: n in b.stage && cfg.Known(n) && Target(n) == c ==> b.stage[n] == Complete
    ensures b.Value(c) == 0
  {
    forall n | n in b.stage && Target(n) == c ensures b.stage[n] == Complete {
      assert NodeOk(cfg, b, n);
    }
    assert b.Pending(c) == {};
  }

  predicate PredsAtZero(cfg: Config, b: Board, i: nat)
    requires cfg.System(i)
  {
    forall k :: 0 <= k < |cfg.preds[i]| && cfg.preds[i][k] in cfg.order ==> b.Value(Done(cfg.preds[i][k])) == 0
  }

  lemma JoinFollows(cfg: Config, b: Board, i: nat)
    requires BoardOk(cfg, b) && QuietBoard(b) && cfg.System(i) && !cfg.main[i] && PredsAtZero(cfg, b, i)
    requires |cfg.preds[i]| > 1 && forall k :: 0 <= k < |cfg.preds[i]| ==> Splice(i, k) in b.stage
    ensures b.Value(Join(i)) == 0
  {
    forall k | 0 <= k < |cfg.preds[i]| ensures b.Is(Splice(i, k), Complete) {
      Awakened(cfg, b, Splice(i, k));
    }
    NothingPending(cfg, b, Join(i));
  }

  /** A job whose predecessors are finished has run. */
  lemma JobFollows(cfg: Config, s: State, i: nat)
    requires Inv(cfg, s) && Quiet(s) && cfg.System(i) && !cfg.main[i] && PredsFinished(cfg, s.board, i)
    ensures Finished(cfg, s.board, i)
  {
    var b, n := s.board, Node.Run(i);
    AllRegistered(cfg, s, n);
    forall k | 0 <= k < |cfg.preds[i]| && cfg.preds[i][k] in cfg.order ensures b.Value(Done(cfg.preds[i][k])) == 0 {
      FinishedMeansDone(cfg, b, cfg.preds[i][k]);
    }
    if |cfg.preds[i]| > 1 {
      forall k | 0 <= k < |cfg.preds[i]| ensures Splice(i, k) in b.stage {
        AllRegistered(cfg, s, Splice(i, k));
      }
      JoinFollows(cfg, b, i);
    }
    Awakened(cfg, b, n);
    PartsFollow(cfg, b, i);
  }

  lemma {:induction false} PrefixFinished(cfg: Config, s: State, x: nat) returns (y: nat)
    requires cfg.Valid() && Inv(cfg, s) && Quiet(s) && x <= |cfg.order|
    ensures y <= x && forall z :: 0 <= z < y ==> Finished(cfg, s.board, cfg.order[z])
    ensures y < x ==> cfg.main[cfg.order[y]] && s.board.Is(MainHold(cfg.order[y]), Ready) && PredsFinished(cfg, s.board, cfg.order[y])
  {
    y := 0;
    while y < x
      invariant y <= x && forall z :: 0 <= z < y ==> Finished(cfg, s.board, cfg.order[z])
    {
      var i := cfg.order[y];
      PredsBefore(cfg, s.board, y);
      if cfg.main[i] {
        AllRegistered(cfg, s, MainHold(i));
        if !s.board.Is(MainHold(i), Complete) {
          assert AwakeAt(cfg, s.board, MainHold(i));
          return;
        }
        PartsFollow(cfg, s.board, i);
      } else {
        JobFollows(cfg, s, i);
      }
      y := y + 1;
    }
  }

  lemma PredsBefore(cfg: Config, b: Board, x: nat)
    requires cfg.Valid() && x < |cfg.order| && forall z :: 0 <= z < x ==> Finished(cfg, b, cfg.order[z])
    ensures cfg.System(cfg.order[x]) && PredsFinished(cfg, b, cfg.order[x])
  {
    var i := cfg.order[x];
    forall k | 0 <= k < |cfg.preds[i]| && cfg.preds[i][k] in cfg.order ensures Finished(cfg, b, cfg.preds[i][k]) {
      var z :| 0 <= z < x && cfg.order[..x][z] == cfg.preds[i][k];
      assert cfg.order[z] == cfg.preds[i][k];
    }
  }

  /** An unfinished system does not come before the first unfinished one. */
  lemma NotBefore(cfg: Config, b: Board, y: nat, m: nat)
    requires cfg.Valid() && y < |cfg.order| && !Finished(cfg, b, m)
    requires forall z :: 0 <= z < y ==> Finished(cfg, b, cfg.order[z])
    ensures !Precedes(cfg.order, m, cfg.order[y])
  {
    forall c, d | 0 <= c < d < |cfg.order| && cfg.order[d] == cfg.order[y] ensures cfg.order[c] != m {
      assert d == y;
    }
  }

  /** The first unfinished system, if it is the main thread's, is its next one. */
  lemma FirstUnfinished(cfg: Config, s: State, y: nat)
    requires cfg.Valid() && Inv(cfg, s) && y < |cfg.order| && cfg.main[cfg.order[y]] && s.board.Is(MainHold(cfg.order[y]), Ready)
    requires forall z :: 0 <= z < y ==> Finished(cfg, s.board, cfg.order[z])
    ensures s.mains != [] && s.mains[0] == cfg.order[y]
  {
    var i := cfg.order[y];
    assert i in s.mains;
    var x :| 0 <= x < |s.mains| && s.mains[x] == i;
    assert s.mains[0] in s.mains;
    NotBefore(cfg, s.board, y, s.mains[0]);
    FirstOrAfter(cfg.order, s.mains, x);
  }

  lemma FirstOrAfter(order: seq<nat>, mains: seq<nat>, x: nat)
    requires x < |mains| && forall a, b :: 0 <= a < b < |mains| ==> Precedes(order, mains[a], mains[b])
    ensures x == 0 || Precedes(order, mains[0], mains[x])
  {}

  lemma AllFinishedCloses(cfg: Config, s: State)
    requires cfg.Valid() && Inv(cfg, s) && Quiet(s) && forall z :: 0 <= z < |cfg.order| ==> Finished(cfg, s.board, cfg.order[z])
    ensures s.mains == [] && s.board.Is(Deferral, Complete) && s.board.Value(PhaseDone) == 0
  {
    AllRegistered(cfg, s, Deferral);
    Awakened(cfg, s.board, Deferral);
    forall n | n in s.board.stage && cfg.Known(n) && Target(n) == PhaseDone ensures s.board.stage[n] == Complete {
      if n.Finish? {
        FinishedMeansDone(cfg, s.board, n.system);
      }
      Awakened(cfg, s.board, n);
    }
    NothingPending(cfg, s.board, PhaseDone);
    forall x | 0 <= x < |cfg.order| ensures cfg.order[x] !in s.mains {
      assert Finished(cfg, s.board, cfg.order[x]);
    }
    assert forall i: nat :: i !in s.mains;
    assert multiset(s.mains) == multiset{};
  }

  lemma MainMoves(cfg: Config, s: State, y: nat) returns (step: PhaseJobs.Step)
    requires cfg.Valid() && Inv(cfg, s) && Quiet(s) && y < |cfg.order|
    requires cfg.main[cfg.order[y]] && s.board.Is(MainHold(cfg.order[y]), Ready) && PredsFinished(cfg, s.board, cfg.order[y])
    requires forall z :: 0 <= z < y ==> Finished(cfg, s.board, cfg.order[z])
    ensures Enabled(cfg, s, step) && !step.Work?
  {
    var i := cfg.order[y];
    FirstUnfinished(cfg, s, y);
    AllRegistered(cfg, s, Deferral);
    Awakened(cfg, s.board, Deferral);
    if s.waited < |cfg.preds[i]| {
      PredIsSystem(cfg, i, s.waited);
      FinishedMeansDone(cfg, s.board, cfg.preds[i][s.waited]);
      step := Await;
    } else {
      step := Enter;
    }
  }

  /** The phase never gets stuck: until the main thread has seen phaseDone at zero, some thread has
      a step other than work inside a system. */
  lemma NoDeadlock(cfg: Config, s: State) returns (step: PhaseJobs.Step)
    requires Reachable(cfg, s) && !s.finished
    ensures Enabled(cfg, s, step) && !step.Work?
  {
    ReachableInv(cfg, s);
    if s.todo != [] {
      step := Register;
    } else if i :| i in s.nested {
      step := NestedMoves(cfg, s, i);
    } else if n :| n in s.board.stage && s.board.stage[n] == Ready && !n.MainHold? {
      assert s.nested == map[];
      step := ReadyMoves(cfg, s, n);
    } else if n :| n in s.board.stage && s.board.stage[n] == Running {
      assert s.nested == map[];
      step := RunningMoves(cfg, s, n);
    } else {
      assert s.nested == map[];
      step := QuietMoves(cfg, s);
    }
  }

  lemma QuietMoves(cfg: Config, s: State) returns (step: PhaseJobs.Step)
    requires cfg.Valid() && Inv(cfg, s) && Quiet(s) && !s.finished
    ensures Enabled(cfg, s, step) && !step.Work?
  {
    var y := PrefixFinished(cfg, s, |cfg.order|);
    if y < |cfg.order| {
      step := MainMoves(cfg, s, y);
    } else {
      AllFinishedCloses(cfg, s);
      step := Close;
    }
  }

  // --- the events of a phase ------------------------------------------------------------------------

  /** The jobs RunPhase makes of a built graph. */
  function ConfigOf(g: Graph, phase: Phase, order: seq<nat>): Config {
    Config(order, g.preds, seq(|phase.descs|, i requires 0 <= i < |phase.descs| => phase.descs[i].mainThread), phase.handed, phase.plan)
  }

  /** A main-thread system waits for the counters of all its predecessors, so they must all be
      included in the world. */
  predicate MainPredsIncluded(g: Graph, phase: Phase, order: seq<nat>)
    requires g.WellFormed() && |phase.descs| == |g.phase|
  {
    forall i, k :: i in order && i < |g.phase| && phase.descs[i].mainThread && 0 <= k < |g.preds[i]| ==> g.included[g.preds[i][k]]
  }

  lemma ConfigValid(g: Graph, phase: Phase, ph: nat, order: seq<nat>)
    requires g.WellFormed() && PhaseOf(g, phase, ph, order) && MainPredsIncluded(g, phase, order)
    ensures ConfigOf(g, phase, order).Valid()
  {
    var cfg := ConfigOf(g, phase, order);
    forall x, k | 0 <= x < |order| && 0 <= k < |g.preds[order[x]]| && g.preds[order[x]][k] in order
      ensures g.preds[order[x]][k] in order[..x]
    {
      var y :| 0 <= y < |order| && order[y] == g.preds[order[x]][k];
      assert g.InPhase(ph, order[x]) && g.InPhase(ph, order[y]);
      assert g.Edge(order[y], order[x]);
      assert order[..x][y] == order[y];
    }
    forall x, k | 0 <= x < |order| && cfg.main[order[x]] && 0 <= k < |g.preds[order[x]]| ensures g.preds[order[x]][k] in order {
      PredInOrder(g, ph, order, g.preds[order[x]][k], order[x]);
    }
  }

  lemma PredInOrder(g: Graph, ph: nat, order: seq<nat>, a: nat, b: nat)
    requires g.WellFormed() && g.Linear(ph, order) && b in order && a in g.preds[b] && a < |g.phase| && g.included[a]
    ensures a in order
  {
    assert g.InPhase(ph, b);
    var k :| 0 <= k < |g.preds[b]| && g.preds[b][k] == a;
    assert g.ValidEdge(g.preds[b][k], b);
    assert g.InPhase(ph, a);
  }

  /** The jobs are those of this phase of this graph. */
  ghost predicate JobsFor(g: Graph, phase: Phase, ph: nat, order: seq<nat>, cfg: Config) {
    g.WellFormed() && PhaseOf(g, phase, ph, order) && cfg == ConfigOf(g, phase, order) && cfg.Valid()
  }

  lemma EdgeFinished(g: Graph, phase: Phase, ph: nat, order: seq<nat>, cfg: Config, b: Board, i: nat, j: nat)
    requires JobsFor(g, phase, ph, order, cfg) && NodesOk(cfg, b) && Begun(cfg, b, j) && g.Edge(i, j)
    ensures Finished(cfg, b, i) && Begun(cfg, b, i)
  {
    assert NodeOk(cfg, b, cfg.Launch(j));
    PredInOrder(g, ph, order, i, j);
    var k :| 0 <= k < |cfg.preds[j]| && cfg.preds[j][k] == i;
  }

  lemma {:induction false} EdgeClosed(g: Graph, begun: nat -> bool, finished: nat -> bool, k: nat, i: nat, j: nat)
    requires g.WellFormed() && begun(j) && g.ReachIn(k, i, j)
    requires forall x: nat, y: nat :: begun(y) && g.Edge(x, y) ==> begun(x) && finished(x)
    ensures finished(i)
    decreases k
  {
    if k > 0 {
      var c: nat :| g.ReachIn(k - 1, i, c) && g.Edge(c, j);
      EdgeClosed(g, begun, finished, k - 1, i, c);
    }
  }

  ghost predicate EdgesFinished(g: Graph, cfg: Config, b: Board)
    requires g.WellFormed()
  {
    forall x: nat, y: nat :: Begun(cfg, b, y) && g.Edge(x, y) ==> Begun(cfg, b, x) && Finished(cfg, b, x)
  }

  lemma AllEdgesFinished(g: Graph, phase: Phase, ph: nat, order: seq<nat>, cfg: Config, b: Board)
    requires JobsFor(g, phase, ph, order, cfg) && NodesOk(cfg, b)
    ensures EdgesFinished(g, cfg, b)
  {
    forall x: nat, y: nat | Begun(cfg, b, y) && g.Edge(x, y) ensures Begun(cfg, b, x) && Finished(cfg, b, x) {
      EdgeFinished(g, phase, ph, order, cfg, b, x, y);
    }
  }

  /** Everything a begun system waits for, however indirectly, is finished. */
  lemma AncestorsFinished(g: Graph, phase: Phase, ph: nat, order: seq<nat>, cfg: Config, s: State, i: nat, j: nat)
    requires JobsFor(g, phase, ph, order, cfg) && Reachable(cfg, s) && Begun(cfg, s.board, j) && g.Reaches(i, j)
    ensures Finished(cfg, s.board, i)
  {
    hide Config.Valid, PhaseOf, Reachable, TodoOk, NestedOk, MainsOk;
    ReachableInv(cfg, s);
    AllEdgesFinished(g, phase, ph, order, cfg, s.board);
    AncestorsOf(g, cfg, s.board, i, j);
  }

  lemma AncestorsOf(g: Graph, cfg: Config, b: Board, i: nat, j: nat)
    requires g.WellFormed() && EdgesFinished(g, cfg, b) && Begun(cfg, b, j) && g.Reaches(i, j)
    ensures Finished(cfg, b, i)
  {
    var k: nat :| g.ReachIn(k, i, j);
    EdgeClosed(g, (x: nat) => Begun(cfg, b, x), (x: nat) => Finished(cfg, b, x), k, i, j);
  }

  /** What is known of a system that has made a step. */
  predicate Seen(cfg: Config, b: Board, unit: Unit) {
    Begun(cfg, b, unit.system) && (!unit.Body? ==> BuilderHold(unit.system) in b.stage)
  }

  ghost predicate EventsOk(g: Graph, cfg: Config, s: State)
    requires g.WellFormed()
  {
    && KeepsEdges(g, cfg.plan, s.events)
    && (forall e :: 0 <= e < |s.events| ==> Seen(cfg, s.board, cfg.plan[s.events[e]]))
    && (forall i: nat :: BuilderHold(i) in s.board.stage ==> Begun(cfg, s.board, i))
  }

  /** Stages only move forward. */
  predicate Forward(b: Board, b': Board) {
    && b.stage.Keys <= b'.stage.Keys
    && forall n :: n in b.stage && b.stage[n] in {Running, Complete} ==> b'.stage[n] in {Running, Complete}
  }

  lemma DropForward(cfg: Config, b: Board, n: Node)
    requires n in b.stage && b.Value(Target(n)) > 0
    ensures Forward(b, cfg.Drop(b, n)) && cfg.Drop(b, n).stage.Keys == b.stage.Keys
  {}

  lemma AddForward(cfg: Config, b: Board, n: Node)
    requires cfg.Known(n) && n !in b.stage
    ensures Forward(b, cfg.Add(b, n)) && cfg.Add(b, n).stage.Keys == b.stage.Keys + {n}
  {
    AddShape(cfg, b, n);
  }

  /** What a step registers. */
  function Registers(s: State, step: PhaseJobs.Step): set<Node> {
    match step
    case Register => if s.todo != [] then {s.todo[0]} else {}
    case BeginHand(i) => {BuilderHold(i)}
    case Hand(i) => if i in s.nested && s.nested[i] != [] then {s.nested[i][0]} else {}
    case _ => {}
  }

  lemma HandersBegun(cfg: Config, s: State, step: PhaseJobs.Step, i: nat)
    requires Inv(cfg, s) && Enabled(cfg, s, step)
    requires Forward(s.board, Next(cfg, s, step).board)
    requires Next(cfg, s, step).board.stage.Keys <= s.board.stage.Keys + Registers(s, step)
    requires forall j: nat :: BuilderHold(j) in s.board.stage ==> Begun(cfg, s.board, j)
    requires BuilderHold(i) in Next(cfg, s, step).board.stage
    ensures Begun(cfg, Next(cfg, s, step).board, i)
  {
    if step.Hand? {
      assert NestedAt(cfg, s, step.i);
    }
  }

  lemma StepForward(cfg: Config, s: State, step: PhaseJobs.Step)
    requires cfg.Valid() && Inv(cfg, s) && Enabled(cfg, s, step)
    ensures Forward(s.board, Next(cfg, s, step).board)
    ensures Next(cfg, s, step).board.stage.Keys <= s.board.stage.Keys + Registers(s, step)
  {
    match step
    case Register => AddForward(cfg, s.board, s.todo[0]);
    case BeginHand(i) => AddForward(cfg, s.board, BuilderHold(i));
    case Hand(i) =>
      assert NestedAt(cfg, s, i);
      AddForward(cfg, s.board, s.nested[i][0]);
    case EndRegistration => DropForward(cfg, s.board, Deferral);
    case Return(n) => DropForward(cfg, s.board, n);
    case Pass(n) => DropForward(cfg, s.board, n);
    case EndHand(i) => DropForward(cfg, s.board, BuilderHold(i));
    case Leave => DropForward(cfg, s.board, MainHold(s.mains[0]));
    case _ =>
  }

  lemma SeenStays(cfg: Config, b: Board, b': Board, unit: Unit)
    requires Seen(cfg, b, unit) && Forward(b, b')
    ensures Seen(cfg, b', unit)
  {}

  lemma WorkSeen(cfg: Config, b: Board, unit: Unit)
    requires NodesOk(cfg, b) && AtWork(cfg, b, unit)
    requires forall i: nat :: BuilderHold(i) in b.stage ==> Begun(cfg, b, i)
    ensures Seen(cfg, b, unit) && !Finished(cfg, b, unit.system)
  {
    if unit.Task? {
      assert NodeOk(cfg, b, Chunk(unit.system, unit.index));
    }
  }

  /** No unit works after something that waits for its system has been seen. */
  lemma WorkAfterSeen(g: Graph, phase: Phase, ph: nat, order: seq<nat>, cfg: Config, s: State, u: nat, e: nat)
    requires JobsFor(g, phase, ph, order, cfg) && NodesOk(cfg, s.board) && EventsOk(g, cfg, s)
    requires u < |cfg.plan| && AtWork(cfg, s.board, cfg.plan[u]) && e < |s.events|
    ensures !g.Reaches(cfg.plan[u].system, cfg.plan[s.events[e]].system)
    ensures cfg.plan[s.events[e]].system == cfg.plan[u].system && cfg.plan[u].Body? ==> cfg.plan[s.events[e]].Body?
  {
    var i, j := cfg.plan[u].system, cfg.plan[s.events[e]].system;
    WorkSeen(cfg, s.board, cfg.plan[u]);
    assert Seen(cfg, s.board, cfg.plan[s.events[e]]);
    if g.Reaches(i, j) {
      AllEdgesFinished(g, phase, ph, order, cfg, s.board);
      AncestorsOf(g, cfg, s.board, i, j);
    }
  }

  lemma WorkKeepsEdges(g: Graph, phase: Phase, ph: nat, order: seq<nat>, cfg: Config, s: State, u: nat)
    requires JobsFor(g, phase, ph, order, cfg) && NodesOk(cfg, s.board) && EventsOk(g, cfg, s)
    requires u < |cfg.plan| && AtWork(cfg, s.board, cfg.plan[u])
    ensures KeepsEdges(g, cfg.plan, s.events + [u])
  {
    var events := s.events + [u];
    forall i, j | 0 <= i < j < |events|
      ensures !g.Reaches(cfg.plan[events[j]].system, cfg.plan[events[i]].system)
      ensures cfg.plan[events[i]].system == cfg.plan[events[j]].system && cfg.plan[events[j]].Body? ==> cfg.plan[events[i]].Body?
    {
      assert events[i] == s.events[i];
      if j < |s.events| {
        assert events[j] == s.events[j];
      } else {
        WorkAfterSeen(g, phase, ph, order, cfg, s, u, i);
      }
    }
  }

  lemma EventsKeep(g: Graph, phase: Phase, ph: nat, order: seq<nat>, cfg: Config, s: State, step: PhaseJobs.Step)
    requires JobsFor(g, phase, ph, order, cfg) && Inv(cfg, s) && EventsOk(g, cfg, s) && Enabled(cfg, s, step)
    ensures EventsOk(g, cfg, Next(cfg, s, step))
  {
    hide PhaseOf, ConfigOf, Seen, PhaseJobs.Config.Valid, Inv, Enabled, Next, Forward, NodesOk, KeepsEdges, Graph.WellFormed, AtWork, Begun;
    StepForward(cfg, s, step);
    EventsNext(cfg, s, step);
    EventsInPlan(g, cfg, s);
    var t := Next(cfg, s, step);
    if step.Work? {
      WorkKeepsEdges(g, phase, ph, order, cfg, s, step.u);
      WorkSeen(cfg, s.board, cfg.plan[step.u]);
    }
    AllSeen(cfg, s, t);
    forall i: nat | BuilderHold(i) in t.board.stage ensures Begun(cfg, t.board, i) {
      HandersBegun(cfg, s, step, i);
    }
  }

  lemma EventsNext(cfg: Config, s: State, step: PhaseJobs.Step)
    requires cfg.Valid() && Inv(cfg, s) && Enabled(cfg, s, step)
    ensures Next(cfg, s, step).events == if step.Work? then s.events + [step.u] else s.events
    ensures NodesOk(cfg, s.board) && (step.Work? ==> step.u < |cfg.plan| && AtWork(cfg, s.board, cfg.plan[step.u]))
  {}

  lemma EventsInPlan(g: Graph, cfg: Config, s: State)
    requires g.WellFormed() && EventsOk(g, cfg, s)
    ensures forall e :: 0 <= e < |s.events| ==> s.events[e] < |cfg.plan|
  {}

  lemma AllSeen(cfg: Config, s: State, t: State)
    requires Forward(s.board, t.board) && |s.events| <= |t.events| <= |s.events| + 1 && t.events[..|s.events|] == s.events
    requires forall e :: 0 <= e < |s.events| ==> s.events[e] < |cfg.plan| && Seen(cfg, s.board, cfg.plan[s.events[e]])
    requires |t.events| > |s.events| ==> t.events[|s.events|] < |cfg.plan| && Seen(cfg, s.board, cfg.plan[t.events[|s.events|]])
    ensures forall e :: 0 <= e < |t.events| ==> t.events[e] < |cfg.plan| && Seen(cfg, t.board, cfg.plan[t.events[e]])
  {
    forall e | 0 <= e < |t.events| ensures t.events[e] < |cfg.plan| && Seen(cfg, t.board, cfg.plan[t.events[e]]) {
      assert e < |s.events| ==> t.events[..|s.events|][e] == s.events[e];
      SeenStays(cfg, s.board, t.board, cfg.plan[t.events[e]]);
    }
  }

  lemma {:induction false} RunsKeepEvents(g: Graph, phase: Phase, ph: nat, order: seq<nat>, cfg: Config, s: State, steps: seq<PhaseJobs.Step>, t: State)
    requires JobsFor(g, phase, ph, order, cfg) && Inv(cfg, s) && EventsOk(g, cfg, s) && Runs(cfg, s, steps, t)
    ensures EventsOk(g, cfg, t)
    decreases |steps|
  {
    if steps != [] {
      StepKeeps(cfg, s, steps[0]);
      EventsKeep(g, phase, ph, order, cfg, s, steps[0]);
      RunsKeepEvents(g, phase, ph, order, cfg, Next(cfg, s, steps[0]), steps[1..], t);
    }
  }

  /** RunPhase equals RunPhaseSerial. Take any graph that Build accepts, any systems that respect
      what they declare, and any interleaving of the calling thread and the workers over the job
      graph of the phase: when every unit has returned, the store is the one that running the units
      one after another in the order of the schedule leaves. */
  lemma RunPhaseMatchesSerial<V(!new)>(g: Graph, phase: Phase, ph: nat, order: seq<nat>, s: State,
      step: Traces.Step<Location, V>, returned: (nat, map<Location, V>) -> bool, before: map<Location, V>, after: map<Location, V>)
    requires g.WellFormed() && PhaseOf(g, phase, ph, order) && AllOrdered(g, g, phase.descs) && MainPredsIncluded(g, phase, order)
    requires Respects(phase.Declared(), step) && Returns(step, returned)
    requires Reachable(ConfigOf(g, phase, order), s)
    requires forall u :: 0 <= u < |phase.plan| ==> Private(u) in before && returned(u, Exec(step, s.events, before))
    ensures SerialRun(step, returned, Places(|phase.plan|), before, after) <==> after == Exec(step, s.events, before)
  {
    var cfg := ConfigOf(g, phase, order);
    ConfigValid(g, phase, ph, order);
    var steps :| Runs(cfg, Initial(cfg), steps, s);
    PhasePrograms.InitialInv(cfg);
    RunsKeepEvents(g, phase, ph, order, cfg, Initial(cfg), steps, s);
    SingleThreadInvariant(g, phase, ph, order, step, returned, s.events, before, after);
  }

  /** When the main thread has waited for phaseDone, every system and every chunk task of the phase
      is finished. */
  lemma ClosedIsFinished(cfg: Config, s: State, i: nat)
    requires Reachable(cfg, s) && s.finished && i in cfg.order
    ensures Finished(cfg, s.board, i)
  {
    ReachableInv(cfg, s);
    assert cfg.Known(Finish(i));
    AllRegistered(cfg, s, Finish(i));
    AtZero(s.board, Finish(i));
    assert NodeOk(cfg, s.board, Finish(i));
  }
}
