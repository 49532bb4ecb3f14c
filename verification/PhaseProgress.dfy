/** A phase does not go on for ever by itself: every step but those inside the systems brings it nearer to
    its end. */
module PhaseProgress {
  import opened PhaseJobs
  import opened PhaseBoards
  import opened PhaseSafety
  import opened PhasePrograms
  import opened PhaseThreads

  /** How far a job or a hold has come. */
  function Level(b: Board, n: Node): (r: nat)
    ensures r <= 4
  {
    if n !in b.stage then 0
    else match b.stage[n]
      case Waiting => 1
      case Ready => 2
      case Running => 3
      case Complete => 4
  }

  /** Nobody falls back. */
  ghost predicate Rises(b: Board, b': Board) {
    forall n: Node :: Level(b, n) <= Level(b', n)
  }

  /** How far the listed nodes are from being complete. */
  function Missing(b: Board, nodes: seq<Node>): nat {
    if nodes == [] then 0 else Missing(b, nodes[..|nodes| - 1]) + (4 - Level(b, nodes[|nodes| - 1]))
  }

  function NodesOf(cfg: Config, i: nat): seq<Node>
    requires i < |cfg.preds| && i < |cfg.handed|
  {
    [MainHold(i), Run(i), Finish(i), BuilderHold(i), Tail(i), Merge(i)]
    + seq(|cfg.preds[i]|, k requires 0 <= k => Splice(i, k)) + seq(|cfg.handed[i]|, k requires 0 <= k => Chunk(i, k))
  }

  /** Everything a phase can register for its first n systems. */
  function AllNodes(cfg: Config, n: nat): seq<Node>
    requires n <= |cfg.preds| && n <= |cfg.handed|
  {
    if n == 0 then [Deferral] else AllNodes(cfg, n - 1) + NodesOf(cfg, n - 1)
  }

  lemma {:induction false} Listed(cfg: Config, n: nat, node: Node)
    requires n <= |cfg.preds| && n <= |cfg.handed| && cfg.Known(node) && (node.Deferral? || node.system < n)
    ensures node in AllNodes(cfg, n)
  {
    if n > 0 {
      if !node.Deferral? && node.system == n - 1 {
        NodeListed(cfg, node);
      } else {
        Listed(cfg, n - 1, node);
      }
    }
  }

  lemma NodeListed(cfg: Config, node: Node)
    requires cfg.Known(node) && !node.Deferral? && node.system < |cfg.preds| && node.system < |cfg.handed|
    ensures node in NodesOf(cfg, node.system)
  {
    var i := node.system;
    var nodes, p := NodesOf(cfg, i), |cfg.preds[i]|;
    match node
    case MainHold(_) => assert nodes[0] == node;
    case Run(_) => assert nodes[1] == node;
    case Finish(_) => assert nodes[2] == node;
    case BuilderHold(_) => assert nodes[3] == node;
    case Tail(_) => assert nodes[4] == node;
    case Merge(_) => assert nodes[5] == node;
    case Splice(_, k) => assert nodes[6 + k] == node;
    case Chunk(_, k) => assert nodes[6 + p + k] == node;
  }

  lemma {:induction false} MissingFalls(b: Board, b': Board, nodes: seq<Node>, n: Node)
    requires Rises(b, b')
    ensures Missing(b', nodes) <= Missing(b, nodes)
    ensures n in nodes && Level(b, n) < Level(b', n) ==> Missing(b', nodes) < Missing(b, nodes)
  {
    if nodes != [] {
      MissingFalls(b, b', nodes[..|nodes| - 1], n);
      assert nodes == nodes[..|nodes| - 1] + [nodes[|nodes| - 1]];
      assert Level(b, nodes[|nodes| - 1]) <= Level(b', nodes[|nodes| - 1]);
    }
  }

  // --- one step -------------------------------------------------------------------------------------

  lemma DropRises(cfg: Config, b: Board, n: Node)
    requires n in b.stage && b.stage[n] != Complete && b.Value(Target(n)) > 0
    ensures Rises(b, cfg.Drop(b, n)) && Level(b, n) < Level(cfg.Drop(b, n), n)
  {}

  lemma AddRises(cfg: Config, b: Board, n: Node)
    requires cfg.Known(n) && n !in b.stage
    ensures Rises(b, cfg.Add(b, n)) && Level(b, n) < Level(cfg.Add(b, n), n)
  {
    AddShape(cfg, b, n);
    hide Config.Add;
  }

  lemma StartRises(b: Board, n: Node)
    requires b.Is(n, Ready)
    ensures Rises(b, b.Set(n, Running)) && Level(b, n) < Level(b.Set(n, Running), n)
  {}

  /** The predecessors that the calling thread has still to wait for. */
  function Waits(cfg: Config, mains: seq<nat>): nat {
    if mains == [] then 0 else (if mains[0] < |cfg.preds| then |cfg.preds[mains[0]]| else 0) + Waits(cfg, mains[1..])
  }

  function WaitsLeft(cfg: Config, s: State): nat {
    if s.waited <= Waits(cfg, s.mains) then Waits(cfg, s.mains) - s.waited else 0
  }

  /** An upper bound on the steps left outside the systems. */
  function Rank(cfg: Config, s: State): nat
    requires |cfg.preds| == |cfg.handed|
  {
    Missing(s.board, AllNodes(cfg, |cfg.preds|)) + WaitsLeft(cfg, s) + if s.finished then 0 else 1
  }

  /** The job or hold that the step advances. */
  function Advanced(s: State, step: PhaseJobs.Step): Node {
    match step
    case Register => if s.todo != [] then s.todo[0] else Deferral
    case Start(n) => n
    case Return(n) => n
    case Pass(n) => n
    case BeginHand(i) => BuilderHold(i)
    case Hand(i) => if i in s.nested && s.nested[i] != [] then s.nested[i][0] else Deferral
    case EndHand(i) => BuilderHold(i)
    case Enter => if s.mains != [] then MainHold(s.mains[0]) else Deferral
    case Leave => if s.mains != [] then MainHold(s.mains[0]) else Deferral
    case _ => Deferral
  }

  lemma BoardAdvances(cfg: Config, s: State, step: PhaseJobs.Step)
    requires Inv(cfg, s) && Enabled(cfg, s, step) && !step.Work? && !step.Await? && !step.Close?
    ensures var b, t, n := s.board, Next(cfg, s, step).board, Advanced(s, step);
      cfg.Known(n) && Rises(b, t) && Level(b, n) < Level(t, n)
  {
    hide Books, Rises, Level, Config.Add, Config.Drop;
    var b, n := s.board, Advanced(s, step);
    match step
    case Register => AddRises(cfg, b, n);
    case EndRegistration => DropRises(cfg, b, n);
    case Start(_) =>
      assert NodeOk(cfg, b, n);
      StartRises(b, n);
    case Return(_) =>
      assert NodeOk(cfg, b, n);
      DropRises(cfg, b, n);
    case Pass(_) =>
      assert NodeOk(cfg, b, n);
      DropRises(cfg, b, n);
    case BeginHand(i) => AddRises(cfg, b, n);
    case Hand(i) =>
      assert NestedAt(cfg, s, i);
      AddRises(cfg, b, n);
    case EndHand(_) =>
      assert NodeOk(cfg, b, n);
      DropRises(cfg, b, n);
    case Enter =>
      assert NodeOk(cfg, b, n);
      StartRises(b, n);
    case Leave =>
      assert NodeOk(cfg, b, n);
      DropRises(cfg, b, n);
  }

  lemma WaitsAdvance(cfg: Config, s: State, step: PhaseJobs.Step)
    requires MainsOk(cfg, s) && Enabled(cfg, s, step)
    ensures WaitsLeft(cfg, Next(cfg, s, step)) <= WaitsLeft(cfg, s)
    ensures step.Await? ==> WaitsLeft(cfg, Next(cfg, s, step)) < WaitsLeft(cfg, s)
  {
    if s.mains != [] {
      assert WaitedOk(cfg, s.board, s.mains[0], s.waited);
    }
  }

  /** Every step but those inside the systems lowers the rank, and those leave it as it is. */
  lemma StepAdvances(cfg: Config, s: State, step: PhaseJobs.Step)
    requires Reachable(cfg, s) && Enabled(cfg, s, step)
    ensures |cfg.preds| == |cfg.handed|
    ensures step.Work? ==> Rank(cfg, Next(cfg, s, step)) == Rank(cfg, s)
    ensures !step.Work? ==> Rank(cfg, Next(cfg, s, step)) < Rank(cfg, s)
  {
    ReachableInv(cfg, s);
    WaitsAdvance(cfg, s, step);
    hide Inv, Level, WaitsLeft, Missing, AllNodes;
    if !step.Work? && !step.Await? && !step.Close? {
      BoardAdvances(cfg, s, step);
      var n := Advanced(s, step);
      Listed(cfg, |cfg.preds|, n);
      MissingFalls(s.board, Next(cfg, s, step).board, AllNodes(cfg, |cfg.preds|), n);
      hide Next, Enabled, Rises;
      FinishedStays(cfg, s, step);
    }
  }

  lemma FinishedStays(cfg: Config, s: State, step: PhaseJobs.Step)
    requires Enabled(cfg, s, step) && !step.Close?
    ensures Next(cfg, s, step).finished == s.finished
  {}

  // --- whole runs -----------------------------------------------------------------------------------

  /** The steps that are not inside a system. */
  function Others(steps: seq<PhaseJobs.Step>): nat {
    if steps == [] then 0 else (if steps[0].Work? then 0 else 1) + Others(steps[1..])
  }

  /** From every reachable state a phase makes only so many steps outside its systems, whatever the
      interleaving; with NoDeadlock, it comes to its end if its systems do. */
  lemma {:induction false} RunsEnd(cfg: Config, s: State, steps: seq<PhaseJobs.Step>, t: State)
    requires Reachable(cfg, s) && Runs(cfg, s, steps, t)
    ensures |cfg.preds| == |cfg.handed| && Others(steps) + Rank(cfg, t) <= Rank(cfg, s)
    decreases |steps|
  {
    hide Rank, Enabled, Next;
    if steps != [] {
      StepAdvances(cfg, s, steps[0]);
      ReachableNext(cfg, s, steps[0]);
      hide Reachable;
      RunsEnd(cfg, Next(cfg, s, steps[0]), steps[1..], t);
    }
  }
}
