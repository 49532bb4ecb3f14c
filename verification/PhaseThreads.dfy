/** Which thread runs which system of a phase, in the terms of what the systems declare. */
module PhaseThreads {
  import opened Graphs
  import opened Orders
  import opened PhaseRuns
  import opened PhaseJobs
  import opened PhaseBoards
  import opened PhaseSafety
  import opened PhasePrograms
  import opened PhaseTheorems

  predicate Entered(b: Board, n: Node) {
    n in b.stage && (b.stage[n] == Running || b.stage[n] == Complete)
  }

  /** A main-thread system is never a job of the workers; any other system is never among those the calling
      thread runs, and nothing is held for it. */
  lemma RightThread(g: Graph, phase: Phase, ph: nat, order: seq<nat>, s: State, i: nat)
    requires g.WellFormed() && PhaseOf(g, phase, ph, order) && MainPredsIncluded(g, phase, order)
    requires Reachable(ConfigOf(g, phase, order), s) && i in order && i < |phase.descs|
    ensures phase.descs[i].mainThread ==> Run(i) !in s.board.stage && Run(i) !in s.todo
    ensures phase.descs[i].mainThread ==> (i in s.mains <==> !s.board.Is(MainHold(i), Complete))
    ensures !phase.descs[i].mainThread ==> MainHold(i) !in s.board.stage && MainHold(i) !in s.todo && i !in s.mains
  {
    var cfg := ConfigOf(g, phase, order);
    ConfigValid(g, phase, ph, order);
    ReachableInv(cfg, s);
    if Run(i) in s.board.stage { assert NodeOk(cfg, s.board, Run(i)); }
    if MainHold(i) in s.board.stage { assert NodeOk(cfg, s.board, MainHold(i)); }
    TodoKnown(cfg, s.board.stage.Keys, s.todo);
    assert cfg.System(i);
  }

  lemma {:induction false} TodoKnown(cfg: Config, keys: set<Node>, todo: seq<Node>)
    requires Orderly(cfg, keys, todo, MainThread)
    ensures forall n :: n in todo ==> cfg.Known(n)
    decreases |todo|
  {
    if todo != [] {
      TodoKnown(cfg, keys + {todo[0]}, todo[1..]);
    }
  }

  /** The calling thread enters its systems itself, one after another in the order of the phase; the workers
      start all others. */
  lemma EnteredByItsThread(g: Graph, phase: Phase, ph: nat, order: seq<nat>, s: State, step: PhaseJobs.Step, i: nat)
    requires g.WellFormed() && PhaseOf(g, phase, ph, order) && MainPredsIncluded(g, phase, order)
    requires Reachable(ConfigOf(g, phase, order), s) && Enabled(ConfigOf(g, phase, order), s, step) && i in order && i < |phase.descs|
    ensures var b, t := s.board, Next(ConfigOf(g, phase, order), s, step).board;
      && (phase.descs[i].mainThread ==> !Entered(t, Run(i)))
      && (phase.descs[i].mainThread && Entered(t, MainHold(i)) && !Entered(b, MainHold(i)) ==>
            && step == Enter && s.mains != [] && s.mains[0] == i
            && forall j: nat :: j < |phase.descs| && phase.descs[j].mainThread && Precedes(order, j, i) ==> b.Is(MainHold(j), Complete))
      && (!phase.descs[i].mainThread ==> !Entered(t, MainHold(i)))
      && (!phase.descs[i].mainThread && Entered(t, Run(i)) && !Entered(b, Run(i)) ==> step == Start(Run(i)))
  {
    var cfg := ConfigOf(g, phase, order);
    RightThread(g, phase, ph, order, s, i);
    ReachableNext(cfg, s, step);
    RightThread(g, phase, ph, order, Next(cfg, s, step), i);
    var n := if phase.descs[i].mainThread then MainHold(i) else Run(i);
    if Entered(Next(cfg, s, step).board, n) && !Entered(s.board, n) {
      NewlyEntered(cfg, s, step, n);
    }
    hide Next, Enabled, Reachable, Config.Valid;
    if step == Enter && s.mains != [] && s.mains[0] == i {
      forall j: nat | j < |phase.descs| && phase.descs[j].mainThread && Precedes(order, j, i) ensures s.board.Is(MainHold(j), Complete) {
        EarlierDone(g, phase, ph, order, s, j);
      }
    }
  }

  lemma ReachableNext(cfg: Config, s: State, step: PhaseJobs.Step)
    requires Reachable(cfg, s) && Enabled(cfg, s, step)
    ensures Reachable(cfg, Next(cfg, s, step))
  {
    var steps :| Runs(cfg, Initial(cfg), steps, s);
    RunsExtend(cfg, Initial(cfg), steps, s, step);
  }

  lemma {:induction false} RunsExtend(cfg: Config, s: State, steps: seq<PhaseJobs.Step>, t: State, step: PhaseJobs.Step)
    requires Runs(cfg, s, steps, t) && Enabled(cfg, t, step)
    ensures Runs(cfg, s, steps + [step], Next(cfg, t, step))
    decreases |steps|
  {
    if steps == [] {
      assert Runs(cfg, Next(cfg, s, step), [], Next(cfg, t, step));
    } else {
      RunsExtend(cfg, Next(cfg, s, steps[0]), steps[1..], t, step);
      assert (steps + [step])[1..] == steps[1..] + [step];
    }
  }

  /** Only being started, or entered by the calling thread, begins a system. */
  lemma NewlyEntered(cfg: Config, s: State, step: PhaseJobs.Step, n: Node)
    requires Enabled(cfg, s, step) && (n.Run? || n.MainHold?)
    requires Entered(Next(cfg, s, step).board, n) && !Entered(s.board, n)
    ensures n.Run? ==> step == Start(n)
    ensures n.MainHold? ==> step == Enter && s.mains != [] && s.mains[0] == n.system
  {}

  /** The calling thread's systems before the next one are done. */
  lemma EarlierDone(g: Graph, phase: Phase, ph: nat, order: seq<nat>, s: State, j: nat)
    requires g.WellFormed() && PhaseOf(g, phase, ph, order) && MainPredsIncluded(g, phase, order)
    requires Reachable(ConfigOf(g, phase, order), s) && s.mains != [] && j < |phase.descs| && phase.descs[j].mainThread
    requires Precedes(order, j, s.mains[0])
    ensures s.board.Is(MainHold(j), Complete)
  {
    var cfg := ConfigOf(g, phase, order);
    RightThread(g, phase, ph, order, s, j);
    ReachableInv(cfg, s);
    var i := s.mains[0];
    if j in s.mains {
      var x :| 0 <= x < |s.mains| && s.mains[x] == j;
      MainsPrecede(cfg, s, x);
      NotBoth(order, i, j);
    }
  }

  lemma MainsPrecede(cfg: Config, s: State, x: nat)
    requires MainsOk(cfg, s) && x < |s.mains|
    ensures x > 0 ==> Precedes(cfg.order, s.mains[0], s.mains[x])
  {}

  lemma NotBoth(order: seq<nat>, i: nat, j: nat)
    requires forall x, y :: 0 <= x < y < |order| ==> order[x] != order[y]
    ensures !(Precedes(order, i, j) && Precedes(order, j, i)) && !Precedes(order, i, i)
  {}
}
