/** RunPhase: how the graph of a built phase becomes jobs and counters, as a state machine over the
    steps of the calling thread and the workers. Bringing a counter to zero and collecting its
    waiters is one step here. */
module PhaseJobs {
  import opened Results
  import opened PhaseRuns

  /** What a counter can be held up by: the jobs, and the three kinds of plain increments. */
  datatype Node =
    | Deferral                            // held while the main thread registers
    | MainHold(system: nat)               // held until the main thread has run the system
    | Splice(system: nat, index: nat)     // empty job: one of several predecessors is done
    | Run(system: nat)                    // the system's function
    | Finish(system: nat)                 // empty job: the system is done
    | BuilderHold(system: nat)            // held while the system hands out its chunks
    | Chunk(system: nat, index: nat)      // one chunk task
    | Tail(system: nat)                   // empty job: all chunk tasks are done
    | Merge(system: nat)                  // empty job: the parallel step is done

  datatype Counter = Done(system: nat) | Join(system: nat) | Chunks(system: nat) | Parts(system: nat) | PhaseDone

  datatype Stage = Waiting | Ready | Running | Complete

  function Target(n: Node): Counter {
    match n
    case Deferral => PhaseDone
    case MainHold(i) => Done(i)
    case Splice(i, _) => Join(i)
    case Run(i) => Done(i)
    case Finish(i) => PhaseDone
    case BuilderHold(i) => Done(i)
    case Chunk(i, _) => Chunks(i)
    case Tail(i) => Parts(i)
    case Merge(i) => Done(i)
  }

  /** The registered jobs and holds, and the counter values. */
  datatype Board = Board(stage: map<Node, Stage>, value: map<Counter, nat>)
  {
    function Value(c: Counter): nat {
      if c in value then value[c] else 0
    }

    predicate Is(n: Node, x: Stage) {
      n in stage && stage[n] == x
    }

    /** What still holds counter c up. */
    ghost function Pending(c: Counter): set<Node> {
      set n | n in stage && stage[n] != Complete && Target(n) == c
    }

    function Raise(n: Node): Board {
      Board(stage[n := Waiting], value[Target(n) := Value(Target(n)) + 1])
    }

    function Set(n: Node, x: Stage): Board {
      this.(stage := stage[n := x])
    }

    function Drop(n: Node): Board
      requires Value(Target(n)) > 0
    {
      Board(stage[n := Complete], value[Target(n) := Value(Target(n)) - 1])
    }
  }

  /** The phase as Build left it; `handed[s]` are the chunks system s hands out as tasks. */
  datatype Config = Config(order: seq<nat>, preds: seq<seq<nat>>, main: seq<bool>, handed: seq<seq<nat>>, plan: seq<Unit>)
  {
    /** Predecessors come earlier in the order; one that is not included has no counter, so only a
        job can have it: the main thread would wait on an invalid handle. */
    predicate Valid() {
      && |preds| == |main| == |handed|
      && (forall x :: 0 <= x < |order| ==> order[x] < |preds|)
      && (forall x, y :: 0 <= x < y < |order| ==> order[x] != order[y])
      && (forall x, k :: 0 <= x < |order| && 0 <= k < |preds[order[x]]| && preds[order[x]][k] in order ==>
            preds[order[x]][k] in order[..x])
      && (forall x, k :: 0 <= x < |order| && main[order[x]] && 0 <= k < |preds[order[x]]| ==> preds[order[x]][k] in order)
      && plan == PlanOf(order, handed)
    }

    predicate System(i: nat) {
      i < |preds| && i < |main| && i < |handed| && i in order
    }

    predicate Known(n: Node) {
      n.Deferral? ||
      (System(n.system) && match n
        case MainHold(i) => main[i]
        case Splice(i, k) => !main[i] && k < |preds[i]| && |preds[i]| > 1
        case Run(i) => !main[i]
        case Finish(i) => true
        case Chunk(i, k) => k < |handed[i]|
        case _ => handed[n.system] != [])
    }

    function Launch(i: nat): Node
    {
      if i < |main| && main[i] then MainHold(i) else Run(i)
    }

    function DoneOf(p: nat): Option<Counter> {
      if p in order then Some(Done(p)) else None
    }

    function WaitsFor(n: Node): Option<Counter>
      requires Known(n)
    {
      match n
      case Splice(i, k) => DoneOf(preds[i][k])
      case Run(i) => if preds[i] == [] then None else if |preds[i]| == 1 then DoneOf(preds[i][0]) else Some(Join(i))
      case Finish(i) => Some(Done(i))
      case Tail(i) => Some(Chunks(i))
      case Merge(i) => Some(Parts(i))
      case _ => None
    }

    // --- board operations -----------------------------------------------------------------------

    /** RunJob and IncrementCounter: the value is raised, then the wait counter decides. */
    function Add(b: Board, n: Node): Board
      requires Known(n)
    {
      var r, w := b.Raise(n), WaitsFor(n);
      if w.None? || r.Value(w.value) == 0 then r.Set(n, Ready) else r
    }

    predicate WaitsOn(n: Node, c: Counter) {
      Known(n) && WaitsFor(n) == Some(c)
    }

    function Flush(b: Board, c: Counter): Board {
      b.(stage := map n | n in b.stage :: if b.stage[n] == Waiting && WaitsOn(n, c) then Ready else b.stage[n])
    }

    /** Complete and DecrementCounter. */
    function Drop(b: Board, n: Node): Board
      requires b.Value(Target(n)) > 0
    {
      var d := b.Drop(n);
      if d.Value(Target(n)) == 0 then Flush(d, Target(n)) else d
    }

    // --- what the main thread and a system's thread register -------------------------------------

    function Holds(systems: seq<nat>): seq<Node>
      requires forall x :: 0 <= x < |systems| ==> systems[x] < |main|
    {
      if systems == [] then []
      else (if main[systems[0]] then [MainHold(systems[0])] else []) + Holds(systems[1..])
    }

    function Splices(i: nat, k: nat): seq<Node>
      requires i < |preds| && k <= |preds[i]|
      decreases |preds[i]| - k
    {
      if k == |preds[i]| then [] else [Splice(i, k)] + Splices(i, k + 1)
    }

    function JobsOf(i: nat): seq<Node>
      requires i < |preds| && i < |main|
    {
      if main[i] then [Finish(i)]
      else (if |preds[i]| > 1 then Splices(i, 0) else []) + [Run(i), Finish(i)]
    }

    function AllJobs(systems: seq<nat>): seq<Node>
      requires forall x :: 0 <= x < |systems| ==> systems[x] < |main| && systems[x] < |preds|
    {
      if systems == [] then [] else JobsOf(systems[0]) + AllJobs(systems[1..])
    }

    function Program(): seq<Node>
      requires Valid()
    {
      [Deferral] + (Holds(order) + AllJobs(order))
    }

    function ChunkJobs(i: nat, k: nat): seq<Node>
      requires i < |handed| && k <= |handed[i]|
      decreases |handed[i]| - k
    {
      if k == |handed[i]| then [Tail(i), Merge(i)] else [Chunk(i, k)] + ChunkJobs(i, k + 1)
    }

    function Mains(systems: seq<nat>): seq<nat>
      requires forall x :: 0 <= x < |systems| ==> systems[x] < |main|
    {
      if systems == [] then []
      else (if main[systems[0]] then [systems[0]] else []) + Mains(systems[1..])
    }
  }

  datatype State = State(
    board: Board,
    todo: seq<Node>,               // what the main thread has yet to register
    nested: map<nat, seq<Node>>,   // what a system inside ParallelForEachChunk has yet to register
    mains: seq<nat>,               // main-thread systems yet to run
    waited: nat,                   // predecessors the main thread has waited for
    finished: bool,
    events: seq<nat>)              // the units that made a step, in order

  datatype Step =
    | Register | EndRegistration
    | Start(n: Node) | Return(n: Node) | Pass(n: Node)
    | BeginHand(i: nat) | Hand(i: nat) | EndHand(i: nat)
    | Await | Enter | Leave | Close
    | Work(u: nat)

  predicate Active(cfg: Config, b: Board, i: nat) {
    cfg.System(i) && b.Is(cfg.Launch(i), Running)
  }

  /** The system has handed out all it hands out. */
  predicate HandedOut(cfg: Config, b: Board, i: nat) {
    cfg.System(i) && (cfg.handed[i] == [] || b.Is(BuilderHold(i), Complete))
  }

  predicate AtWork(cfg: Config, b: Board, unit: Unit) {
    match unit
    case Body(i) => Active(cfg, b, i) && BuilderHold(i) !in b.stage
    case Task(i, k) => b.Is(Chunk(i, k), Running)
    case Rest(i) => Active(cfg, b, i) && b.Is(BuilderHold(i), Complete)
  }

  predicate MainReady(cfg: Config, s: State) {
    && s.todo == [] && s.board.Is(Deferral, Complete) && s.mains != [] && cfg.System(s.mains[0])
    && s.board.Is(MainHold(s.mains[0]), Ready)
  }

  predicate CanDrop(b: Board, n: Node, x: Stage) {
    b.Is(n, x) && b.Value(Target(n)) > 0
  }

  predicate Enabled(cfg: Config, s: State, step: Step) {
    var b := s.board;
    match step
    case Register => s.todo != [] && cfg.Known(s.todo[0])
    case EndRegistration => s.todo == [] && CanDrop(b, Deferral, Ready)
    case Start(n) => (n.Run? || n.Chunk?) && b.Is(n, Ready)
    case Return(n) => CanDrop(b, n, Running) && (n.Chunk? || (n.Run? && HandedOut(cfg, b, n.system)))
    case Pass(n) => CanDrop(b, n, Ready) && (n.Splice? || n.Finish? || n.Tail? || n.Merge?)
    case BeginHand(i) => Active(cfg, b, i) && cfg.handed[i] != [] && BuilderHold(i) !in b.stage
    case Hand(i) => i in s.nested && s.nested[i] != [] && cfg.Known(s.nested[i][0])
    case EndHand(i) => i in s.nested && s.nested[i] == [] && CanDrop(b, BuilderHold(i), Ready)
    case Await =>
      && MainReady(cfg, s) && s.waited < |cfg.preds[s.mains[0]]|
      && b.Value(Done(cfg.preds[s.mains[0]][s.waited])) == 0
    case Enter => MainReady(cfg, s) && s.waited >= |cfg.preds[s.mains[0]]|
    case Leave => s.mains != [] && CanDrop(b, MainHold(s.mains[0]), Running) && HandedOut(cfg, b, s.mains[0])
    case Close => !s.finished && s.todo == [] && b.Is(Deferral, Complete) && s.mains == [] && b.Value(PhaseDone) == 0
    case Work(u) => u < |cfg.plan| && AtWork(cfg, b, cfg.plan[u])
  }

  function Next(cfg: Config, s: State, step: Step): State
    requires Enabled(cfg, s, step)
  {
    var b := s.board;
    match step
    case Register => s.(board := cfg.Add(b, s.todo[0]), todo := s.todo[1..])
    case EndRegistration => s.(board := cfg.Drop(b, Deferral))
    case Start(n) => s.(board := b.Set(n, Running))
    case Return(n) => s.(board := cfg.Drop(b, n))
    case Pass(n) => s.(board := cfg.Drop(b, n))
    case BeginHand(i) => s.(board := cfg.Add(b, BuilderHold(i)), nested := s.nested[i := cfg.ChunkJobs(i, 0)])
    case Hand(i) => s.(board := cfg.Add(b, s.nested[i][0]), nested := s.nested[i := s.nested[i][1..]])
    case EndHand(i) => s.(board := cfg.Drop(b, BuilderHold(i)), nested := s.nested - {i})
    case Await => s.(waited := s.waited + 1)
    case Enter => s.(board := b.Set(MainHold(s.mains[0]), Running))
    case Leave => s.(board := cfg.Drop(b, MainHold(s.mains[0])), mains := s.mains[1..], waited := 0)
    case Close => s.(finished := true)
    case Work(u) => s.(events := s.events + [u])
  }

  function Initial(cfg: Config): State
    requires cfg.Valid()
  {
    State(Board(map[], map[]), cfg.Program(), map[], cfg.Mains(cfg.order), 0, false, [])
  }

  ghost predicate Runs(cfg: Config, s: State, steps: seq<Step>, t: State)
    decreases |steps|
  {
    if steps == [] then s == t
    else Enabled(cfg, s, steps[0]) && Runs(cfg, Next(cfg, s, steps[0]), steps[1..], t)
  }

  ghost predicate Reachable(cfg: Config, s: State) {
    cfg.Valid() && exists steps :: Runs(cfg, Initial(cfg), steps, s)
  }
}
