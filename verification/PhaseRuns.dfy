/** The single-thread invariant: whatever the workers did within the edges of a built schedule, a
    phase ends in the store the serial run of the same order produces, its chunk tasks included. */
module PhaseRuns {
  import opened Graphs
  import opened Orders
  import opened Systems
  import opened Automatic
  import opened Schedules
  import opened Traces

  /** A piece of a system's work: its function up to the point where it hands out its chunks, one
      chunk task, and what the function still does afterwards. */
  datatype Unit = Body(system: nat) | Task(system: nat, index: nat) | Rest(system: nat)

  /** The work of one system in serial order; `chunks` are the chunks it may hand out as tasks. Which of
      them it does hand out is for its body to decide, from whatever it reads: it leaves the decision
      where its tasks can read it, and the task of a chunk not handed out does nothing. */
  function UnitsOf(s: nat, chunks: seq<nat>): seq<Unit> {
    if chunks == [] then [Body(s)] else [Body(s)] + seq(|chunks|, k requires 0 <= k => Task(s, k)) + [Rest(s)]
  }

  /** The work of a phase in serial order. A unit is named by its place in this list. */
  function PlanOf(order: seq<nat>, handed: seq<seq<nat>>): seq<Unit>
    requires forall i :: 0 <= i < |order| ==> order[i] < |handed|
  {
    if order == [] then [] else UnitsOf(order[0], handed[order[0]]) + PlanOf(order[1..], handed)
  }

  /** What systems share, and what belongs to one system or one unit alone: local variables, what the body
      decides for its tasks and passes to them, command buffer, outbox and access log. */
  datatype Location =
    | Component(typeIndex: nat, chunk: nat)
    | Resource(index: nat)
    | Local(system: nat)
    | Handout(system: nat)
    | Private(name: nat)

  datatype Phase = Phase(descs: seq<SystemDesc>, handed: seq<seq<nat>>, plan: seq<Unit>)
  {
    predicate Named(u: nat) {
      u < |plan| && plan[u].system < |descs| && plan[u].system < |handed|
    }

    /** A chunk task owns its chunk: of the types its system writes it sees no other. */
    predicate Owns(unit: Unit, chunk: nat)
      requires unit.system < |handed|
    {
      unit.Task? && unit.index < |handed[unit.system]| && chunk == handed[unit.system][unit.index]
    }

    predicate MayRead(u: nat, l: Location) {
      Named(u) && var unit, d := plan[u], descs[plan[u].system]; match l
        case Component(t, c) => t in d.read && (unit.Body? || t !in d.write || Owns(unit, c))
        case Resource(r) => r in d.readResources && (!unit.Task? || r !in d.writeResources)
        case Local(s) => s == unit.system && !unit.Task?
        case Handout(s) => s == unit.system
        case Private(v) => v == u
    }

    predicate MayWrite(u: nat, l: Location) {
      Named(u) && var unit, d := plan[u], descs[plan[u].system]; match l
        case Component(t, c) => t in d.write && (unit.Body? || Owns(unit, c))
        case Resource(r) => r in d.writeResources && !unit.Task?
        case Local(s) => s == unit.system && !unit.Task?
        case Handout(s) => s == unit.system && unit.Body?
        case Private(v) => v == u
    }

    function Declared(): Access<Location> {
      Access((u, l) => MayRead(u, l), (u, l) => MayWrite(u, l))
    }

    /** Units of different systems clash only if the masks Build compares conflict, and for two
        whole systems exactly then. */
    lemma ClashesAreConflicts(u: nat, v: nat)
      requires Named(u) && Named(v) && plan[u].system != plan[v].system
      ensures Declared().Clash(u, v) ==> Conflicts(descs[plan[u].system], descs[plan[v].system])
      ensures plan[u].Body? && plan[v].Body? ==>
        (Declared().Clash(u, v) <==> Conflicts(descs[plan[u].system], descs[plan[v].system]))
    {
      var a := Declared();
      var x, y := descs[plan[u].system], descs[plan[v].system];
      if a.Clash(u, v) {
        var l: Location :| (a.mayWrite(u, l) && a.Touches(v, l)) || (a.mayWrite(v, l) && a.Touches(u, l));
        ConflictMeets(x, y, l);
      }
      if Conflicts(x, y) {
        ConflictLocation(x, y);
        var l: Location :| ConflictAt(x, y, l);
        assert plan[u].Body? && plan[v].Body? ==> (a.mayWrite(u, l) && a.Touches(v, l)) || (a.mayWrite(v, l) && a.Touches(u, l));
      }
    }

    /** A chunk task reads whatever its system reads and does not write, and reads and writes its own chunk. */
    lemma TaskTouches(u: nat)
      requires Named(u) && plan[u].Task? && plan[u].index < |handed[plan[u].system]|
      ensures var d, chunk := descs[plan[u].system], handed[plan[u].system][plan[u].index];
        && (forall t, c :: MayRead(u, Component(t, c)) <==> t in d.read - d.write || (t in d.read && c == chunk))
        && (forall t, c :: MayWrite(u, Component(t, c)) <==> t in d.write && c == chunk)
        && (forall r :: MayRead(u, Resource(r)) <==> r in d.readResources - d.writeResources)
        && MayRead(u, Handout(plan[u].system)) && MayRead(u, Private(u)) && MayWrite(u, Private(u))
    {}

    /** Once the chunks are handed out, the tasks and the rest of the function do not clash. */
    lemma TasksApart(u: nat, v: nat)
      requires Named(u) && Named(v) && plan[u].system == plan[v].system && u != v
      requires plan[u].Task? && (plan[v].Task? || plan[v].Rest?)
      requires forall i, j :: 0 <= i < j < |handed[plan[u].system]| ==> handed[plan[u].system][i] != handed[plan[u].system][j]
      requires plan[v].Task? ==> plan[u].index != plan[v].index
      ensures !Declared().Clash(u, v) && !Declared().Clash(v, u)
    {}
  }

  predicate ConflictAt(a: SystemDesc, b: SystemDesc, l: Location) {
    match l
    case Component(t, _) => (t in a.write && (t in b.write || t in b.read)) || (t in b.write && t in a.read)
    case Resource(r) => (r in a.writeResources && (r in b.writeResources || r in b.readResources))
                        || (r in b.writeResources && r in a.readResources)
    case _ => false
  }

  lemma ConflictMeets(a: SystemDesc, b: SystemDesc, l: Location)
    requires ConflictAt(a, b, l)
    ensures Conflicts(a, b)
  {
    match l
    case Component(t, _) =>
      assert t in a.write * b.write || t in a.write * b.read || t in b.write * a.read;
    case Resource(r) =>
      assert r in a.writeResources * b.writeResources || r in a.writeResources * b.readResources
          || r in b.writeResources * a.readResources;
  }

  lemma ConflictLocation(a: SystemDesc, b: SystemDesc)
    requires Conflicts(a, b)
    ensures exists l :: ConflictAt(a, b, l)
  {
    if t :| t in a.write * b.write { assert ConflictAt(a, b, Component(t, 0)); }
    else if t :| t in a.write * b.read { assert ConflictAt(a, b, Component(t, 0)); }
    else if t :| t in b.write * a.read { assert ConflictAt(a, b, Component(t, 0)); }
    else if r :| r in a.writeResources * b.writeResources { assert ConflictAt(a, b, Resource(r)); }
    else if r :| r in a.writeResources * b.readResources { assert ConflictAt(a, b, Resource(r)); }
    else {
      var r :| r in b.writeResources * a.readResources;
      assert ConflictAt(a, b, Resource(r));
    }
  }

  // --- serial runs --------------------------------------------------------------------------------

  function Repeat(u: nat, n: nat): (r: seq<nat>)
    ensures |r| == n && forall i :: 0 <= i < n ==> r[i] == u
  {
    seq(n, _ => u)
  }

  /** The same steps, one unit after another. */
  ghost function SerialEvents(order: seq<nat>, events: seq<nat>): seq<nat>
  {
    if order == [] then [] else Repeat(order[0], multiset(events)[order[0]]) + SerialEvents(order[1..], events)
  }

  /** A step of a unit that has returned does nothing, and whether it has returned is written in its
      own state. */
  ghost predicate Returns<V(!new)>(step: Step<Location, V>, returned: (nat, map<Location, V>) -> bool)
  {
    && (forall u: nat, s: map<Location, V> :: returned(u, s) ==> step(u, s) == s)
    && (forall u: nat, s: map<Location, V>, t: map<Location, V> {:trigger returned(u, s), returned(u, t)} ::
          Private(u) in s && Private(u) in t && s[Private(u)] == t[Private(u)] ==> returned(u, s) == returned(u, t))
  }

  /** t is what running unit u from s to its return leaves. */
  ghost predicate Completes<V(!new)>(step: Step<Location, V>, returned: (nat, map<Location, V>) -> bool,
                                     u: nat, s: map<Location, V>, t: map<Location, V>)
  {
    returned(u, t) && exists k: nat :: t == Exec(step, Repeat(u, k), s)
  }

  /** RunPhaseSerial: every unit of the order runs to its return before the next one starts. */
  ghost predicate SerialRun<V(!new)>(step: Step<Location, V>, returned: (nat, map<Location, V>) -> bool,
                                     order: seq<nat>, s: map<Location, V>, t: map<Location, V>)
  {
    if order == [] then s == t
    else exists m :: Completes(step, returned, order[0], s, m) && SerialRun(step, returned, order[1..], m, t)
  }

  lemma {:induction false} ReturnedStays<V(!new)>(step: Step<Location, V>, returned: (nat, map<Location, V>) -> bool,
                                                 u: nat, k: nat, s: map<Location, V>)
    requires Returns(step, returned) && returned(u, s)
    ensures Exec(step, Repeat(u, k), s) == s
  {
    if k > 0 {
      ReturnedStays(step, returned, u, k - 1, s);
      assert Repeat(u, k)[1..] == Repeat(u, k - 1);
    }
  }

  lemma CompletesUnique<V(!new)>(step: Step<Location, V>, returned: (nat, map<Location, V>) -> bool,
                                 u: nat, s: map<Location, V>, t1: map<Location, V>, t2: map<Location, V>)
    requires Returns(step, returned) && Completes(step, returned, u, s, t1) && Completes(step, returned, u, s, t2)
    ensures t1 == t2
  {
    var k1: nat :| t1 == Exec(step, Repeat(u, k1), s);
    var k2: nat :| t2 == Exec(step, Repeat(u, k2), s);
    if k1 <= k2 {
      assert Repeat(u, k2) == Repeat(u, k1) + Repeat(u, k2 - k1);
      ExecAppend(step, Repeat(u, k1), Repeat(u, k2 - k1), s);
      ReturnedStays(step, returned, u, k2 - k1, t1);
    } else {
      assert Repeat(u, k1) == Repeat(u, k2) + Repeat(u, k1 - k2);
      ExecAppend(step, Repeat(u, k2), Repeat(u, k1 - k2), s);
      ReturnedStays(step, returned, u, k1 - k2, t2);
    }
  }

  /** There is only one serial result. */
  lemma {:induction false} SerialRunUnique<V(!new)>(step: Step<Location, V>, returned: (nat, map<Location, V>) -> bool,
      order: seq<nat>, s: map<Location, V>, t1: map<Location, V>, t2: map<Location, V>)
    requires Returns(step, returned) && SerialRun(step, returned, order, s, t1) && SerialRun(step, returned, order, s, t2)
    ensures t1 == t2
  {
    if order != [] {
      var m1 :| Completes(step, returned, order[0], s, m1) && SerialRun(step, returned, order[1..], m1, t1);
      var m2 :| Completes(step, returned, order[0], s, m2) && SerialRun(step, returned, order[1..], m2, t2);
      CompletesUnique(step, returned, order[0], s, m1, m2);
      SerialRunUnique(step, returned, order[1..], m1, t1, t2);
    }
  }

  lemma {:induction false} PrivateKept<V(!new)>(phase: Phase, step: Step<Location, V>, u: nat,
                                               events: seq<nat>, s: map<Location, V>)
    requires Respects(phase.Declared(), step) && u !in events && Private(u) in s
    ensures Private(u) in Exec(step, events, s) && Exec(step, events, s)[Private(u)] == s[Private(u)]
  {
    if events != [] {
      assert !phase.Declared().mayWrite(events[0], Private(u));
      PrivateKept(phase, step, u, events[1..], step(events[0], s));
    }
  }

  lemma {:induction false} ExecKeys<V(!new)>(phase: Phase, step: Step<Location, V>, events: seq<nat>, s: map<Location, V>)
    requires Respects(phase.Declared(), step)
    ensures Exec(step, events, s).Keys == s.Keys
  {
    if events != [] {
      ExecKeys(phase, step, events[1..], step(events[0], s));
    }
  }

  lemma {:induction false} SerialEventsFrom(order: seq<nat>, events: seq<nat>, u: nat)
    ensures u in SerialEvents(order, events) ==> u in order
  {
    if order != [] {
      SerialEventsFrom(order[1..], events, u);
    }
  }

  /** If every unit has returned at the end, each block of the serial events is a complete run. */
  lemma {:induction false} BlocksComplete<V(!new)>(phase: Phase, step: Step<Location, V>,
      returned: (nat, map<Location, V>) -> bool, order: seq<nat>, events: seq<nat>, s: map<Location, V>)
    requires Respects(phase.Declared(), step) && Returns(step, returned)
    requires forall i, j :: 0 <= i < j < |order| ==> order[i] != order[j]
    requires forall u :: u in order ==> Private(u) in s && returned(u, Exec(step, SerialEvents(order, events), s))
    ensures SerialRun(step, returned, order, s, Exec(step, SerialEvents(order, events), s))
  {
    if order != [] {
      var u, rest := order[0], order[1..];
      var block := Repeat(u, multiset(events)[u]);
      var m := Exec(step, block, s);
      ExecAppend(step, block, SerialEvents(rest, events), s);
      ExecKeys(phase, step, block, s);
      SerialEventsFrom(rest, events, u);
      PrivateKept(phase, step, u, SerialEvents(rest, events), m);
      ExecKeys(phase, step, SerialEvents(rest, events), m);
      assert returned(u, m);
      assert Completes(step, returned, u, s, m);
      BlocksComplete(phase, step, returned, rest, events, m);
    }
  }

  // --- interleavings ------------------------------------------------------------------------------

  /** The serial order of the units. */
  function Places(n: nat): seq<nat> {
    seq(n, i => i)
  }

  /** Whatever a system runs comes after all that its predecessors run, and its tasks and remainder come
      after its body. */
  ghost predicate KeepsEdges(g: Graph, plan: seq<Unit>, events: seq<nat>)
    requires g.WellFormed()
  {
    && (forall i :: 0 <= i < |events| ==> events[i] < |plan|)
    && (forall i, j :: 0 <= i < j < |events| ==> !g.Reaches(plan[events[j]].system, plan[events[i]].system))
    && (forall i, j :: 0 <= i < j < |events| && plan[events[i]].system == plan[events[j]].system && plan[events[j]].Body? ==>
          plan[events[i]].Body?)
  }

  /** How a plan is laid out: the systems one after another, each with its body first and its
      remainder last. */
  ghost predicate LaidOut(order: seq<nat>, plan: seq<Unit>) {
    && (forall u :: 0 <= u < |plan| ==> plan[u].system in order)
    && (forall u, v {:trigger plan[u].system, plan[v].system} ::
          0 <= u < v < |plan| && plan[u].system != plan[v].system ==> Precedes(order, plan[u].system, plan[v].system))
    && (forall u, v {:trigger plan[u].system, plan[v].system} :: 0 <= u < v < |plan| && plan[u].system == plan[v].system ==>
          !plan[u].Rest? && !plan[v].Body? && (plan[u].Task? && plan[v].Task? ==> plan[u].index < plan[v].index))
  }

  /** A plan has all the work of the systems and no other. */
  ghost predicate HasAllWork(order: seq<nat>, handed: seq<seq<nat>>, plan: seq<Unit>)
    requires forall i :: 0 <= i < |order| ==> order[i] < |handed|
  {
    && (forall i :: 0 <= i < |order| ==> Body(order[i]) in plan)
    && (forall i, k: nat :: 0 <= i < |order| ==> (k < |handed[order[i]]| <==> Task(order[i], k) in plan))
    && (forall i :: 0 <= i < |order| ==> (handed[order[i]] != [] <==> Rest(order[i]) in plan))
  }

  lemma PrecedesInTail(order: seq<nat>, x: nat, y: nat)
    requires order != []
    ensures Precedes(order[1..], x, y) ==> Precedes(order, x, y)
    ensures x == order[0] && y in order[1..] ==> Precedes(order, x, y)
  {
    var rest := order[1..];
    if Precedes(rest, x, y) {
      var i, j :| 0 <= i < j < |rest| && rest[i] == x && rest[j] == y;
      assert order[i + 1] == x && order[j + 1] == y;
    }
    if x == order[0] && y in rest {
      var j :| 0 <= j < |rest| && rest[j] == y;
      assert order[j + 1] == y;
    }
  }

  lemma UnitsLaidOut(s: nat, chunks: seq<nat>)
    ensures forall u :: 0 <= u < |UnitsOf(s, chunks)| ==> UnitsOf(s, chunks)[u].system == s
    ensures LaidOut([s], UnitsOf(s, chunks))
    ensures Body(s) in UnitsOf(s, chunks) && (Rest(s) in UnitsOf(s, chunks) <==> chunks != [])
    ensures forall k: nat :: Task(s, k) in UnitsOf(s, chunks) <==> k < |chunks|
  {
    var units := UnitsOf(s, chunks);
    assert units[0] == Body(s) && (chunks != [] ==> units[|chunks| + 1] == Rest(s));
    forall k: nat | k < |chunks| ensures Task(s, k) in units {
      assert units[k + 1] == Task(s, k);
    }
  }

  lemma {:induction false} PlanLaidOut(order: seq<nat>, handed: seq<seq<nat>>)
    requires forall i :: 0 <= i < |order| ==> order[i] < |handed|
    requires forall i, j :: 0 <= i < j < |order| ==> order[i] != order[j]
    ensures LaidOut(order, PlanOf(order, handed)) && HasAllWork(order, handed, PlanOf(order, handed))
  {
    if order != [] {
      PlanLaidOut(order[1..], handed);
      UnitsLaidOut(order[0], handed[order[0]]);
      JoinLaidOut(order, UnitsOf(order[0], handed[order[0]]), PlanOf(order[1..], handed));
      JoinComplete(order, handed, UnitsOf(order[0], handed[order[0]]), PlanOf(order[1..], handed));
    }
  }

  lemma JoinComplete(order: seq<nat>, handed: seq<seq<nat>>, head: seq<Unit>, tail: seq<Unit>)
    requires order != [] && order[0] !in order[1..] && forall i :: 0 <= i < |order| ==> order[i] < |handed|
    requires HasAllWork([order[0]], handed, head) && HasAllWork(order[1..], handed, tail)
    requires (forall u :: u in head ==> u.system == order[0]) && forall u :: u in tail ==> u.system in order[1..]
    ensures HasAllWork(order, handed, head + tail)
  {
    forall i | 0 < i < |order| ensures order[i] == order[1..][i - 1] && order[i] != order[0] {}
    assert [order[0]][0] == order[0];
  }

  lemma JoinLaidOut(order: seq<nat>, head: seq<Unit>, tail: seq<Unit>)
    requires order != [] && order[0] !in order[1..]
    requires LaidOut([order[0]], head) && LaidOut(order[1..], tail)
    ensures LaidOut(order, head + tail)
  {
    var s, plan := order[0], head + tail;
    forall u | 0 <= u < |plan| ensures plan[u].system in order && (u < |head| <==> plan[u].system == s) {
      if u >= |head| {
        assert tail[u - |head|].system in order[1..];
      } else {
        assert head[u].system in [s];
      }
    }
    forall u, v {:trigger plan[u].system, plan[v].system} | 0 <= u < v < |plan| && plan[u].system != plan[v].system
      ensures Precedes(order, plan[u].system, plan[v].system)
    {
      PrecedesInTail(order, plan[u].system, plan[v].system);
      assert plan[v] == tail[v - |head|];
      assert u >= |head| ==> plan[u] == tail[u - |head|];
    }
    forall u, v {:trigger plan[u].system, plan[v].system} | 0 <= u < v < |plan| && plan[u].system == plan[v].system
      ensures !plan[u].Rest? && !plan[v].Body? && (plan[u].Task? && plan[v].Task? ==> plan[u].index < plan[v].index)
    {
      if u >= |head| {
        assert plan[u] == tail[u - |head|] && plan[v] == tail[v - |head|];
      } else {
        assert plan[u] == head[u] && plan[v] == head[v];
      }
    }
  }

  lemma {:induction false} SerialMultiset(order: seq<nat>, events: seq<nat>, u: nat)
    requires forall i, j :: 0 <= i < j < |order| ==> order[i] != order[j]
    ensures multiset(SerialEvents(order, events))[u] == if u in order then multiset(events)[u] else 0
  {
    if order != [] {
      SerialMultiset(order[1..], events, u);
      RepeatCount(order[0], multiset(events)[order[0]], u);
    }
  }

  lemma {:induction false} RepeatCount(v: nat, n: nat, u: nat)
    ensures multiset(Repeat(v, n))[u] == if u == v then n else 0
  {
    if n > 0 {
      RepeatCount(v, n - 1, u);
      assert Repeat(v, n) == Repeat(v, n - 1) + [v];
    }
  }

  lemma {:induction false} SerialSorted(order: seq<nat>, events: seq<nat>, rank: nat -> nat)
    requires forall i, j :: 0 <= i < j < |order| ==> rank(order[i]) < rank(order[j])
    ensures Sorted(rank, SerialEvents(order, events))
  {
    if order != [] {
      var tail := SerialEvents(order[1..], events);
      SerialSorted(order[1..], events, rank);
      forall k | 0 <= k < |tail| ensures rank(order[0]) < rank(tail[k]) {
        SerialEventsFrom(order[1..], events, tail[k]);
      }
    }
  }

  ghost predicate PhaseOf(g: Graph, phase: Phase, ph: nat, order: seq<nat>)
    requires g.WellFormed()
  {
    && |phase.descs| == |g.phase| == |phase.handed| && g.Linear(ph, order)
    && phase.plan == PlanOf(order, phase.handed)
    && forall s, i, j :: 0 <= s < |phase.handed| && 0 <= i < j < |phase.handed[s]| ==> phase.handed[s][i] != phase.handed[s][j]
  }

  /** Two pieces of work that ran in the other order than the serial run's do not clash. */
  lemma SwappedApart(g: Graph, phase: Phase, ph: nat, order: seq<nat>, u: nat, v: nat)
    requires g.WellFormed() && PhaseOf(g, phase, ph, order) && AllOrdered(g, g, phase.descs)
    requires v < u < |phase.plan|
    requires !g.Reaches(phase.plan[v].system, phase.plan[u].system)
    requires phase.plan[v].system == phase.plan[u].system && phase.plan[v].Body? ==> phase.plan[u].Body?
    ensures !phase.Declared().Clash(u, v)
  {
    PlanLaidOut(order, phase.handed);
    var x, y := phase.plan[v].system, phase.plan[u].system;
    assert x in order && y in order;
    if x == y {
      phase.TasksApart(v, u);
    } else {
      if Conflicts(phase.descs[y], phase.descs[x]) {
        ConflictForward(g, phase.descs, ph, order, x, y);
      }
      phase.ClashesAreConflicts(u, v);
    }
  }

  /** A conflict between two systems is ordered the way the phase order lists them. */
  lemma ConflictForward(g: Graph, descs: seq<SystemDesc>, ph: nat, order: seq<nat>, x: nat, y: nat)
    requires g.WellFormed() && |descs| == |g.phase| && g.Linear(ph, order) && AllOrdered(g, g, descs)
    requires Precedes(order, x, y) && x != y && Conflicts(descs[y], descs[x])
    ensures g.Reaches(x, y)
  {
    assert x in order && y in order && g.InPhase(ph, x) && g.InPhase(ph, y);
    assert ConflictPair(g, descs, y, x);
    if g.Reaches(y, x) {
      var k: nat :| g.ReachIn(k, y, x);
      LinearOneWay(order, x, y);
      ReachesPrecedes(g, ph, order, k, y, x);
    }
  }

  lemma LinearOneWay(order: seq<nat>, x: nat, y: nat)
    requires Precedes(order, x, y)
    requires forall i, j :: 0 <= i < j < |order| ==> order[i] != order[j]
    ensures !Precedes(order, y, x)
  {}

  lemma SerialIsPermutation(n: nat, events: seq<nat>)
    requires forall i :: 0 <= i < |events| ==> events[i] < n
    ensures multiset(events) == multiset(SerialEvents(Places(n), events))
    ensures Sorted(u => u, SerialEvents(Places(n), events))
    ensures Separates(u => u, SerialEvents(Places(n), events))
  {
    forall u: nat ensures multiset(events)[u] == multiset(SerialEvents(Places(n), events))[u] {
      SerialMultiset(Places(n), events, u);
      if u in multiset(events) {
        assert u in events;
        assert Places(n)[u] == u;
      }
    }
    SerialSorted(Places(n), events, u => u);
  }

  /** Any work within its declarations can be run like that: with a flag in its own state that says it
      has returned, and no step after that. */
  lemma WorkReturns<V(!new)>(phase: Phase, work: Step<Location, V>, done: V -> bool)
    returns (step: Step<Location, V>, returned: (nat, map<Location, V>) -> bool)
    requires Respects(phase.Declared(), work)
    ensures Respects(phase.Declared(), step) && Returns(step, returned)
    ensures forall u: nat, s: map<Location, V> :: returned(u, s) <==> Private(u) in s && done(s[Private(u)])
    ensures forall u: nat, s: map<Location, V> :: step(u, s) == if returned(u, s) then s else work(u, s)
  {
    returned := (u: nat, s: map<Location, V>) => Private(u) in s && done(s[Private(u)]);
    step := (u: nat, s: map<Location, V>) => if Private(u) in s && done(s[Private(u)]) then s else work(u, s);
    var a := phase.Declared();
    forall u: nat, s: map<Location, V>, t: map<Location, V> {:trigger step(u, s), step(u, t)} | AgreeOn(a, u, s, t)
      ensures forall l :: l in s && a.mayWrite(u, l) ==> step(u, s)[l] == step(u, t)[l]
    {
      if phase.Named(u) {
        assert a.Touches(u, Private(u));
      }
    }
  }

  /** The single-thread invariant. The units are arbitrary step functions that respect what their
      systems declare; the events are the steps of a phase in any interleaving in which nothing
      starts before what it waits for has finished. If every unit has returned at the end, the
      store is the one the serial run of the phase produces. */
  lemma SingleThreadInvariant<V(!new)>(g: Graph, phase: Phase, ph: nat, order: seq<nat>,
      step: Step<Location, V>, returned: (nat, map<Location, V>) -> bool, events: seq<nat>,
      s: map<Location, V>, t: map<Location, V>)
    requires g.WellFormed() && PhaseOf(g, phase, ph, order) && AllOrdered(g, g, phase.descs)
    requires Respects(phase.Declared(), step) && Returns(step, returned)
    requires KeepsEdges(g, phase.plan, events)
    requires forall u :: 0 <= u < |phase.plan| ==> Private(u) in s && returned(u, Exec(step, events, s))
    ensures SerialRun(step, returned, Places(|phase.plan|), s, t) <==> t == Exec(step, events, s)
  {
    var n, a := |phase.plan|, phase.Declared();
    forall i, j | 0 <= i < j < |events| && events[j] < events[i] ensures !a.Clash(events[i], events[j]) {
      SwappedApart(g, phase, ph, order, events[i], events[j]);
    }
    assert InOrder(a, u => u, events);
    SerialIsPermutation(n, events);
    Confluence(a, step, u => u, events, SerialEvents(Places(n), events), s);
    BlocksComplete(phase, step, returned, Places(n), events, s);
    if SerialRun(step, returned, Places(n), s, t) {
      SerialRunUnique(step, returned, Places(n), s, t, Exec(step, events, s));
    }
  }
}
