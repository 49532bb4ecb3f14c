/** The main thread registers the jobs of a phase in an order in which nothing is missing, and every
    state a phase can reach keeps the invariant. */
module PhasePrograms {
  import opened Orders
  import opened PhaseRuns
  import opened PhaseJobs
  import opened PhaseBoards
  import opened PhaseSafety

  // --- registration order ---------------------------------------------------------------------------

  ghost function Members(list: seq<Node>): set<Node> {
    set n | n in list
  }

  lemma MembersSplit(keys: set<Node>, a: seq<Node>)
    requires a != []
    ensures keys + Members(a) == keys + {a[0]} + Members(a[1..])
  {
    assert a == [a[0]] + a[1..];
    assert Members(a) == {a[0]} + Members(a[1..]);
  }

  lemma {:induction false} OrderlyConcat(cfg: Config, keys: set<Node>, a: seq<Node>, b: seq<Node>, th: Thread)
    requires Orderly(cfg, keys, a, th) && Orderly(cfg, keys + Members(a), b, th)
    ensures Orderly(cfg, keys, a + b, th)
    decreases |a|
  {
    if a == [] {
      assert a + b == b && keys + Members(a) == keys;
    } else {
      MembersSplit(keys, a);
      OrderlyConcat(cfg, keys + {a[0]}, a[1..], b, th);
      assert (a + b)[0] == a[0] && (a + b)[1..] == a[1..] + b;
    }
  }

  lemma {:induction false} HoldsAre(cfg: Config, systems: seq<nat>, n: Node)
    requires forall x :: 0 <= x < |systems| ==> systems[x] < |cfg.main|
    ensures n in cfg.Holds(systems) <==> n.MainHold? && n.system in systems && cfg.main[n.system]
  {
    if systems != [] {
      HoldsAre(cfg, systems[1..], n);
      assert systems == [systems[0]] + systems[1..];
    }
  }

  lemma {:induction false} HoldsOrderly(cfg: Config, keys: set<Node>, x: nat)
    requires cfg.Valid() && x <= |cfg.order|
    requires forall y :: x <= y < |cfg.order| ==> MainHold(cfg.order[y]) !in keys
    ensures Orderly(cfg, keys, cfg.Holds(cfg.order[x..]), MainThread)
    decreases |cfg.order| - x
  {
    if x < |cfg.order| {
      var i := cfg.order[x];
      assert cfg.System(i) && forall y :: x < y < |cfg.order| ==> cfg.order[y] != i;
      hide Config.Valid, Orderly;
      assert cfg.order[x..][1..] == cfg.order[x + 1..];
      if cfg.main[i] {
        HoldsOrderly(cfg, keys + {MainHold(i)}, x + 1);
        HoldOrderly(cfg, keys, i, cfg.Holds(cfg.order[x + 1..]));
      } else {
        HoldsOrderly(cfg, keys, x + 1);
        assert [] + cfg.Holds(cfg.order[x + 1..]) == cfg.Holds(cfg.order[x + 1..]);
      }
    }
  }

  lemma HoldOrderly(cfg: Config, keys: set<Node>, i: nat, rest: seq<Node>)
    requires cfg.System(i) && cfg.main[i] && MainHold(i) !in keys && Orderly(cfg, keys + {MainHold(i)}, rest, MainThread)
    ensures Orderly(cfg, keys, [MainHold(i)] + rest, MainThread)
  {
    assert ([MainHold(i)] + rest)[1..] == rest;
  }

  lemma {:induction false} SplicesAre(cfg: Config, i: nat, k: nat, n: Node)
    requires i < |cfg.preds| && k <= |cfg.preds[i]|
    ensures n in cfg.Splices(i, k) <==> n.Splice? && n.system == i && k <= n.index < |cfg.preds[i]|
    decreases |cfg.preds[i]| - k
  {
    if k < |cfg.preds[i]| {
      SplicesAre(cfg, i, k + 1, n);
    }
  }

  /** All counters a system's jobs wait for are held when the jobs are registered, because the
      systems come in topological order. */
  predicate LaunchedBefore(cfg: Config, keys: set<Node>, x: nat)
    requires cfg.Valid() && x <= |cfg.order|
  {
    && (forall y :: 0 <= y < |cfg.order| && (y < x || cfg.main[cfg.order[y]]) ==> cfg.Launch(cfg.order[y]) in keys)
    && (forall n :: n in keys ==> n.Deferral? || n.MainHold? || n.system in cfg.order[..x])
  }

  lemma PredLaunched(cfg: Config, keys: set<Node>, x: nat, k: nat)
    requires cfg.Valid() && x < |cfg.order| && LaunchedBefore(cfg, keys, x) && k < |cfg.preds[cfg.order[x]]|
    ensures cfg.preds[cfg.order[x]][k] in cfg.order ==> cfg.Launch(cfg.preds[cfg.order[x]][k]) in keys
  {
    var p := cfg.preds[cfg.order[x]][k];
    if p in cfg.order {
      var y :| 0 <= y < x && cfg.order[..x][y] == p;
      assert cfg.order[y] == p;
    }
  }

  lemma {:induction false} SplicesOrderly(cfg: Config, keys: set<Node>, x: nat, k: nat)
    requires cfg.Valid() && x < |cfg.order| && k <= |cfg.preds[cfg.order[x]]| && |cfg.preds[cfg.order[x]]| > 1
    requires !cfg.main[cfg.order[x]]
    requires forall j :: 0 <= j < |cfg.preds[cfg.order[x]]| && cfg.preds[cfg.order[x]][j] in cfg.order ==>
      cfg.Launch(cfg.preds[cfg.order[x]][j]) in keys
    requires forall j :: k <= j < |cfg.preds[cfg.order[x]]| ==> Splice(cfg.order[x], j) !in keys
    ensures Orderly(cfg, keys, cfg.Splices(cfg.order[x], k), MainThread)
    decreases |cfg.preds[cfg.order[x]]| - k
  {
    var i := cfg.order[x];
    if k < |cfg.preds[i]| {
      SplicesOrderly(cfg, keys + {Splice(i, k)}, x, k + 1);
      assert ([Splice(i, k)] + cfg.Splices(i, k + 1))[1..] == cfg.Splices(i, k + 1);
    }
  }

  lemma RunOrderly(cfg: Config, keys: set<Node>, i: nat)
    requires cfg.System(i) && !cfg.main[i] && Node.Run(i) !in keys && Finish(i) !in keys
    requires Based(cfg, keys, Node.Run(i))
    ensures Orderly(cfg, keys, [Node.Run(i), Finish(i)], MainThread)
  {
    assert [Node.Run(i), Finish(i)][1..] == [Finish(i)] && [Finish(i)][1..] == [];
    assert Orderly(cfg, keys + {Node.Run(i)}, [Finish(i)], MainThread);
  }

  lemma JobsOrderly(cfg: Config, keys: set<Node>, x: nat)
    requires cfg.Valid() && x < |cfg.order| && LaunchedBefore(cfg, keys, x)
    ensures Orderly(cfg, keys, cfg.JobsOf(cfg.order[x]), MainThread)
  {
    var i := cfg.order[x];
    assert i !in cfg.order[..x];
    assert cfg.System(i);
    forall k | 0 <= k < |cfg.preds[i]|
      ensures cfg.preds[i][k] in cfg.order ==> cfg.Launch(cfg.preds[i][k]) in keys
    {
      PredLaunched(cfg, keys, x, k);
    }
    if cfg.main[i] {
      assert [Finish(i)][1..] == [];
    } else if |cfg.preds[i]| > 1 {
      SplicesOrderly(cfg, keys, x, 0);
      forall k | 0 <= k < |cfg.preds[i]| ensures Splice(i, k) in Members(cfg.Splices(i, 0)) { SplicesAre(cfg, i, 0, Splice(i, k)); }
      SplicesAre(cfg, i, 0, Node.Run(i));
      SplicesAre(cfg, i, 0, Finish(i));
      RunOrderly(cfg, keys + Members(cfg.Splices(i, 0)), i);
      OrderlyConcat(cfg, keys, cfg.Splices(i, 0), [Node.Run(i), Finish(i)], MainThread);
    } else {
      RunOrderly(cfg, keys, i);
      assert [] + [Node.Run(i), Finish(i)] == [Node.Run(i), Finish(i)];
    }
  }

  lemma JobsAre(cfg: Config, i: nat, n: Node)
    requires i < |cfg.preds| && i < |cfg.main|
    ensures n in cfg.JobsOf(i) ==> !n.Deferral? && !n.MainHold? && n.system == i
    ensures cfg.main[i] || n.Splice? || n.Run? || n.Finish?
         || n !in cfg.JobsOf(i)
    ensures cfg.Known(n) && Belongs(n, MainThread) && !n.Deferral? && !n.MainHold? && n.system == i ==> n in cfg.JobsOf(i)
    ensures !cfg.main[i] ==> Node.Run(i) in cfg.JobsOf(i)
  {
    SplicesAre(cfg, i, 0, n);
    var last := [Node.Run(i), Finish(i)];
    assert last[0] == Node.Run(i) && last[1] == Finish(i);
    if !cfg.main[i] {
      assert cfg.JobsOf(i) == (if |cfg.preds[i]| > 1 then cfg.Splices(i, 0) else []) + last;
    }
  }

  lemma {:induction false} AllJobsOrderly(cfg: Config, keys: set<Node>, x: nat)
    requires cfg.Valid() && x <= |cfg.order| && LaunchedBefore(cfg, keys, x)
    ensures Orderly(cfg, keys, cfg.AllJobs(cfg.order[x..]), MainThread)
    decreases |cfg.order| - x
  {
    if x < |cfg.order| {
      var i := cfg.order[x];
      var jobs := cfg.JobsOf(i);
      assert cfg.order[x..][1..] == cfg.order[x + 1..];
      JobsOrderly(cfg, keys, x);
      assert LaunchedBefore(cfg, keys + Members(jobs), x + 1) by {
        assert cfg.order[..x + 1] == cfg.order[..x] + [i];
        JobsAre(cfg, i, Node.Run(i));
        forall n | n in Members(jobs) ensures n.Deferral? || n.MainHold? || n.system in cfg.order[..x + 1] { JobsAre(cfg, i, n); }
      }
      AllJobsOrderly(cfg, keys + Members(jobs), x + 1);
      OrderlyConcat(cfg, keys, jobs, cfg.AllJobs(cfg.order[x + 1..]), MainThread);
    }
  }

  lemma {:induction false} AllJobsAre(cfg: Config, systems: seq<nat>, n: Node)
    requires forall x :: 0 <= x < |systems| ==> systems[x] < |cfg.main| && systems[x] < |cfg.preds|
    requires cfg.Known(n) && Belongs(n, MainThread) && !n.Deferral? && !n.MainHold? && n.system in systems
    ensures n in cfg.AllJobs(systems)
  {
    JobsAre(cfg, systems[0], n);
    if n.system != systems[0] {
      assert systems == [systems[0]] + systems[1..];
      AllJobsAre(cfg, systems[1..], n);
    }
  }

  lemma ProgramOrderly(cfg: Config)
    requires cfg.Valid()
    ensures Orderly(cfg, {}, cfg.Program(), MainThread)
  {
    var holds, jobs := cfg.Holds(cfg.order), cfg.AllJobs(cfg.order);
    assert cfg.order[0..] == cfg.order;
    HoldsOrderly(cfg, {Deferral}, 0);
    AfterHolds(cfg);
    AllJobsOrderly(cfg, {Deferral} + Members(holds), 0);
    OrderlyConcat(cfg, {Deferral}, holds, jobs, MainThread);
    assert cfg.Program()[1..] == holds + jobs;
    assert {} + {Deferral} == {Deferral};
  }

  lemma AfterHolds(cfg: Config)
    requires cfg.Valid()
    ensures LaunchedBefore(cfg, {Deferral} + Members(cfg.Holds(cfg.order)), 0)
  {
    forall n ensures n in cfg.Holds(cfg.order) <==> n.MainHold? && n.system in cfg.order && cfg.main[n.system] {
      HoldsAre(cfg, cfg.order, n);
    }
  }

  lemma ProgramAccounts(cfg: Config)
    requires cfg.Valid()
    ensures Accounted(cfg, {}, cfg.Program(), MainThread)
  {
    forall n: Node | cfg.Known(n) && Belongs(n, MainThread) ensures n in cfg.Program() {
      HoldsAre(cfg, cfg.order, n);
      if !n.Deferral? && !n.MainHold? { AllJobsAre(cfg, cfg.order, n); }
    }
  }

  ghost predicate Ascending(order: seq<nat>, m: seq<nat>) {
    forall a, b :: 0 <= a < b < |m| ==> m[a] != m[b] && Precedes(order, m[a], m[b])
  }

  lemma AscendingCons(order: seq<nat>, x: nat, tail: seq<nat>)
    requires x < |order| && Ascending(order, tail) && forall a :: 0 <= a < |tail| ==> tail[a] in order[x + 1..]
    requires forall y :: x < y < |order| ==> order[x] != order[y]
    ensures Ascending(order, [order[x]] + tail)
  {
    var m := [order[x]] + tail;
    forall a, b | 0 <= a < b < |m| ensures m[a] != m[b] && Precedes(order, m[a], m[b]) {
      if a > 0 {
        assert Precedes(order, tail[a - 1], tail[b - 1]);
      } else {
        assert tail[b - 1] in order[x + 1..];
        var y :| 0 <= y < |order[x + 1..]| && order[x + 1..][y] == m[b];
        assert order[x + 1 + y] == m[b] && m[a] == order[x];
      }
    }
  }

  lemma {:induction false} MainsAre(cfg: Config, x: nat)
    requires cfg.Valid() && x <= |cfg.order|
    ensures forall i :: i in cfg.Mains(cfg.order[x..]) <==> i in cfg.order[x..] && cfg.main[i]
    ensures Ascending(cfg.order, cfg.Mains(cfg.order[x..]))
    decreases |cfg.order| - x
  {
    if x < |cfg.order| {
      var i, rest := cfg.order[x], cfg.order[x + 1..];
      MainsAre(cfg, x + 1);
      assert cfg.order[x..] == [i] + rest;
      AscendingCons(cfg.order, x, cfg.Mains(rest));
      assert cfg.Mains(cfg.order[x..]) == (if cfg.main[i] then [i] else []) + cfg.Mains(rest);
      assert [] + cfg.Mains(rest) == cfg.Mains(rest);
    }
  }

  lemma InitialBoard(cfg: Config, b: Board)
    requires b == Board(map[], map[])
    ensures BoardOk(cfg, b)
  {
    forall c: Counter ensures b.Value(c) == |b.Pending(c)| {
      assert b.Pending(c) == {};
    }
  }

  lemma InitialMains(cfg: Config)
    requires cfg.Valid()
    ensures MainsOk(cfg, Initial(cfg))
  {
    MainsAre(cfg, 0);
    assert cfg.order[0..] == cfg.order;
    var s := Initial(cfg);
    forall x | 0 <= x < |s.mains| ensures cfg.System(s.mains[x]) && cfg.main[s.mains[x]] {
      assert s.mains[x] in s.mains;
    }
    assert Ascending(cfg.order, s.mains);
  }

  lemma InitialTodo(cfg: Config)
    requires cfg.Valid()
    ensures TodoOk(cfg, Initial(cfg))
  {
    assert Initial(cfg).board.stage.Keys == {};
    ProgramOrderly(cfg);
    ProgramAccounts(cfg);
  }

  lemma InitialInv(cfg: Config)
    requires cfg.Valid()
    ensures Inv(cfg, Initial(cfg))
  {
    InitialBoard(cfg, Initial(cfg).board);
    InitialTodo(cfg);
    InitialMains(cfg);
  }

  lemma {:induction false} RunsKeep(cfg: Config, s: State, steps: seq<Step>, t: State)
    requires cfg.Valid() && Inv(cfg, s) && Runs(cfg, s, steps, t)
    ensures Inv(cfg, t)
    decreases |steps|
  {
    if steps != [] {
      StepKeeps(cfg, s, steps[0]);
      RunsKeep(cfg, Next(cfg, s, steps[0]), steps[1..], t);
    }
  }

  lemma ReachableInv(cfg: Config, s: State)
    requires Reachable(cfg, s)
    ensures Inv(cfg, s)
  {
    var steps :| Runs(cfg, Initial(cfg), steps, s);
    InitialInv(cfg);
    RunsKeep(cfg, Initial(cfg), steps, s);
  }
}
