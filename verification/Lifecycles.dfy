/** The object lifecycle over whole runs: replays that change the world and take notes, and hooks. */
module Lifecycles {
  import opened Entities
  import opened ObjectLayers

  /** The layer with two facts of history: who has been destroyed (a destroyed handle never comes
      back to life) and who has been noted as spawned. */
  datatype Life = Life(layer: Layer, ended: set<EntityId>, noted: set<EntityId>)

  function Notes(l: Life, t: Life): seq<SpawnRecord> {
    if |l.layer.spawned| <= |t.layer.spawned| then t.layer.spawned[|l.layer.spawned|..] else []
  }

  predicate Separate(batch: seq<SpawnRecord>) {
    forall i, j :: 0 <= i < j < |batch| ==> batch[i].entity != batch[j].entity
  }

  /** With every entity of the batch, its root, if it has one: ObjectFactories shows that the replay of what
      the factory records leaves such notes. */
  predicate RootsAlong(rootOf: EntityId -> EntityId, batch: set<EntityId>) {
    forall e :: e in batch ==> rootOf(e) in batch || !rootOf(e).IsValid()
  }

  predicate SceneOk(rootOf: EntityId -> EntityId, l: Life) {
    && l.layer.scene.alive !! l.ended && (forall e :: e in l.layer.scene.alive ==> e.IsValid())
    && (forall e :: e in l.layer.scene.infos ==> e in l.layer.scene.alive && l.layer.scene.infos[e].root == rootOf(e))
  }

  /** One replay: any change of the world in which the dead stay dead and only the factory writes
      roots; spawn notes for new entities, each object as a whole; requests without repeats. */
  predicate Replayed(rootOf: EntityId -> EntityId, l: Life, t: Life) {
    && SceneOk(rootOf, t)
    && l.ended <= t.ended && (forall e :: e in l.layer.scene.alive && e !in t.layer.scene.alive ==> e in t.ended)
    && l.layer.spawned <= t.layer.spawned && Separate(Notes(l, t))
    && EntitiesOf(Notes(l, t)) !! l.noted && t.noted == l.noted + EntitiesOf(Notes(l, t))
    && RootsAlong(rootOf, EntitiesOf(Notes(l, t)))
    && l.layer.requests <= t.layer.requests && NoRepeats(t.layer.requests)
    && t.layer.dying == l.layer.dying
  }

  function AfterHook(l: Life, scan: seq<EntityId>, made: seq<seq<nat>>): Life
    requires CanHook(l.layer, scan, made)
  {
    var t := Hook(l.layer, scan, made).0;
    Life(t, l.ended + (l.layer.scene.alive - t.scene.alive), l.noted)
  }

  predicate Inv(rootOf: EntityId -> EntityId, l: Life) {
    && SceneOk(rootOf, l)
    && NoRepeats(l.layer.requests)
    && Separate(l.layer.spawned) && EntitiesOf(l.layer.spawned) <= l.noted && RootsAlong(rootOf, EntitiesOf(l.layer.spawned))
    && (forall e :: e in l.layer.dying ==> e in l.layer.scene.alive || e in l.ended)
  }

  datatype Event = Replay(after: Life) | Sync(scan: seq<EntityId>, made: seq<seq<nat>>)

  /** A run and what each of its hooks sent. */
  ghost predicate Run(rootOf: EntityId -> EntityId, l: Life, events: seq<Event>, t: Life, log: seq<seq<Message>>)
    decreases |events|
  {
    if events == [] then l == t && log == []
    else
      match events[0]
      case Replay(m) => Replayed(rootOf, l, m) && Run(rootOf, m, events[1..], t, log)
      case Sync(scan, made) =>
        && CanHook(l.layer, scan, made) && log != [] && log[0] == Hook(l.layer, scan, made).1
        && Run(rootOf, AfterHook(l, scan, made), events[1..], t, log[1..])
  }

  // --- the invariant --------------------------------------------------------------------------------

  lemma EntitiesJoin(a: seq<SpawnRecord>, b: seq<SpawnRecord>)
    ensures EntitiesOf(a + b) == EntitiesOf(a) + EntitiesOf(b)
  {
    forall i | 0 <= i < |a| ensures a[i].entity in EntitiesOf(a + b) { assert (a + b)[i] == a[i]; }
    forall i | 0 <= i < |b| ensures b[i].entity in EntitiesOf(a + b) { assert (a + b)[|a| + i] == b[i]; }
  }

  /** A layer that starts on a world in order, with no notes, no requests and nobody dying. */
  lemma StartInv(rootOf: EntityId -> EntityId, scene: Scene, ended: set<EntityId>)
    requires scene.alive !! ended && forall e :: e in scene.alive ==> e.IsValid()
    requires forall e :: e in scene.infos ==> e in scene.alive && scene.infos[e].root == rootOf(e)
    ensures Inv(rootOf, Life(Layer(scene, [], [], []), ended, {}))
  {
    assert EntitiesOf([]) == {};
  }

  /** Whatever a replay does to a world, it is one of those the theorems speak of: the dead stay dead, the
      new notes are of entities not noted before, each once and with its root, and no request repeats. */
  lemma AnyReplay(rootOf: EntityId -> EntityId, l: Life, scene: Scene, batch: seq<SpawnRecord>, requests: seq<EntityId>)
    requires Inv(rootOf, l)
    requires forall e :: e in scene.alive ==> e.IsValid() && e !in l.ended
    requires forall e :: e in scene.infos ==> e in scene.alive && scene.infos[e].root == rootOf(e)
    requires forall i, j :: 0 <= i < j < |batch| ==> batch[i].entity != batch[j].entity
    requires forall i :: 0 <= i < |batch| ==>
      batch[i].entity !in l.noted && (rootOf(batch[i].entity) in EntitiesOf(batch) || !rootOf(batch[i].entity).IsValid())
    requires forall i, j :: 0 <= i < j < |l.layer.requests + requests| ==> (l.layer.requests + requests)[i] != (l.layer.requests + requests)[j]
    ensures Replayed(rootOf, l, Life(
      Layer(scene, l.layer.spawned + batch, l.layer.requests + requests, l.layer.dying),
      l.ended + (l.layer.scene.alive - scene.alive), l.noted + EntitiesOf(batch)))
  {
    assert (l.layer.spawned + batch)[|l.layer.spawned|..] == batch;
  }

  lemma ReplayKeeps(rootOf: EntityId -> EntityId, l: Life, t: Life)
    requires Inv(rootOf, l) && Replayed(rootOf, l, t)
    ensures Inv(rootOf, t)
  {
    var notes := Notes(l, t);
    assert t.layer.spawned == l.layer.spawned + notes;
    EntitiesJoin(l.layer.spawned, notes);
    forall i, j | 0 <= i < j < |t.layer.spawned| ensures t.layer.spawned[i].entity != t.layer.spawned[j].entity {
      var n := |l.layer.spawned|;
      if i < n <= j {
        assert l.layer.spawned[i].entity in l.noted;
        assert notes[j - n].entity in EntitiesOf(notes);
      } else if n <= i {
        assert notes[i - n].entity != notes[j - n].entity;
      }
    }
  }

  lemma HookKeeps(rootOf: EntityId -> EntityId, l: Life, scan: seq<EntityId>, made: seq<seq<nat>>)
    requires Inv(rootOf, l) && CanHook(l.layer, scan, made)
    ensures Inv(rootOf, AfterHook(l, scan, made))
  {
    var scene := Buried(l.layer.scene, l.layer.dying);
    KeptAre(scene.alive, EntitiesOf(l.layer.spawned), l.layer.requests);
    LeavingAre(l.layer, scan);
  }

  // --- one hook -------------------------------------------------------------------------------------

  /** The entity or, for a factory-made object, its root is asked to leave and not spawned just now. */
  predicate Asked(l: Layer, e: EntityId) {
    e in l.requests && e in Buried(l.scene, l.dying).alive && e !in EntitiesOf(l.spawned)
  }

  lemma LeavingAre(l: Layer, scan: seq<EntityId>)
    requires Scans(scan, Buried(l.scene, l.dying))
    requires forall e :: e in l.scene.infos ==> e in l.scene.alive
    ensures NoRepeats(LeavingIn(l, scan))
    ensures forall e :: e in LeavingIn(l, scan) <==> Asked(l, e) || (e in Buried(l.scene, l.dying).infos && Asked(l, l.scene.infos[e].root))
    ensures forall e :: e in LeavingIn(l, scan) ==> e in Buried(l.scene, l.dying).alive
  {
    hide NoRepeats;
    var scene := Buried(l.scene, l.dying);
    var roots := LeavingRoots(scene.alive, EntitiesOf(l.spawned), l.requests);
    LeavingRootsAre(scene.alive, EntitiesOf(l.spawned), l.requests);
    WithRootedAre(roots, scene.infos, scan);
  }

  lemma SentAre(l: Layer, scan: seq<EntityId>, made: seq<seq<nat>>, m: Message)
    requires CanHook(l, scan, made) && m in Hook(l, scan, made).1
    ensures m.Spawned? ==> m.target in Buried(l.scene, l.dying).alive && m.target in EntitiesOf(l.spawned)
    ensures m.Despawning? ==> m.target in LeavingIn(l, scan)
  {
    var scene := Buried(l.scene, l.dying).(managed := Adopted(Buried(l.scene, l.dying), l.spawned, made));
    GreetingsAre(scene.alive, l.spawned);
    var hello, bye := Greetings(scene.alive, l.spawned), Farewells(scene.infos, LeavingIn(l, scan));
    if m !in hello {
      assert m in bye;
      var i :| 0 <= i < |bye| && bye[i] == m;
    }
  }

  /** No entity is told of its spawn and of its end by the same hook. */
  lemma NeverBoth(rootOf: EntityId -> EntityId, l: Life, scan: seq<EntityId>, made: seq<seq<nat>>, a: Message, b: Message)
    requires Inv(rootOf, l) && CanHook(l.layer, scan, made)
    requires a in Hook(l.layer, scan, made).1 && b in Hook(l.layer, scan, made).1 && a.Spawned? && b.Despawning?
    ensures a.target != b.target
  {
    SentAre(l.layer, scan, made, a);
    SentAre(l.layer, scan, made, b);
    LeavingAre(l.layer, scan);
    hide Buried;
  }

  /** A leaving root takes every live entity rooted at it, and nothing else: each of them is told, is
      alive when the hook ends, and is set to die. */
  lemma RootTakesAll(rootOf: EntityId -> EntityId, l: Life, scan: seq<EntityId>, made: seq<seq<nat>>, e: EntityId)
    requires Inv(rootOf, l) && CanHook(l.layer, scan, made)
    ensures var t := AfterHook(l, scan, made);
      && (e in t.layer.dying <==> Asked(l.layer, e) || (e in t.layer.scene.infos && Asked(l.layer, rootOf(e))))
      && (e in t.layer.dying ==> e in t.layer.scene.alive)
      && (e in t.layer.dying <==> exists m :: m in Hook(l.layer, scan, made).1 && m.Despawning? && m.target == e)
  {
    LeavingAre(l.layer, scan);
    var sent, t := Hook(l.layer, scan, made).1, AfterHook(l, scan, made);
    var leaving := LeavingIn(l.layer, scan);
    var hello, bye := Greetings(t.layer.scene.alive, l.layer.spawned), Farewells(t.layer.scene.infos, leaving);
    if e in leaving {
      var i :| 0 <= i < |leaving| && leaving[i] == e;
      assert sent[|hello| + i] == bye[i];
      assert bye[i] in sent && bye[i].target == e;
    }
    if m :| m in sent && m.Despawning? && m.target == e {
      SentAre(l.layer, scan, made, m);
    }
  }

  /** Everything set to die by an earlier hook is gone after this one, objects included, and on record
      as ended. */
  lemma DyingAreGone(rootOf: EntityId -> EntityId, l: Life, scan: seq<EntityId>, made: seq<seq<nat>>, e: EntityId)
    requires Inv(rootOf, l) && CanHook(l.layer, scan, made) && e in l.layer.dying
    ensures var t := AfterHook(l, scan, made);
      && e !in t.layer.scene.alive && e in t.ended
      && forall m :: m in t.layer.scene.managed ==> t.layer.scene.managed[m] != e
  {
    var scene := Buried(l.layer.scene, l.layer.dying);
    AdoptedOwners(scene, l.layer.spawned, made);
  }

  /** A request is honoured by this hook, unless its entity was spawned just now: then it waits for
      the next one, which no longer has a reason to wait. */
  lemma RequestHonoured(rootOf: EntityId -> EntityId, l: Life, scan: seq<EntityId>, made: seq<seq<nat>>, e: EntityId)
    requires Inv(rootOf, l) && CanHook(l.layer, scan, made) && e in l.layer.requests && e in l.layer.scene.alive
    ensures var t := AfterHook(l, scan, made);
      if e in l.layer.dying then e !in t.layer.scene.alive
      else if e in EntitiesOf(l.layer.spawned) then e in t.layer.requests && e in t.noted && t.layer.spawned == []
      else e in t.layer.dying
  {
    var scene := Buried(l.layer.scene, l.layer.dying);
    KeptAre(scene.alive, EntitiesOf(l.layer.spawned), l.layer.requests);
    LeavingAre(l.layer, scan);
  }

  // --- whole runs -----------------------------------------------------------------------------------

  /** Whoever is told to leave during a run had not ended and was not dying when it began. */
  lemma {:induction false} FarewellsAreNew(rootOf: EntityId -> EntityId, l: Life, events: seq<Event>, t: Life, log: seq<seq<Message>>, h: nat, m: Message)
    requires Inv(rootOf, l) && Run(rootOf, l, events, t, log) && h < |log| && m in log[h] && m.Despawning?
    ensures m.target !in l.ended && m.target !in l.layer.dying
    decreases |events|
  {
    hide Inv, Hook;
    match events[0]
    case Replay(r) =>
      ReplayKeeps(rootOf, l, r);
      FarewellsAreNew(rootOf, r, events[1..], t, log, h, m);
    case Sync(scan, made) =>
      HookKeeps(rootOf, l, scan, made);
      NewFarewell(rootOf, l, scan, made, m);
      if h > 0 {
        FarewellsAreNew(rootOf, AfterHook(l, scan, made), events[1..], t, log[1..], h - 1, m);
      }
  }

  lemma NewFarewell(rootOf: EntityId -> EntityId, l: Life, scan: seq<EntityId>, made: seq<seq<nat>>, m: Message)
    requires Inv(rootOf, l) && CanHook(l.layer, scan, made)
    ensures m in Hook(l.layer, scan, made).1 && m.Despawning? ==> m.target !in l.ended && m.target !in l.layer.dying && m.target in AfterHook(l, scan, made).layer.dying
    ensures forall e :: e in l.ended || e in l.layer.dying ==> e in AfterHook(l, scan, made).ended
  {
    if m in Hook(l.layer, scan, made).1 && m.Despawning? {
      SentAre(l.layer, scan, made, m);
      LeavingAre(l.layer, scan);
    }
  }

  /** Over a whole run no entity is told of its end twice. */
  lemma {:induction false} DespawningOnce(rootOf: EntityId -> EntityId, l: Life, events: seq<Event>, t: Life, log: seq<seq<Message>>,
                                          g: nat, i: nat, h: nat, j: nat)
    requires Inv(rootOf, l) && Run(rootOf, l, events, t, log)
    requires g < |log| && i < |log[g]| && h < |log| && j < |log[h]| && (g < h || (g == h && i < j))
    requires log[g][i].Despawning? && log[h][j].Despawning?
    ensures log[g][i].target != log[h][j].target
    decreases |events|
  {
    hide Inv, Hook;
    match events[0]
    case Replay(r) =>
      ReplayKeeps(rootOf, l, r);
      DespawningOnce(rootOf, r, events[1..], t, log, g, i, h, j);
    case Sync(scan, made) =>
      HookKeeps(rootOf, l, scan, made);
      var next := AfterHook(l, scan, made);
      if g > 0 {
        DespawningOnce(rootOf, next, events[1..], t, log[1..], g - 1, i, h - 1, j);
      } else if h == 0 {
        OneHookOnce(rootOf, l, scan, made, i, j);
      } else {
        NewFarewell(rootOf, l, scan, made, log[0][i]);
        assert log[h][j] in log[1..][h - 1];
        FarewellsAreNew(rootOf, next, events[1..], t, log[1..], h - 1, log[h][j]);
      }
  }

  lemma OneHookOnce(rootOf: EntityId -> EntityId, l: Life, scan: seq<EntityId>, made: seq<seq<nat>>, i: nat, j: nat)
    requires Inv(rootOf, l) && CanHook(l.layer, scan, made) && i < j < |Hook(l.layer, scan, made).1|
    requires Hook(l.layer, scan, made).1[i].Despawning? && Hook(l.layer, scan, made).1[j].Despawning?
    ensures Hook(l.layer, scan, made).1[i].target != Hook(l.layer, scan, made).1[j].target
  {
    LeavingAre(l.layer, scan);
    var sent, t := Hook(l.layer, scan, made).1, AfterHook(l, scan, made);
    var leaving := LeavingIn(l.layer, scan);
    var hello, bye := Greetings(t.layer.scene.alive, l.layer.spawned), Farewells(t.layer.scene.infos, leaving);
    GreetingsAre(t.layer.scene.alive, l.layer.spawned);
    forall k | 0 <= k < |hello| ensures sent[k].Spawned? {
      assert sent[k] == hello[k] && hello[k] in hello;
    }
    assert sent[i] == bye[i - |hello|] && sent[j] == bye[j - |hello|];
  }

  /** Whoever is told of its spawn during a run is in the waiting batch or yet to be noted. */
  lemma {:induction false} GreetingsAreNew(rootOf: EntityId -> EntityId, l: Life, events: seq<Event>, t: Life, log: seq<seq<Message>>, h: nat, m: Message)
    requires Inv(rootOf, l) && Run(rootOf, l, events, t, log) && h < |log| && m in log[h] && m.Spawned?
    ensures m.target in EntitiesOf(l.layer.spawned) || m.target !in l.noted
    decreases |events|
  {
    hide Inv, Hook;
    match events[0]
    case Replay(r) =>
      ReplayKeeps(rootOf, l, r);
      GreetingsAreNew(rootOf, r, events[1..], t, log, h, m);
      assert r.layer.spawned == l.layer.spawned + Notes(l, r);
      EntitiesJoin(l.layer.spawned, Notes(l, r));
    case Sync(scan, made) =>
      HookKeeps(rootOf, l, scan, made);
      if h == 0 {
        SentAre(l.layer, scan, made, m);
      } else {
        GreetingsAreNew(rootOf, AfterHook(l, scan, made), events[1..], t, log[1..], h - 1, m);
        NothingWaits(l, scan, made);
      }
  }

  lemma NothingWaits(l: Life, scan: seq<EntityId>, made: seq<seq<nat>>)
    requires CanHook(l.layer, scan, made)
    ensures EntitiesOf(AfterHook(l, scan, made).layer.spawned) == {} && AfterHook(l, scan, made).noted == l.noted
  {}

  /** Over a whole run no entity is told of its spawn twice. */
  lemma {:induction false} SpawnedOnce(rootOf: EntityId -> EntityId, l: Life, events: seq<Event>, t: Life, log: seq<seq<Message>>,
                                       g: nat, i: nat, h: nat, j: nat)
    requires Inv(rootOf, l) && Run(rootOf, l, events, t, log)
    requires g < |log| && i < |log[g]| && h < |log| && j < |log[h]| && (g < h || (g == h && i < j))
    requires log[g][i].Spawned? && log[h][j].Spawned?
    ensures log[g][i].target != log[h][j].target
    decreases |events|
  {
    hide Inv, Hook;
    match events[0]
    case Replay(r) =>
      ReplayKeeps(rootOf, l, r);
      SpawnedOnce(rootOf, r, events[1..], t, log, g, i, h, j);
    case Sync(scan, made) =>
      HookKeeps(rootOf, l, scan, made);
      NothingWaits(l, scan, made);
      var next := AfterHook(l, scan, made);
      if g > 0 {
        SpawnedOnce(rootOf, next, events[1..], t, log[1..], g - 1, i, h - 1, j);
      } else if h == 0 {
        OneHookGreetsOnce(rootOf, l, scan, made, i, j);
      } else {
        SentAre(l.layer, scan, made, log[0][i]);
        NotedAlready(rootOf, l);
        assert log[h][j] in log[1..][h - 1];
        GreetingsAreNew(rootOf, next, events[1..], t, log[1..], h - 1, log[h][j]);
      }
  }

  lemma NotedAlready(rootOf: EntityId -> EntityId, l: Life)
    requires Inv(rootOf, l)
    ensures EntitiesOf(l.layer.spawned) <= l.noted
  {}

  lemma {:induction false} GreetedOnce(alive: set<EntityId>, batch: seq<SpawnRecord>)
    requires Separate(batch)
    ensures forall i, j :: 0 <= i < j < |Greetings(alive, batch)| ==> Greetings(alive, batch)[i].target != Greetings(alive, batch)[j].target
  {
    if batch != [] {
      var n := |batch| - 1;
      GreetedOnce(alive, batch[..n]);
      GreetingsAre(alive, batch[..n]);
      forall m | m in Greetings(alive, batch[..n]) ensures m.target != batch[n].entity {
        var k :| 0 <= k < n && batch[..n][k].entity == m.target;
        assert batch[k].entity != batch[n].entity;
      }
    }
  }

  lemma OneHookGreetsOnce(rootOf: EntityId -> EntityId, l: Life, scan: seq<EntityId>, made: seq<seq<nat>>, i: nat, j: nat)
    requires Inv(rootOf, l) && CanHook(l.layer, scan, made) && i < j < |Hook(l.layer, scan, made).1|
    requires Hook(l.layer, scan, made).1[i].Spawned? && Hook(l.layer, scan, made).1[j].Spawned?
    ensures Hook(l.layer, scan, made).1[i].target != Hook(l.layer, scan, made).1[j].target
  {
    var sent, t := Hook(l.layer, scan, made).1, AfterHook(l, scan, made);
    var hello, bye := Greetings(t.layer.scene.alive, l.layer.spawned), Farewells(t.layer.scene.infos, LeavingIn(l.layer, scan));
    GreetedOnce(t.layer.scene.alive, l.layer.spawned);
    forall k | |hello| <= k < |sent| ensures sent[k].Despawning? {
      assert sent[k] == bye[k - |hello|];
    }
    assert sent[i] == hello[i] && sent[j] == hello[j];
  }

  predicate AllReplays(events: seq<Event>) {
    forall i :: 0 <= i < |events| ==> events[i].Replay?
  }

  lemma {:induction false} DyingStay(rootOf: EntityId -> EntityId, l: Life, events: seq<Event>, t: Life, log: seq<seq<Message>>)
    requires Inv(rootOf, l) && Run(rootOf, l, events, t, log) && AllReplays(events)
    ensures t.layer.dying == l.layer.dying && Inv(rootOf, t) && log == []
    decreases |events|
  {
    hide Inv, Hook;
    if events != [] {
      ReplayKeeps(rootOf, l, events[0].after);
      DyingStay(rootOf, events[0].after, events[1..], t, log);
    }
  }

  /** From one hook to the next, whatever is replayed in between: those told to leave by the first are
      dead after the second, and no managed object is theirs any more. */
  lemma GoneAfterTwoHooks(rootOf: EntityId -> EntityId, l: Life, scan: seq<EntityId>, made: seq<seq<nat>>,
                          events: seq<Event>, t: Life, scan': seq<EntityId>, made': seq<seq<nat>>, m: Message)
    requires Inv(rootOf, l) && CanHook(l.layer, scan, made) && AllReplays(events)
    requires Run(rootOf, AfterHook(l, scan, made), events, t, []) && CanHook(t.layer, scan', made')
    requires m in Hook(l.layer, scan, made).1 && m.Despawning?
    ensures m.target in AfterHook(l, scan, made).layer.scene.alive
    ensures var u := AfterHook(t, scan', made');
      m.target !in u.layer.scene.alive && m.target in u.ended && forall o :: o in u.layer.scene.managed ==> u.layer.scene.managed[o] != m.target
  {
    RootTakesAll(rootOf, l, scan, made, m.target);
    HookKeeps(rootOf, l, scan, made);
    hide Inv, Hook;
    DyingStay(rootOf, AfterHook(l, scan, made), events, t, []);
    DyingAreGone(rootOf, t, scan', made', m.target);
  }
}
