/** The object layer. Replay notes what was spawned and what is to go; a hook after it tells the spawned
    entities, ends those told before, and tells those that go next. */
module ObjectLayers {
  import opened Entities

  datatype ObjectInfo = ObjectInfo(prototype: nat, root: EntityId)

  const NO_PROTOTYPE: nat := 0

  /** The world as the layer sees it: who is alive, the ObjectInfo of those that carry one in an
      ordinary archetype, and the owner of each managed object. */
  datatype Scene = Scene(alive: set<EntityId>, infos: map<EntityId, ObjectInfo>, managed: map<nat, EntityId>)

  datatype SpawnRecord = SpawnRecord(entity: EntityId, prototype: nat)

  datatype Message = Spawned(target: EntityId, prototype: nat) | Despawning(target: EntityId, prototype: nat)

  /** mSpawned, mDespawnRequests and mDying, and the world. */
  datatype Layer = Layer(scene: Scene, spawned: seq<SpawnRecord>, requests: seq<EntityId>, dying: seq<EntityId>)

  function EntitiesOf(batch: seq<SpawnRecord>): (r: set<EntityId>) {
    set i | 0 <= i < |batch| :: batch[i].entity
  }

  predicate NoRepeats(s: seq<EntityId>) {
    forall i, j :: 0 <= i < j < |s| ==> s[i] != s[j]
  }

  // --- the three parts of the hook, as functions ----------------------------------------------------

  /** Objects of the dying, then the dying themselves, are destroyed. */
  function Buried(scene: Scene, dying: seq<EntityId>): Scene {
    Scene(set e | e in scene.alive && e !in dying,
          map e | e in scene.infos && e !in dying :: scene.infos[e],
          map m | m in scene.managed && scene.managed[m] !in dying :: scene.managed[m])
  }

  /** The objects made for one record: `made` are the ids under which the pool adopted them. */
  function AdoptedFor(managed: map<nat, EntityId>, owner: EntityId, made: seq<nat>): map<nat, EntityId> {
    if made == [] then managed else AdoptedFor(managed, owner, made[..|made| - 1])[made[|made| - 1] := owner]
  }

  /** The objects of every record of the batch whose entity is alive. */
  function Adopted(scene: Scene, batch: seq<SpawnRecord>, made: seq<seq<nat>>): map<nat, EntityId>
    requires |made| == |batch|
  {
    if batch == [] then scene.managed
    else
      var n := |batch| - 1;
      var before := Adopted(scene, batch[..n], made[..n]);
      if batch[n].entity in scene.alive then AdoptedFor(before, batch[n].entity, made[n]) else before
  }

  function Greetings(alive: set<EntityId>, batch: seq<SpawnRecord>): seq<Message> {
    if batch == [] then []
    else
      var n := |batch| - 1;
      Greetings(alive, batch[..n]) + if batch[n].entity in alive then [Spawned(batch[n].entity, batch[n].prototype)] else []
  }

  /** The requested entities that start to leave: alive, asked for once, and not spawned just now. */
  function LeavingRoots(alive: set<EntityId>, batch: set<EntityId>, requests: seq<EntityId>): seq<EntityId> {
    if requests == [] then []
    else
      var n := |requests| - 1;
      var before, r := LeavingRoots(alive, batch, requests[..n]), requests[n];
      if r !in alive || r in before || r in batch then before else before + [r]
  }

  /** The requests that wait for the next hook. */
  function Kept(alive: set<EntityId>, batch: set<EntityId>, requests: seq<EntityId>): seq<EntityId> {
    if requests == [] then []
    else
      var n := |requests| - 1;
      var before, r := Kept(alive, batch, requests[..n]), requests[n];
      if r !in alive || r in LeavingRoots(alive, batch, requests[..n]) || r !in batch then before else before + [r]
  }

  /** The rest of each leaving object, in scan order. */
  function WithRooted(roots: seq<EntityId>, infos: map<EntityId, ObjectInfo>, scan: seq<EntityId>): seq<EntityId>
    requires forall i :: 0 <= i < |scan| ==> scan[i] in infos
  {
    if scan == [] then roots
    else
      var n := |scan| - 1;
      var before, e := WithRooted(roots, infos, scan[..n]), scan[n];
      if infos[e].root in roots && e !in before then before + [e] else before
  }

  function Farewells(infos: map<EntityId, ObjectInfo>, leaving: seq<EntityId>): (r: seq<Message>)
    ensures |r| == |leaving|
    ensures forall i :: 0 <= i < |r| ==> r[i] == Despawning(leaving[i], if leaving[i] in infos then infos[leaving[i]].prototype else NO_PROTOTYPE)
  {
    seq(|leaving|, i requires 0 <= i < |leaving| =>
      Despawning(leaving[i], if leaving[i] in infos then infos[leaving[i]].prototype else NO_PROTOTYPE))
  }

  /** The scan visits the entities with an ObjectInfo once each, in some order of archetypes and
      chunks. */
  predicate Scans(scan: seq<EntityId>, scene: Scene) {
    && NoRepeats(scan)
    && (forall i :: 0 <= i < |scan| ==> scan[i] in scene.infos)
    && (forall e :: e in scene.infos ==> e in scan)
  }

  /** What the managed pool hands out: ids that are free, each once. */
  predicate FreshIds(managed: map<nat, EntityId>, made: seq<seq<nat>>) {
    && (forall i, k :: 0 <= i < |made| && 0 <= k < |made[i]| ==> made[i][k] !in managed)
    && (forall i, k, j, l :: 0 <= i < |made| && 0 <= k < |made[i]| && 0 <= j < |made| && 0 <= l < |made[j]| && (i, k) != (j, l) ==> made[i][k] != made[j][l])
  }

  /** The numbers of a record's objects counted up from `next`. */
  function CountedFrom(counts: seq<nat>, next: nat): (r: seq<seq<nat>>)
    ensures |r| == |counts| && forall i :: 0 <= i < |r| ==> |r[i]| == counts[i]
  {
    if counts == [] then []
    else [seq(counts[0], k requires 0 <= k => next + k)] + CountedFrom(counts[1..], next + counts[0])
  }

  /** Ids counted up from above all in use are such, however many each record needs. */
  lemma {:induction false} CountedIds(managed: map<nat, EntityId>, counts: seq<nat>, next: nat)
    requires forall m :: m in managed ==> m < next
    ensures FreshIds(managed, CountedFrom(counts, next))
    ensures forall i, k :: 0 <= i < |counts| && 0 <= k < counts[i] ==> CountedFrom(counts, next)[i][k] >= next
  {
    if counts != [] {
      CountedIds(managed, counts[1..], next + counts[0]);
      var made, rest := CountedFrom(counts, next), CountedFrom(counts[1..], next + counts[0]);
      assert forall i :: 0 < i < |made| ==> made[i] == rest[i - 1];
    }
  }

  predicate CanHook(l: Layer, scan: seq<EntityId>, made: seq<seq<nat>>) {
    var buried := Buried(l.scene, l.dying);
    Scans(scan, buried) && |made| == |l.spawned| && FreshIds(buried.managed, made)
  }

  function LeavingIn(l: Layer, scan: seq<EntityId>): seq<EntityId>
    requires Scans(scan, Buried(l.scene, l.dying))
  {
    var scene := Buried(l.scene, l.dying);
    WithRooted(LeavingRoots(scene.alive, EntitiesOf(l.spawned), l.requests), scene.infos, scan)
  }

  /** The sync hook: the layer and the world after it, and the messages it sent. */
  function Hook(l: Layer, scan: seq<EntityId>, made: seq<seq<nat>>): (r: (Layer, seq<Message>))
    requires CanHook(l, scan, made)
  {
    var buried := Buried(l.scene, l.dying);
    var scene := buried.(managed := Adopted(buried, l.spawned, made));
    var batch := EntitiesOf(l.spawned);
    (Layer(scene, [], Kept(scene.alive, batch, l.requests), LeavingIn(l, scan)),
     Greetings(scene.alive, l.spawned) + Farewells(scene.infos, LeavingIn(l, scan)))
  }

  // --- what they hold -------------------------------------------------------------------------------

  lemma {:induction false} LeavingRootsAre(alive: set<EntityId>, batch: set<EntityId>, requests: seq<EntityId>)
    ensures NoRepeats(LeavingRoots(alive, batch, requests))
    ensures forall e :: e in LeavingRoots(alive, batch, requests) <==> e in requests && e in alive && e !in batch
  {
    if requests != [] {
      var n := |requests| - 1;
      LeavingRootsAre(alive, batch, requests[..n]);
      assert requests == requests[..n] + [requests[n]];
    }
  }

  lemma {:induction false} KeptAre(alive: set<EntityId>, batch: set<EntityId>, requests: seq<EntityId>)
    requires NoRepeats(requests)
    ensures NoRepeats(Kept(alive, batch, requests))
    ensures forall e :: e in Kept(alive, batch, requests) <==> e in requests && e in alive && e in batch
  {
    if requests != [] {
      var n := |requests| - 1;
      KeptAre(alive, batch, requests[..n]);
      LeavingRootsAre(alive, batch, requests[..n]);
      assert requests == requests[..n] + [requests[n]];
    }
  }

  lemma {:induction false} WithRootedAre(roots: seq<EntityId>, infos: map<EntityId, ObjectInfo>, scan: seq<EntityId>)
    requires NoRepeats(roots) && forall i :: 0 <= i < |scan| ==> scan[i] in infos
    ensures NoRepeats(WithRooted(roots, infos, scan)) && roots <= WithRooted(roots, infos, scan)
    ensures forall e :: e in WithRooted(roots, infos, scan) <==> e in roots || (e in scan && infos[e].root in roots)
  {
    if scan != [] {
      var n := |scan| - 1;
      WithRootedAre(roots, infos, scan[..n]);
      assert scan == scan[..n] + [scan[n]];
    }
  }

  lemma {:induction false} GreetingsAre(alive: set<EntityId>, batch: seq<SpawnRecord>)
    ensures forall m :: m in Greetings(alive, batch) ==> m.Spawned? && m.target in alive && m.target in EntitiesOf(batch)
    ensures forall i :: 0 <= i < |batch| && batch[i].entity in alive ==> Spawned(batch[i].entity, batch[i].prototype) in Greetings(alive, batch)
  {
    if batch != [] {
      var n := |batch| - 1;
      GreetingsAre(alive, batch[..n]);
      assert batch == batch[..n] + [batch[n]];
      forall i | 0 <= i < n ensures batch[i].entity in EntitiesOf(batch) && batch[..n][i] == batch[i] {}
      assert batch[n].entity in EntitiesOf(batch);
      forall e | e in EntitiesOf(batch[..n]) ensures e in EntitiesOf(batch) {
        var i :| 0 <= i < n && batch[..n][i].entity == e;
        assert batch[i].entity == e;
      }
    }
  }

  lemma {:induction false} AdoptedForOwners(managed: map<nat, EntityId>, owner: EntityId, made: seq<nat>)
    ensures forall m :: m in AdoptedFor(managed, owner, made) <==> m in managed || m in made
    ensures forall m :: m in AdoptedFor(managed, owner, made) ==> AdoptedFor(managed, owner, made)[m] == if m in made then owner else managed[m]
  {
    if made != [] {
      AdoptedForOwners(managed, owner, made[..|made| - 1]);
      assert made == made[..|made| - 1] + [made[|made| - 1]];
    }
  }

  /** No object changes hands; each object made for a record whose entity is alive belongs to that
      entity; and there are no other new ones, so none for a record whose entity is dead. */
  lemma {:induction false} AdoptedOwners(scene: Scene, batch: seq<SpawnRecord>, made: seq<seq<nat>>)
    requires |made| == |batch| && FreshIds(scene.managed, made)
    ensures var after := Adopted(scene, batch, made);
      && (forall m :: m in scene.managed ==> m in after && after[m] == scene.managed[m])
      && (forall i, k :: 0 <= i < |batch| && 0 <= k < |made[i]| && batch[i].entity in scene.alive ==>
            made[i][k] in after && after[made[i][k]] == batch[i].entity)
      && (forall m :: m in after && m !in scene.managed ==>
            exists i, k :: 0 <= i < |batch| && 0 <= k < |made[i]| && made[i][k] == m && batch[i].entity in scene.alive)
  {
    if batch != [] {
      var n := |batch| - 1;
      var before, after := Adopted(scene, batch[..n], made[..n]), Adopted(scene, batch, made);
      AdoptedOwners(scene, batch[..n], made[..n]);
      AdoptedForOwners(before, batch[n].entity, made[n]);
      forall i, k | 0 <= i < |batch| && 0 <= k < |made[i]| && batch[i].entity in scene.alive
        ensures made[i][k] in after && after[made[i][k]] == batch[i].entity
      {
        if i < n {
          assert made[..n][i] == made[i] && batch[..n][i] == batch[i];
          assert made[i][k] !in made[n];
        }
      }
      forall m | m in after && m !in scene.managed
        ensures exists i, k :: 0 <= i < |batch| && 0 <= k < |made[i]| && made[i][k] == m && batch[i].entity in scene.alive
      {
        if m in before {
          var i, k :| 0 <= i < n && 0 <= k < |made[..n][i]| && made[..n][i][k] == m && batch[..n][i].entity in scene.alive;
          assert made[i][k] == m && batch[i].entity in scene.alive;
        } else {
          var k :| 0 <= k < |made[n]| && made[n][k] == m;
        }
      }
    }
  }

  /** What the hook leaves of the world: everyone but the dying, and every object but theirs; and the
      objects made for a record are managed for its entity when that is alive, and else not at all. */
  lemma HookScene(l: Layer, scan: seq<EntityId>, made: seq<seq<nat>>)
    requires CanHook(l, scan, made)
    ensures var scene := Hook(l, scan, made).0.scene;
      && (forall e :: e in scene.alive <==> e in l.scene.alive && e !in l.dying)
      && (forall e :: e in scene.infos <==> e in l.scene.infos && e !in l.dying)
      && (forall e :: e in scene.infos ==> scene.infos[e] == l.scene.infos[e])
      && (forall m :: m in l.scene.managed && l.scene.managed[m] !in l.dying ==> m in scene.managed && scene.managed[m] == l.scene.managed[m])
      && (forall i, k :: 0 <= i < |made| && 0 <= k < |made[i]| && l.spawned[i].entity in scene.alive ==>
            made[i][k] in scene.managed && scene.managed[made[i][k]] == l.spawned[i].entity)
      && (forall m :: m in scene.managed ==>
            || (m in l.scene.managed && l.scene.managed[m] !in l.dying)
            || exists i, k :: 0 <= i < |made| && 0 <= k < |made[i]| && made[i][k] == m && l.spawned[i].entity in scene.alive)
  {
    AdoptedOwners(Buried(l.scene, l.dying), l.spawned, made);
    hide Adopted, FreshIds;
  }

  /** The Spawned messages come in the order of the batch, one for each record whose entity is alive,
      with the prototype of that record. */
  lemma {:induction false} GreetingsInOrder(alive: set<EntityId>, batch: seq<SpawnRecord>) returns (at: seq<nat>)
    ensures |at| == |Greetings(alive, batch)|
    ensures forall k :: 0 <= k < |at| ==> at[k] < |batch| && Greetings(alive, batch)[k] == Spawned(batch[at[k]].entity, batch[at[k]].prototype)
    ensures forall j, k :: 0 <= j < k < |at| ==> at[j] < at[k]
    ensures forall i :: 0 <= i < |batch| ==> (i in at <==> batch[i].entity in alive)
  {
    if batch == [] {
      at := [];
    } else {
      var n := |batch| - 1;
      at := GreetingsInOrder(alive, batch[..n]);
      if batch[n].entity in alive {
        at := at + [n];
        assert at[|at| - 1] == n;
      }
    }
  }

  // --- the layer as an object -----------------------------------------------------------------------

  class ObjectLayer {
    var alive: set<EntityId>
    var infos: map<EntityId, ObjectInfo>
    var managed: map<nat, EntityId>
    var spawned: seq<SpawnRecord>
    var despawnRequests: seq<EntityId>
    var dying: seq<EntityId>
    var batch: seq<SpawnRecord>
    var outbox: seq<Message>

    ghost function Contents(): Layer
      reads this
    {
      Layer(Scene(alive, infos, managed), spawned, despawnRequests, dying)
    }

    method OnSpawnReplayed(entity: EntityId, prototype: nat)
      modifies this
      ensures Contents() == old(Contents()).(spawned := old(spawned) + [SpawnRecord(entity, prototype)]) && outbox == old(outbox)
    {
      spawned := spawned + [SpawnRecord(entity, prototype)];
    }

    method OnDespawnReplayed(entity: EntityId)
      modifies this
      ensures Contents() == old(Contents()).(requests := if entity in old(despawnRequests) then old(despawnRequests) else old(despawnRequests) + [entity])
      ensures outbox == old(outbox) && (NoRepeats(old(despawnRequests)) ==> NoRepeats(despawnRequests))
    {
      if entity !in despawnRequests {
        despawnRequests := despawnRequests + [entity];
      }
    }

    method SyncHook(scan: seq<EntityId>, made: seq<seq<nat>>)
      requires CanHook(Contents(), scan, made)
      modifies this
      ensures (Contents(), outbox) == Hook(old(Contents()), scan, made)
      ensures forall e :: e in alive <==> e in old(alive) && e !in old(dying)
      ensures forall m :: m in old(managed) && old(managed)[m] !in old(dying) ==> m in managed && managed[m] == old(managed)[m]
      ensures forall i, k :: 0 <= i < |made| && 0 <= k < |made[i]| && old(spawned)[i].entity in alive ==>
        made[i][k] in managed && managed[made[i][k]] == old(spawned)[i].entity
      ensures forall m :: m in managed ==>
        || (m in old(managed) && old(managed)[m] !in old(dying))
        || exists i, k :: 0 <= i < |made| && 0 <= k < |made[i]| && made[i][k] == m && old(spawned)[i].entity in alive
    {
      HookScene(Contents(), scan, made);
      hide FreshIds, Buried, Kept, Adopted;
      ghost var l, buried := Contents(), Buried(Contents().scene, dying);
      outbox := [];
      DestroyDying();
      FinishSpawns(made);
      assert outbox == Greetings(buried.alive, l.spawned);
      BeginDespawns(scan);
      assert LeavingIn(l, scan) == dying;
    }

    method DestroyDying()
      modifies this
      ensures Contents() == old(Contents()).(scene := Buried(old(Contents()).scene, old(dying)), dying := [])
      ensures outbox == old(outbox)
    {
      var objects := set m | m in managed && managed[m] in dying;
      managed := map m | m in managed && m !in objects :: managed[m];
      for i := 0 to |dying|
        invariant dying == old(dying) && spawned == old(spawned) && despawnRequests == old(despawnRequests) && outbox == old(outbox)
        invariant managed == Buried(old(Contents()).scene, dying).managed
        invariant alive == set e | e in old(alive) && e !in dying[..i]
        invariant infos == map e | e in old(infos) && e !in dying[..i] :: old(infos)[e]
      {
        assert dying[..i + 1] == dying[..i] + [dying[i]];
        alive := alive - {dying[i]};
        infos := infos - {dying[i]};
      }
      dying := [];
    }

    method FinishSpawns(made: seq<seq<nat>>)
      requires |made| == |spawned|
      modifies this
      ensures Contents() == old(Contents()).(spawned := [], scene := Scene(old(alive), old(infos), Adopted(old(Contents()).scene, old(spawned), made)))
      ensures outbox == old(outbox) + Greetings(old(alive), old(spawned)) && batch == old(spawned)
    {
      hide Greetings;
      batch := spawned;
      spawned := [];
      for i := 0 to |batch|
        invariant batch == old(spawned) && spawned == [] && alive == old(alive) && infos == old(infos)
        invariant despawnRequests == old(despawnRequests) && dying == old(dying) && outbox == old(outbox)
        invariant managed == Adopted(old(Contents()).scene, batch[..i], made[..i])
      {
        assert batch[..i + 1][..i] == batch[..i] && made[..i + 1][..i] == made[..i];
        if batch[i].entity in alive {
          ghost var before := managed;
          for k := 0 to |made[i]|
            invariant batch == old(spawned) && spawned == [] && alive == old(alive) && infos == old(infos)
            invariant managed == AdoptedFor(before, batch[i].entity, made[i][..k])
            invariant despawnRequests == old(despawnRequests) && dying == old(dying) && outbox == old(outbox)
          {
            assert made[i][..k + 1][..k] == made[i][..k];
            managed := managed[made[i][k] := batch[i].entity];
          }
          assert made[i][..|made[i]|] == made[i];
        }
      }
      assert batch[..|batch|] == batch && made[..|made|] == made;
      Greet();
    }

    method Greet()
      modifies this`outbox
      ensures outbox == old(outbox) + Greetings(alive, batch)
    {
      for i := 0 to |batch|
        invariant outbox == old(outbox) + Greetings(alive, batch[..i])
      {
        assert batch[..i + 1][..i] == batch[..i];
        if batch[i].entity in alive {
          outbox := outbox + [Spawned(batch[i].entity, batch[i].prototype)];
        }
      }
      assert batch[..|batch|] == batch;
    }

    method BeginDespawns(scan: seq<EntityId>)
      requires forall i :: 0 <= i < |scan| ==> scan[i] in infos
      requires dying == []
      modifies this
      ensures var roots := LeavingRoots(old(alive), EntitiesOf(old(batch)), old(despawnRequests));
        var leaving := WithRooted(roots, old(infos), scan);
        && Contents() == old(Contents()).(requests := Kept(old(alive), EntitiesOf(old(batch)), old(despawnRequests)), dying := leaving)
        && outbox == old(outbox) + Farewells(old(infos), leaving)
    {
      var spawnedNow := EntitiesOf(batch);
      var requests := despawnRequests;
      var leaving: seq<EntityId> := [];
      var kept: seq<EntityId> := [];
      for i := 0 to |requests|
        invariant leaving == LeavingRoots(alive, spawnedNow, requests[..i])
        invariant kept == Kept(alive, spawnedNow, requests[..i])
      {
        assert requests[..i + 1][..i] == requests[..i];
        if requests[i] in alive && requests[i] !in leaving {
          if requests[i] in spawnedNow {
            kept := kept + [requests[i]];
          } else {
            leaving := leaving + [requests[i]];
          }
        }
      }
      assert requests[..|requests|] == requests;
      despawnRequests := kept;
      batch := [];
      var roots := leaving;
      for i := 0 to |scan|
        invariant leaving == WithRooted(roots, infos, scan[..i])
      {
        assert scan[..i + 1][..i] == scan[..i];
        if infos[scan[i]].root in roots && scan[i] !in leaving {
          leaving := leaving + [scan[i]];
        }
      }
      assert scan[..|scan|] == scan;
      for i := 0 to |leaving|
        invariant dying == leaving[..i] && outbox == old(outbox) + Farewells(infos, leaving[..i])
        invariant despawnRequests == kept && alive == old(alive) && infos == old(infos) && managed == old(managed) && spawned == old(spawned)
      {
        var prototype := if leaving[i] in infos then infos[leaving[i]].prototype else NO_PROTOTYPE;
        assert Farewells(infos, leaving[..i + 1]) == Farewells(infos, leaving[..i]) + [Despawning(leaving[i], prototype)];
        outbox := outbox + [Despawning(leaving[i], prototype)];
        dying := dying + [leaving[i]];
      }
      assert leaving[..|leaving|] == leaving;
    }
  }
}
