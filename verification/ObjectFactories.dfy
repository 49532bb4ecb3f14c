/** What the factory records to spawn an object, and what its replay leaves: every entity of the object
    that came to be is noted, with the object's root as its own. */
module ObjectFactories {
  import opened Results
  import opened Entities
  import opened ObjectLayers
  import Lifecycles

  /** A registered prototype with those of its children. */
  datatype Node = Node(prototype: nat, children: seq<Node>)

  /** The commands of one node that the lifecycle depends on: the clone into a creation slot, the link of
      its root, and the call that notes it. */
  datatype Command = Clone(slot: nat, prototype: nat) | LinkRoot(slot: nat, root: nat) | Note(slot: nat, prototype: nat)

  function Size(node: Node): nat {
    1 + Sizes(node.children)
  }

  function Sizes(nodes: seq<Node>): nat {
    if nodes == [] then 0 else Size(nodes[0]) + Sizes(nodes[1..])
  }

  function NodeCommands(slot: nat, prototype: nat, root: nat): seq<Command> {
    [Clone(slot, prototype), LinkRoot(slot, root), Note(slot, prototype)]
  }

  /** SpawnNode: the node, then its children one after another, all with the root of the object. */
  function SpawnNode(node: Node, root: Option<nat>, next: nat): seq<Command> {
    var objectRoot := if root.Some? then root.value else next;
    NodeCommands(next, node.prototype, objectRoot) + SpawnChildren(node.children, objectRoot, next + 1)
  }

  function SpawnChildren(nodes: seq<Node>, root: nat, next: nat): seq<Command> {
    if nodes == [] then []
    else SpawnNode(nodes[0], Some(root), next) + SpawnChildren(nodes[1..], root, next + Size(nodes[0]))
  }

  // --- the commands in a row --------------------------------------------------------------------------

  function Preorder(node: Node): (r: seq<nat>)
    ensures |r| == Size(node)
  {
    [node.prototype] + PreorderAll(node.children)
  }

  function PreorderAll(nodes: seq<Node>): (r: seq<nat>)
    ensures |r| == Sizes(nodes)
  {
    if nodes == [] then [] else Preorder(nodes[0]) + PreorderAll(nodes[1..])
  }

  /** One slot after another. */
  function Row(prototypes: seq<nat>, root: nat, next: nat): seq<Command> {
    if prototypes == [] then [] else NodeCommands(next, prototypes[0], root) + Row(prototypes[1..], root, next + 1)
  }

  lemma {:induction false} RowJoins(a: seq<nat>, b: seq<nat>, root: nat, next: nat)
    ensures Row(a + b, root, next) == Row(a, root, next) + Row(b, root, next + |a|)
    decreases |a|
  {
    if a == [] {
      assert a + b == b;
    } else {
      RowJoins(a[1..], b, root, next + 1);
      assert (a + b)[1..] == a[1..] + b;
    }
  }

  lemma {:induction false} SpawnIsRow(node: Node, root: nat, next: nat)
    ensures SpawnNode(node, Some(root), next) == Row(Preorder(node), root, next)
    ensures root == next ==> SpawnNode(node, None, next) == Row(Preorder(node), root, next)
  {
    ChildrenAreRow(node.children, root, next + 1);
    assert Preorder(node)[1..] == PreorderAll(node.children);
  }

  lemma {:induction false} ChildrenAreRow(nodes: seq<Node>, root: nat, next: nat)
    ensures SpawnChildren(nodes, root, next) == Row(PreorderAll(nodes), root, next)
  {
    if nodes != [] {
      SpawnIsRow(nodes[0], root, next);
      ChildrenAreRow(nodes[1..], root, next + Size(nodes[0]));
      RowJoins(Preorder(nodes[0]), PreorderAll(nodes[1..]), root, next);
    }
  }

  // --- their replay -----------------------------------------------------------------------------------

  /** The creation slots filled so far, who is alive, their ObjectInfo, and the notes taken. */
  datatype Progress = Progress(made: map<nat, EntityId>, alive: set<EntityId>, infos: map<EntityId, ObjectInfo>, notes: seq<SpawnRecord>)
  {
    predicate Valid() {
      (forall s :: s in made ==> made[s].IsValid()) && forall e :: e in alive ==> e.IsValid()
    }

    predicate Stands(slot: nat) {
      slot in made && made[slot] in alive && made[slot] in infos
    }

    function RootAt(slot: nat): EntityId {
      if slot in made then made[slot] else INVALID_ENTITY
    }
  }

  /** A clone fails or gets a handle that no live entity has; a prototype's own root is invalid. A link to a
      slot that was not filled changes nothing, nor does a command whose entity is not there. */
  function Done(p: Progress, c: Command, handle: Option<EntityId>): Progress {
    match c
    case Clone(slot, prototype) =>
      if handle.None? then p
      else p.(made := p.made[slot := handle.value], alive := p.alive + {handle.value},
              infos := p.infos[handle.value := ObjectInfo(prototype, INVALID_ENTITY)])
    case LinkRoot(slot, root) =>
      if p.Stands(slot) && root in p.made then p.(infos := p.infos[p.made[slot] := p.infos[p.made[slot]].(root := p.made[root])]) else p
    case Note(slot, prototype) =>
      if p.Stands(slot) then p.(notes := p.notes + [SpawnRecord(p.made[slot], prototype)]) else p
  }

  ghost predicate Does(p: Progress, c: Command, q: Progress) {
    exists handle: Option<EntityId> {:trigger Done(p, c, handle)} ::
      (handle.Some? ==> handle.value.IsValid() && handle.value !in p.alive) && q == Done(p, c, handle)
  }

  ghost predicate Replays(commands: seq<Command>, p: Progress, q: Progress)
    decreases |commands|
  {
    if commands == [] then p == q
    else exists m: Progress :: Does(p, commands[0], m) && Replays(commands[1..], m, q)
  }

  /** One slot: nothing came to be, or an entity with its root and a note. */
  function Spawned(p: Progress, slot: nat, prototype: nat, root: nat, e: EntityId): Progress {
    Progress(p.made[slot := e], p.alive + {e},
             p.infos[e := ObjectInfo(prototype, if root == slot then e else p.RootAt(root))], p.notes + [SpawnRecord(e, prototype)])
  }

  predicate SlotDone(p: Progress, slot: nat, prototype: nat, root: nat, q: Progress, e: EntityId) {
    e.IsValid() && e !in p.alive && q == Spawned(p, slot, prototype, root, e)
  }

  lemma FirstReplays(c: Command, rest: seq<Command>, p: Progress, q: Progress) returns (m: Progress)
    requires Replays([c] + rest, p, q)
    ensures Does(p, c, m) && Replays(rest, m, q)
  {
    assert ([c] + rest)[0] == c && ([c] + rest)[1..] == rest;
    m :| Does(p, ([c] + rest)[0], m) && Replays(([c] + rest)[1..], m, q);
  }

  lemma NodeDone(p: Progress, slot: nat, prototype: nat, root: nat, p1: Progress, p2: Progress, p3: Progress) returns (e: EntityId)
    requires p.Valid() && slot !in p.made
    requires Does(p, Clone(slot, prototype), p1) && Does(p1, LinkRoot(slot, root), p2) && Does(p2, Note(slot, prototype), p3)
    ensures p3.Valid() && (p3 == p || SlotDone(p, slot, prototype, root, p3, e))
  {
    var handle: Option<EntityId> :|
      (handle.Some? ==> handle.value.IsValid() && handle.value !in p.alive) && p1 == Done(p, Clone(slot, prototype), handle);
    e := if handle.Some? then handle.value else INVALID_ENTITY;
    if handle.Some? {
      assert p3.infos == Spawned(p, slot, prototype, root, e).infos;
    }
  }

  lemma NodeReplays(p: Progress, slot: nat, prototype: nat, root: nat, rest: seq<Command>, q: Progress) returns (m: Progress, e: EntityId)
    requires p.Valid() && slot !in p.made && Replays(NodeCommands(slot, prototype, root) + rest, p, q)
    ensures Replays(rest, m, q) && m.Valid() && (m == p || SlotDone(p, slot, prototype, root, m, e))
  {
    hide Replays, Does, SlotDone, Progress.Valid;
    var note, link := [Note(slot, prototype)] + rest, LinkRoot(slot, root);
    assert NodeCommands(slot, prototype, root) + rest == [Clone(slot, prototype)] + ([link] + note);
    var p1 := FirstReplays(Clone(slot, prototype), [link] + note, p, q);
    var p2 := FirstReplays(link, note, p1, q);
    m := FirstReplays(Note(slot, prototype), rest, p2, q);
    e := NodeDone(p, slot, prototype, root, p1, p2, m);
  }

  /** What the slots of a row leave: notes of new entities, each once, that have the root. */
  ghost predicate Batch(p: Progress, q: Progress, batch: seq<SpawnRecord>, root: EntityId) {
    && q.notes == p.notes + batch && q.Valid() && p.alive <= q.alive
    && (forall i :: 0 <= i < |batch| ==> Noted(p, q, batch[i].entity, root))
    && (forall i, j :: 0 <= i < j < |batch| ==> batch[i].entity != batch[j].entity)
    && (forall e :: e in p.alive && e in p.infos ==> e in q.infos && q.infos[e] == p.infos[e])
  }

  predicate Noted(p: Progress, q: Progress, e: EntityId, root: EntityId) {
    e !in p.alive && e in q.alive && e in q.infos && q.infos[e].root == root
  }

  /** One entity more. */
  lemma BatchExtends(p: Progress, m: Progress, q: Progress, slot: nat, prototype: nat, root: nat, e: EntityId, rest: seq<SpawnRecord>, r: EntityId)
    requires p.Valid() && slot !in p.made && SlotDone(p, slot, prototype, root, m, e) && Batch(m, q, rest, r)
    requires r == if root == slot then e else p.RootAt(root)
    ensures Batch(p, q, [SpawnRecord(e, prototype)] + rest, r)
  {
    var batch := [SpawnRecord(e, prototype)] + rest;
    assert q.notes == p.notes + batch;
    forall i | 0 <= i < |batch| ensures Noted(p, q, batch[i].entity, r) {
      if i > 0 { assert Noted(m, q, rest[i - 1].entity, r); }
    }
    forall i, j | 0 <= i < j < |batch| ensures batch[i].entity != batch[j].entity {
      assert Noted(m, q, rest[j - 1].entity, r);
    }
  }

  lemma NoBatch(p: Progress, root: EntityId)
    requires p.Valid()
    ensures Batch(p, p, [], root)
  {
    assert p.notes + [] == p.notes;
  }

  /** Slots after the root's. */
  lemma {:induction false} RowReplays(prototypes: seq<nat>, root: nat, next: nat, p: Progress, q: Progress) returns (batch: seq<SpawnRecord>)
    requires p.Valid() && root < next && Replays(Row(prototypes, root, next), p, q)
    requires forall s :: s in p.made ==> s < next
    ensures Batch(p, q, batch, p.RootAt(root)) && q.RootAt(root) == p.RootAt(root) && (root in q.made <==> root in p.made)
    decreases |prototypes|
  {
    hide Batch, Progress.Valid;
    batch := [];
    if prototypes == [] {
      NoBatch(p, p.RootAt(root));
    } else {
      var m, e := NodeReplays(p, next, prototypes[0], root, Row(prototypes[1..], root, next + 1), q);
      hide Replays;
      batch := RowReplays(prototypes[1..], root, next + 1, m, q);
      if m != p {
        BatchExtends(p, m, q, next, prototypes[0], root, e, batch, p.RootAt(root));
        batch := [SpawnRecord(e, prototypes[0])] + batch;
      }
    }
  }

  /** Every entity has its root among them, or none. */
  predicate Rooted(q: Progress, batch: set<EntityId>) {
    forall e :: e in batch ==> e in q.infos && (q.infos[e].root in batch || !q.infos[e].root.IsValid())
  }

  /** The object of one call of Spawn, in every replay: all that came to be of it is noted once; if the root
      came to be it is noted with them and is the root of each, otherwise they have no root. */
  lemma SpawnReplayed(node: Node, next: nat, p: Progress, q: Progress) returns (batch: seq<SpawnRecord>)
    requires p.Valid() && (forall s :: s in p.made ==> s < next) && Replays(SpawnNode(node, None, next), p, q)
    ensures Batch(p, q, batch, q.RootAt(next))
    ensures next in q.made ==> q.made[next] in EntitiesOf(batch)
    ensures Rooted(q, EntitiesOf(batch))
  {
    hide Replays, Progress.Valid;
    SpawnIsRow(node, next, next);
    var rest := PreorderAll(node.children);
    assert Preorder(node)[1..] == rest && Preorder(node)[0] == node.prototype;
    assert Row(Preorder(node), next, next) == NodeCommands(next, node.prototype, next) + Row(rest, next, next + 1);
    var m, e := NodeReplays(p, next, node.prototype, next, Row(rest, next, next + 1), q);
    batch := RowReplays(rest, next, next + 1, m, q);
    if m != p {
      assert Batch(p, q, [SpawnRecord(e, node.prototype)] + batch, e) by {
        hide EntitiesOf;
        BatchExtends(p, m, q, next, node.prototype, next, e, batch, e);
      }
      batch := [SpawnRecord(e, node.prototype)] + batch;
      assert batch[0].entity in EntitiesOf(batch);
    }
  }

  // --- all spawns of a buffer -------------------------------------------------------------------------

  function SpawnAll(nodes: seq<Node>, next: nat): seq<Command> {
    if nodes == [] then [] else SpawnNode(nodes[0], None, next) + SpawnAll(nodes[1..], next + Size(nodes[0]))
  }

  lemma {:induction false} ReplaysSplit(a: seq<Command>, b: seq<Command>, p: Progress, q: Progress) returns (m: Progress)
    requires Replays(a + b, p, q)
    ensures Replays(a, p, m) && Replays(b, m, q)
    decreases |a|
  {
    hide Does;
    if a == [] {
      assert a + b == b;
      m := p;
    } else {
      assert a + b == [a[0]] + (a[1..] + b);
      var first := FirstReplays(a[0], a[1..] + b, p, q);
      m := ReplaysSplit(a[1..], b, first, q);
    }
  }

  lemma {:induction false} RowFills(prototypes: seq<nat>, root: nat, next: nat, p: Progress, q: Progress)
    requires Replays(Row(prototypes, root, next), p, q)
    ensures forall s :: s in q.made ==> s in p.made || next <= s < next + |prototypes|
    decreases |prototypes|
  {
    if prototypes != [] {
      var rest := Row(prototypes[1..], root, next + 1);
      var c := NodeCommands(next, prototypes[0], root);
      hide Row;
      assert c + rest == [c[0]] + ([c[1]] + ([c[2]] + rest));
      var p1 := FirstReplays(c[0], [c[1]] + ([c[2]] + rest), p, q);
      var p2 := FirstReplays(c[1], [c[2]] + rest, p1, q);
      var m := FirstReplays(c[2], rest, p2, q);
      hide Replays;
      RowFills(prototypes[1..], root, next + 1, m, q);
    }
  }

  lemma BatchesJoin(p: Progress, m: Progress, q: Progress, first: seq<SpawnRecord>, rest: seq<SpawnRecord>, r: EntityId)
    requires Batch(p, m, first, r) && Rooted(m, EntitiesOf(first))
    requires Notes(m, q, rest)
    ensures Notes(p, q, first + rest)
  {
    Lifecycles.EntitiesJoin(first, rest);
    var all := first + rest;
    assert q.notes == p.notes + all;
    forall e | e in EntitiesOf(first) ensures e in m.alive && e in m.infos && e in q.infos && q.infos[e] == m.infos[e] && e !in p.alive {
      var i :| 0 <= i < |first| && first[i].entity == e;
      assert Noted(p, m, first[i].entity, r);
    }
    forall i, j | 0 <= i < j < |all| ensures all[i].entity != all[j].entity {
      if i < |first| <= j {
        assert first[i].entity in EntitiesOf(first) && rest[j - |first|].entity in EntitiesOf(rest);
      } else if |first| <= i {
        assert all[i] == rest[i - |first|] && all[j] == rest[j - |first|];
      }
    }
  }

  /** The notes of a replay: new entities, each once, with their roots along; the ObjectInfo of all others
      stays. */
  predicate Notes(p: Progress, q: Progress, batch: seq<SpawnRecord>) {
    && q.notes == p.notes + batch && p.alive <= q.alive && EntitiesOf(batch) <= q.alive && EntitiesOf(batch) !! p.alive
    && Lifecycles.Separate(batch) && Rooted(q, EntitiesOf(batch))
    && (forall e :: e in p.alive && e in p.infos ==> e in q.infos && q.infos[e] == p.infos[e])
  }

  /** Whatever is spawned through one buffer, and whatever clones fail: the notes of its replay are as the
      lifecycle theorems ask. */
  lemma {:induction false} SpawnsReplayed(nodes: seq<Node>, next: nat, p: Progress, q: Progress, rootOf: EntityId -> EntityId)
    returns (batch: seq<SpawnRecord>)
    requires p.Valid() && (forall s :: s in p.made ==> s < next) && Replays(SpawnAll(nodes, next), p, q)
    ensures Notes(p, q, batch)
    ensures (forall e :: e in q.infos ==> q.infos[e].root == rootOf(e)) ==> Lifecycles.RootsAlong(rootOf, EntitiesOf(batch))
    decreases |nodes|
  {
    hide Replays, Batch, Progress.Valid;
    if nodes == [] {
      assert q == p by { AllNone(next, p, q); }
      batch := [];
      assert p.notes + [] == p.notes;
    } else {
      var first, rest := SpawnNode(nodes[0], None, next), SpawnAll(nodes[1..], next + Size(nodes[0]));
      var m := ReplaysSplit(first, rest, p, q);
      var one := SpawnReplayed(nodes[0], next, p, m);
      SpawnIsRow(nodes[0], next, next);
      RowFills(Preorder(nodes[0]), next, next, p, m);
      assert m.Valid() by { BatchValid(p, m, one, m.RootAt(next)); }
      var others := SpawnsReplayed(nodes[1..], next + Size(nodes[0]), m, q, rootOf);
      BatchesJoin(p, m, q, one, others, m.RootAt(next));
      batch := one + others;
    }
  }

  lemma BatchValid(p: Progress, q: Progress, batch: seq<SpawnRecord>, root: EntityId)
    requires Batch(p, q, batch, root)
    ensures q.Valid()
  {}

  lemma AllNone(next: nat, p: Progress, q: Progress)
    requires Replays(SpawnAll([], next), p, q)
    ensures p == q
  {}
}
