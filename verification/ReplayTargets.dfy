/** What the commands of a replay act on: an entity that exists, or the one that an earlier creation of
    the same buffer made. */
module ReplayTargets {
  import opened Bytes
  import opened Results
  import opened Entities
  import opened Archetypes
  import opened WorldStates
  import opened WorldTheorems
  import opened CommandBuffers
  import opened Replays
  import opened ReplayTheorems

  /** The command names the entity itself, or the creation slot that holds it. */
  predicate ActsOn(p: MapProgress, b: nat, action: Action, e: EntityId) {
    !action.Create? && !action.Clone? && match action.target
      case Existing(x) => x == e
      case Pending(slot) => b < |p.created| && slot < |p.created[b]| && p.created[b][slot] == e
  }

  /** Eight bytes of the value hold the handle, index first; the others are as they were. */
  predicate Linked(before: seq<byte>, after: seq<byte>, offset: nat, r: EntityId) {
    && offset + 8 <= |before| && |after| == |before|
    && (forall k :: 0 <= k < |before| && !(offset <= k < offset + 8) ==> after[k] == before[k])
    && (r.index < Limit(4) ==> Number(after[offset..offset + 4]) == r.index)
    && (r.generation < Limit(4) ==> Number(after[offset + 4..offset + 8]) == r.generation)
  }

  /** What an applied command leaves behind. */
  predicate Done(cfg: Config, p: MapProgress, q: MapProgress, b: nat, action: Action, e: EntityId)
    requires SlotsOk(p.created, b, action)
  {
    && e in p.entities && (action.Destroy? || e in q.entities) && (action.WriteManaged? || q.managed == p.managed)
    && var x := p.entities[e];
       match action
       case Create(_, _) => false
       case Clone(_, _) => false
       case Destroy(_) => e !in q.entities
       case Add(_, t) =>
         && q.entities[e].enabled == x.enabled[t := true] && q.entities[e].mark == x.mark
         && (if cfg.HasColumn(t) then q.entities[e].values == x.values[t := cfg.infos[t].initial] else q.entities[e].values == x.values)
       case Remove(_, t) => q.entities[e].enabled == x.enabled - {t} && q.entities[e].values == x.values - {t} && q.entities[e].mark == x.mark
       case Set(_, t, bytes) => t in x.values && q.entities[e] == x.(values := x.values[t := bytes])
       case Enable(_, t, enabled) => t in x.enabled && q.entities[e] == x.(enabled := x.enabled[t := enabled])
       case SetMark(_, mark) => q.entities[e] == x.(mark := mark)
       case WriteManaged(_, h, bytes) =>
         && q.entities == p.entities && h in p.managed && p.managed[h].owner == e
         && q.managed == p.managed[h := p.managed[h].(state := bytes)]
       case Link(_, t, offset, reference) =>
         && reference.Some? && t in x.values && t in q.entities[e].values
         && q.entities[e] == x.(values := x.values[t := q.entities[e].values[t]])
         && Linked(x.values[t], q.entities[e].values[t], offset, p.created[b][reference.value])
       case Call(_, callable) => callable && q.entities == p.entities
  }

  /** The command is skipped and changes nothing, or it is applied to e, if that is alive, and changes
      no other entity. */
  ghost predicate Changes(cfg: Config, p: MapProgress, q: MapProgress, b: nat, action: Action, e: EntityId)
    requires SlotsOk(p.created, b, action) && !action.Create? && !action.Clone?
  {
    && (q == p.(skipped := p.skipped + 1) || (q.applied == p.applied + 1 && q.skipped == p.skipped && Done(cfg, p, q, b, action, e)))
    && (forall x :: x != e ==> (x in q.entities <==> x in p.entities) && (x in p.entities ==> q.entities[x] == p.entities[x]))
    && q.created == p.created
    && (e in p.entities ==> exists room: bool :: q == OnEntity(cfg, p, b, action, e, room))
  }

  lemma LinkedBytes(value: seq<byte>, offset: nat, r: EntityId)
    requires offset + 8 <= |value|
    ensures Linked(value, Patched(value, offset, HandleBytes(r)), offset, r)
  {
    var after := Patched(value, offset, HandleBytes(r));
    assert after[offset..offset + 4] == Little(4, r.index) && after[offset + 4..offset + 8] == Little(4, r.generation);
    if r.index < Limit(4) { NumberOfLittle(4, r.index); }
    if r.generation < Limit(4) { NumberOfLittle(4, r.generation); }
  }

  lemma OnEntityChanges(cfg: Config, p: MapProgress, b: nat, action: Action, e: EntityId, room: bool)
    requires SlotsOk(p.created, b, action) && e in p.entities && !action.Create? && !action.Clone?
    ensures Changes(cfg, p, OnEntity(cfg, p, b, action, e, room), b, action, e)
  {
    hide Linked, Patched, HandleBytes;
    if action.Link? && action.reference.Some? && action.component in p.entities[e].values {
      var value, r := p.entities[e].values[action.component], p.created[b][action.reference.value];
      if action.offset + 8 <= |value| {
        LinkedBytes(value, action.offset, r);
      }
    }
  }

  /** A command acts on the entity it names, and on no other. */
  lemma ActsOnItsTarget(cfg: Config, mem: Memory, p: MapProgress, q: MapProgress, b: nat, action: Action, e: EntityId)
    requires FoldStep(cfg, mem, p, q, b, action) && ActsOn(p, b, action, e)
    ensures Changes(cfg, p, q, b, action, e)
  {
    hide Changes, Answers;
    var handle: Option<EntityId>, room: bool :| q == OnMap(cfg, p, b, action, handle, room);
    match action
    case Create(_, _) =>
    case Clone(_, _) =>
    case _ =>
      if e in p.entities {
        assert OnMap(cfg, p, b, action, handle, room) == OnEntity(cfg, p, b, action, e, room);
        OnEntityChanges(cfg, p, b, action, e, room);
      } else {
        SkippedChanges(cfg, p, b, action, e);
      }
  }

  lemma SkippedChanges(cfg: Config, p: MapProgress, b: nat, action: Action, e: EntityId)
    requires SlotsOk(p.created, b, action) && !action.Create? && !action.Clone? && e !in p.entities
    ensures Changes(cfg, p, p.Count(false), b, action, e)
  {}

  /** Before its creation a pending entity is nothing: what is replayed on it then is skipped. */
  lemma UnfilledIsSkipped(cfg: Config, mem: Memory, p: Progress, b: nat, action: Action)
    requires Ready(cfg, p, b, action) && !action.Create? && !action.Clone? && action.target.Pending?
    requires action.target.slot < |p.created[b]| && p.created[b][action.target.slot] == EntityId(0, 0)
    ensures Replayed(cfg, mem, p, b, action) == p.(skipped := p.skipped + 1)
  {
    hide State.Valid, AppliedTo;
    var e := Resolve(p.created[b], TargetOfAction(action));
    assert e == EntityId(0, 0) && !p.state.table.IsAlive(e);
    assert Replayed(cfg, mem, p, b, action) == p.Count(false);
  }

  // --- whole replays --------------------------------------------------------------------------------

  /** The state of the map between two commands. */
  lemma {:induction false} FoldsSplit(cfg: Config, mems: seq<Memory>, buffers: seq<seq<Recorded>>, refs: seq<Ref>, p: MapProgress, q: MapProgress, j: nat)
    returns (u: MapProgress)
    requires |mems| == |refs| && j <= |refs| && forall k :: 0 <= k < |refs| ==> IsRef(buffers, refs[k])
    requires Folds(cfg, mems, buffers, refs, p, q)
    ensures Folds(cfg, mems[..j], buffers, refs[..j], p, u) && Folds(cfg, mems[j..], buffers, refs[j..], u, q)
    decreases j
  {
    hide FoldStep;
    if j == 0 {
      u := p;
      assert mems[0..] == mems && refs[0..] == refs;
    } else {
      var next: MapProgress :| FoldStep(cfg, mems[0], p, next, refs[0].buffer, ActionAt(buffers, refs[0])) && Folds(cfg, mems[1..], buffers, refs[1..], next, q);
      u := FoldsSplit(cfg, mems[1..], buffers, refs[1..], next, q, j - 1);
      assert mems[..j][1..] == mems[1..][..j - 1] && refs[..j][1..] == refs[1..][..j - 1];
      assert mems[1..][j - 1..] == mems[j..] && refs[1..][j - 1..] == refs[j..];
      assert refs[..j][0] == refs[0] && mems[..j][0] == mems[0];
    }
  }

  /** Nobody else fills the slot. */
  predicate Unfilled(buffers: seq<seq<Recorded>>, refs: seq<Ref>, b: nat, slot: nat)
    requires forall k :: 0 <= k < |refs| ==> IsRef(buffers, refs[k])
  {
    forall k :: 0 <= k < |refs| && refs[k].buffer == b ==> !Fills(ActionAt(buffers, refs[k]), slot)
  }

  lemma {:induction false} SlotKept(cfg: Config, mems: seq<Memory>, buffers: seq<seq<Recorded>>, refs: seq<Ref>, p: MapProgress, q: MapProgress,
                                    b: nat, slot: nat)
    requires |mems| == |refs| && (forall k :: 0 <= k < |refs| ==> IsRef(buffers, refs[k])) && Folds(cfg, mems, buffers, refs, p, q)
    requires b < |p.created| && slot < |p.created[b]| && Unfilled(buffers, refs, b, slot)
    ensures b < |q.created| && slot < |q.created[b]| && q.created[b][slot] == p.created[b][slot]
    decreases |refs|
  {
    hide FoldStep;
    if refs != [] {
      var c, action := refs[0].buffer, ActionAt(buffers, refs[0]);
      var next: MapProgress :| FoldStep(cfg, mems[0], p, next, c, action) && Folds(cfg, mems[1..], buffers, refs[1..], next, q);
      SlotsOfOthers(cfg, mems[0], p, next, c, action, b, slot);
      SlotKept(cfg, mems[1..], buffers, refs[1..], next, q, b, slot);
    }
  }

  /** Each creation of a buffer has its own slot. */
  ghost predicate OwnSlots(commands: seq<Recorded>) {
    forall c, d, slot: nat {:trigger Fills(commands[c].action, slot), Fills(commands[d].action, slot)} ::
      0 <= c < d < |commands| && Fills(commands[c].action, slot) ==> !Fills(commands[d].action, slot)
  }

  /** A buffer gives its creations their own slots. */
  lemma RecordedSlots(buffer: CommandBuffer)
    requires buffer.Valid()
    ensures OwnSlots(buffer.Contents())
  {
    var commands := buffer.Contents();
    forall c, d, slot: nat | 0 <= c < d < |commands| && Fills(commands[c].action, slot)
      ensures !Fills(commands[d].action, slot)
    {
      assert Creates(buffer.commands[c]) && CommandOk(buffer.commands[d], |buffer.createMasks|, |buffer.payload|);
    }
  }

  lemma FilledBefore(buffers: seq<seq<Recorded>>, refs: seq<Ref>, i: nat, b: nat, slot: nat)
    requires InOrder(refs) && (forall k :: 0 <= k < |refs| ==> IsRef(buffers, refs[k])) && i < |refs|
    requires refs[i].buffer == b && Fills(ActionAt(buffers, refs[i]), slot) && OwnSlots(buffers[b])
    ensures Unfilled(buffers, refs[i + 1..], b, slot)
  {
    var later := refs[i + 1..];
    forall k | 0 <= k < |later| && later[k].buffer == b ensures !Fills(ActionAt(buffers, later[k]), slot) {
      assert Before(refs[i], refs[i + 1 + k]);
      FilledElsewhere(buffers[b], refs[i].command, later[k].command, slot);
    }
  }

  lemma FilledElsewhere(commands: seq<Recorded>, c: nat, d: nat, slot: nat)
    requires OwnSlots(commands) && c < |commands| && d < |commands| && c != d && Fills(commands[c].action, slot)
    ensures !Fills(commands[d].action, slot)
  {
    if d < c && Fills(commands[d].action, slot) {
      assert false;
    }
  }

  /** A pending entity is reached: once command i of the replay has made the entity of a slot, every later
      command of that buffer on the slot acts on that entity and on no other. */
  lemma PendingReaches(cfg: Config, mems: seq<Memory>, buffers: seq<seq<Recorded>>, refs: seq<Ref>, p: MapProgress, q: MapProgress,
                       b: nat, slot: nat, i: nat, m: MapProgress, n: MapProgress, j: nat) returns (u: MapProgress, v: MapProgress)
    requires |mems| == |refs| && InOrder(refs) && forall k :: 0 <= k < |refs| ==> IsRef(buffers, refs[k])
    requires MadeBy(cfg, mems, buffers, refs, p, q, b, slot, i, m, n) && OwnSlots(buffers[b])
    requires i < j < |refs| && refs[j].buffer == b
    requires var action := buffers[b][refs[j].command].action; !action.Create? && !action.Clone? && action.target == Pending(slot)
    ensures Folds(cfg, mems[i + 1..j], buffers, refs[i + 1..j], n, u) && Folds(cfg, mems[j + 1..], buffers, refs[j + 1..], v, q)
    ensures var action := buffers[b][refs[j].command].action;
      && b < |q.created| && slot < |q.created[b]| && FoldStep(cfg, mems[j], u, v, b, action)
      && Changes(cfg, u, v, b, action, q.created[b][slot])
  {
    hide FoldStep, Changes, OnMap, Answers;
    var later, action := refs[i + 1..], buffers[b][refs[j].command].action;
    FilledBefore(buffers, refs, i, b, slot);
    u := FoldsSplit(cfg, mems[i + 1..], buffers, later, n, q, j - i - 1);
    assert mems[i + 1..][..j - i - 1] == mems[i + 1..j] && later[..j - i - 1] == refs[i + 1..j];
    assert mems[i + 1..][j - i - 1..] == mems[j..] && later[j - i - 1..] == refs[j..];
    assert mems[j..][0] == mems[j] && refs[j..][0] == refs[j] && mems[j..][1..] == mems[j + 1..] && refs[j..][1..] == refs[j + 1..];
    v :| FoldStep(cfg, mems[j], u, v, b, action) && Folds(cfg, mems[j + 1..], buffers, refs[j + 1..], v, q);
    assert forall k :: 0 <= k < j - i - 1 ==> refs[i + 1..j][k] == later[k];
    SlotKept(cfg, mems[i + 1..j], buffers, refs[i + 1..j], n, u, b, slot);
    ActsOnItsTarget(cfg, mems[j], u, v, b, action, q.created[b][slot]);
  }
}
