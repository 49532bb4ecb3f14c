/** Recording structural changes for the next sync point. */
module CommandBuffers {
  import opened Bytes
  import opened Results
  import opened Entities
  import opened Archetypes
  import opened WorldStates

  /** An entity that exists, or the one a creation recorded earlier in the same buffer will make. */
  datatype Target = Existing(e: EntityId) | Pending(slot: nat)

  /** What was asked for, with the bytes as they were at recording time. */
  datatype Action =
    | Create(mask: set<nat>, slot: nat)
    | Clone(source: EntityId, slot: nat)
    | Destroy(target: Target)
    | Add(target: Target, component: nat)
    | Remove(target: Target, component: nat)
    | Set(target: Target, component: nat, bytes: seq<byte>)
    | Enable(target: Target, component: nat, enabled: bool)
    | SetMark(target: Target, mark: Mark)
    | WriteManaged(target: Target, handle: nat, bytes: seq<byte>)
    | Link(target: Target, component: nat, offset: nat, reference: Option<nat>)
    | Call(target: Target, callable: bool)

  datatype Recorded = Recorded(sortKey: nat, action: Action)

  datatype Op = OpCreate | OpClone | OpDestroy | OpAdd | OpRemove | OpSet | OpEnable | OpMark | OpManagedState | OpLink | OpCall

  /** One record; byte payloads live in the buffer's arena, creation masks in their own list. */
  datatype Command = Command(
    sortKey: nat, op: Op, flag: bool, mark: Mark, managed: nat, component: nat, entity: EntityId,
    pending: Option<nat>, reference: Option<nat>, payloadOffset: nat, payloadSize: nat)

  function TargetOf(c: Command): Target {
    if c.pending.Some? then Pending(c.pending.value) else Existing(c.entity)
  }

  predicate CommandOk(c: Command, masks: nat, payload: nat) {
    && (c.op.OpCreate? || c.op.OpClone? ==> c.pending.Some?)
    && (c.pending.Some? ==> c.pending.value < masks) && (c.reference.Some? ==> c.reference.value < masks)
    && (c.op.OpSet? || c.op.OpManagedState? || c.op.OpCall? ==> c.payloadOffset + c.payloadSize <= payload)
  }

  function Meaning(c: Command, masks: seq<set<nat>>, payload: seq<byte>): Recorded
    requires CommandOk(c, |masks|, |payload|)
  {
    Recorded(c.sortKey, match c.op
      case OpCreate => Create(masks[c.pending.value], c.pending.value)
      case OpClone => Clone(c.entity, c.pending.value)
      case OpDestroy => Destroy(TargetOf(c))
      case OpAdd => Add(TargetOf(c), c.component)
      case OpRemove => Remove(TargetOf(c), c.component)
      case OpSet => Set(TargetOf(c), c.component, payload[c.payloadOffset..c.payloadOffset + c.payloadSize])
      case OpEnable => Enable(TargetOf(c), c.component, c.flag)
      case OpMark => SetMark(TargetOf(c), c.mark)
      case OpManagedState => WriteManaged(TargetOf(c), c.managed, payload[c.payloadOffset..c.payloadOffset + c.payloadSize])
      case OpLink => Link(TargetOf(c), c.component, c.payloadOffset, c.reference)
      case OpCall => Call(TargetOf(c), c.flag))
  }

  /** Later recordings only append, so what a command means does not change. */
  lemma MeaningStays(c: Command, masks: seq<set<nat>>, payload: seq<byte>, moreMasks: seq<set<nat>>, more: seq<byte>)
    requires CommandOk(c, |masks|, |payload|)
    ensures CommandOk(c, |masks + moreMasks|, |payload + more|)
    ensures Meaning(c, masks + moreMasks, payload + more) == Meaning(c, masks, payload)
  {
    if c.op.OpSet? || c.op.OpManagedState? || c.op.OpCall? {
      assert (payload + more)[c.payloadOffset..c.payloadOffset + c.payloadSize] == payload[c.payloadOffset..c.payloadOffset + c.payloadSize];
    }
  }

  /** The command takes a creation slot. */
  predicate Creates(c: Command) {
    c.op.OpCreate? || c.op.OpClone?
  }

  function NoCommand(sortKey: nat, op: Op): Command {
    Command(sortKey, op, false, Unmarked, 0, 0, INVALID_ENTITY, None, None, 0, 0)
  }

  function At(c: Command, target: Target): Command {
    match target
    case Existing(e) => c.(entity := e)
    case Pending(slot) => c.(pending := Some(slot))
  }

  class CommandBuffer {
    var sortKey: nat
    var commands: seq<Command>
    var createMasks: seq<set<nat>>
    var payload: seq<byte>

    predicate Valid()
      reads this
    {
      && (forall i :: 0 <= i < |commands| ==> CommandOk(commands[i], |createMasks|, |payload|))
      && SlotsAscend()
    }

    /** Creations take their slots in the order of recording, each its own. */
    predicate SlotsAscend()
      reads this
    {
      forall i, j :: 0 <= i < j < |commands| && Creates(commands[i]) && Creates(commands[j]) ==>
        commands[i].pending.Some? && commands[j].pending.Some? && commands[i].pending.value < commands[j].pending.value
    }

    /** The commands a replay will see. */
    function Contents(): seq<Recorded>
      requires Valid()
      reads this
    {
      seq(|commands|, i requires 0 <= i < |commands| && Valid() reads this => Meaning(commands[i], createMasks, payload))
    }

    predicate Known(target: Target)
      reads this
    {
      target.Pending? ==> target.slot < |createMasks|
    }

    constructor ()
      ensures Valid() && Contents() == [] && sortKey == 0 && createMasks == []
    {
      sortKey, commands, createMasks, payload := 0, [], [], [];
    }

    /** Commands keep the key that was set when they were recorded. */
    method SetSortKey(key: nat)
      requires Valid()
      modifies this`sortKey
      ensures Valid() && sortKey == key && Contents() == old(Contents())
    {
      sortKey := key;
    }

    /** Appends a command whose masks and bytes are already stored. */
    method Record(c: Command, ghost masks: seq<set<nat>>, ghost bytes: seq<byte>, ghost before: seq<Recorded>)
      requires masks <= createMasks && bytes <= payload && CommandOk(c, |createMasks|, |payload|)
      requires forall i :: 0 <= i < |commands| ==> CommandOk(commands[i], |masks|, |bytes|)
      requires SlotsAscend() && (Creates(c) ==> c.pending.Some? && c.pending.value >= |masks|)
      requires |before| == |commands| && forall i :: 0 <= i < |commands| ==> before[i] == Meaning(commands[i], masks, bytes)
      modifies this`commands
      ensures Valid() && Contents() == before + [Meaning(c, createMasks, payload)]
    {
      forall i | 0 <= i < |commands|
        ensures CommandOk(commands[i], |createMasks|, |payload|) && Meaning(commands[i], createMasks, payload) == before[i]
      {
        MeaningStays(commands[i], masks, bytes, createMasks[|masks|..], payload[|bytes|..]);
        assert createMasks == masks + createMasks[|masks|..] && payload == bytes + payload[|bytes|..];
      }
      commands := commands + [c];
    }

    method CreateEntity(mask: set<nat>) returns (slot: nat)
      requires Valid()
      modifies this
      ensures Valid() && slot == |old(createMasks)| && createMasks == old(createMasks) + [mask] && sortKey == old(sortKey)
      ensures Contents() == old(Contents()) + [Recorded(sortKey, Create(mask, slot))]
    {
      ghost var before := Contents();
      slot := |createMasks|;
      createMasks := createMasks + [mask];
      Record(NoCommand(sortKey, OpCreate).(pending := Some(slot)), old(createMasks), payload, before);
    }

    /** A clone takes a creation slot like a creation; the empty mask recorded for it is never used. */
    method CloneEntity(source: EntityId) returns (slot: nat)
      requires Valid()
      modifies this
      ensures Valid() && slot == |old(createMasks)| && createMasks == old(createMasks) + [{}] && sortKey == old(sortKey)
      ensures Contents() == old(Contents()) + [Recorded(sortKey, Clone(source, slot))]
    {
      ghost var before := Contents();
      slot := |createMasks|;
      createMasks := createMasks + [{}];
      Record(NoCommand(sortKey, OpClone).(entity := source, pending := Some(slot)), old(createMasks), payload, before);
    }

    method DestroyEntity(target: Target)
      requires Valid() && Known(target)
      modifies this
      ensures Valid() && createMasks == old(createMasks) && sortKey == old(sortKey)
      ensures Contents() == old(Contents()) + [Recorded(sortKey, Destroy(target))]
    {
      Record(At(NoCommand(sortKey, OpDestroy), target), createMasks, payload, Contents());
    }

    method AddComponent(target: Target, component: nat)
      requires Valid() && Known(target)
      modifies this
      ensures Valid() && createMasks == old(createMasks) && sortKey == old(sortKey)
      ensures Contents() == old(Contents()) + [Recorded(sortKey, Add(target, component))]
    {
      Record(At(NoCommand(sortKey, OpAdd).(component := component), target), createMasks, payload, Contents());
    }

    method RemoveComponent(target: Target, component: nat)
      requires Valid() && Known(target)
      modifies this
      ensures Valid() && createMasks == old(createMasks) && sortKey == old(sortKey)
      ensures Contents() == old(Contents()) + [Recorded(sortKey, Remove(target, component))]
    {
      Record(At(NoCommand(sortKey, OpRemove).(component := component), target), createMasks, payload, Contents());
    }

    /** The bytes are copied now. */
    method SetComponent(target: Target, component: nat, bytes: seq<byte>)
      requires Valid() && Known(target)
      modifies this
      ensures Valid() && createMasks == old(createMasks) && sortKey == old(sortKey)
      ensures Contents() == old(Contents()) + [Recorded(sortKey, Set(target, component, bytes))]
    {
      ghost var before := Contents();
      var offset := |payload|;
      payload := payload + bytes;
      assert payload[offset..offset + |bytes|] == bytes;
      var c := NoCommand(sortKey, OpSet).(component := component, payloadOffset := offset, payloadSize := |bytes|);
      Record(At(c, target), createMasks, old(payload), before);
    }

    method SetComponentEnabled(target: Target, component: nat, enabled: bool)
      requires Valid() && Known(target)
      modifies this
      ensures Valid() && createMasks == old(createMasks) && sortKey == old(sortKey)
      ensures Contents() == old(Contents()) + [Recorded(sortKey, Enable(target, component, enabled))]
    {
      Record(At(NoCommand(sortKey, OpEnable).(component := component, flag := enabled), target), createMasks, payload, Contents());
    }

    method MarkEntity(target: Target, mark: Mark)
      requires Valid() && Known(target)
      modifies this
      ensures Valid() && createMasks == old(createMasks) && sortKey == old(sortKey)
      ensures Contents() == old(Contents()) + [Recorded(sortKey, SetMark(target, mark))]
    {
      Record(At(NoCommand(sortKey, OpMark).(mark := mark), target), createMasks, payload, Contents());
    }

    method LinkEntity(target: Target, component: nat, offset: nat, referenced: Option<nat>)
      requires Valid() && Known(target) && (referenced.Some? ==> referenced.value < |createMasks|)
      modifies this
      ensures Valid() && createMasks == old(createMasks) && sortKey == old(sortKey)
      ensures Contents() == old(Contents()) + [Recorded(sortKey, Link(target, component, offset, referenced))]
    {
      var c := NoCommand(sortKey, OpLink).(component := component, payloadOffset := offset, reference := referenced);
      Record(At(c, target), createMasks, payload, Contents());
    }

    /** Managed state is written on an entity that exists. */
    method WriteManagedState(owner: EntityId, handle: nat, bytes: seq<byte>)
      requires Valid()
      modifies this
      ensures Valid() && createMasks == old(createMasks) && sortKey == old(sortKey)
      ensures Contents() == old(Contents()) + [Recorded(sortKey, WriteManaged(Existing(owner), handle, bytes))]
    {
      ghost var before := Contents();
      var offset := |payload|;
      payload := payload + bytes;
      assert payload[offset..offset + |bytes|] == bytes;
      var c := NoCommand(sortKey, OpManagedState).(managed := handle, payloadOffset := offset, payloadSize := |bytes|);
      Record(At(c, Existing(owner)), createMasks, old(payload), before);
    }

    /** A call of a function on the target; `callable` says whether there is one. */
    method RecordCall(target: Target, callable: bool)
      requires Valid() && Known(target)
      modifies this
      ensures Valid() && createMasks == old(createMasks) && sortKey == old(sortKey)
      ensures Contents() == old(Contents()) + [Recorded(sortKey, Call(target, callable))]
    {
      Record(At(NoCommand(sortKey, OpCall).(flag := callable), target), createMasks, payload, Contents());
    }

    method Clear()
      modifies this
      ensures Valid() && Contents() == [] && createMasks == [] && sortKey == old(sortKey)
    {
      commands, createMasks, payload := [], [], [];
    }
  }
}
