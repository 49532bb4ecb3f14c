/** The sync point: all recorded commands, in order, against the world. */
module Replays {
  import opened Bytes
  import opened Results
  import opened Entities
  import opened Archetypes
  import opened WorldStates
  import opened WorldOperations
  import opened WorldTheorems
  import opened CommandBuffers

  // --- order ----------------------------------------------------------------------------------------

  datatype Ref = Ref(sortKey: nat, buffer: nat, command: nat)

  /** Ascending key, then buffer, then recording order. */
  predicate Before(a: Ref, b: Ref) {
    a.sortKey < b.sortKey || (a.sortKey == b.sortKey && (a.buffer < b.buffer || (a.buffer == b.buffer && a.command < b.command)))
  }

  predicate InOrder(refs: seq<Ref>) {
    forall i, j :: 0 <= i < j < |refs| ==> Before(refs[i], refs[j])
  }

  function RefsOf(commands: seq<Recorded>, buffer: nat, c: nat): seq<Ref>
    requires c <= |commands|
    decreases |commands| - c
  {
    if c == |commands| then [] else [Ref(commands[c].sortKey, buffer, c)] + RefsOf(commands, buffer, c + 1)
  }

  /** The references as they are gathered: buffer after buffer. */
  function Gathered(buffers: seq<seq<Recorded>>, b: nat): seq<Ref>
    requires b <= |buffers|
  {
    if b == 0 then [] else Gathered(buffers, b - 1) + RefsOf(buffers[b - 1], b - 1, 0)
  }

  /** Puts a reference behind all with the same or a lower key. */
  function Insert(refs: seq<Ref>, r: Ref): seq<Ref> {
    if refs == [] || r.sortKey >= refs[|refs| - 1].sortKey then refs + [r]
    else Insert(refs[..|refs| - 1], r) + [refs[|refs| - 1]]
  }

  /** In ascending key order, equal keys in the order given. */
  function StableSorted(refs: seq<Ref>): seq<Ref> {
    if refs == [] then [] else Insert(StableSorted(refs[..|refs| - 1]), refs[|refs| - 1])
  }

  predicate IsRef(buffers: seq<seq<Recorded>>, r: Ref) {
    r.buffer < |buffers| && r.command < |buffers[r.buffer]| && r.sortKey == buffers[r.buffer][r.command].sortKey
  }

  lemma {:induction false} RefsAre(commands: seq<Recorded>, buffer: nat, c: nat, r: Ref)
    requires c <= |commands|
    ensures r in RefsOf(commands, buffer, c) <==>
      r.buffer == buffer && c <= r.command < |commands| && r.sortKey == commands[r.command].sortKey
    decreases |commands| - c
  {
    if c < |commands| {
      RefsAre(commands, buffer, c + 1, r);
    }
  }

  lemma {:induction false} GatheredAre(buffers: seq<seq<Recorded>>, b: nat, r: Ref)
    requires b <= |buffers|
    ensures r in Gathered(buffers, b) <==> r.buffer < b && IsRef(buffers, r)
  {
    if b > 0 {
      GatheredAre(buffers, b - 1, r);
      RefsAre(buffers[b - 1], b - 1, 0, r);
    }
  }

  /** Gathered in buffer and recording order. */
  predicate Ascending(refs: seq<Ref>) {
    forall i, j :: 0 <= i < j < |refs| ==>
      refs[i].buffer < refs[j].buffer || (refs[i].buffer == refs[j].buffer && refs[i].command < refs[j].command)
  }

  lemma {:induction false} RefsAscend(commands: seq<Recorded>, buffer: nat, c: nat)
    requires c <= |commands|
    ensures Ascending(RefsOf(commands, buffer, c))
    decreases |commands| - c
  {
    if c < |commands| {
      RefsAscend(commands, buffer, c + 1);
      var tail := RefsOf(commands, buffer, c + 1);
      forall j | 0 <= j < |tail| ensures tail[j].buffer == buffer && tail[j].command > c {
        RefsAre(commands, buffer, c + 1, tail[j]);
      }
    }
  }

  lemma {:induction false} GatheredAscend(buffers: seq<seq<Recorded>>, b: nat)
    requires b <= |buffers|
    ensures Ascending(Gathered(buffers, b))
  {
    if b > 0 {
      GatheredAscend(buffers, b - 1);
      RefsAscend(buffers[b - 1], b - 1, 0);
      var head, tail := Gathered(buffers, b - 1), RefsOf(buffers[b - 1], b - 1, 0);
      forall i | 0 <= i < |head| ensures head[i].buffer < b - 1 { GatheredAre(buffers, b - 1, head[i]); }
      forall j | 0 <= j < |tail| ensures tail[j].buffer == b - 1 { RefsAre(buffers[b - 1], b - 1, 0, tail[j]); }
    }
  }

  lemma {:induction false} InsertInOrder(refs: seq<Ref>, r: Ref)
    requires InOrder(refs)
    requires forall i :: 0 <= i < |refs| ==> refs[i].buffer < r.buffer || (refs[i].buffer == r.buffer && refs[i].command < r.command)
    ensures InOrder(Insert(refs, r)) && multiset(Insert(refs, r)) == multiset(refs) + multiset{r}
    decreases |refs|
  {
    if refs != [] && r.sortKey < refs[|refs| - 1].sortKey {
      var n := |refs| - 1;
      InsertInOrder(refs[..n], r);
      assert refs == refs[..n] + [refs[n]];
      var front := Insert(refs[..n], r);
      assert Insert(refs, r) == front + [refs[n]];
      hide Insert;
      FrontBefore(refs[..n], r, front, refs[n]);
    }
  }

  lemma FrontBefore(refs: seq<Ref>, r: Ref, front: seq<Ref>, last: Ref)
    requires multiset(front) == multiset(refs) + multiset{r} && Before(r, last) && forall i :: 0 <= i < |refs| ==> Before(refs[i], last)
    ensures forall i :: 0 <= i < |front| ==> Before(front[i], last)
  {
    hide Before;
    forall i | 0 <= i < |front| ensures Before(front[i], last) {
      assert front[i] in multiset(front);
      assert front[i] == r || front[i] in refs;
    }
  }

  /** The stable sort gives the one order the command buffers promise. */
  lemma {:induction false} SortedInOrder(refs: seq<Ref>)
    requires Ascending(refs)
    ensures InOrder(StableSorted(refs)) && multiset(StableSorted(refs)) == multiset(refs)
    decreases |refs|
  {
    if refs != [] {
      var n := |refs| - 1;
      SortedInOrder(refs[..n]);
      assert refs == refs[..n] + [refs[n]];
      var front := StableSorted(refs[..n]);
      hide Insert, InOrder;
      forall i | 0 <= i < |front|
        ensures front[i].buffer < refs[n].buffer || (front[i].buffer == refs[n].buffer && front[i].command < refs[n].command)
      {
        assert front[i] in multiset(front);
        assert front[i] in refs[..n];
        var k :| 0 <= k < n && refs[k] == front[i];
      }
      InsertInOrder(front, refs[n]);
    }
  }

  /** The order of a replay. */
  function ReplayOrder(buffers: seq<seq<Recorded>>): seq<Ref> {
    StableSorted(Gathered(buffers, |buffers|))
  }

  /** Every recorded command exactly once, by key, then buffer, then recording order. */
  lemma ReplayOrderIs(buffers: seq<seq<Recorded>>)
    ensures InOrder(ReplayOrder(buffers))
    ensures forall r: Ref :: r in ReplayOrder(buffers) <==> IsRef(buffers, r)
  {
    var g := Gathered(buffers, |buffers|);
    GatheredAscend(buffers, |buffers|);
    SortedInOrder(g);
    forall r: Ref ensures r in ReplayOrder(buffers) <==> IsRef(buffers, r) {
      GatheredAre(buffers, |buffers|, r);
      assert r in multiset(ReplayOrder(buffers)) <==> r in multiset(g);
    }
  }

  // --- one command ----------------------------------------------------------------------------------

  datatype Managed = Managed(owner: EntityId, typed: bool, state: seq<byte>)

  datatype Progress = Progress(state: State, managed: map<nat, Managed>, created: seq<seq<EntityId>>, applied: nat, skipped: nat)
  {
    function Count(ok: bool): Progress {
      if ok then this.(applied := applied + 1) else this.(skipped := skipped + 1)
    }

    function Fill(b: nat, slot: nat, e: EntityId): Progress
      requires b < |created| && slot < |created[b]|
    {
      this.(created := created[b := created[b][slot := e]])
    }
  }

  predicate SlotsOk(created: seq<seq<EntityId>>, b: nat, action: Action) {
    b < |created| && match action
      case Create(_, slot) => slot < |created[b]|
      case Clone(_, slot) => slot < |created[b]|
      case Destroy(t) => TargetOk(created[b], t)
      case Add(t, _) => TargetOk(created[b], t)
      case Remove(t, _) => TargetOk(created[b], t)
      case Set(t, _, _) => TargetOk(created[b], t)
      case Enable(t, _, _) => TargetOk(created[b], t)
      case SetMark(t, _) => TargetOk(created[b], t)
      case WriteManaged(t, _, _) => TargetOk(created[b], t)
      case Link(t, _, _, reference) => TargetOk(created[b], t) && (reference.Some? ==> reference.value < |created[b]|)
      case Call(t, _) => TargetOk(created[b], t)
  }

  predicate TargetOk(slots: seq<EntityId>, t: Target) {
    t.Pending? ==> t.slot < |slots|
  }

  function Resolve(slots: seq<EntityId>, t: Target): EntityId
    requires TargetOk(slots, t)
  {
    match t
    case Existing(e) => e
    case Pending(slot) => slots[slot]
  }

  function TargetOfAction(action: Action): Target
    requires !action.Create? && !action.Clone?
  {
    action.target
  }

  /** A handle as it lies in memory: index, then generation. */
  function HandleBytes(e: EntityId): (r: seq<byte>)
    ensures |r| == 8
  {
    Little(4, e.index) + Little(4, e.generation)
  }

  ghost predicate Ready(cfg: Config, p: Progress, b: nat, action: Action) {
    p.state.Valid(cfg) && SlotsOk(p.created, b, action)
  }

  ghost function Replayed(cfg: Config, mem: Memory, p: Progress, b: nat, action: Action): Progress
    requires Ready(cfg, p, b, action)
  {
    match action
    case Create(mask, slot) =>
      var o := WorldOperations.Create(cfg, mem, p.state, mask, false);
      (if o.result.Ok? then p.Fill(b, slot, o.result.value) else p).(state := o.state).Count(o.result.Ok?)
    case Clone(source, slot) =>
      var o := CloneEntity(cfg, mem, p.state, source);
      (if o.result.Ok? then p.Fill(b, slot, o.result.value) else p).(state := o.state).Count(o.result.Ok?)
    case _ =>
      var e := Resolve(p.created[b], TargetOfAction(action));
      if !p.state.table.IsAlive(e) then p.Count(false)
      else AppliedTo(cfg, mem, p, b, action, e)
  }

  ghost function AppliedTo(cfg: Config, mem: Memory, p: Progress, b: nat, action: Action, e: EntityId): Progress
    requires Ready(cfg, p, b, action) && p.state.table.IsAlive(e) && !action.Create? && !action.Clone?
  {
    var s := p.state;
    match action
    case Destroy(_) =>
      var o := DestroyEntity(cfg, s, e); p.(state := o.state).Count(o.result.Ok?)
    case Add(_, x) =>
      var o := AddComponent(cfg, mem, s, e, x); p.(state := o.state).Count(o.result.Ok?)
    case Remove(_, x) =>
      var o := RemoveComponent(cfg, mem, s, e, x); p.(state := o.state).Count(o.result.Ok?)
    case Set(_, x, bytes) =>
      if x in s.RowOf(e).values && |bytes| == cfg.Size(x) then p.(state := SetComponent(cfg, s, e, x, bytes)).Count(true)
      else p.Count(false)
    case Enable(_, x, enabled) =>
      if x in s.archetypes[s.HomeOf(e)].mask then p.(state := SetEnabled(cfg, s, e, x, enabled)).Count(true)
      else p.Count(false)
    case SetMark(_, mark) =>
      var o := WorldOperations.SetMark(cfg, s, e, mark); p.(state := o.state).Count(o.result.Ok?)
    case WriteManaged(_, handle, bytes) =>
      if handle in p.managed && p.managed[handle].typed && p.managed[handle].owner == e && |p.managed[handle].state| == |bytes|
      then p.(managed := p.managed[handle := p.managed[handle].(state := bytes)]).Count(true)
      else p.Count(false)
    case Link(_, x, offset, reference) =>
      var r := if reference.Some? then p.created[b][reference.value] else INVALID_ENTITY;
      LiveShape(cfg, s, e);
      if r.IsValid() && x in s.RowOf(e).values && offset + 8 <= cfg.Size(x)
      then p.(state := SetComponent(cfg, s, e, x, Patched(s.RowOf(e).values[x], offset, HandleBytes(r)))).Count(true)
      else p.Count(false)
    case Call(_, callable) => p.Count(callable)
  }
}
