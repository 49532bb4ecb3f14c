/** Messages: routing at the end of a phase, and what each receiver reads over whole runs. */
module Messages {
  import opened Alignments
  import opened Bytes
  import opened Entities
  import opened Lists

  /** A target that is no valid handle makes a broadcast. */
  datatype Message = Message(kind: nat, target: EntityId, payload: seq<byte>)

  datatype Receiver = Receiver(receives: set<nat>, included: bool, query: set<nat> -> bool, divisor: nat)

  /** The component masks of the live entities. */
  type Masks = map<EntityId, set<nat>>

  /** The receiver takes part in this kind of world and declares the type, and a target is alive and
      matches its query. */
  predicate Accepts(r: Receiver, m: Message, masks: Masks) {
    r.included && m.kind in r.receives && (!m.target.IsValid() || (m.target in masks && r.query(masks[m.target])))
  }

  /** The messages of an outbox a receiver is given, in sending order. */
  function Accepted(r: Receiver, sent: seq<Message>, masks: Masks): seq<Message> {
    if sent == [] then []
    else
      var n := |sent| - 1;
      Accepted(r, sent[..n], masks) + if Accepts(r, sent[n], masks) then [sent[n]] else []
  }

  lemma {:induction false} AcceptedJoin(r: Receiver, a: seq<Message>, b: seq<Message>, masks: Masks)
    ensures Accepted(r, a + b, masks) == Accepted(r, a, masks) + Accepted(r, b, masks)
  {
    if b == [] {
      assert a + b == a;
    } else {
      var n := |b| - 1;
      assert (a + b)[..|a| + n] == a + b[..n];
      AcceptedJoin(r, a, b[..n], masks);
    }
  }

  /** The sender's order is kept: a receiver is given the messages at a growing list of positions. Of
      the kinds it declares these are every broadcast and exactly those targeted messages whose target
      is alive and matches its query; a receiver that is not included is given none. */
  lemma {:induction false} InSenderOrder(r: Receiver, sent: seq<Message>, masks: Masks) returns (at: seq<nat>)
    ensures |at| == |Accepted(r, sent, masks)|
    ensures forall k :: 0 <= k < |at| ==> at[k] < |sent| && Accepted(r, sent, masks)[k] == sent[at[k]]
    ensures forall j, k :: 0 <= j < k < |at| ==> at[j] < at[k]
    ensures forall i :: i in at ==> i < |sent| && r.included && sent[i].kind in r.receives
    ensures forall i :: 0 <= i < |sent| && r.included && sent[i].kind in r.receives && !sent[i].target.IsValid() ==> i in at
    ensures forall i :: 0 <= i < |sent| && r.included && sent[i].kind in r.receives && sent[i].target.IsValid() ==>
      (i in at <==> sent[i].target in masks && r.query(masks[sent[i].target]))
  {
    if sent == [] {
      at := [];
    } else {
      var n := |sent| - 1;
      at := InSenderOrder(r, sent[..n], masks);
      if Accepts(r, sent[n], masks) {
        at := at + [n];
        assert at[|at| - 1] == n;
      }
    }
  }

  /** How often a message is given: as often as it was sent, or not at all. */
  lemma {:induction false} GivenAsOften(r: Receiver, sent: seq<Message>, masks: Masks, m: Message)
    ensures multiset(Accepted(r, sent, masks))[m] == if Accepts(r, m, masks) then multiset(sent)[m] else 0
  {
    if sent != [] {
      var n := |sent| - 1;
      assert sent == sent[..n] + [sent[n]];
      GivenAsOften(r, sent[..n], masks, m);
    }
  }

  /** How often routing adds a message to a queue: a broadcast of a declared kind once for each time it
      was sent, a targeted message of such a kind exactly when its target is alive and matches the
      query, anything else never. */
  predicate Arrives(r: Receiver, before: seq<Message>, after: seq<Message>, sent: seq<Message>, masks: Masks, m: Message) {
    var had, has, times := multiset(before)[m], multiset(after)[m], multiset(sent)[m];
    && before <= after
    && (!r.included || m.kind !in r.receives ==> has == had)
    && (r.included && m.kind in r.receives && !m.target.IsValid() ==> has == had + times)
    && (r.included && m.kind in r.receives && m.target.IsValid() ==>
          has == had + if m.target in masks && r.query(masks[m.target]) then times else 0)
  }

  lemma RoutedOnce(r: Receiver, before: seq<Message>, sent: seq<Message>, masks: Masks, m: Message)
    ensures Arrives(r, before, before + Accepted(r, sent, masks), sent, masks, m)
  {
    GivenAsOften(r, sent, masks, m);
  }

  lemma NothingAccepted(receivers: seq<Receiver>, masks: Masks)
    ensures forall s :: 0 <= s < |receivers| ==> Accepted(receivers[s], [], masks) == []
  {}

  // --- runs -----------------------------------------------------------------------------------------

  /** The end of a phase, in which the systems of `ran` ran and those of the phase sent `sent`; or a
      window or hook that sent something. */
  datatype Event = EndPhase(ran: set<nat>, sent: seq<Message>, masks: Masks) | Post(sent: seq<Message>, masks: Masks)

  predicate Ran(event: Event, s: nat) {
    event.EndPhase? && s in event.ran
  }

  /** Routing first; then the queues of the systems that ran are cleared. */
  function After(receivers: seq<Receiver>, inboxes: seq<seq<Message>>, event: Event): (r: seq<seq<Message>>)
    requires |inboxes| == |receivers|
    ensures |r| == |receivers|
  {
    seq(|receivers|, s requires 0 <= s < |receivers| =>
      if Ran(event, s) then [] else inboxes[s] + Accepted(receivers[s], event.sent, event.masks))
  }

  function AfterAll(receivers: seq<Receiver>, inboxes: seq<seq<Message>>, events: seq<Event>): (r: seq<seq<Message>>)
    requires |inboxes| == |receivers|
    ensures |r| == |receivers|
    decreases |events|
  {
    if events == [] then inboxes else AfterAll(receivers, After(receivers, inboxes, events[0]), events[1..])
  }

  /** What system s reads over the events: when it runs, all of its queue. */
  function Reads(receivers: seq<Receiver>, inboxes: seq<seq<Message>>, events: seq<Event>, s: nat): seq<Message>
    requires |inboxes| == |receivers| && s < |receivers|
    decreases |events|
  {
    if events == [] then []
    else (if Ran(events[0], s) then inboxes[s] else []) + Reads(receivers, After(receivers, inboxes, events[0]), events[1..], s)
  }

  /** What is addressed to system s over the events, except by systems of its own phase while it runs. */
  function Addressed(r: Receiver, events: seq<Event>, s: nat): seq<Message> {
    if events == [] then []
    else (if Ran(events[0], s) then [] else Accepted(r, events[0].sent, events[0].masks)) + Addressed(r, events[1..], s)
  }

  /** Exactly once and in order: what a system has read, followed by what still waits, is what waited
      at the start followed by everything addressed to it. */
  lemma {:induction false} DeliveredOnce(receivers: seq<Receiver>, inboxes: seq<seq<Message>>, events: seq<Event>, s: nat)
    requires |inboxes| == |receivers| && s < |receivers|
    ensures Reads(receivers, inboxes, events, s) + AfterAll(receivers, inboxes, events)[s] == inboxes[s] + Addressed(receivers[s], events, s)
    decreases |events|
  {
    if events == [] {
      assert [] + inboxes[s] == inboxes[s] + [];
    } else {
      var next := After(receivers, inboxes, events[0]);
      DeliveredOnce(receivers, next, events[1..], s);
      var later, waiting, rest := Reads(receivers, next, events[1..], s), AfterAll(receivers, inboxes, events)[s], Addressed(receivers[s], events[1..], s);
      if Ran(events[0], s) {
        assert (inboxes[s] + later) + waiting == inboxes[s] + (later + waiting);
        assert later + waiting == [] + rest;
      } else {
        var given := Accepted(receivers[s], events[0].sent, events[0].masks);
        assert [] + later == later;
        assert (inboxes[s] + given) + rest == inboxes[s] + (given + rest);
      }
    }
  }

  /** A message is read in the next run and in no other: until s runs, what is addressed to it waits;
      its run reads exactly that; and nothing is left for the run after. */
  lemma ReadInNextRun(receivers: seq<Receiver>, inboxes: seq<seq<Message>>, events: seq<Event>, run: Event, s: nat)
    requires |inboxes| == |receivers| && s < |receivers| && Ran(run, s)
    requires forall i :: 0 <= i < |events| ==> !Ran(events[i], s)
    ensures Reads(receivers, inboxes, events, s) == []
    ensures Reads(receivers, AfterAll(receivers, inboxes, events), [run], s) == inboxes[s] + Addressed(receivers[s], events, s)
    ensures After(receivers, AfterAll(receivers, inboxes, events), run)[s] == []
  {
    DeliveredOnce(receivers, inboxes, events, s);
    NothingRead(receivers, inboxes, events, s);
  }

  lemma {:induction false} NothingRead(receivers: seq<Receiver>, inboxes: seq<seq<Message>>, events: seq<Event>, s: nat)
    requires |inboxes| == |receivers| && s < |receivers| && forall i :: 0 <= i < |events| ==> !Ran(events[i], s)
    ensures Reads(receivers, inboxes, events, s) == []
    decreases |events|
  {
    if events != [] {
      NothingRead(receivers, After(receivers, inboxes, events[0]), events[1..], s);
    }
  }

  /** Within a phase there is no delivery: what a system of the phase sends to one that runs in it is
      cleared unread. */
  lemma SamePhaseIsLost(receivers: seq<Receiver>, inboxes: seq<seq<Message>>, run: Event, s: nat, m: Message)
    requires |inboxes| == |receivers| && s < |receivers| && Ran(run, s)
    requires m in run.sent && Accepts(receivers[s], m, run.masks) && m !in inboxes[s]
    ensures m !in Reads(receivers, inboxes, [run], s) && m !in After(receivers, inboxes, run)[s]
  {
    assert Reads(receivers, inboxes, [run], s) == inboxes[s];
  }

  // --- rates ----------------------------------------------------------------------------------------

  /** Whether a downclocked system runs in its frame. */
  predicate Turn(divisor: nat, frames: nat) {
    divisor <= 1 || frames % divisor == 0
  }

  predicate TurnIn(divisor: nat, frames: nat, later: nat) {
    Turn(divisor, frames + later)
  }

  /** In any `divisor` frames in a row a system has exactly one turn, so no message waits longer; its
      first turn is its first frame. */
  lemma OneTurn(divisor: nat, frames: nat) returns (k: nat)
    requires divisor >= 1
    ensures k < divisor && forall j: nat :: j < divisor ==> (TurnIn(divisor, frames, j) <==> j == k)
    ensures frames == 0 ==> k == 0
  {
    if frames == 0 {
      DivisionUnique(0, 0, 0, divisor);
    }
    var q, r := frames / divisor, frames % divisor;
    k := if r == 0 then 0 else divisor - r;
    if divisor > 1 {
      forall j: nat | j < divisor ensures TurnIn(divisor, frames, j) <==> j == k {
        if r + j < divisor {
          DivisionUnique(frames + j, q, r + j, divisor);
        } else {
          assert divisor * (q + 1) == divisor * q + divisor;
          DivisionUnique(frames + j, q + 1, r + j - divisor, divisor);
        }
      }
    }
  }

  // --- the schedule's routing -----------------------------------------------------------------------

  function Joined(boxes: seq<seq<Message>>): seq<Message> {
    if boxes == [] then [] else Joined(boxes[..|boxes| - 1]) + boxes[|boxes| - 1]
  }

  /** What the systems of a phase sent: in phase order, each followed by its chunk tasks. */
  function PhaseSent(senders: seq<nat>, outboxes: seq<seq<Message>>, tasks: seq<seq<seq<Message>>>): seq<Message>
    requires forall i :: 0 <= i < |senders| ==> senders[i] < |outboxes| && senders[i] < |tasks|
  {
    if senders == [] then []
    else
      var last := senders[|senders| - 1];
      PhaseSent(senders[..|senders| - 1], outboxes, tasks) + (outboxes[last] + Joined(tasks[last]))
  }

  lemma {:induction false} JoinedTogether(a: seq<seq<Message>>, b: seq<seq<Message>>)
    ensures Joined(a + b) == Joined(a) + Joined(b)
  {
    if b == [] {
      assert a + b == a;
    } else {
      assert (a + b)[..|a + b| - 1] == a + b[..|b| - 1];
      JoinedTogether(a, b[..|b| - 1]);
      assert (Joined(a) + Joined(b[..|b| - 1])) + b[|b| - 1] == Joined(a) + (Joined(b[..|b| - 1]) + b[|b| - 1]);
    }
  }

  /** Each sender's messages lie between those of the senders before it and those of the senders after
      it: first its own, then its chunk tasks' in the order of the tasks. */
  lemma {:induction false} SentInOrder(senders: seq<nat>, outboxes: seq<seq<Message>>, tasks: seq<seq<seq<Message>>>, k: nat)
    requires (forall i :: 0 <= i < |senders| ==> senders[i] < |outboxes| && senders[i] < |tasks|) && k < |senders|
    ensures PhaseSent(senders, outboxes, tasks) ==
      PhaseSent(senders[..k], outboxes, tasks) + (outboxes[senders[k]] + Joined(tasks[senders[k]])) + PhaseSent(senders[k + 1..], outboxes, tasks)
  {
    var n, s := |senders| - 1, senders[|senders| - 1];
    var own := outboxes[senders[k]] + Joined(tasks[senders[k]]);
    if k == n {
      assert senders[k + 1..] == [];
    } else {
      SentInOrder(senders[..n], outboxes, tasks, k);
      assert senders[..n][..k] == senders[..k] && senders[..n][k + 1..] == senders[k + 1..][..n - k - 1];
      var before, after, last := PhaseSent(senders[..k], outboxes, tasks), PhaseSent(senders[k + 1..n], outboxes, tasks), outboxes[s] + Joined(tasks[s]);
      assert senders[k + 1..][..n - k - 1] == senders[k + 1..n];
      assert (before + own + after) + last == before + own + (after + last);
    }
  }

  /** The messages of task k among those of its system. */
  lemma TasksInOrder(boxes: seq<seq<Message>>, k: nat)
    requires k < |boxes|
    ensures Joined(boxes) == Joined(boxes[..k]) + boxes[k] + Joined(boxes[k + 1..])
  {
    assert boxes == boxes[..k + 1] + boxes[k + 1..] && boxes[..k + 1][..k] == boxes[..k];
    JoinedTogether(boxes[..k + 1], boxes[k + 1..]);
  }

  function RanIn(senders: seq<nat>, ran: seq<bool>): set<nat>
    requires forall i :: 0 <= i < |senders| ==> senders[i] < |ran|
  {
    set i | 0 <= i < |senders| && ran[senders[i]] :: senders[i]
  }

  lemma RanInIs(senders: seq<nat>, ran: seq<bool>, s: nat)
    requires s < |ran| && forall i :: 0 <= i < |senders| ==> senders[i] < |ran|
    ensures s in RanIn(senders, ran) <==> s in senders && ran[s]
  {
    if s in senders && ran[s] {
      var i :| 0 <= i < |senders| && senders[i] == s;
      assert senders[i] in RanIn(senders, ran);
    }
  }

  lemma RanNext(senders: seq<nat>, ran: seq<bool>, k: nat)
    requires k < |senders| && forall i :: 0 <= i < |senders| ==> senders[i] < |ran|
    ensures RanIn(senders[..k + 1], ran) == RanIn(senders[..k], ran) + if ran[senders[k]] then {senders[k]} else {}
  {
    assert forall i :: 0 <= i < k ==> senders[..k + 1][i] == senders[..k][i];
    assert senders[..k + 1][k] == senders[k];
  }

  /** mOutbox, mTaskOutboxes and mTaskCount, mFrames and mRanThisPhase, and the queues. */
  class MessageRoutes {
    const receivers: seq<Receiver>
    const order: seq<seq<nat>>
    var inboxes: seq<seq<Message>>
    var outboxes: seq<seq<Message>>
    var taskOutboxes: seq<seq<seq<Message>>>
    var frames: seq<nat>
    var ran: seq<bool>

    /** Every list has an entry for each system. */
    predicate Valid()
      reads this
    {
      && |inboxes| == |receivers| && |outboxes| == |receivers| && |taskOutboxes| == |receivers| && |frames| == |receivers| && |ran| == |receivers|
      && forall p :: 0 <= p < |order| ==> InOrder(p)
    }

    /** The systems of a phase, each once. */
    predicate InOrder(p: nat)
      requires p < |order|
    {
      Distinct(order[p]) && forall i :: 0 <= i < |order[p]| ==> order[p][i] < |receivers|
    }

    constructor (receivers: seq<Receiver>, order: seq<seq<nat>>)
      requires forall p :: 0 <= p < |order| ==> Distinct(order[p]) && forall i :: 0 <= i < |order[p]| ==> order[p][i] < |receivers|
      ensures this.receivers == receivers && this.order == order && Valid()
      ensures forall s :: 0 <= s < |receivers| ==> inboxes[s] == [] && outboxes[s] == [] && taskOutboxes[s] == []
    {
      this.receivers, this.order := receivers, order;
      inboxes := seq(|receivers|, _ => []);
      outboxes := seq(|receivers|, _ => []);
      taskOutboxes := seq(|receivers|, _ => []);
      frames := seq(|receivers|, _ => 0);
      ran := seq(|receivers|, _ => false);
    }

    /** A system's frame: if it has its turn it reads its queue and sends; else nothing is sent. */
    method RunSystem(s: nat, sends: seq<Message>, taskSends: seq<seq<Message>>) returns (received: seq<Message>)
      requires Valid() && s < |receivers|
      modifies this`outboxes, this`taskOutboxes, this`frames, this`ran
      ensures Valid() && ran == old(ran)[s := Turn(receivers[s].divisor, old(frames)[s])] && frames == old(frames)[s := old(frames)[s] + 1]
      ensures received == if ran[s] then inboxes[s] else []
      ensures outboxes == if ran[s] then old(outboxes)[s := old(outboxes)[s] + sends] else old(outboxes)
      ensures taskOutboxes == old(taskOutboxes)[s := if ran[s] then taskSends else []]
    {
      ran := ran[s := Turn(receivers[s].divisor, frames[s])];
      frames := frames[s := frames[s] + 1];
      taskOutboxes := taskOutboxes[s := []];
      if !ran[s] { return []; }
      received := inboxes[s];
      outboxes := outboxes[s := outboxes[s] + sends];
      taskOutboxes := taskOutboxes[s := taskSends];
    }

    /** One outbox from its oldest message on, each offered to the receivers by ascending position. */
    method RouteOutbox(outbox: seq<Message>, masks: Masks)
      requires |inboxes| == |receivers|
      modifies this`inboxes
      ensures |inboxes| == |receivers|
      ensures forall s :: 0 <= s < |receivers| ==> inboxes[s] == old(inboxes)[s] + Accepted(receivers[s], outbox, masks)
    {
      for i := 0 to |outbox|
        invariant |inboxes| == |receivers|
        invariant forall s :: 0 <= s < |receivers| ==> inboxes[s] == old(inboxes)[s] + Accepted(receivers[s], outbox[..i], masks)
      {
        assert outbox[..i + 1][..i] == outbox[..i];
        ghost var before := inboxes;
        if !outbox[i].target.IsValid() || outbox[i].target in masks {
          for s := 0 to |receivers|
            invariant |inboxes| == |receivers|
            invariant forall r :: 0 <= r < |receivers| ==>
              inboxes[r] == before[r] + if r < s && Accepts(receivers[r], outbox[i], masks) then [outbox[i]] else []
          {
            if Accepts(receivers[s], outbox[i], masks) {
              inboxes := inboxes[s := inboxes[s] + [outbox[i]]];
            }
          }
        }
        forall r | 0 <= r < |receivers| ensures inboxes[r] == old(inboxes)[r] + Accepted(receivers[r], outbox[..i + 1], masks) {
          assert (old(inboxes)[r] + Accepted(receivers[r], outbox[..i], masks)) + (if Accepts(receivers[r], outbox[i], masks) then [outbox[i]] else [])
              == old(inboxes)[r] + Accepted(receivers[r], outbox[..i + 1], masks);
        }
      }
      assert outbox[..|outbox|] == outbox;
    }

    /** A system's own messages, then its chunk tasks' in chunk order. */
    method RouteSender(sender: nat, masks: Masks)
      requires |inboxes| == |receivers| && sender < |outboxes| && sender < |taskOutboxes|
      modifies this`inboxes
      ensures |inboxes| == |receivers|
      ensures forall s :: 0 <= s < |receivers| ==>
        inboxes[s] == old(inboxes)[s] + Accepted(receivers[s], outboxes[sender] + Joined(taskOutboxes[sender]), masks)
    {
      hide Accepts, Accepted;
      RouteOutbox(outboxes[sender], masks);
      var boxes := taskOutboxes[sender];
      assert outboxes[sender] + Joined(boxes[..0]) == outboxes[sender];
      for i := 0 to |boxes|
        invariant |inboxes| == |receivers|
        invariant forall s :: 0 <= s < |receivers| ==> inboxes[s] == old(inboxes)[s] + Accepted(receivers[s], outboxes[sender] + Joined(boxes[..i]), masks)
      {
        assert boxes[..i + 1][..i] == boxes[..i];
        ghost var sent := outboxes[sender] + Joined(boxes[..i]);
        RouteOutbox(boxes[i], masks);
        assert sent + boxes[i] == outboxes[sender] + Joined(boxes[..i + 1]);
        forall s | 0 <= s < |receivers| ensures inboxes[s] == old(inboxes)[s] + Accepted(receivers[s], sent + boxes[i], masks) {
          AcceptedJoin(receivers[s], sent, boxes[i], masks);
        }
      }
      assert boxes[..|boxes|] == boxes;
    }

    /** Every outbox in turn, that of a system before those of its tasks; all are empty afterwards. */
    method RouteMessages(phase: nat, masks: Masks)
      requires Valid() && phase < |order|
      modifies this`inboxes, this`outboxes, this`taskOutboxes
      ensures Valid() && InOrder(phase)
      ensures forall s :: 0 <= s < |receivers| ==>
        inboxes[s] == old(inboxes)[s] + Accepted(receivers[s], PhaseSent(order[phase], old(outboxes), old(taskOutboxes)), masks)
      ensures forall s, m :: 0 <= s < |receivers| ==>
        Arrives(receivers[s], old(inboxes)[s], inboxes[s], PhaseSent(order[phase], old(outboxes), old(taskOutboxes)), masks, m)
      ensures forall s :: 0 <= s < |receivers| && s in order[phase] ==> outboxes[s] == [] && taskOutboxes[s] == []
      ensures forall s :: 0 <= s < |receivers| && s !in order[phase] ==> outboxes[s] == old(outboxes)[s] && taskOutboxes[s] == old(taskOutboxes)[s]
    {
      hide Accepts, Accepted, Joined, Arrives;
      var senders := order[phase];
      assert InOrder(phase);
      NothingAccepted(receivers, masks);
      for k := 0 to |senders|
        invariant Valid()
        invariant forall s :: 0 <= s < |receivers| ==>
          inboxes[s] == old(inboxes)[s] + Accepted(receivers[s], PhaseSent(senders[..k], old(outboxes), old(taskOutboxes)), masks)
        invariant forall i :: 0 <= i < k ==> outboxes[senders[i]] == [] && taskOutboxes[senders[i]] == []
        invariant forall s :: 0 <= s < |receivers| && s !in senders[..k] ==> outboxes[s] == old(outboxes)[s] && taskOutboxes[s] == old(taskOutboxes)[s]
      {
        var sender := senders[k];
        assert senders[..k + 1][..k] == senders[..k];
        assert sender !in senders[..k];
        ghost var sent := PhaseSent(senders[..k], old(outboxes), old(taskOutboxes));
        ghost var own := outboxes[sender] + Joined(taskOutboxes[sender]);
        RouteSender(sender, masks);
        forall s | 0 <= s < |receivers| ensures inboxes[s] == old(inboxes)[s] + Accepted(receivers[s], sent + own, masks) {
          AcceptedJoin(receivers[s], sent, own, masks);
        }
        outboxes := outboxes[sender := []];
        taskOutboxes := taskOutboxes[sender := []];
      }
      assert senders[..|senders|] == senders;
      ghost var sent := PhaseSent(senders, old(outboxes), old(taskOutboxes));
      forall s, m | 0 <= s < |receivers| ensures Arrives(receivers[s], old(inboxes)[s], inboxes[s], sent, masks, m) {
        RoutedOnce(receivers[s], old(inboxes)[s], sent, masks, m);
      }
    }

    /** The message part of EndPhase. */
    method CloseInboxes(phase: nat, masks: Masks)
      requires Valid() && phase < |order|
      modifies this`inboxes, this`outboxes, this`taskOutboxes
      ensures Valid() && InOrder(phase)
      ensures inboxes == After(receivers, old(inboxes), EndPhase(RanIn(order[phase], ran), PhaseSent(order[phase], old(outboxes), old(taskOutboxes)), masks))
      ensures forall s, m :: 0 <= s < |receivers| && !(s in order[phase] && ran[s]) ==>
        Arrives(receivers[s], old(inboxes)[s], inboxes[s], PhaseSent(order[phase], old(outboxes), old(taskOutboxes)), masks, m)
      ensures forall s :: 0 <= s < |receivers| && s in order[phase] && ran[s] ==> inboxes[s] == []
      ensures forall s :: 0 <= s < |receivers| && s in order[phase] ==> outboxes[s] == [] && taskOutboxes[s] == []
      ensures forall s :: 0 <= s < |receivers| && s !in order[phase] ==> outboxes[s] == old(outboxes)[s] && taskOutboxes[s] == old(taskOutboxes)[s]
    {
      hide Accepts, Accepted, PhaseSent, RanIn, Arrives;
      assert InOrder(phase);
      ghost var event := EndPhase(RanIn(order[phase], ran), PhaseSent(order[phase], outboxes, taskOutboxes), masks);
      RouteMessages(phase, masks);
      ClearInboxes(order[phase]);
      assert inboxes == After(receivers, old(inboxes), event);
      forall s | 0 <= s < |receivers| ensures s in event.ran <==> s in order[phase] && ran[s] {
        RanInIs(order[phase], ran, s);
      }
    }

    /** The queues of the systems that ran are cleared. */
    method ClearInboxes(systems: seq<nat>)
      requires |inboxes| == |receivers| == |ran| && forall i :: 0 <= i < |systems| ==> systems[i] < |receivers|
      modifies this`inboxes
      ensures |inboxes| == |receivers|
      ensures forall s :: 0 <= s < |receivers| ==> inboxes[s] == if s in RanIn(systems, ran) then [] else old(inboxes)[s]
    {
      for k := 0 to |systems|
        invariant |inboxes| == |receivers|
        invariant forall s :: 0 <= s < |receivers| ==> inboxes[s] == if s in RanIn(systems[..k], ran) then [] else old(inboxes)[s]
      {
        if ran[systems[k]] {
          inboxes := inboxes[systems[k] := []];
        }
        RanNext(systems, ran, k);
      }
      assert systems[..|systems|] == systems;
    }

    /** What a window or the hook sent is routed when it closes. */
    method PostMessages(outbox: seq<Message>, masks: Masks)
      requires Valid()
      modifies this`inboxes
      ensures Valid() && inboxes == After(receivers, old(inboxes), Post(outbox, masks))
      ensures forall s, m :: 0 <= s < |receivers| ==> Arrives(receivers[s], old(inboxes)[s], inboxes[s], outbox, masks, m)
    {
      hide Accepts, Accepted, Arrives;
      RouteOutbox(outbox, masks);
      assert inboxes == After(receivers, old(inboxes), Post(outbox, masks));
      forall s, m | 0 <= s < |receivers| ensures Arrives(receivers[s], old(inboxes)[s], inboxes[s], outbox, masks, m) {
        RoutedOnce(receivers[s], old(inboxes)[s], outbox, masks, m);
      }
    }
  }
}
