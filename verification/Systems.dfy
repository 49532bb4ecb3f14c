/** What a system declares, and when two declarations conflict. */
module Systems {

  /** Masks are the sets of the type indices they hold. */
  datatype SystemDesc = SystemDesc(
    name: string, hasFunction: bool, phase: nat, mainThread: bool,
    read: set<nat>, write: set<nat>, readResources: set<nat>, writeResources: set<nat>)

  predicate Conflicts(a: SystemDesc, b: SystemDesc) {
    || a.write * b.write != {} || a.write * b.read != {} || b.write * a.read != {}
    || a.writeResources * b.writeResources != {} || a.writeResources * b.readResources != {}
    || b.writeResources * a.readResources != {}
  }

  /** The two clash on an automatic resource. */
  predicate ConflictsAutomatically(a: SystemDesc, b: SystemDesc, automatic: set<nat>) {
    var aWrites := a.writeResources * automatic;
    var bWrites := b.writeResources * automatic;
    aWrites * b.writeResources != {} || aWrites * b.readResources != {} || bWrites * a.readResources != {}
  }

  /** One of the two writes the automatic resource r, and the other one writes or reads it. */
  predicate MeetAt(a: SystemDesc, b: SystemDesc, automatic: set<nat>, r: nat) {
    && r in automatic
    && ((r in a.writeResources && (r in b.writeResources || r in b.readResources))
        || (r in b.writeResources && r in a.readResources))
  }

  ghost predicate Meet(a: SystemDesc, b: SystemDesc, automatic: set<nat>) {
    exists r: nat :: MeetAt(a, b, automatic, r)
  }

  /** What the masks compare is whether the two meet on some automatic resource. */
  lemma AutomaticIsMeeting(a: SystemDesc, b: SystemDesc, automatic: set<nat>)
    ensures ConflictsAutomatically(a, b, automatic) <==> Meet(a, b, automatic)
  {
    var aWrites, bWrites := a.writeResources * automatic, b.writeResources * automatic;
    if r: nat :| MeetAt(a, b, automatic, r) {
      assert r in aWrites * b.writeResources || r in aWrites * b.readResources || r in bWrites * a.readResources;
    }
    if r :| r in aWrites * b.writeResources {
      assert MeetAt(a, b, automatic, r);
    } else if r :| r in aWrites * b.readResources {
      assert MeetAt(a, b, automatic, r);
    } else if r :| r in bWrites * a.readResources {
      assert MeetAt(a, b, automatic, r);
    }
  }

  lemma ConflictsSymmetric(a: SystemDesc, b: SystemDesc)
    ensures Conflicts(a, b) <==> Conflicts(b, a)
  {
    assert a.write * b.write == b.write * a.write;
    assert a.writeResources * b.writeResources == b.writeResources * a.writeResources;
  }
}
