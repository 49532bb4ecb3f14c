/** The checks at the end of a phase: what the systems recorded against what they declared. */
module AccessChecks {
  import opened Results
  import opened Graphs
  import opened Orders
  import opened Systems
  import opened Sorting
  import opened Schedules
  import opened AccessLogs

  predicate EntryDeclared(d: SystemDesc, e: AccessEntry) {
    if e.kind.Write? then e.component as nat in d.write else e.component as nat in d.read || e.component as nat in d.write
  }

  predicate AllDeclared(d: SystemDesc, entries: seq<AccessEntry>) {
    forall i :: 0 <= i < |entries| ==> EntryDeclared(d, entries[i]) && entries[i].component < 256
  }

  /** Two declared logs overlap on a write only if the declarations conflict. */
  lemma OverlapIsConflict(a: SystemDesc, b: SystemDesc, ea: seq<AccessEntry>, eb: seq<AccessEntry>)
    requires DistinctKeys(ea) && DistinctKeys(eb) && AllDeclared(a, ea) && AllDeclared(b, eb)
    ensures Overlap(Accesses(ea), Accesses(eb)) ==> Conflicts(a, b)
  {
    hide KeyOf, Conflicts, Accesses;
    if Overlap(Accesses(ea), Accesses(eb)) {
      var key :| Clashes(Accesses(ea), Accesses(eb), key);
      AccessesKeys(ea);
      AccessesKeys(eb);
      var i :| 0 <= i < |ea| && Key(ea[i]) == key;
      var j :| 0 <= j < |eb| && Key(eb[j]) == key;
      AccessesAt(ea, i);
      AccessesAt(eb, j);
      KeyIsUnique(ea[i].archetype, ea[i].chunk, ea[i].component, eb[j].archetype, eb[j].chunk, eb[j].component);
      WriteMeets(a, b, ea[i].component as nat, ea[i].kind, eb[j].kind);
    }
  }

  lemma WriteMeets(a: SystemDesc, b: SystemDesc, t: nat, x: AccessKind, y: AccessKind)
    requires x.Write? || y.Write?
    requires if x.Write? then t in a.write else t in a.read || t in a.write
    requires if y.Write? then t in b.write else t in b.read || t in b.write
    ensures Conflicts(a, b)
  {
    assert t in a.write * b.write || t in a.write * b.read || t in b.write * a.read;
  }

  /** And whenever one writes a type that the other writes or reads, declared logs can show it: a system
      may read what it declares to write. */
  lemma ConflictCanOverlap(a: SystemDesc, b: SystemDesc, t: bv16, x: AccessKind, y: AccessKind)
    returns (ea: seq<AccessEntry>, eb: seq<AccessEntry>)
    requires t < 256 && (x.Write? || y.Write?)
    requires t as nat in a.write || (x.Read? && t as nat in a.read)
    requires t as nat in b.write || (y.Read? && t as nat in b.read)
    ensures DistinctKeys(ea) && DistinctKeys(eb) && AllDeclared(a, ea) && AllDeclared(b, eb)
    ensures |ea| == |eb| == 1 && ea[0].kind == x && eb[0].kind == y && Overlap(Accesses(ea), Accesses(eb))
  {
    ea, eb := [AccessEntry(0, 0, t, x)], [AccessEntry(0, 0, t, y)];
    hide KeyOf;
    var key := KeyOf(0, 0, t);
    AccessesAt(ea, 0);
    AccessesAt(eb, 0);
    assert Clashes(Accesses(ea), Accesses(eb), key);
  }

  predicate Sized(reach: array2<bool>, n: nat) {
    reach.Length0 == n && reach.Length1 == n
  }

  datatype Unordered = Unordered(first: nat, second: nat, entry: AccessEntry)

  /** No path orders the pair either way, and their tables share a key that one of them wrote. */
  ghost predicate IsViolation(reach: array2<bool>, logs: seq<AccessLog>, a: nat, b: nat)
    requires Sized(reach, |logs|) && a < |logs| && b < |logs|
    requires logs[a].Valid() && logs[b].Valid()
    reads reach, logs
  {
    !reach[a, b] && !reach[b, a] && Overlap(logs[a].Contents(), logs[b].Contents())
  }

  predicate LogsValid(logs: seq<AccessLog>)
    reads logs
  {
    forall s :: 0 <= s < |logs| ==> logs[s].Valid()
  }

  /** Every pair of the phase order, earlier system first: a violation is reported for exactly the
      unordered pairs whose tables overlap on a write. */
  method CheckUnordered(order: seq<nat>, reach: array2<bool>, logs: seq<AccessLog>) returns (violations: seq<Unordered>)
    requires Sized(reach, |logs|) && LogsValid(logs) && forall x :: 0 <= x < |order| ==> order[x] < |logs|
    ensures forall v :: v in violations ==> PairOf(order, v.first, v.second) && Sound(reach, logs, v)
    ensures forall i, j :: 0 <= i < j < |order| && IsViolation(reach, logs, order[i], order[j]) ==> Reported(violations, order[i], order[j])
  {
    hide IsViolation, Reported, PairOf, Sound, Overlap, AccessLog.Valid;
    violations := [];
    for i := 0 to |order|
      invariant forall v :: v in violations ==> PairOf(order, v.first, v.second) && Sound(reach, logs, v)
      invariant forall x, y :: 0 <= x < i && x < y < |order| && IsViolation(reach, logs, order[x], order[y]) ==> Reported(violations, order[x], order[y])
    {
      var row := CheckRow(order, i, reach, logs);
      ReportedMore(violations, row);
      violations := violations + row;
    }
  }

  ghost predicate Sound(reach: array2<bool>, logs: seq<AccessLog>, v: Unordered)
    requires Sized(reach, |logs|)
    reads reach, logs
  {
    && v.first < |logs| && v.second < |logs| && logs[v.first].Valid() && logs[v.second].Valid()
    && IsViolation(reach, logs, v.first, v.second) && v.entry in logs[v.first].entries
  }

  predicate Reported(violations: seq<Unordered>, a: nat, b: nat) {
    exists k :: 0 <= k < |violations| && violations[k].first == a && violations[k].second == b
  }

  predicate PairOf(order: seq<nat>, a: nat, b: nat) {
    exists i, j :: 0 <= i < j < |order| && order[i] == a && order[j] == b
  }

  lemma ReportedMore(violations: seq<Unordered>, row: seq<Unordered>)
    ensures forall x, y :: Reported(violations, x, y) || Reported(row, x, y) ==> Reported(violations + row, x, y)
  {
    forall x: nat, y: nat | Reported(violations, x, y) || Reported(row, x, y) ensures Reported(violations + row, x, y) {
      if Reported(violations, x, y) {
        var k :| 0 <= k < |violations| && violations[k].first == x && violations[k].second == y;
        assert (violations + row)[k] == violations[k];
      } else {
        var k :| 0 <= k < |row| && row[k].first == x && row[k].second == y;
        assert (violations + row)[|violations| + k] == row[k];
      }
    }
  }

  method CheckRow(order: seq<nat>, i: nat, reach: array2<bool>, logs: seq<AccessLog>) returns (row: seq<Unordered>)
    requires Sized(reach, |logs|) && LogsValid(logs) && i < |order| && forall x :: 0 <= x < |order| ==> order[x] < |logs|
    ensures forall v :: v in row ==> PairOf(order, v.first, v.second) && Sound(reach, logs, v)
    ensures forall y :: i < y < |order| && IsViolation(reach, logs, order[i], order[y]) ==> Reported(row, order[i], order[y])
  {
    row := [];
    var a := order[i];
    var j := i + 1;
    while j < |order|
      invariant i < j <= |order|
      invariant forall v :: v in row ==> PairOf(order, v.first, v.second) && Sound(reach, logs, v)
      invariant forall y :: i < y < j && IsViolation(reach, logs, order[i], order[y]) ==> Reported(row, order[i], order[y])
    {
      var b := order[j];
      if !reach[a, b] && !reach[b, a] {
        var entry := logs[a].FindConflict(logs[b]);
        if entry.Some? {
          ReportedMore(row, [Unordered(a, b, entry.value)]);
          row := row + [Unordered(a, b, entry.value)];
          assert row[|row| - 1] == Unordered(a, b, entry.value);
        }
      }
      j := j + 1;
    }
  }

  /** After a successful Build, systems that only touched what they declared never overlap unless
      the graph orders them: the check reports nothing. */
  lemma DeclaredNeverReported(g: Graph, descs: seq<SystemDesc>, ph: nat, order: seq<nat>, reach: array2<bool>, logs: seq<AccessLog>, i: nat, j: nat)
    requires g.WellFormed() && |descs| == |g.phase| == |logs| && g.Linear(ph, order) && AllOrdered(g, g, descs)
    requires Sized(reach, |logs|) && Closed(g, reach) && LogsValid(logs)
    requires forall s :: 0 <= s < |logs| ==> AllDeclared(descs[s], logs[s].entries)
    requires i < j < |order|
    ensures order[i] < |logs| && order[j] < |logs| && !IsViolation(reach, logs, order[i], order[j])
  {
    assert g.InPhase(ph, order[i]) && g.InPhase(ph, order[j]) && order[i] != order[j];
    var a, b := order[i], order[j];
    OverlapIsConflict(descs[a], descs[b], logs[a].entries, logs[b].entries);
    if Conflicts(descs[a], descs[b]) {
      assert ConflictPair(g, descs, a, b);
      assert g.Reaches(a, b) || g.Reaches(b, a);
    }
  }
}
