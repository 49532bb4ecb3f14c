/** Interleavings of deterministic units of work that touch only what they declare: units whose
    declarations do not clash commute, so every interleaving that keeps clashing units in order
    ends in the same store. */
module Traces {

  /** A unit is named by a number; one step of unit u takes the store to step(u, store). */
  type Step<!L(==), !V> = (nat, map<L, V>) -> map<L, V>

  datatype Access<!L(!new)> = Access(mayRead: (nat, L) -> bool, mayWrite: (nat, L) -> bool)
  {
    predicate Touches(u: nat, l: L)
    {
      mayRead(u, l) || mayWrite(u, l)
    }

    /** Some location is written by one of the two and touched by the other. */
    ghost predicate Clash(u: nat, v: nat)
    {
      exists l: L :: (mayWrite(u, l) && Touches(v, l)) || (mayWrite(v, l) && Touches(u, l))
    }
  }

  ghost predicate AgreeOn<L(!new), V(!new)>(a: Access<L>, u: nat, s: map<L, V>, t: map<L, V>)
  {
    s.Keys == t.Keys && forall l :: l in s && a.Touches(u, l) ==> s[l] == t[l]
  }

  /** A step writes nothing outside its write set, and what it writes depends only on what the
      unit may touch. */
  ghost predicate Respects<L(!new), V(!new)>(a: Access<L>, step: Step<L, V>)
  {
    && (forall u: nat, s: map<L, V> :: step(u, s).Keys == s.Keys)
    && (forall u: nat, s: map<L, V>, l :: l in s && !a.mayWrite(u, l) ==> step(u, s)[l] == s[l])
    && (forall u: nat, s: map<L, V>, t: map<L, V> {:trigger step(u, s), step(u, t)} :: AgreeOn(a, u, s, t) ==>
          forall l :: l in s && a.mayWrite(u, l) ==> step(u, s)[l] == step(u, t)[l])
  }

  ghost function Exec<L(!new), V(!new)>(step: Step<L, V>, events: seq<nat>, s: map<L, V>): map<L, V>
  {
    if events == [] then s else Exec(step, events[1..], step(events[0], s))
  }

  lemma Commute<L(!new), V(!new)>(a: Access<L>, step: Step<L, V>, u: nat, v: nat, s: map<L, V>)
    requires Respects(a, step) && !a.Clash(u, v)
    ensures step(u, step(v, s)) == step(v, step(u, s))
  {
    var su, sv := step(u, s), step(v, s);
    assert AgreeOn(a, u, s, sv);
    assert AgreeOn(a, v, s, su);
    var suv, svu := step(u, sv), step(v, su);
    forall l | l in s ensures suv[l] == svu[l] {
      if a.mayWrite(u, l) {
        assert suv[l] == su[l];
        assert !a.mayWrite(v, l);
      } else if a.mayWrite(v, l) {
        assert svu[l] == sv[l];
      }
    }
  }

  lemma {:induction false} ExecAppend<L(!new), V(!new)>(step: Step<L, V>, p: seq<nat>, q: seq<nat>, s: map<L, V>)
    ensures Exec(step, p + q, s) == Exec(step, q, Exec(step, p, s))
  {
    if p == [] {
      assert p + q == q;
    } else {
      assert (p + q)[1..] == p[1..] + q;
      ExecAppend(step, p[1..], q, step(p[0], s));
    }
  }

  /** A unit that clashes with nothing before it may as well have run first. */
  lemma {:induction false} MoveFirst<L(!new), V(!new)>(a: Access<L>, step: Step<L, V>, p: seq<nat>, u: nat, s: map<L, V>)
    requires Respects(a, step)
    requires forall i :: 0 <= i < |p| ==> !a.Clash(p[i], u)
    ensures Exec(step, p + [u], s) == Exec(step, [u] + p, s)
  {
    if p == [] {
      assert p + [u] == [u] + p;
    } else {
      var v, rest := p[0], p[1..];
      MoveFirst(a, step, rest, u, step(v, s));
      Commute(a, step, v, u, s);
      assert (p + [u])[1..] == rest + [u];
      assert ([u] + p)[1..] == p;
      assert ([u] + rest)[1..] == rest;
    }
  }

  /** Whenever the later event has the lower rank, the two units do not clash. */
  ghost predicate InOrder<L(!new)>(a: Access<L>, rank: nat -> nat, events: seq<nat>)
  {
    forall i, j :: 0 <= i < j < |events| && rank(events[j]) < rank(events[i]) ==> !a.Clash(events[i], events[j])
  }

  ghost predicate Sorted(rank: nat -> nat, events: seq<nat>)
  {
    forall i, j :: 0 <= i < j < |events| ==> rank(events[i]) <= rank(events[j])
  }

  ghost predicate Separates(rank: nat -> nat, events: seq<nat>)
  {
    forall u, v :: u in events && v in events && rank(u) == rank(v) ==> u == v
  }

  lemma FirstIndex(events: seq<nat>, u: nat) returns (i: nat)
    requires u in events
    ensures i < |events| && events[i] == u && u !in events[..i]
  {
    i := 0;
    while events[i] != u
      invariant i < |events| && u in events[i..] && u !in events[..i]
      decreases |events| - i
    {
      assert events[i..] == [events[i]] + events[i + 1..];
      assert events[..i + 1] == events[..i] + [events[i]];
      i := i + 1;
    }
  }

  lemma BringForward<L(!new), V(!new)>(a: Access<L>, step: Step<L, V>, events: seq<nat>, i: nat, s: map<L, V>)
    requires Respects(a, step) && i < |events|
    requires forall k :: 0 <= k < i ==> !a.Clash(events[k], events[i])
    ensures Exec(step, events, s) == Exec(step, events[..i] + events[i + 1..], step(events[i], s))
  {
    var u, before, after := events[i], events[..i], events[i + 1..];
    assert events == before + [u] + after;
    ExecAppend(step, before + [u], after, s);
    MoveFirst(a, step, before, u, s);
    assert ([u] + before)[1..] == before;
    ExecAppend(step, before, after, step(u, s));
  }

  /** Every interleaving that keeps clashing units in rank order equals the one in rank order. */
  lemma {:induction false} Confluence<L(!new), V(!new)>(
      a: Access<L>, step: Step<L, V>, rank: nat -> nat, events: seq<nat>, sorted: seq<nat>, s: map<L, V>)
    requires Respects(a, step) && InOrder(a, rank, events)
    requires Sorted(rank, sorted) && Separates(rank, sorted) && multiset(events) == multiset(sorted)
    ensures Exec(step, events, s) == Exec(step, sorted, s)
    decreases |sorted|
  {
    if sorted == [] {
      assert |events| == |multiset(events)|;
    } else {
      var u, rest := sorted[0], sorted[1..];
      assert sorted == [u] + rest;
      assert u in multiset(sorted);
      var i := FirstIndex(events, u);
      forall k | 0 <= k < i ensures !a.Clash(events[k], u) {
        assert events[k] == events[..i][k];
        SortedHead(rank, sorted, events[k], events, k);
      }
      BringForward(a, step, events, i, s);
      RemoveOne(rank, a, events, i);
      SortedTail(rank, sorted);
      CancelHead(sorted, events[..i] + events[i + 1..]);
      Confluence(a, step, rank, events[..i] + events[i + 1..], rest, step(u, s));
    }
  }

  lemma CancelHead(sorted: seq<nat>, others: seq<nat>)
    requires sorted != [] && multiset(sorted) == multiset(others) + multiset{sorted[0]}
    ensures multiset(others) == multiset(sorted[1..])
  {
    assert sorted == [sorted[0]] + sorted[1..];
    assert multiset(others) == multiset(sorted) - multiset{sorted[0]};
  }

  lemma SortedTail(rank: nat -> nat, sorted: seq<nat>)
    requires sorted != [] && Sorted(rank, sorted) && Separates(rank, sorted)
    ensures Sorted(rank, sorted[1..]) && Separates(rank, sorted[1..])
  {}

  lemma SortedHead(rank: nat -> nat, sorted: seq<nat>, v: nat, events: seq<nat>, k: nat)
    requires sorted != [] && Sorted(rank, sorted) && Separates(rank, sorted) && multiset(events) == multiset(sorted)
    requires k < |events| && events[k] == v && v != sorted[0]
    ensures rank(sorted[0]) < rank(v)
  {
    assert v in multiset(events);
    assert v in sorted;
  }

  lemma RemoveOne<L(!new)>(rank: nat -> nat, a: Access<L>, events: seq<nat>, i: nat)
    requires i < |events| && InOrder(a, rank, events)
    ensures InOrder(a, rank, events[..i] + events[i + 1..])
    ensures multiset(events) == multiset(events[..i] + events[i + 1..]) + multiset{events[i]}
  {
    var rest := events[..i] + events[i + 1..];
    assert events == events[..i] + [events[i]] + events[i + 1..];
    forall x, y | 0 <= x < y < |rest| && rank(rest[y]) < rank(rest[x]) ensures !a.Clash(rest[x], rest[y]) {
      var x' := if x < i then x else x + 1;
      var y' := if y < i then y else y + 1;
      assert rest[x] == events[x'] && rest[y] == events[y'];
    }
  }
}
