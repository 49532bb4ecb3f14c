/** What one system or chunk task touched: a list of entries, found through a hash index with linear
    probing. */
module AccessLogs {
  import opened Results
  import opened Lists

  datatype AccessKind = Read | Write

  datatype AccessEntry = AccessEntry(archetype: bv32, chunk: bv32, component: bv16, kind: AccessKind)

  datatype AccessKey = AccessKey(bits: bv64)

  /** The archetype index above bit 32, the chunk above bit 9, the type below. */
  function KeyOf(archetype: bv32, chunk: bv32, component: bv16): AccessKey {
    AccessKey(((archetype as bv64) << 32) | ((chunk as bv64) << 9) | (component as bv64))
  }

  function Key(e: AccessEntry): AccessKey {
    KeyOf(e.archetype, e.chunk, e.component)
  }

  /** Type indices are below 256 and, as long as chunk indices are below 2^23, a key names one
      archetype, one chunk and one type. */
  lemma KeyIsUnique(a: bv32, c: bv32, t: bv16, a': bv32, c': bv32, t': bv16)
    requires t < 256 && t' < 256
    ensures KeyOf(a, c, t) == KeyOf(a', c', t') ==> t == t'
    ensures c < 0x80_0000 && c' < 0x80_0000 && KeyOf(a, c, t) == KeyOf(a', c', t') ==> a == a' && c == c'
  {
    KeyParts(a, c, t);
    KeyParts(a', c', t');
  }

  lemma KeyParts(a: bv32, c: bv32, t: bv16)
    requires t < 256
    ensures (KeyOf(a, c, t).bits & 0x1FF) as bv16 == t
    ensures c < 0x80_0000 ==> (KeyOf(a, c, t).bits >> 32) as bv32 == a && ((KeyOf(a, c, t).bits >> 9) & 0x7F_FFFF) as bv32 == c
  {}

  /** What of the chunk lies below the archetype, and what the archetype and the chunk make together. */
  function Low(c: bv32): bv32 { c & 0x7F_FFFF }

  function High(a: bv32, c: bv32): bv32 { a | (c >> 23) }

  /** From 2^23 on the chunk runs into the archetype: every such chunk shares its key with another chunk
      below that bound. */
  lemma KeysCollide(a: bv32, c: bv32, t: bv16)
    requires c >= 0x80_0000 && t < 256
    ensures KeyOf(a, c, t) == KeyOf(High(a, c), Low(c), t) && Low(c) < 0x80_0000 && Low(c) != c
  {}

  /** When two keys are the same: the same type, the same low 23 bits of the chunk, and the same bits
      where the archetype and the rest of the chunk lie over one another. */
  lemma KeysAgree(a: bv32, c: bv32, t: bv16, a': bv32, c': bv32, t': bv16)
    requires t < 256 && t' < 256
    ensures KeyOf(a, c, t) == KeyOf(a', c', t') <==> t == t' && Low(c) == Low(c') && High(a, c) == High(a', c')
  {
    hide *;
    KeyLow(a, c, t);
    KeyLow(a', c', t');
    KeyHigh(a, c, t);
    KeyHigh(a', c', t');
    KeyFolded(a, c, t);
    KeyFolded(a', c', t');
  }

  function TypeIn(key: AccessKey): bv16 { (key.bits & 0x1FF) as bv16 }

  function LowIn(key: AccessKey): bv32 { ((key.bits >> 9) & 0x7F_FFFF) as bv32 }

  function HighIn(key: AccessKey): bv32 { (key.bits >> 32) as bv32 }

  lemma KeyLow(a: bv32, c: bv32, t: bv16)
    requires t < 256
    ensures TypeIn(KeyOf(a, c, t)) == t && LowIn(KeyOf(a, c, t)) == Low(c)
  {}

  lemma KeyHigh(a: bv32, c: bv32, t: bv16)
    requires t < 256
    ensures HighIn(KeyOf(a, c, t)) == High(a, c)
  {}

  lemma KeyFolded(a: bv32, c: bv32, t: bv16)
    requires t < 256
    ensures KeyOf(a, c, t) == KeyOf(High(a, c), Low(c), t)
  {}

  function Mix(key: bv64): bv64 {
    var k := key ^ (key >> 33);
    var m := k * 0xFF51_AFD7_ED55_8CCD;
    m ^ (m >> 33)
  }

  /** Where the search for a key starts; table sizes are powers of two, so the mask is a remainder. */
  function Start(key: AccessKey, n: nat): (r: nat)
    requires n > 0
    ensures r < n
  {
    (Mix(key.bits) as nat) % n
  }

  /** The slot d steps on, round the table. */
  function Position(start: nat, d: nat, n: nat): (r: nat)
    requires start < n && d < n
    ensures r < n
  {
    if start + d < n then start + d else start + d - n
  }

  // --- the table ------------------------------------------------------------------------------------

  /** The entry with index i can be found: it is d steps from its start, over occupied slots. */
  predicate FoundAt(entries: seq<AccessEntry>, slots: seq<nat>, i: nat, d: nat)
    requires i < |entries| && d < |slots|
  {
    var start := Start(Key(entries[i]), |slots|);
    && slots[Position(start, d, |slots|)] == i + 1
    && forall k :: 0 <= k < d ==> slots[Position(start, k, |slots|)] != 0
  }

  predicate Findable(entries: seq<AccessEntry>, slots: seq<nat>, i: nat)
    requires i < |entries|
  {
    exists d :: 0 <= d < |slots| && FoundAt(entries, slots, i, d)
  }

  /** The index holds exactly the first m entries, each once. */
  predicate Indexed(entries: seq<AccessEntry>, slots: seq<nat>, m: nat) {
    && m <= |entries| && m < |slots|
    && (forall s :: 0 <= s < |slots| ==> slots[s] <= m)
    && (forall s, t :: 0 <= s < t < |slots| && slots[s] != 0 ==> slots[s] != slots[t])
    && (forall i :: 0 <= i < m ==> Findable(entries, slots, i))
  }

  predicate DistinctKeys(entries: seq<AccessEntry>) {
    forall i, j :: 0 <= i < j < |entries| ==> Key(entries[i]) != Key(entries[j])
  }

  /** With fewer entries than slots, some slot is empty. */
  lemma SomeEmpty(entries: seq<AccessEntry>, slots: seq<nat>, m: nat)
    requires Indexed(entries, slots, m)
    ensures exists s :: 0 <= s < |slots| && slots[s] == 0
  {
    if forall s :: 0 <= s < |slots| ==> slots[s] != 0 {
      forall s | 0 <= s < |slots| ensures slots[s] in Below(m + 1) - {0} {}
      DistinctBounded(slots, Below(m + 1) - {0});
    }
  }

  lemma PositionsCover(start: nat, n: nat, s: nat) returns (d: nat)
    requires start < n && s < n
    ensures d < n && Position(start, d, n) == s
  {
    d := if s >= start then s - start else s + n - start;
  }

  /** The first slot, from the key's start, that is empty or holds the key. */
  method Probe(entries: seq<AccessEntry>, slots: seq<nat>, key: AccessKey, ghost m: nat) returns (slot: nat, ghost d: nat)
    requires Indexed(entries, slots, m) && DistinctKeys(entries[..m])
    ensures slot < |slots| && d < |slots| && slot == Position(Start(key, |slots|), d, |slots|)
    ensures forall k :: 0 <= k < d ==> slots[Position(Start(key, |slots|), k, |slots|)] != 0
    ensures slots[slot] == 0 ==> forall i :: 0 <= i < m ==> Key(entries[i]) != key
    ensures slots[slot] != 0 ==> slots[slot] <= m && Key(entries[slots[slot] - 1]) == key
  {
    ghost var n, start := |slots|, Start(key, |slots|);
    slot, d := Start(key, |slots|), 0;
    SomeEmpty(entries, slots, m);
    ghost var empty :| 0 <= empty < n && slots[empty] == 0;
    ghost var last := PositionsCover(start, n, empty);
    while slots[slot] != 0 && Key(entries[slots[slot] - 1]) != key
      invariant d <= last && slot == Position(start, d, n)
      invariant forall k :: 0 <= k < d ==> PassedOver(entries, slots, Position(start, k, n), key)
      decreases last - d
    {
      slot := if slot + 1 == |slots| then 0 else slot + 1;
      d := d + 1;
    }
    forall k | 0 <= k < d ensures slots[Position(start, k, n)] != 0 {
      assert PassedOver(entries, slots, Position(start, k, n), key);
    }
    if slots[slot] == 0 {
      forall i | 0 <= i < m ensures Key(entries[i]) != key {
        NotBehindEmpty(entries, slots, i, key, d);
      }
    }
  }

  predicate PassedOver(entries: seq<AccessEntry>, slots: seq<nat>, s: nat, key: AccessKey)
    requires s < |slots|
  {
    0 < slots[s] <= |entries| && Key(entries[slots[s] - 1]) != key
  }

  /** An entry with this key would have been met before the empty slot. */
  lemma NotBehindEmpty(entries: seq<AccessEntry>, slots: seq<nat>, i: nat, key: AccessKey, d: nat)
    requires i < |entries| && Findable(entries, slots, i) && d < |slots|
    requires slots[Position(Start(key, |slots|), d, |slots|)] == 0
    requires forall k :: 0 <= k < d ==> PassedOver(entries, slots, Position(Start(key, |slots|), k, |slots|), key)
    ensures Key(entries[i]) != key
  {
    var e :| 0 <= e < |slots| && FoundAt(entries, slots, i, e);
    var start := Start(Key(entries[i]), |slots|);
    assert e < d && start == Start(key, |slots|) ==> PassedOver(entries, slots, Position(start, e, |slots|), key);
  }

  /** Putting the next entry into the empty slot its search ended at. */
  lemma Placed(entries: seq<AccessEntry>, slots: seq<nat>, m: nat, d: nat)
    requires Indexed(entries, slots, m) && m < |entries| && m + 1 < |slots| && d < |slots|
    requires var s := Position(Start(Key(entries[m]), |slots|), d, |slots|);
      slots[s] == 0 && forall k :: 0 <= k < d ==> slots[Position(Start(Key(entries[m]), |slots|), k, |slots|)] != 0
    ensures Indexed(entries, slots[Position(Start(Key(entries[m]), |slots|), d, |slots|) := m + 1], m + 1)
  {
    var s := Position(Start(Key(entries[m]), |slots|), d, |slots|);
    var t := slots[s := m + 1];
    forall i | 0 <= i < m + 1 ensures Findable(entries, t, i) {
      if i == m {
        assert FoundAt(entries, t, m, d);
      } else {
        assert Findable(entries, slots, i);
        var e :| 0 <= e < |slots| && FoundAt(entries, slots, i, e);
        assert FoundAt(entries, t, i, e);
      }
    }
  }

  /** The entries alone decide what can be found. */
  lemma IndexedMore(entries: seq<AccessEntry>, more: seq<AccessEntry>, slots: seq<nat>, m: nat)
    requires Indexed(entries, slots, m) && m <= |more| && forall i :: 0 <= i < m ==> Key(more[i]) == Key(entries[i])
    ensures Indexed(more, slots, m)
  {
    forall i | 0 <= i < m ensures Findable(more, slots, i) {
      assert Findable(entries, slots, i);
      var e :| 0 <= e < |slots| && FoundAt(entries, slots, i, e);
      assert FoundAt(more, slots, i, e);
    }
  }

  const INITIAL_SLOTS := 64

  class AccessLog {
    var entries: seq<AccessEntry>
    var slots: seq<nat>

    /** At least half of the slots are empty. */
    predicate Valid()
      reads this
    {
      && DistinctKeys(entries) && 2 * |entries| <= |slots|
      && (|slots| == 0 || Indexed(entries, slots, |entries|))
    }

    /** The strongest access per key. */
    ghost function Contents(): map<AccessKey, AccessKind>
      requires DistinctKeys(entries)
      reads this
    {
      Accesses(entries)
    }

    constructor ()
      ensures Valid() && entries == []
    {
      entries, slots := [], [];
    }

    /** Doubles the index and puts every entry back. */
    method Grow()
      requires Valid()
      modifies this`slots
      ensures Valid() && |slots| == if |old(slots)| == 0 then INITIAL_SLOTS else 2 * |old(slots)|
    {
      var capacity := if slots == [] then INITIAL_SLOTS else 2 * |slots|;
      slots := Reindexed(entries, capacity);
    }

    /** The kind of this key becomes the stronger of the two; no other key changes. */
    method Record(archetype: bv32, chunk: bv32, component: bv16, kind: AccessKind)
      requires Valid()
      modifies this
      ensures Valid()
      ensures var key := KeyOf(archetype, chunk, component);
        Contents() == old(Contents())[key := if key in old(Contents()) && kind.Read? then old(Contents())[key] else kind]
    {
      if (|entries| + 1) * 2 > |slots| {
        Grow();
      }
      entries, slots := Merge(entries, slots, AccessEntry(archetype, chunk, component, kind));
    }

    method Clear()
      modifies this
      ensures Valid() && entries == [] && |slots| == |old(slots)|
    {
      entries := [];
      slots := seq(|slots|, _ => 0);
    }

    /** The entry with this key, if there is one. */
    method Find(archetype: bv32, chunk: bv32, component: bv16) returns (r: Option<AccessEntry>)
      requires Valid()
      ensures r.Some? <==> KeyOf(archetype, chunk, component) in Contents()
      ensures r.Some? ==> r.value in entries && Key(r.value) == KeyOf(archetype, chunk, component) && r.value.kind == Contents()[Key(r.value)]
    {
      AccessesKeys(entries);
      if slots == [] {
        return None;
      }
      var slot, d := Probe(entries, slots, KeyOf(archetype, chunk, component), |entries|);
      if slots[slot] == 0 {
        return None;
      }
      AccessesAt(entries, slots[slot] - 1);
      return Some(entries[slots[slot] - 1]);
    }

    /** Finds a key in both logs that one of them holds as written, if there is one. */
    method FindConflict(other: AccessLog) returns (r: Option<AccessEntry>)
      requires Valid() && other.Valid()
      ensures r.Some? <==> Overlap(Contents(), other.Contents())
      ensures r.Some? ==> r.value in entries && Clashes(Contents(), other.Contents(), Key(r.value))
    {
      AccessesKeys(entries);
      AccessesKeys(other.entries);
      for i := 0 to |entries|
        invariant forall j :: 0 <= j < i ==> !Clashes(Contents(), other.Contents(), Key(entries[j]))
      {
        var e := entries[i];
        AccessesAt(entries, i);
        var theirs := other.Find(e.archetype, e.chunk, e.component);
        if theirs.Some? && (e.kind == Write || theirs.value.kind == Write) {
          assert Clashes(Contents(), other.Contents(), Key(e));
          return Some(e);
        }
      }
      return None;
    }
  }

  /** Both logs touched the key, and one of them wrote. */
  predicate Clashes(a: map<AccessKey, AccessKind>, b: map<AccessKey, AccessKind>, key: AccessKey) {
    key in a && key in b && (a[key] == Write || b[key] == Write)
  }

  ghost predicate Overlap(a: map<AccessKey, AccessKind>, b: map<AccessKey, AccessKind>) {
    exists key :: Clashes(a, b, key)
  }

  /** Finds the entry's slot and upgrades or appends. */
  method Merge(entries: seq<AccessEntry>, slots: seq<nat>, e: AccessEntry) returns (newEntries: seq<AccessEntry>, newSlots: seq<nat>)
    requires DistinctKeys(entries) && Indexed(entries, slots, |entries|) && 2 * (|entries| + 1) <= |slots|
    ensures DistinctKeys(newEntries) && Indexed(newEntries, newSlots, |newEntries|) && 2 * |newEntries| <= |newSlots|
    ensures Accesses(newEntries) ==
      Accesses(entries)[Key(e) := if Key(e) in Accesses(entries) && e.kind.Read? then Accesses(entries)[Key(e)] else e.kind]
  {
    hide Mix, Start, KeyOf;
    AccessesKeys(entries);
    newEntries, newSlots := entries, slots;
    assert entries[..|entries|] == entries;
    var slot, d := Probe(entries, slots, Key(e), |entries|);
    if slots[slot] != 0 {
      var i := slots[slot] - 1;
      AccessesAt(entries, i);
      if e.kind == Write {
        AccessesUpgraded(entries, i);
        newEntries := entries[i := entries[i].(kind := Write)];
        IndexedMore(entries, newEntries, slots, |entries|);
      } else {
        SameValue(Accesses(entries), Key(e));
      }
      return;
    }
    AccessesAppended(entries, e);
    newEntries := entries + [e];
    IndexedMore(entries, newEntries, slots, |entries|);
    Placed(newEntries, slots, |entries|, d);
    newSlots := slots[slot := |newEntries|];
  }

  method Reindexed(entries: seq<AccessEntry>, capacity: nat) returns (slots: seq<nat>)
    requires DistinctKeys(entries) && 2 * |entries| <= capacity && capacity > 0
    ensures |slots| == capacity && Indexed(entries, slots, |entries|)
  {
    slots := seq(capacity, _ => 0);
    for i := 0 to |entries|
      invariant |slots| == capacity && Indexed(entries, slots, i)
    {
      assert DistinctKeys(entries[..i]);
      var slot, d := Probe(entries, slots, Key(entries[i]), i);
      Placed(entries, slots, i, d);
      slots := slots[slot := i + 1];
    }
  }

  // --- entries as a map -----------------------------------------------------------------------------

  ghost function Accesses(entries: seq<AccessEntry>): map<AccessKey, AccessKind> {
    if entries == [] then map[]
    else Accesses(entries[..|entries| - 1])[Key(entries[|entries| - 1]) := entries[|entries| - 1].kind]
  }

  lemma {:induction false} AccessesKeys(entries: seq<AccessEntry>)
    ensures forall key :: key in Accesses(entries) <==> exists i :: 0 <= i < |entries| && Key(entries[i]) == key
  {
    if entries != [] {
      var n := |entries| - 1;
      AccessesKeys(entries[..n]);
      forall key ensures key in Accesses(entries) <==> exists i :: 0 <= i < |entries| && Key(entries[i]) == key {
        if key in Accesses(entries) {
          if key == Key(entries[n]) {
            assert Key(entries[n]) == key;
          } else {
            assert key in Accesses(entries[..n]);
            var i :| 0 <= i < n && Key(entries[..n][i]) == key;
            assert Key(entries[i]) == key;
          }
        }
        if i :| 0 <= i < n && Key(entries[i]) == key {
          assert Key(entries[..n][i]) == key;
        }
      }
    }
  }

  lemma {:induction false} AccessesAt(entries: seq<AccessEntry>, i: nat)
    requires DistinctKeys(entries) && i < |entries|
    ensures Key(entries[i]) in Accesses(entries) && Accesses(entries)[Key(entries[i])] == entries[i].kind
  {
    var n := |entries| - 1;
    assert Accesses(entries) == Accesses(entries[..n])[Key(entries[n]) := entries[n].kind];
    if i < n {
      AccessesAt(entries[..n], i);
      assert entries[..n][i] == entries[i] && Key(entries[i]) != Key(entries[n]);
    }
  }

  lemma SameValue(m: map<AccessKey, AccessKind>, key: AccessKey)
    requires key in m
    ensures m[key := m[key]] == m
  {}

  lemma AccessesAppended(entries: seq<AccessEntry>, e: AccessEntry)
    ensures Accesses(entries + [e]) == Accesses(entries)[Key(e) := e.kind]
  {
    assert (entries + [e])[..|entries|] == entries;
  }

  lemma {:induction false} AccessesUpgraded(entries: seq<AccessEntry>, i: nat)
    requires DistinctKeys(entries) && i < |entries|
    ensures Accesses(entries[i := entries[i].(kind := Write)]) == Accesses(entries)[Key(entries[i]) := Write]
    ensures Key(entries[i]) in Accesses(entries)
  {
    var n := |entries| - 1;
    var changed := entries[i := entries[i].(kind := Write)];
    if i < n {
      AccessesUpgraded(entries[..n], i);
      assert changed[..n] == entries[..n][i := entries[..n][i].(kind := Write)];
    } else {
      assert changed[..n] == entries[..n];
    }
  }
}
