/** The children of the `sensorData` node and the zero-counting rule that the
    occupancy monitor applies to them, as pure specification functions. */
module SensorData {

  datatype Option<+T> = None | Some(value: T)

  /** One child of a snapshot: its key (nullable in the client library) and its
      value as read with `getValue(Int::class.java)`, null only when the node
      holds no value. */
  datatype Child = Child(key: Option<string>, value: Option<int>)

  /** A snapshot delivers its children in some order. */
  type Snapshot = seq<Child>

  /** The two parking zones; each one is watched by three sensors. */
  datatype Zone = Zone1 | Zone2

  /** The configuration table zone -> sensor keys: three distinct keys per
      zone. */
  function ZoneKeys(z: Zone): (keys: seq<string>)
    ensures |keys| == 3 && keys[0] != keys[1] && keys[0] != keys[2] && keys[1] != keys[2]
  {
    match z
    case Zone1 => ["A1_1", "A1_2", "A1_3"]
    case Zone2 => ["A2_1", "A2_2", "A2_3"]
  }

  /** No key belongs to both zones. */
  lemma ZonesDisjoint()
    ensures forall k :: k in ZoneKeys(Zone1) ==> k !in ZoneKeys(Zone2)
  {
    forall k | k in ZoneKeys(Zone1) ensures k !in ZoneKeys(Zone2) {
      assert k[1] == '1';
    }
  }

  /** A child adds one to the counter of `keys` when its key is one of them and
      its value is exactly 0; a null key is in no list and a null value is not 0. */
  predicate IsZeroIn(c: Child, keys: seq<string>)
  {
    c.key.Some? && c.key.value in keys && c.value == Some(0)
  }

  /** The two tests of the loop never both succeed on one child: a child adds
      to at most one of the two counters. */
  lemma ChildCountsForOneZoneAtMost(c: Child)
    ensures !(IsZeroIn(c, ZoneKeys(Zone1)) && IsZeroIn(c, ZoneKeys(Zone2)))
  {
    ZonesDisjoint();
  }

  /** The number of children of `s` that count for `keys`, taken in iteration
      order (the last child is added last). */
  function ZeroCount(s: Snapshot, keys: seq<string>): (n: nat)
    ensures n <= |s|
    ensures n == 0 <==> forall i :: 0 <= i < |s| ==> !IsZeroIn(s[i], keys)
  {
    if s == [] then 0
    else ZeroCount(s[..|s| - 1], keys) + (if IsZeroIn(s[|s| - 1], keys) then 1 else 0)
  }

  /** The counter of one zone after a whole snapshot: at most the number of
      children carrying one of the zone's keys. */
  function ZoneCount(s: Snapshot, z: Zone): (n: nat)
    ensures n <= |Restrict(s, ZoneKeys(z))|
  {
    ZeroCountRestrict(s, ZoneKeys(z));
    ZeroCount(s, ZoneKeys(z))
  }

  /** The children of `s` whose key belongs to `keys`, in their order. */
  function Restrict(s: Snapshot, keys: seq<string>): (r: Snapshot)
    ensures |r| <= |s|
    ensures forall i :: 0 <= i < |r| ==> r[i].key.Some? && r[i].key.value in keys
  {
    if s == [] then []
    else
      var c := s[|s| - 1];
      Restrict(s[..|s| - 1], keys) + (if c.key.Some? && c.key.value in keys then [c] else [])
  }

  /** Counting is additive over a split of the snapshot. */
  lemma {:induction false} ZeroCountAppend(a: Snapshot, b: Snapshot, keys: seq<string>)
    ensures ZeroCount(a + b, keys) == ZeroCount(a, keys) + ZeroCount(b, keys)
    decreases |b|
  {
    if b == [] {
      assert a + b == a;
    } else {
      var n := |b| - 1;
      assert (a + b)[..|a + b| - 1] == a + b[..n];
      assert (a + b)[|a + b| - 1] == b[n];
      ZeroCountAppend(a, b[..n], keys);
    }
  }

  /** Counting from the front gives the same counter as the iteration order. */
  lemma ZeroCountCons(c: Child, s: Snapshot, keys: seq<string>)
    ensures ZeroCount([c] + s, keys) == (if IsZeroIn(c, keys) then 1 else 0) + ZeroCount(s, keys)
  {
    ZeroCountAppend([c], s, keys);
    assert [c][..0] == [];
  }

  /** A child that does not count for `keys` can be removed from anywhere in
      the snapshot without changing the counter. */
  lemma NonCountingChildInvisible(a: Snapshot, c: Child, b: Snapshot, keys: seq<string>)
    requires !IsZeroIn(c, keys)
    ensures ZeroCount(a + [c] + b, keys) == ZeroCount(a + b, keys)
  {
    ZeroCountAppend(a + [c], b, keys);
    ZeroCountAppend(a, [c], keys);
    ZeroCountAppend(a, b, keys);
    assert [c][..0] == [];
  }

  /** A child whose key is null or is none of the six sensor keys changes
      neither zone's counter. */
  lemma UnrecognisedKeyIgnored(a: Snapshot, c: Child, b: Snapshot)
    requires c.key.None? || (c.key.value !in ZoneKeys(Zone1) && c.key.value !in ZoneKeys(Zone2))
    ensures ZoneCount(a + [c] + b, Zone1) == ZoneCount(a + b, Zone1)
    ensures ZoneCount(a + [c] + b, Zone2) == ZoneCount(a + b, Zone2)
  {
    NonCountingChildInvisible(a, c, b, ZoneKeys(Zone1));
    NonCountingChildInvisible(a, c, b, ZoneKeys(Zone2));
  }

  /** A child whose value is null or a non-zero integer changes neither
      zone's counter, whatever its key. */
  lemma NonZeroValueIgnored(a: Snapshot, c: Child, b: Snapshot)
    requires c.value != Some(0)
    ensures ZoneCount(a + [c] + b, Zone1) == ZoneCount(a + b, Zone1)
    ensures ZoneCount(a + [c] + b, Zone2) == ZoneCount(a + b, Zone2)
  {
    NonCountingChildInvisible(a, c, b, ZoneKeys(Zone1));
    NonCountingChildInvisible(a, c, b, ZoneKeys(Zone2));
  }

  /** The counter of `keys` sees only the children whose key is in `keys`. */
  lemma {:induction false} ZeroCountRestrict(s: Snapshot, keys: seq<string>)
    ensures ZeroCount(Restrict(s, keys), keys) == ZeroCount(s, keys)
    decreases |s|
  {
    if s != [] {
      var n := |s| - 1;
      var c := s[n];
      ZeroCountRestrict(s[..n], keys);
      var r := Restrict(s[..n], keys);
      if c.key.Some? && c.key.value in keys {
        assert (r + [c])[..|r + [c]| - 1] == r;
      } else {
        assert r + [] == r;
      }
    }
  }

  /** Restricting keeps every child of the zone as often as it occurs and
      drops all others. */
  lemma {:induction false} RestrictMultiset(s: Snapshot, keys: seq<string>)
    ensures forall c ::
      multiset(Restrict(s, keys))[c] == (if c.key.Some? && c.key.value in keys then multiset(s)[c] else 0)
    decreases |s|
  {
    if s != [] {
      var n := |s| - 1;
      RestrictMultiset(s[..n], keys);
      assert s == s[..n] + [s[n]];
    }
  }

  /** Reordering a snapshot reorders the children of each zone. */
  lemma RestrictPermutation(s: Snapshot, t: Snapshot, keys: seq<string>)
    requires multiset(s) == multiset(t)
    ensures multiset(Restrict(s, keys)) == multiset(Restrict(t, keys))
  {
    RestrictMultiset(s, keys);
    RestrictMultiset(t, keys);
  }

  /** The zones are independent: two snapshots that agree on the children of
      one zone give that zone the same counter, whatever the other children. */
  lemma {:induction false} ZonesIndependent(s: Snapshot, t: Snapshot, z: Zone)
    requires Restrict(s, ZoneKeys(z)) == Restrict(t, ZoneKeys(z))
    ensures ZoneCount(s, z) == ZoneCount(t, z)
  {
    ZeroCountRestrict(s, ZoneKeys(z));
    ZeroCountRestrict(t, ZoneKeys(z));
  }

  /** The counter does not depend on the order in which children are
      iterated. */
  lemma {:induction false} ZeroCountPermutation(s: Snapshot, t: Snapshot, keys: seq<string>)
    requires multiset(s) == multiset(t)
    ensures ZeroCount(s, keys) == ZeroCount(t, keys)
    decreases |s|
  {
    if s == [] {
      assert |t| == |multiset(t)| == 0;
    } else {
      var n := |s| - 1;
      var x := s[n];
      assert s == s[..n] + [x];
      assert x in multiset(t);
      var j :| 0 <= j < |t| && t[j] == x;
      var rest := t[..j] + t[j + 1..];
      assert t == t[..j] + [x] + t[j + 1..];
      assert multiset(s[..n]) == multiset(s) - multiset{x};
      assert multiset(rest) == multiset(t) - multiset{x};
      ZeroCountPermutation(s[..n], rest, keys);
      ZeroCountAppend(t[..j] + [x], t[j + 1..], keys);
      ZeroCountAppend(t[..j], [x], keys);
      ZeroCountAppend(t[..j], t[j + 1..], keys);
      assert [x][..0] == [];
    }
  }
}
