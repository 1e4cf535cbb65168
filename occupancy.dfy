/** The occupancy decision: a zone is "terisi" (occupied) when its counter
    reaches 3, and its indicator is then red, otherwise green. */
module Occupancy {
  import opened SensorData

  /** The colours an indicator can be given. */
  datatype Colour = Red | Green

  /** The decision on one zone's counter: full when every sensor of the zone
      has been counted, the same threshold for both zones. */
  predicate Occupied(count: int)
    ensures Occupied(count) <==> forall z: Zone :: count == |ZoneKeys(z)|
  {
    assert |ZoneKeys(Zone1)| == 3;
    count == 3
  }

  /** The colour that a snapshot gives the indicator of zone `z`: red only
      when the zone has three children reading 0, so a snapshot with fewer than
      three children of the zone always gives green. */
  function ZoneColour(s: Snapshot, z: Zone): (c: Colour)
    ensures c == Red <==> ZoneCount(s, z) == 3
    ensures |Restrict(s, ZoneKeys(z))| < 3 ==> c == Green
  {
    if Occupied(ZoneCount(s, z)) then Red else Green
  }

  /** The store never delivers two children with the same key; the code
      itself does not rely on nor check this. */
  ghost predicate DistinctKeys(s: Snapshot)
  {
    forall i, j :: 0 <= i < j < |s| && s[i].key.Some? ==> s[i].key != s[j].key
  }

  /** Every sensor of the zone is present in the snapshot and reads 0. */
  ghost predicate AllZero(s: Snapshot, z: Zone)
  {
    forall k :: k in ZoneKeys(z) ==>
      exists i :: 0 <= i < |s| && s[i].key == Some(k) && s[i].value == Some(0)
  }

  /** The keys of `keys` that some child of `s` reports with value 0. */
  ghost function ZeroKeys(s: Snapshot, keys: seq<string>): (r: set<string>)
    ensures forall k :: k in r ==> k in keys
    ensures forall k :: k in r <==>
      exists i :: 0 <= i < |s| && IsZeroIn(s[i], keys) && s[i].key.value == k
  {
    if s == [] then {}
    else
      var n := |s| - 1;
      var p := s[..n];
      var r := ZeroKeys(p, keys) + (if IsZeroIn(s[n], keys) then {s[n].key.value} else {});
      assert forall i :: 0 <= i < n ==> s[i] == p[i];
      r
  }

  /** With distinct keys, the counter is the number of sensor keys that read 0. */
  lemma {:induction false} ZeroCountDistinct(s: Snapshot, keys: seq<string>)
    requires DistinctKeys(s)
    ensures ZeroCount(s, keys) == |ZeroKeys(s, keys)|
    decreases |s|
  {
    if s != [] {
      var n := |s| - 1;
      var p := s[..n];
      assert DistinctKeys(p) by {
        forall i, j | 0 <= i < j < |p| && p[i].key.Some?
          ensures p[i].key != p[j].key
        {
          assert p[i] == s[i] && p[j] == s[j];
        }
      }
      ZeroCountDistinct(p, keys);
      if IsZeroIn(s[n], keys) {
        var k := s[n].key.value;
        assert forall i :: 0 <= i < |p| ==> p[i] == s[i];
        assert k !in ZeroKeys(p, keys);
      }
    }
  }

  /** A subset is no larger than its superset. */
  lemma {:induction false} SubsetCardinality(a: set<string>, b: set<string>)
    requires a <= b
    ensures |a| <= |b|
    decreases |a|
  {
    if a != {} {
      var x :| x in a;
      SubsetCardinality(a - {x}, b - {x});
    }
  }

  /** The three sensor keys of a zone, as a set. */
  ghost function ZoneKeySet(z: Zone): (r: set<string>)
    ensures |r| == 3
    ensures forall k :: k in r <==> k in ZoneKeys(z)
  {
    var keys := ZoneKeys(z);
    assert keys[0][3] != keys[1][3] && keys[0][3] != keys[2][3] && keys[1][3] != keys[2][3];
    assert {keys[0], keys[1], keys[2]} == set k | k in keys;
    {keys[0], keys[1], keys[2]}
  }

  /** With distinct keys, a sensor of the zone that is absent or does not
      read 0 caps the zone's counter at 2. */
  lemma SensorNotZeroMeansFree(s: Snapshot, z: Zone, k: string)
    requires DistinctKeys(s)
    requires k in ZoneKeys(z)
    requires !exists i :: 0 <= i < |s| && s[i].key == Some(k) && s[i].value == Some(0)
    ensures ZoneCount(s, z) <= 2
  {
    var zero := ZeroKeys(s, ZoneKeys(z));
    ZeroCountDistinct(s, ZoneKeys(z));
    var others := ZoneKeySet(z) - {k};
    assert |others| == 2;
    assert zero <= others;
    SubsetCardinality(zero, others);
  }

  /** With distinct keys, a zone whose sensors all read 0 has counter 3. */
  lemma AllZeroMeansFull(s: Snapshot, z: Zone)
    requires DistinctKeys(s)
    requires AllZero(s, z)
    ensures ZoneCount(s, z) == 3
  {
    var keys := ZoneKeys(z);
    var zero := ZeroKeys(s, keys);
    ZeroCountDistinct(s, keys);
    forall k | k in ZoneKeySet(z) ensures k in zero {
      var i :| 0 <= i < |s| && s[i].key == Some(k) && s[i].value == Some(0);
      assert IsZeroIn(s[i], keys);
    }
    assert zero == ZoneKeySet(z);
  }

  /** Given distinct keys, a zone is occupied exactly when all three of its
      sensors are present and read 0. */
  lemma OccupiedIffAllZero(s: Snapshot, z: Zone)
    requires DistinctKeys(s)
    ensures Occupied(ZoneCount(s, z)) <==> AllZero(s, z)
  {
    if AllZero(s, z) {
      AllZeroMeansFull(s, z);
    } else {
      var k :| k in ZoneKeys(z) && !exists i :: 0 <= i < |s| && s[i].key == Some(k) && s[i].value == Some(0);
      SensorNotZeroMeansFree(s, z, k);
    }
  }

  /** A sensor missing from a snapshot with distinct keys keeps its zone free. */
  lemma MissingSensorMeansFree(s: Snapshot, z: Zone, k: string)
    requires DistinctKeys(s)
    requires k in ZoneKeys(z)
    requires forall i :: 0 <= i < |s| ==> s[i].key != Some(k)
    ensures ZoneCount(s, z) <= 2 && ZoneColour(s, z) == Green
  {
    SensorNotZeroMeansFree(s, z, k);
  }

  /** The indicator of a zone is red exactly when all its sensors read 0, and
      green otherwise. */
  lemma ZoneColourRule(s: Snapshot, z: Zone)
    requires DistinctKeys(s)
    ensures ZoneColour(s, z) == Red <==> AllZero(s, z)
    ensures ZoneColour(s, z) == Green <==> !AllZero(s, z)
  {
    OccupiedIffAllZero(s, z);
  }

  /** The colour of a zone depends only on the zone's own children, in any
      order: two snapshots whose children of the zone agree up to reordering
      give it the same colour, whatever their other children. */
  lemma ZoneColourStable(s: Snapshot, t: Snapshot, z: Zone)
    requires multiset(Restrict(s, ZoneKeys(z))) == multiset(Restrict(t, ZoneKeys(z)))
    ensures ZoneColour(s, z) == ZoneColour(t, z)
  {
    ZeroCountRestrict(s, ZoneKeys(z));
    ZeroCountRestrict(t, ZoneKeys(z));
    ZeroCountPermutation(Restrict(s, ZoneKeys(z)), Restrict(t, ZoneKeys(z)), ZoneKeys(z));
  }

  /** In particular, reordering the whole snapshot keeps both colours. */
  lemma ReorderKeepsColours(s: Snapshot, t: Snapshot)
    requires multiset(s) == multiset(t)
    ensures ZoneColour(s, Zone1) == ZoneColour(t, Zone1)
    ensures ZoneColour(s, Zone2) == ZoneColour(t, Zone2)
  {
    RestrictPermutation(s, t, ZoneKeys(Zone1));
    RestrictPermutation(s, t, ZoneKeys(Zone2));
    ZoneColourStable(s, t, Zone1);
    ZoneColourStable(s, t, Zone2);
  }

  /** Without distinct keys the counter can reach 3 with a sensor missing:
      this is why the rule above needs them. */
  lemma DuplicateKeysCanFillZone()
    ensures var s := [Child(Some("A1_1"), Some(0)), Child(Some("A1_1"), Some(0)), Child(Some("A1_2"), Some(0))];
      Occupied(ZoneCount(s, Zone1)) && !AllZero(s, Zone1) && !DistinctKeys(s)
  {
    var s := [Child(Some("A1_1"), Some(0)), Child(Some("A1_1"), Some(0)), Child(Some("A1_2"), Some(0))];
    var keys := ZoneKeys(Zone1);
    assert s[..2] == [s[0], s[1]] && s[..2][..1] == [s[0]] && [s[0]][..0] == [];
    assert ZeroCount([s[0]], keys) == 1;
    assert ZeroCount(s[..2], keys) == 2;
    assert "A1_3" != "A1_1" && "A1_3" != "A1_2" by {
      assert "A1_3"[3] != "A1_1"[3] && "A1_3"[3] != "A1_2"[3];
    }
    assert "A1_3" in ZoneKeys(Zone1);
  }
}
