/** The listener of the `sensorData` node: the counting loop run on every
    snapshot, and the two indicators whose background it sets. */
module MainActivity {
  import opened SensorData
  import opened Occupancy

  /** The two indicator views, `vBoxLeft` (zone 1) and `vBoxRight` (zone 2). */
  datatype Side = Left | Right

  /** The counting loop of `onDataChange`: both counters start at 0 and each
      child adds at most one to each of them. */
  method CountZones(snapshot: Snapshot) returns (parkir1Count: nat, parkir2Count: nat)
    ensures parkir1Count == ZoneCount(snapshot, Zone1)
    ensures parkir2Count == ZoneCount(snapshot, Zone2)
    ensures parkir1Count <= |snapshot| && parkir2Count <= |snapshot|
  {
    parkir1Count, parkir2Count := 0, 0;
    for i := 0 to |snapshot|
      invariant parkir1Count == ZeroCount(snapshot[..i], ZoneKeys(Zone1))
      invariant parkir2Count == ZeroCount(snapshot[..i], ZoneKeys(Zone2))
    {
      assert snapshot[..i + 1][..i] == snapshot[..i];
      var key, value := snapshot[i].key, snapshot[i].value;
      if key.Some? && key.value in ZoneKeys(Zone1) && value == Some(0) {
        parkir1Count := parkir1Count + 1;
      }
      if key.Some? && key.value in ZoneKeys(Zone2) && value == Some(0) {
        parkir2Count := parkir2Count + 1;
      }
    }
    assert snapshot[..|snapshot|] == snapshot;
  }

  /** The background colours of the two indicator views. */
  class Indicators {
    var left: Colour
    var right: Colour
    /** Every background write, in order. */
    ghost var painted: seq<(Side, Colour)>

    /** The colours the layout gives the views before the first snapshot. */
    constructor (left0: Colour, right0: Colour)
      ensures left == left0 && right == right0 && painted == []
    {
      left, right := left0, right0;
      painted := [];
    }

    /** `setBackgroundColor` on one view; the other keeps its colour. */
    method SetBackground(side: Side, c: Colour)
      modifies this
      ensures painted == old(painted) + [(side, c)]
      ensures left == (if side == Left then c else old(left))
      ensures right == (if side == Right then c else old(right))
    {
      if side == Left {
        left := c;
      } else {
        right := c;
      }
      painted := painted + [(side, c)];
    }

    /** A snapshot-changed event: the counters are recomputed from this
        snapshot alone, then each view is painted exactly once, left first. */
    method OnDataChange(snapshot: Snapshot)
      modifies this
      ensures left == ZoneColour(snapshot, Zone1)
      ensures right == ZoneColour(snapshot, Zone2)
      ensures painted == old(painted) + [(Left, left), (Right, right)]
    {
      var parkir1Count, parkir2Count := CountZones(snapshot);
      var parkir1Terisi := Occupied(parkir1Count);
      var parkir2Terisi := Occupied(parkir2Count);
      if parkir1Terisi {
        SetBackground(Left, Red);
      } else {
        SetBackground(Left, Green);
      }
      if parkir2Terisi {
        SetBackground(Right, Red);
      } else {
        SetBackground(Right, Green);
      }
    }

    /** A cancelled-read event only reports the failure: neither view is
        touched. */
    method OnCancelled()
      ensures unchanged(this)
    {
    }
  }

  /** The counter of a three-child snapshot, child by child. */
  lemma ZoneCountOfThree(t: Snapshot, z: Zone)
    requires |t| == 3
    ensures ZoneCount(t, z) ==
      (if IsZeroIn(t[0], ZoneKeys(z)) then 1 else 0) + (if IsZeroIn(t[1], ZoneKeys(z)) then 1 else 0)
      + (if IsZeroIn(t[2], ZoneKeys(z)) then 1 else 0)
  {
    assert t == [t[0]] + ([t[1]] + ([t[2]] + []));
    ZeroCountCons(t[0], [t[1]] + ([t[2]] + []), ZoneKeys(z));
    ZeroCountCons(t[1], [t[2]] + [], ZoneKeys(z));
    ZeroCountCons(t[2], [], ZoneKeys(z));
  }

  /** The zone-1 half of the sample snapshot: all three sensors read 0. */
  const ZoneOneReadings: Snapshot :=
    [Child(Some("A1_1"), Some(0)), Child(Some("A1_2"), Some(0)), Child(Some("A1_3"), Some(0))]

  /** The zone-2 half of the sample snapshot: `A2_1` reads 1. */
  const ZoneTwoReadings: Snapshot :=
    [Child(Some("A2_1"), Some(1)), Child(Some("A2_2"), Some(0)), Child(Some("A2_3"), Some(0))]

  lemma ZoneOneReadingsCount()
    ensures ZoneCount(ZoneOneReadings, Zone1) == 3 && ZoneCount(ZoneOneReadings, Zone2) == 0
  {
    ZoneCountOfThree(ZoneOneReadings, Zone1);
    ZoneCountOfThree(ZoneOneReadings, Zone2);
  }

  lemma ZoneTwoReadingsCount()
    ensures ZoneCount(ZoneTwoReadings, Zone1) == 0 && ZoneCount(ZoneTwoReadings, Zone2) == 2
  {
    ZoneCountOfThree(ZoneTwoReadings, Zone1);
    ZoneCountOfThree(ZoneTwoReadings, Zone2);
  }

  /** The snapshot `{A1_1:0, A1_2:0, A1_3:0, A2_1:1, A2_2:0, A2_3:0}` paints
      the left view red and the right one green; an empty snapshot paints
      both green. */
  lemma Scenarios()
    ensures var s := ZoneOneReadings + ZoneTwoReadings;
      && ZoneCount(s, Zone1) == 3 && ZoneColour(s, Zone1) == Red
      && ZoneCount(s, Zone2) == 2 && ZoneColour(s, Zone2) == Green
    ensures ZoneColour([], Zone1) == Green && ZoneColour([], Zone2) == Green
  {
    ZoneOneReadingsCount();
    ZoneTwoReadingsCount();
    ZeroCountAppend(ZoneOneReadings, ZoneTwoReadings, ZoneKeys(Zone1));
    ZeroCountAppend(ZoneOneReadings, ZoneTwoReadings, ZoneKeys(Zone2));
  }
}
