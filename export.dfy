/** The records that saveFile writes (GUI/imageviewer.cpp:112-127), one per
    line: first a P record per outline point, numbered from 0 in outline order,
    then a D record per point of each finished door, carrying the door's
    number.  The pending door is not an argument: it is never written. */
module Export {
  import opened Annotation

  datatype Kind = PointKind | DoorKind

  /** One line of the saved file: its tag, its number and the point it carries. */
  datatype Record = Record(kind: Kind, index: nat, at: Point)

  /** The P records of an outline (the first loop of saveFile, counter `x`). */
  function PointRecords(points: seq<Point>): seq<Record>
    decreases |points|
  {
    if points == [] then []
    else
      var n := |points| - 1;
      PointRecords(points[..n]) + [Record(PointKind, n, points[n])]
  }

  /** The D records of door number `i` (the inner loop of saveFile). */
  function DoorPointRecords(i: nat, door: seq<Point>): seq<Record>
    decreases |door|
  {
    if door == [] then []
    else
      var n := |door| - 1;
      DoorPointRecords(i, door[..n]) + [Record(DoorKind, i, door[n])]
  }

  /** The D records of a door list (the outer door loop of saveFile, counter `i`). */
  function DoorRecords(doors: seq<seq<Point>>): seq<Record>
    decreases |doors|
  {
    if doors == [] then []
    else
      var n := |doors| - 1;
      DoorRecords(doors[..n]) + DoorPointRecords(n, doors[n])
  }

  /** Everything saveFile writes, in order. */
  function ExportRecords(points: seq<Point>, doors: seq<seq<Point>>): seq<Record>
  {
    PointRecords(points) + DoorRecords(doors)
  }

  /** Exactly one P record per outline point; record k is numbered k and
      carries the k-th point. */
  lemma {:induction false} PointRecordsAt(points: seq<Point>)
    ensures |PointRecords(points)| == |points|
    ensures forall k :: 0 <= k < |points| ==> PointRecords(points)[k] == Record(PointKind, k, points[k])
    decreases |points|
  {
    if points != [] {
      var n := |points| - 1;
      PointRecordsAt(points[..n]);
    }
  }

  /** Exactly one D record per point of a door, all numbered with the door's
      number, in the door's point order. */
  lemma {:induction false} DoorPointRecordsAt(i: nat, door: seq<Point>)
    ensures |DoorPointRecords(i, door)| == |door|
    ensures forall j :: 0 <= j < |door| ==> DoorPointRecords(i, door)[j] == Record(DoorKind, i, door[j])
    decreases |door|
  {
    if door != [] {
      DoorPointRecordsAt(i, door[..|door| - 1]);
    }
  }

  /** The D records are as many as the doors' points together; record k is a
      D record, carries the k-th door point and the number of a door in the
      list. */
  lemma {:induction false} DoorRecordsShape(doors: seq<seq<Point>>)
    ensures |DoorRecords(doors)| == |Flatten(doors)|
    ensures forall k :: 0 <= k < |DoorRecords(doors)| ==>
      DoorRecords(doors)[k].kind == DoorKind && DoorRecords(doors)[k].index < |doors| && DoorRecords(doors)[k].at == Flatten(doors)[k]
    decreases |doors|
  {
    if doors != [] {
      var n := |doors| - 1;
      DoorRecordsShape(doors[..n]);
      DoorPointRecordsAt(n, doors[n]);
      var r := DoorRecords(doors);
      forall k | 0 <= k < |r|
        ensures r[k].kind == DoorKind && r[k].index < |doors| && r[k].at == Flatten(doors)[k]
      {
        if k >= |DoorRecords(doors[..n])| {
          assert r[k] == DoorPointRecords(n, doors[n])[k - |DoorRecords(doors[..n])|];
        }
      }
    }
  }

  /** Point j of door i is written as record |Flatten(doors[..i])| + j of the
      D records: doors in list order, points in door order. */
  lemma {:induction false} DoorRecordsAt(doors: seq<seq<Point>>, i: nat, j: nat)
    requires i < |doors| && j < |doors[i]|
    ensures |Flatten(doors[..i])| + j < |DoorRecords(doors)|
    ensures DoorRecords(doors)[|Flatten(doors[..i])| + j] == Record(DoorKind, i, doors[i][j])
    decreases |doors|
  {
    var n := |doors| - 1;
    DoorRecordsShape(doors[..n]);
    DoorRecordsShape(doors);
    DoorPointRecordsAt(n, doors[n]);
    if i < n {
      DoorRecordsAt(doors[..n], i, j);
      assert doors[..n][..i] == doors[..i];
    } else {
      assert doors[..i] == doors[..n];
    }
  }

  /** The door numbers of the D records never decrease. */
  lemma {:induction false} DoorRecordsOrdered(doors: seq<seq<Point>>)
    ensures forall a, b :: 0 <= a <= b < |DoorRecords(doors)| ==> DoorRecords(doors)[a].index <= DoorRecords(doors)[b].index
    decreases |doors|
  {
    if doors != [] {
      var n := |doors| - 1;
      var front := DoorRecords(doors[..n]);
      DoorRecordsOrdered(doors[..n]);
      DoorRecordsShape(doors[..n]);
      DoorPointRecordsAt(n, doors[n]);
      var r := DoorRecords(doors);
      forall a, b | 0 <= a <= b < |r| ensures r[a].index <= r[b].index {
        if b >= |front| {
          assert r[b] == DoorPointRecords(n, doors[n])[b - |front|];
          if a >= |front| {
            assert r[a] == DoorPointRecords(n, doors[n])[a - |front|];
          } else {
            assert r[a] == front[a];
          }
        } else {
          assert r[a] == front[a] && r[b] == front[b];
        }
      }
    }
  }

  /** The whole file: |points| P records followed by the D records; record k
      is a P record exactly when k < |points|, and the records carry the
      outline points and then the door points in order. */
  lemma ExportLayout(points: seq<Point>, doors: seq<seq<Point>>)
    ensures |ExportRecords(points, doors)| == |points| + |Flatten(doors)|
    ensures forall k :: 0 <= k < |ExportRecords(points, doors)| ==>
      (ExportRecords(points, doors)[k].kind == PointKind <==> k < |points|) &&
      ExportRecords(points, doors)[k].at == (points + Flatten(doors))[k]
  {
    PointRecordsAt(points);
    DoorRecordsShape(doors);
    var r := ExportRecords(points, doors);
    forall k | 0 <= k < |r|
      ensures (r[k].kind == PointKind <==> k < |points|) && r[k].at == (points + Flatten(doors))[k]
    {
      if k >= |points| {
        assert r[k] == DoorRecords(doors)[k - |points|];
      }
    }
  }

  /** All P records precede all D records. */
  lemma PointsBeforeDoors(points: seq<Point>, doors: seq<seq<Point>>)
    ensures forall a, b :: 0 <= a < b < |ExportRecords(points, doors)| && ExportRecords(points, doors)[b].kind == PointKind ==>
      ExportRecords(points, doors)[a].kind == PointKind
  {
    ExportLayout(points, doors);
  }

  /** Under the door-pair invariant the file has |points| + 2 * |doors| records. */
  lemma ExportCountOfPairs(points: seq<Point>, doors: seq<seq<Point>>)
    requires forall k :: 0 <= k < |doors| ==> |doors[k]| == 2
    ensures |ExportRecords(points, doors)| == |points| + 2 * |doors|
  {
    ExportLayout(points, doors);
    FlattenOfPairs(doors);
  }

  /** Starting from the empty viewer and without a reset, the file carries the
      left clicks and then every right click except an odd last one, all in
      click order. */
  lemma ExportAfterClicks(es: seq<Event>)
    requires NoReset(es)
    ensures var s := Run(EMPTY, es);
      var r := Clicks(es, RightButton);
      |ExportRecords(s.points, s.doors)| == |Clicks(es, LeftButton)| + |r| - |r| % 2 &&
      forall k :: 0 <= k < |ExportRecords(s.points, s.doors)| ==>
        ExportRecords(s.points, s.doors)[k].at == (Clicks(es, LeftButton) + r[..|r| - |r| % 2])[k]
  {
    var s := Run(EMPTY, es);
    RunPoints(EMPTY, es);
    RunDoorsFromEmpty(es);
    ExportLayout(s.points, s.doors);
  }
}
