/** The annotation part of GUI/imageviewer.cpp's ImageViewer: the three
    containers it fills from pointer presses (mousePressEvent), clears in
    reset, and writes out in saveFile. */
module Viewer {
  import opened Annotation
  import opened Export
  import opened TextFormat

  class ImageViewer {
    /** The room outline, one point per left click. */
    var polygonPoints: seq<Point>
    /** The door being entered, one point per right click. */
    var polygonDoor: seq<Point>
    /** The finished doors, in the order they were completed. */
    var polygonDoorsList: seq<seq<Point>>

    /** The annotation containers as a value. */
    function State(): AnnotationState
      reads this
    {
      AnnotationState(polygonPoints, polygonDoor, polygonDoorsList)
    }

    /** The invariant between presses: fewer than two pending door points and
        exactly two points in every finished door. */
    predicate Valid()
      reads this
    {
      Annotation.Valid(State())
    }

    constructor ()
      ensures polygonPoints == [] && polygonDoor == [] && polygonDoorsList == []
      ensures Valid()
    {
      polygonPoints := [];
      polygonDoor := [];
      polygonDoorsList := [];
    }

    /** A press at `pos` (already in image space) with `button`. */
    method MousePress(button: MouseButton, pos: Point)
      modifies this
      ensures button == LeftButton ==>
        polygonPoints == old(polygonPoints) + [pos] &&
        polygonDoor == old(polygonDoor) && polygonDoorsList == old(polygonDoorsList)
      ensures button == RightButton ==> polygonPoints == old(polygonPoints)
      ensures button == RightButton && |old(polygonDoor)| + 1 == 2 ==>
        polygonDoor == [] && polygonDoorsList == old(polygonDoorsList) + [old(polygonDoor) + [pos]]
      ensures button == RightButton && |old(polygonDoor)| + 1 != 2 ==>
        polygonDoor == old(polygonDoor) + [pos] && polygonDoorsList == old(polygonDoorsList)
      ensures button == RightButton && old(Valid()) && |old(polygonDoor)| == 1 ==>
        polygonDoorsList == old(polygonDoorsList) + [[old(polygonDoor)[0], pos]]
      ensures button == OtherButton ==> unchanged(this)
      ensures old(Valid()) ==> Valid()
      ensures State() == Step(old(State()), Press(button, pos))
    {
      if button == LeftButton {
        polygonPoints := polygonPoints + [pos];
      }
      if button == RightButton {
        polygonDoor := polygonDoor + [pos];
        if |polygonDoor| == 2 {
          assert polygonDoor == [old(polygonDoor)[0], pos];
          polygonDoorsList := polygonDoorsList + [polygonDoor];
          polygonDoor := [];
        }
      }
    }

    /** Clears the outline and the finished doors; the pending door stays. */
    method Reset()
      modifies this
      ensures polygonPoints == [] && polygonDoorsList == [] && polygonDoor == old(polygonDoor)
      ensures old(Valid()) ==> Valid()
      ensures State() == Step(old(State()), ResetEvent)
    {
      polygonPoints := [];
      polygonDoorsList := [];
    }

    /** The records saveFile writes, in order, one per line: the P records of
        the outline followed by the D records of every finished door.  Record
        k is written as the text Line(records[k]).  Nothing is changed, and
        the pending door is not written. */
    method SaveRecords() returns (records: seq<Record>)
      ensures records == ExportRecords(polygonPoints, polygonDoorsList)
    {
      records := [];
      var x := 0;
      while x < |polygonPoints|
        invariant 0 <= x <= |polygonPoints|
        invariant records == PointRecords(polygonPoints[..x])
      {
        assert polygonPoints[..x + 1][..x] == polygonPoints[..x];
        records := records + [Record(PointKind, x, polygonPoints[x])];
        x := x + 1;
      }
      assert polygonPoints[..x] == polygonPoints;
      var i := 0;
      while i < |polygonDoorsList|
        invariant 0 <= i <= |polygonDoorsList|
        invariant records == PointRecords(polygonPoints) + DoorRecords(polygonDoorsList[..i])
      {
        var door := polygonDoorsList[i];
        ghost var done := records;
        var j := 0;
        while j < |door|
          invariant 0 <= j <= |door|
          invariant records == done + DoorPointRecords(i, door[..j])
        {
          assert door[..j + 1][..j] == door[..j];
          records := records + [Record(DoorKind, i, door[j])];
          j := j + 1;
        }
        assert door[..j] == door;
        assert polygonDoorsList[..i + 1][..i] == polygonDoorsList[..i];
        i := i + 1;
      }
      assert polygonDoorsList[..i] == polygonDoorsList;
    }
  }
}
