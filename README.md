# Image viewer annotation state, modelled in Dafny

The image viewer of this repository lets a user mark up a floor plan with
pointer presses. The `ImageViewer` window keeps three containers. The first
is the room outline `polygonPoints`: every left-button press appends a point
to it. The second is the pending door `polygonDoor`: every right-button press
appends a point to it. Once the pending door has two points, it is moved into
the third container, the door list `polygonDoorsList`, and emptied. `reset`
clears the outline and the door list. `saveFile` writes one line
`P<k>\t<x>\t<y>\n` per outline point, numbered from 0, then one line
`D<i>\t<x>\t<y>\n` per point of door number `i`.

The project has four modules:

- `Annotation` (annotation.dfy): the three containers as a value
  (`AnnotationState`), the effect of one press or reset (`Step`), and of a
  sequence of them (`Run`). This module proves the door-pair invariant and
  what the containers hold after any sequence of clicks.
- `Export` (export.dfy): the records `saveFile` writes (`ExportRecords`) and
  their count, numbering, order and contents.
- `TextFormat` (text_format.dfy): the text of one line, with numbers in
  decimal (`Line`). A decoder (`ParseLine`) reads a line back to its record,
  which shows that every line determines its record.
- `Viewer` (image_viewer.dfy): the class `ImageViewer`. It has the three
  containers as `seq` fields, plus the methods `MousePress`, `Reset` and
  `SaveRecords`. These methods mutate the fields or loop over them as the
  source does. Each is proved against the value-level model.

Points are integer pairs taken in image space. The header
(GUI/imageviewer.h:64-65) declares integer `QPolygon` containers and has no
`polygonPoints`. The implementation file uses `QPointF`/`QPolygonF` and
`polygonPoints` (GUI/imageviewer.cpp:114, 120, 255). The model follows the
implementation file, with the coordinates made integers.

Later revisions of this viewer in the repository have several coloured
polygons, nearest-point editing and a `P, <color>, <count>` file format. This
model is of the one-polygon revision in GUI/imageviewer.cpp:

- the lines have the `P<k>`/`D<i>` tab-separated form (GUI/imageviewer.cpp:116, 124);
- there is a single outline;
- `reset` keeps the pending door (GUI/imageviewer.cpp:288-293).

## Model

| member | source | states |
|---|---|---|
| `Viewer.ImageViewer.constructor` | GUI/imageviewer.cpp:15-35 | a new viewer has an empty outline, no pending door point and no doors, so the door-pair invariant holds from the start |
| `Viewer.ImageViewer.MousePress` | GUI/imageviewer.cpp:245-269 | a left press appends the point at the end of the outline and leaves both door containers unchanged. A right press leaves the outline unchanged and appends the point to the pending door. When the pending door then has two points, they go to the end of the door list in click order and the pending door becomes empty. Any other button changes nothing. The invariant is preserved, and the new state is `Step` of the old one |
| `Viewer.ImageViewer.Reset` | GUI/imageviewer.cpp:288-293 | the outline and the door list become empty and the pending door is kept. The invariant is preserved, and the new state is `Step` of the old one |
| `Viewer.ImageViewer.SaveRecords` | GUI/imageviewer.cpp:112-127 | the two loops of `saveFile` produce exactly `ExportRecords(polygonPoints, polygonDoorsList)`. The pending door is not an input. The method has no `modifies` clause, so no container changes |
| `Annotation.StepPreservesValid` | GUI/imageviewer.cpp:253-267 | from a state where the pending door has fewer than two points and every door has two, any press or reset leads to such a state again |
| `Annotation.RunPreservesValid` | GUI/imageviewer.cpp:245-293 | the invariant survives any sequence of presses and resets |
| `Annotation.ResetIdempotent` | GUI/imageviewer.cpp:288-293 | resetting twice gives the same state as resetting once. A reset empties the outline and the door list, and a half-entered door survives it |
| `Annotation.RunPoints` | GUI/imageviewer.cpp:253-257 | without a reset, the outline after a sequence of presses is the old outline followed by the positions of the left presses, in click order |
| `Annotation.RunDoorClicks` | GUI/imageviewer.cpp:258-267 | without a reset, the door points followed by the pending door equal the old ones followed by the right-press positions in click order. No right click is lost, reordered or invented, and no other button contributes a door point |
| `Annotation.RunDoorCounts` | GUI/imageviewer.cpp:260-266 | without a reset and from a valid state, every two right clicks (counting a pending one) complete one door, and an odd one stays pending |
| `Annotation.RunDoorsFromEmpty` | GUI/imageviewer.cpp:258-267 | from a new viewer without a reset, the doors hold all right clicks except an odd last one, and that last one is the pending door |
| `Annotation.DoorsFromEmptyAt` | GUI/imageviewer.cpp:260-265 | from a new viewer without a reset, door k is exactly right clicks 2k and 2k+1, in that order |
| `Annotation.FlattenOfPairs` | GUI/imageviewer.cpp:261-263 | a door list whose doors all have two points holds twice as many points as doors |
| `Annotation.FlattenPairAt` | GUI/imageviewer.cpp:261-263 | in such a list, door k holds points 2k and 2k+1 of all the door points laid end to end |
| `Export.PointRecordsAt` | GUI/imageviewer.cpp:113-118 | the outline gives exactly one P record per point; record k has number k and carries point k |
| `Export.DoorPointRecordsAt` | GUI/imageviewer.cpp:122-125 | a door gives one D record per point, all with the door's number, in the door's point order |
| `Export.DoorRecordsShape` | GUI/imageviewer.cpp:119-127 | the D records are as many as the points of all doors together. Record k is a D record, its number is a valid door number, and it carries door point k in list order |
| `Export.DoorRecordsAt` | GUI/imageviewer.cpp:119-127 | point j of door i is the D record at position (points in doors before i) + j, with number i |
| `Export.DoorRecordsOrdered` | GUI/imageviewer.cpp:119-127 | door numbers never decrease along the D records |
| `Export.ExportLayout` | GUI/imageviewer.cpp:112-127 | the saved records number `|polygonPoints|` plus the number of door points. Record k is a P record exactly when k < `|polygonPoints|`. The records carry the outline points, then the door points, in order |
| `Export.PointsBeforeDoors` | GUI/imageviewer.cpp:112-127 | every P record comes before every D record |
| `Export.ExportCountOfPairs` | GUI/imageviewer.cpp:119-127 | under the door-pair invariant there are `|polygonPoints|` + 2 × (number of doors) records |
| `Export.ExportAfterClicks` | GUI/imageviewer.cpp:112-127 | after presses on a new viewer without a reset, the file carries the left clicks, then every right click except an odd pending one, in click order |
| `TextFormat.NatToStringDigits` | GUI/imageviewer.cpp:116 | the decimal text of a record number is a non-empty string of digits that reads back as that number |
| `TextFormat.IntRoundTrip` | GUI/imageviewer.cpp:116 | the decimal text of a coordinate contains no tab, and it reads back as that coordinate, negative ones included |
| `TextFormat.LineRoundTrip` | GUI/imageviewer.cpp:116-124 | every `P<k>\t<x>\t<y>\n` or `D<i>\t<x>\t<y>\n` line reads back as the record it was written from |
| `TextFormat.LineInjective` | GUI/imageviewer.cpp:116-124 | two different records never produce the same line |

## Left out

- The mapping from widget position to image space (GUI/imageviewer.cpp:247-251) is left out. It divides by `scaleFactor` and subtracts `osOffset` in double arithmetic, so presses take a point already in image space.
- Floating-point coordinates are left out. The source stores `QPointF`, and the model stores integers.
- `QString::number` formatting of doubles is left out. The source uses six significant digits, so large values get exponent form. Coordinates are rendered as plain decimal integers.
- The `QDataStream` framing is left out. Each `QString` is written length-prefixed in binary. The model gives the sequence of line records and the text of each line, but not the bytes in the file.
- Viewer.ImageViewer.SaveRecords: it returns the line records, not the strings. The text of record k is `TextFormat.Line(records[k])`, and `LineRoundTrip` ties the two. Building the strings inside the loops would only repeat that function.
- The file dialog, the file opening, and the error message when a file cannot be opened (GUI/imageviewer.cpp:97-110) are left out, because they are I/O.
- The redraw after each press (`drawPolygon`, GUI/imageviewer.cpp:268, 271-286) and the pixmap reset in `reset` (line 292) are left out, because they are rendering.
- `qDebug` output is left out.
- Zoom (`scaleImage`, `zoomIn`, `zoomOut`, `normalSize`, `fitToWindow`, the 3.0/0.333 enable limits) and `adjustScrollBar` are left out. They are double arithmetic and widget geometry.
- Image loading, menus and the about box (`open`, `loadFile`, `createActions`, `updateActions`, `about`, `initializeImageFileDialog`) are left out, because they are UI and I/O.
- GUI/imageviewer.h declares `getClosestPoint`, `insertNewPoint`, `distToSegment`, `remove`, `newPoly`, `importFile`, `increaseLine` and others, which GUI/imageviewer.cpp of this revision does not define. They are not part of this model.
- `TextFormat.ParseLine` is a decoding partner for the saved lines. It does not model `importFile`, which this revision does not define.
- Record numbers are unbounded naturals. The source's `int` counters `x` and `i` (GUI/imageviewer.cpp:113, 119) could only wrap past 2^31 records.
- GUI/mainwindow.cpp is not part of this model. It only shows a loaded image in a graphics scene.
