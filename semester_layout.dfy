/**
 * Where a dropped card lands on the board (frontend/src/App.tsx): the eight
 * semester columns, the first free vertical slot in a column, and the drop
 * handler that hit-tests the columns, clamps the card inside the one it hits
 * and writes the new position into the course list.
 */
module SemesterLayout {
  import opened Wrappers
  import opened CourseBoard

  /** A semester column on the canvas. */
  datatype Box = Box(id: int, x: real, y: real, width: real, height: real)

  /** Column `i` (from 0): semester `i + 1`, 220 right of the previous one. */
  function ColumnAt(i: int): Box
  {
    Box(i + 1, 50.0 + 220.0 * (i as real), 150.0, 200.0, 530.0)
  }

  /** `semesterBoxes`: the eight columns, left to right. */
  function SemesterBoxes(): seq<Box>
  {
    seq(8, i => ColumnAt(i))
  }

  /** The default card height `getNextVerticalPosition` is called with. */
  const CourseHeight: real := 100.0
  /** Vertical gap kept between two cards of a column. */
  const CourseSpacing: real := 15.0
  /** The top of the first slot once a column holds a card. */
  const FirstSlot: real := 185.0
  /** Where the first card of an empty column goes. */
  const EmptyColumnSlot: real := 200.0
  /** The drop clamp's margin: a dropped card's x is at most `width - 150` right of its column's edge. */
  const ClampMargin: real := 150.0

  function Max(a: real, b: real): real { if a >= b then a else b }
  function Min(a: real, b: real): real { if a <= b then a else b }

  /** The columns, written out as the board's table lists them. */
  lemma BoxLayout()
    ensures SemesterBoxes() == [
      Box(1, 50.0, 150.0, 200.0, 530.0),
      Box(2, 270.0, 150.0, 200.0, 530.0),
      Box(3, 490.0, 150.0, 200.0, 530.0),
      Box(4, 710.0, 150.0, 200.0, 530.0),
      Box(5, 930.0, 150.0, 200.0, 530.0),
      Box(6, 1150.0, 150.0, 200.0, 530.0),
      Box(7, 1370.0, 150.0, 200.0, 530.0),
      Box(8, 1590.0, 150.0, 200.0, 530.0)]
  {
  }

  // ---------------------------------------------------------------------------
  // Looking up and hit-testing columns
  // ---------------------------------------------------------------------------

  /** `semesterBoxes.find(s => s.id === semesterId)`. */
  function FindBox(boxes: seq<Box>, semesterId: int): (r: Option<Box>)
    ensures r.Some? ==> r.value in boxes && r.value.id == semesterId
    ensures r.None? <==> forall b | b in boxes :: b.id != semesterId
  {
    if boxes == [] then None
    else if boxes[0].id == semesterId then Some(boxes[0])
    else FindBox(boxes[1..], semesterId)
  }

  /** Whether point (x, y) lies in the box, borders included. */
  predicate Contains(b: Box, x: real, y: real)
  {
    x >= b.x && x <= b.x + b.width && y >= b.y && y <= b.y + b.height
  }

  /** The first box of `boxes` that contains (x, y). */
  function FirstContaining(boxes: seq<Box>, x: real, y: real): (r: Option<Box>)
    ensures r.Some? ==> r.value in boxes && Contains(r.value, x, y)
    ensures r.None? <==> forall b | b in boxes :: !Contains(b, x, y)
  {
    if boxes == [] then None
    else if Contains(boxes[0], x, y) then Some(boxes[0])
    else FirstContaining(boxes[1..], x, y)
  }

  /** The columns do not overlap, so a point in a column is hit by that column. */
  lemma HitIsTheContainingColumn(b: Box, x: real, y: real)
    requires b in SemesterBoxes() && Contains(b, x, y)
    ensures FirstContaining(SemesterBoxes(), x, y) == Some(b)
  {
    var r := FirstContaining(SemesterBoxes(), x, y);
    var i :| 0 <= i < 8 && SemesterBoxes()[i] == b;
    var j :| 0 <= j < 8 && SemesterBoxes()[j] == r.value;
    assert i < j ==> (j as real) >= (i as real) + 1.0;
    assert j < i ==> (i as real) >= (j as real) + 1.0;
  }

  // ---------------------------------------------------------------------------
  // The next free slot of a column
  // ---------------------------------------------------------------------------

  predicate SortedByY(cs: seq<Course>)
  {
    forall i, j | 0 <= i < j < |cs| :: cs[i].y <= cs[j].y
  }

  function InsertByY(c: Course, sorted: seq<Course>): (r: seq<Course>)
    requires SortedByY(sorted)
    ensures |r| == |sorted| + 1
    ensures r[0] == c || (sorted != [] && r[0] == sorted[0])
    ensures SortedByY(r)
  {
    if sorted == [] || c.y <= sorted[0].y then [c] + sorted
    else
      var rest := InsertByY(c, sorted[1..]);
      assert sorted == [sorted[0]] + sorted[1..];
      ConsSorted(sorted[0], rest);
      [sorted[0]] + rest
  }

  /** A non-empty list's multiset is its head's and its tail's. */
  lemma MultisetCons(s: seq<Course>)
    requires s != []
    ensures multiset(s) == multiset{s[0]} + multiset(s[1..])
  {
    assert s == [s[0]] + s[1..];
  }

  /** Inserting adds exactly the one card. */
  lemma {:induction false} InsertPermutes(c: Course, sorted: seq<Course>)
    requires SortedByY(sorted)
    ensures multiset(InsertByY(c, sorted)) == multiset(sorted) + multiset{c}
    decreases |sorted|
  {
    if sorted != [] && c.y > sorted[0].y {
      InsertPermutes(c, sorted[1..]);
      MultisetCons(sorted);
    }
  }

  /** A card above the first card of a sorted list can head it. */
  lemma ConsSorted(first: Course, rest: seq<Course>)
    requires SortedByY(rest) && (rest != [] ==> first.y <= rest[0].y)
    ensures SortedByY([first] + rest)
  {
    var r := [first] + rest;
    forall i, j | 0 <= i < j < |r|
      ensures r[i].y <= r[j].y
    {
      if i == 0 {
        assert r[j] == rest[j - 1];
        assert rest[0].y <= rest[j - 1].y;
      } else {
        assert r[i] == rest[i - 1] && r[j] == rest[j - 1];
      }
    }
  }

  /** `.sort((a, b) => a.y - b.y)`: the same cards, top to bottom. */
  function SortByY(cs: seq<Course>): (r: seq<Course>)
    ensures SortedByY(r)
  {
    if cs == [] then [] else InsertByY(cs[0], SortByY(cs[1..]))
  }

  /** Sorting keeps the cards: the result is a permutation of the input. */
  lemma {:induction false} SortPermutes(cs: seq<Course>)
    ensures multiset(SortByY(cs)) == multiset(cs)
    decreases |cs|
  {
    if cs != [] {
      var rest := SortByY(cs[1..]);
      SortPermutes(cs[1..]);
      InsertPermutes(cs[0], rest);
      MultisetCons(cs);
    }
  }

  /** The cards of column `semesterId`, in list order. */
  function InColumn(courses: seq<Course>, semesterId: int): seq<Course>
  {
    Filter(courses, InSemester(semesterId))
  }

  /** A card of height `h` at `y` keeps the spacing to card `c`, above or below it. */
  predicate Clear(c: Course, h: real, y: real)
  {
    y + h + CourseSpacing <= c.y || c.y + h + CourseSpacing <= y
  }

  /** A slot at `y` keeps the spacing to every card of `cs`. */
  predicate Free(cs: seq<Course>, h: real, y: real)
  {
    forall c | c in cs :: Clear(c, h, y)
  }

  /** `y` is the topmost slot from 185 down that keeps the spacing to every card of `cs`. */
  ghost predicate TopmostFree(cs: seq<Course>, h: real, y: real)
  {
    FirstSlot <= y && Free(cs, h, y) && forall y': real | FirstSlot <= y' < y :: !Free(cs, h, y')
  }

  /**
   * What `getNextVerticalPosition(semesterId, h)` promises: 200 for an empty
   * column, 185 for a column id with no box, and otherwise the topmost free
   * slot of the column.
   */
  ghost predicate IsNextSlot(courses: seq<Course>, semesterId: int, h: real, y: real)
  {
    var cs := InColumn(courses, semesterId);
    if cs == [] then y == EmptyColumnSlot
    else if FindBox(SemesterBoxes(), semesterId).None? then y == FirstSlot
    else TopmostFree(cs, h, y)
  }

  /** The slot is determined by the cards alone, whatever order the sort leaves ties in. */
  lemma NextSlotUnique(courses: seq<Course>, semesterId: int, h: real, y1: real, y2: real)
    requires IsNextSlot(courses, semesterId, h, y1) && IsNextSlot(courses, semesterId, h, y2)
    ensures y1 == y2
  {
    var cs := InColumn(courses, semesterId);
    if cs != [] && FindBox(SemesterBoxes(), semesterId).Some? {
      assert TopmostFree(cs, h, y1) && TopmostFree(cs, h, y2);
      assert Free(cs, h, y1) && Free(cs, h, y2);
    }
  }

  /** A card of `prefix` that blocks `y` blocks it in every longer list too. */
  lemma BlockedInPrefix(cs: seq<Course>, i: nat, h: real, y: real)
    requires i <= |cs| && !Free(cs[..i], h, y)
    ensures !Free(cs, h, y)
  {
    var c :| c in cs[..i] && !Clear(c, h, y);
    assert c in cs;
  }

  /** Lists with the same elements have the same free slots. */
  lemma FreeSameElements(a: seq<Course>, b: seq<Course>, h: real, y: real)
    requires multiset(a) == multiset(b)
    ensures Free(a, h, y) <==> Free(b, h, y)
  {
    forall c
      ensures c in a <==> c in b
    {
      assert c in a <==> c in multiset(a);
      assert c in b <==> c in multiset(b);
    }
  }

  /**
   * `getNextVerticalPosition`: the column's cards sorted top to bottom, 200
   * when there are none, 185 when the id names no column, and otherwise the
   * slot the cursor scan finds.
   */
  method NextVerticalPosition(courses: seq<Course>, semesterId: int, courseHeight: real) returns (y: real)
    ensures IsNextSlot(courses, semesterId, courseHeight, y)
  {
    var column := InColumn(courses, semesterId);
    var semesterCourses := SortByY(column);
    SortPermutes(column);
    if |semesterCourses| == 0 {
      return EmptyColumnSlot;
    }
    var semesterBox := FindBox(SemesterBoxes(), semesterId);
    if semesterBox.None? {
      return FirstSlot;
    }
    y := ScanColumn(semesterCourses, courseHeight);
    FreeSameElements(semesterCourses, column, courseHeight, y);
    SameElementsBlocked(semesterCourses, column, courseHeight, y);
  }

  /**
   * The loop of `getNextVerticalPosition`: a cursor starts at 185 and walks
   * the sorted cards; at the first gap tall enough for a card and its
   * spacing the cursor is the answer, otherwise it moves below the card,
   * and after the last card the cursor is the answer.
   */
  method ScanColumn(semesterCourses: seq<Course>, courseHeight: real) returns (y: real)
    requires SortedByY(semesterCourses)
    ensures TopmostFree(semesterCourses, courseHeight, y)
  {
    var currentY := FirstSlot;
    var i := 0;
    while i < |semesterCourses|
      invariant 0 <= i <= |semesterCourses|
      invariant FirstSlot <= currentY
      invariant forall k | 0 <= k < i :: semesterCourses[k].y + courseHeight + CourseSpacing <= currentY
      invariant forall y': real | FirstSlot <= y' < currentY :: !Free(semesterCourses[..i], courseHeight, y')
    {
      var course := semesterCourses[i];
      var courseBottom := course.y + courseHeight + CourseSpacing;
      if currentY + courseHeight + CourseSpacing <= course.y {
        GapIsFree(semesterCourses, i, courseHeight, currentY);
        MinimalInSorted(semesterCourses, i, courseHeight, currentY);
        return currentY;
      }
      CursorStep(semesterCourses[..i], course, courseHeight, currentY, Max(currentY, courseBottom));
      assert semesterCourses[..i + 1] == semesterCourses[..i] + [course];
      currentY := Max(currentY, courseBottom);
      i := i + 1;
    }
    assert semesterCourses[..i] == semesterCourses;
    y := currentY;
  }

  /** At a gap before card `i` of a sorted list, the cursor clears every card. */
  lemma GapIsFree(cs: seq<Course>, i: nat, h: real, cursor: real)
    requires SortedByY(cs) && i < |cs|
    requires forall k | 0 <= k < i :: cs[k].y + h + CourseSpacing <= cursor
    requires cursor + h + CourseSpacing <= cs[i].y
    ensures Free(cs, h, cursor)
  {
    forall c | c in cs
      ensures Clear(c, h, cursor)
    {
      var k :| 0 <= k < |cs| && cs[k] == c;
      if i <= k {
        assert cs[i].y <= cs[k].y;
      }
    }
  }

  /** Every slot the cursor has passed over is blocked in the whole list. */
  lemma MinimalInSorted(cs: seq<Course>, i: nat, h: real, cursor: real)
    requires i <= |cs|
    requires forall y': real | FirstSlot <= y' < cursor :: !Free(cs[..i], h, y')
    ensures forall y': real | FirstSlot <= y' < cursor :: !Free(cs, h, y')
  {
    forall y': real | FirstSlot <= y' < cursor
      ensures !Free(cs, h, y')
    {
      BlockedInPrefix(cs, i, h, y');
    }
  }

  /** Blocked slots below `cursor` carry over from the sorted list to the column. */
  lemma SameElementsBlocked(a: seq<Course>, b: seq<Course>, h: real, cursor: real)
    requires multiset(a) == multiset(b)
    requires forall y': real | FirstSlot <= y' < cursor :: !Free(a, h, y')
    ensures forall y': real | FirstSlot <= y' < cursor :: !Free(b, h, y')
  {
    forall y': real | FirstSlot <= y' < cursor
      ensures !Free(b, h, y')
    {
      FreeSameElements(a, b, h, y');
    }
  }

  /**
   * Moving the cursor below card `c` (which leaves no gap above it) keeps
   * every passed-over slot blocked by some card already passed.
   */
  lemma CursorStep(passed: seq<Course>, c: Course, h: real, cursor: real, moved: real)
    requires forall y': real | FirstSlot <= y' < cursor :: !Free(passed, h, y')
    requires !(cursor + h + CourseSpacing <= c.y)
    requires moved == Max(cursor, c.y + h + CourseSpacing)
    ensures forall y': real | FirstSlot <= y' < moved :: !Free(passed + [c], h, y')
  {
    forall y': real | FirstSlot <= y' < moved
      ensures !Free(passed + [c], h, y')
    {
      if y' < cursor {
        assert !Free(passed, h, y');
        var blocker :| blocker in passed && !Clear(blocker, h, y');
        assert blocker in passed + [c];
      } else {
        assert !Clear(c, h, y');
        assert c in passed + [c];
      }
    }
  }

  /**
   * Dragging the only card of column 1, at y = 200, within its own column:
   * the card's old position still counts, so it lands at 315.
   */
  lemma OwnCardStillCounts(c: Course)
    requires c.semester == Some(1) && c.y == 200.0
    ensures IsNextSlot([c], 1, CourseHeight, 315.0)
  {
    var cs := InColumn([c], 1);
    assert [c][..0] == [];
    assert cs == [c];
    forall y': real | FirstSlot <= y' < 315.0
      ensures !Free(cs, CourseHeight, y')
    {
      assert !Clear(c, CourseHeight, y');
    }
  }

  // ---------------------------------------------------------------------------
  // Dropping a card
  // ---------------------------------------------------------------------------

  /** A snapped and clamped card lies inside the column it was dropped on. */
  lemma ClampedIntoColumn(b: Box, dropX: real)
    requires b in SemesterBoxes()
    ensures b.x <= DroppedX(b, dropX) <= b.x + b.width - ClampMargin
  {
    assert ClampMargin <= b.width;
  }

  /** `Math.max(box.x, Math.min(x, box.x + box.width - 150))`. */
  function ClampToColumn(box: Box, x: real): (r: real)
    ensures ClampMargin <= box.width ==> box.x <= r <= box.x + box.width - ClampMargin
    ensures box.x <= x <= box.x + box.width - ClampMargin ==> r == x
  {
    Max(box.x, Min(x, box.x + box.width - ClampMargin))
  }

  /** The grid `snapToGrid` rounds to by default. */
  const GridSize: real := 20.0

  /** `Math.round(value / 20) * 20`; `Math.round` rounds halves up, that is `floor(v + 0.5)`. */
  function SnapToGrid(value: real): (r: real)
    ensures value - GridSize / 2.0 < r <= value + GridSize / 2.0
  {
    ((value / GridSize + 0.5).Floor as real) * GridSize
  }

  /** `{ ...course, x, y, semester }`, addressed to course `courseId`. */
  function MovePatch(courseId: int, x: real, y: real, semester: Option<int>): CoursePatch
  {
    CoursePatch(Some(courseId), None, None, None, Some(semester), Some(x), Some(y), None, None, None)
  }

  /** Where a card dropped at `dropX` on column `box` ends: snapped relative to the column, then clamped into it. */
  function DroppedX(box: Box, dropX: real): real
  {
    ClampToColumn(box, SnapToGrid(dropX - box.x) + box.x)
  }

  /**
   * The body of the hit branch of `handleDragEnd`: stack the card in the
   * next free slot of the column and snap and clamp its x into the column.
   */
  method PlaceInColumn(courses: seq<Course>, box: Box, dropX: real) returns (newX: real, newY: real)
    ensures IsNextSlot(courses, box.id, CourseHeight, newY)
    ensures newX == DroppedX(box, dropX)
  {
    newY := NextVerticalPosition(courses, box.id, CourseHeight);
    newX := SnapToGrid(dropX - box.x) + box.x;
    newX := ClampToColumn(box, newX);
  }

  /** The loop of `handleDragEnd`: the boxes in order, stopping at the first that contains the point. */
  method HitTest(boxes: seq<Box>, x: real, y: real) returns (hit: Option<Box>)
    ensures hit == FirstContaining(boxes, x, y)
  {
    var i := 0;
    while i < |boxes|
      invariant 0 <= i <= |boxes|
      invariant FirstContaining(boxes, x, y) == FirstContaining(boxes[i..], x, y)
    {
      var box := boxes[i];
      if x >= box.x && x <= box.x + box.width && y >= box.y && y <= box.y + box.height {
        return Some(box);
      }
      assert boxes[i..][1..] == boxes[i + 1..];
      i := i + 1;
    }
    hit := None;
  }

  /**
   * `handleDragEnd` on a drop at (dropX, dropY): the first column containing
   * the point, if any, gives the new semester, the next free slot in it and
   * the grid-snapped x clamped to the column; otherwise the card keeps the
   * drop point and leaves every semester.  `hit` is the column hit, if any.
   */
  method DragEnd(courses: seq<Course>, courseId: int, dropX: real, dropY: real)
    returns (hit: Option<Box>, newX: real, newY: real, newSemester: Option<int>, next: seq<Course>)
    ensures hit == FirstContaining(SemesterBoxes(), dropX, dropY)
    ensures hit.None? ==> newX == dropX && newY == dropY && newSemester == None
    ensures hit.Some? ==>
      && newSemester == Some(hit.value.id)
      && IsNextSlot(courses, hit.value.id, CourseHeight, newY)
      && newX == DroppedX(hit.value, dropX)
    ensures next == MergeById(courses, MovePatch(courseId, newX, newY, newSemester))
  {
    newX := dropX;
    newY := dropY;
    newSemester := None;
    hit := HitTest(SemesterBoxes(), dropX, dropY);
    if hit.Some? {
      var box := hit.value;
      newSemester := Some(box.id);
      newX, newY := PlaceInColumn(courses, box, dropX);
    }
    next := MergeById(courses, MovePatch(courseId, newX, newY, newSemester));
  }
}
