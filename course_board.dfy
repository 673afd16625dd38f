/**
 * The browser's course list and what the realtime events do to it
 * (frontend/src/App.tsx): the four socket reducers, the expanded-card set
 * and the credit sums shown above the board and in each semester column.
 */
module CourseBoard {
  import opened Wrappers

  datatype CourseType = UniCore | FacultyCore | CsCore | Stream | Elective

  /** A course card; `semester` is `None` for a card outside every column. */
  datatype Course = Course(
    id: int, name: string, nameId: string, credits: int, semester: Option<int>,
    x: real, y: real, topics: Option<seq<string>>, references: Option<seq<string>>,
    kind: CourseType)

  /**
   * The object a `courseMoved`/`courseUpdated` event carries: any subset of
   * a course's fields.  A present `semester` may itself be null (`Some(None)`).
   */
  datatype CoursePatch = CoursePatch(
    id: Option<int>, name: Option<string>, nameId: Option<string>, credits: Option<int>,
    semester: Option<Option<int>>, x: Option<real>, y: Option<real>,
    topics: Option<Option<seq<string>>>, references: Option<Option<seq<string>>>,
    kind: Option<CourseType>)

  function Pick<T>(field: Option<T>, current: T): T
  {
    if field.Some? then field.value else current
  }

  /** `{ ...course, ...patch }`: each field the patch carries wins. */
  function Spread(c: Course, p: CoursePatch): (r: Course)
  {
    Course(Pick(p.id, c.id), Pick(p.name, c.name), Pick(p.nameId, c.nameId), Pick(p.credits, c.credits),
           Pick(p.semester, c.semester), Pick(p.x, c.x), Pick(p.y, c.y),
           Pick(p.topics, c.topics), Pick(p.references, c.references), Pick(p.kind, c.kind))
  }

  /** Whether a patch is addressed to course `c`: `course.id === data.course.id`. */
  predicate Targets(p: CoursePatch, c: Course)
  {
    p.id == Some(c.id)
  }

  /** Spreading a patch twice is spreading it once. */
  lemma SpreadIdempotent(c: Course, p: CoursePatch)
    ensures Spread(Spread(c, p), p) == Spread(c, p)
  {
  }

  /**
   * The `courseMoved` and `courseUpdated` reducer: every course the patch
   * targets gets the patch's fields, every other course stays as it was,
   * and the list keeps its length, its order and its ids.
   */
  function MergeById(cs: seq<Course>, p: CoursePatch): (r: seq<Course>)
    ensures |r| == |cs|
    ensures forall i | 0 <= i < |cs| ::
      r[i] == (if Targets(p, cs[i]) then Spread(cs[i], p) else cs[i])
    ensures forall i | 0 <= i < |cs| :: r[i].id == cs[i].id
  {
    if cs == [] then []
    else
      var c := cs[|cs| - 1];
      MergeById(cs[..|cs| - 1], p) + [if Targets(p, c) then Spread(c, p) else c]
  }

  /** The `courseAdded` reducer: `[...prev, data.course]`. */
  function AddCourse(cs: seq<Course>, c: Course): (r: seq<Course>)
    ensures |r| == |cs| + 1 && r[..|cs|] == cs && r[|cs|] == c
  {
    cs + [c]
  }

  /** `Array.prototype.filter`: the elements `keep` accepts, in their order. */
  function Filter<T(!new)>(s: seq<T>, keep: T -> bool): (r: seq<T>)
    ensures |r| <= |s|
    ensures forall x :: x in r <==> x in s && keep(x)
  {
    if s == [] then []
    else Filter(s[..|s| - 1], keep) + (if keep(s[|s| - 1]) then [s[|s| - 1]] else [])
  }

  /** The filter that keeps every card but course `courseId`. */
  function OtherThan(courseId: int): Course -> bool
  {
    (c: Course) => c.id != courseId
  }

  /** The `courseDeleted` reducer: the courses whose id is not `courseId`. */
  function RemoveById(cs: seq<Course>, courseId: int): (r: seq<Course>)
    ensures forall c :: c in r <==> c in cs && c.id != courseId
    ensures forall i | 0 <= i < |r| :: r[i].id != courseId
  {
    Filter(cs, OtherThan(courseId))
  }

  /** `toggleCourseExpanded`: flips whether `courseId` is expanded and no other id. */
  function ToggleExpanded(expanded: set<int>, courseId: int): (r: set<int>)
    ensures courseId in r <==> courseId !in expanded
    ensures forall k | k != courseId :: k in r <==> k in expanded
  {
    if courseId in expanded then expanded - {courseId} else expanded + {courseId}
  }

  /** `reduce((sum, c) => sum + c.credits, 0)`, folded from the left. */
  function SumCredits(cs: seq<Course>): int
  {
    if cs == [] then 0 else SumCredits(cs[..|cs| - 1]) + cs[|cs| - 1].credits
  }

  /** Whether a card sits in some semester column. */
  predicate Placed(c: Course)
  {
    c.semester != None
  }

  /** The filter that keeps the cards of column `semesterId`. */
  function InSemester(semesterId: int): Course -> bool
  {
    (c: Course) => c.semester == Some(semesterId)
  }

  /** The header total: credits of every course placed in some semester. */
  function TotalCredits(cs: seq<Course>): int
  {
    SumCredits(Filter(cs, Placed))
  }

  /** A column's `# Credits` label. */
  function SemesterCredits(cs: seq<Course>, semesterId: int): int
  {
    SumCredits(Filter(cs, InSemester(semesterId)))
  }

  // ---------------------------------------------------------------------------
  // Properties of the reducers
  // ---------------------------------------------------------------------------

  /** Filtering distributes over concatenation, so it keeps relative order. */
  lemma {:induction false} FilterAppend<T(!new)>(a: seq<T>, b: seq<T>, keep: T -> bool)
    ensures Filter(a + b, keep) == Filter(a, keep) + Filter(b, keep)
    decreases |b|
  {
    if b == [] {
      assert a + b == a;
    } else {
      var b' := b[..|b| - 1];
      assert (a + b)[..|a + b| - 1] == a + b';
      assert (a + b)[|a + b| - 1] == b[|b| - 1];
      FilterAppend(a, b', keep);
    }
  }

  /** The credit sum of a concatenation is the sum of the parts. */
  lemma {:induction false} SumCreditsAppend(a: seq<Course>, b: seq<Course>)
    ensures SumCredits(a + b) == SumCredits(a) + SumCredits(b)
    decreases |b|
  {
    if b == [] {
      assert a + b == a;
    } else {
      var b' := b[..|b| - 1];
      assert (a + b)[..|a + b| - 1] == a + b';
      assert (a + b)[|a + b| - 1] == b[|b| - 1];
      SumCreditsAppend(a, b');
    }
  }

  /** Applying the same move or update twice is applying it once. */
  lemma MergeIdempotent(cs: seq<Course>, p: CoursePatch)
    ensures MergeById(MergeById(cs, p), p) == MergeById(cs, p)
  {
    var once := MergeById(cs, p);
    forall i | 0 <= i < |cs|
      ensures MergeById(once, p)[i] == once[i]
    {
      if Targets(p, cs[i]) {
        SpreadIdempotent(cs[i], p);
      }
    }
  }

  /** Deleting a course that was just added leaves what deleting it before would. */
  lemma DeleteAfterAdd(cs: seq<Course>, c: Course)
    ensures RemoveById(AddCourse(cs, c), c.id) == RemoveById(cs, c.id)
  {
    FilterAppend(cs, [c], OtherThan(c.id));
    assert Filter([c], OtherThan(c.id)) == [];
  }

  /** Toggling the same card twice restores the expanded set. */
  lemma ToggleTwice(expanded: set<int>, courseId: int)
    ensures ToggleExpanded(ToggleExpanded(expanded, courseId), courseId) == expanded
  {
  }

  /** Appending one course adds its credits to a filtered sum exactly when `keep` accepts it. */
  lemma FilteredSumSnoc(cs: seq<Course>, c: Course, keep: Course -> bool)
    ensures SumCredits(Filter(cs + [c], keep)) == SumCredits(Filter(cs, keep)) + (if keep(c) then c.credits else 0)
  {
    FilterAppend(cs, [c], keep);
    SumCreditsAppend(Filter(cs, keep), Filter([c], keep));
    assert Filter([c], keep) == if keep(c) then [c] else [];
    if keep(c) {
      assert SumCredits([c]) == SumCredits([c][..0]) + c.credits;
    }
  }

  /** Adding a course raises the total by its credits exactly when it is in a semester. */
  lemma TotalAfterAdd(cs: seq<Course>, c: Course)
    ensures TotalCredits(AddCourse(cs, c)) == TotalCredits(cs) + (if c.semester != None then c.credits else 0)
  {
    FilteredSumSnoc(cs, c, Placed);
  }

  /** The labels of columns 1 to `k`, added up. */
  function ColumnsTotal(cs: seq<Course>, k: nat): int
  {
    if k == 0 then 0 else ColumnsTotal(cs, k - 1) + SemesterCredits(cs, k)
  }

  lemma {:induction false} ColumnsSnoc(cs: seq<Course>, c: Course, k: nat)
    ensures ColumnsTotal(cs + [c], k) ==
      ColumnsTotal(cs, k) + (if c.semester.Some? && 1 <= c.semester.value <= k then c.credits else 0)
  {
    if k > 0 {
      ColumnsSnoc(cs, c, k - 1);
      FilteredSumSnoc(cs, c, InSemester(k));
    }
  }

  lemma {:induction false} ColumnsOfEmpty(k: nat)
    ensures ColumnsTotal([], k) == 0
  {
    if k > 0 {
      ColumnsOfEmpty(k - 1);
    }
  }

  /**
   * When every course is either unplaced or in one of the eight columns,
   * the header total is the sum of the eight column labels.
   */
  lemma {:induction false} TotalIsColumnSum(cs: seq<Course>)
    requires forall i | 0 <= i < |cs| :: cs[i].semester == None || 1 <= cs[i].semester.value <= 8
    ensures TotalCredits(cs) == ColumnsTotal(cs, 8)
    decreases |cs|
  {
    if cs == [] {
      ColumnsOfEmpty(8);
    } else {
      var init := cs[..|cs| - 1];
      var last := cs[|cs| - 1];
      assert cs == init + [last];
      TotalIsColumnSum(init);
      TotalAfterAdd(init, last);
      ColumnsSnoc(init, last, 8);
    }
  }

  /**
   * Two lists that agree element by element on what `keep` accepts, and on
   * the credits of what it accepts, have the same filtered credit sum.
   */
  lemma {:induction false} FilteredSumsAgree(a: seq<Course>, b: seq<Course>, keep: Course -> bool)
    requires |a| == |b|
    requires forall i | 0 <= i < |a| :: keep(a[i]) == keep(b[i])
    requires forall i | 0 <= i < |a| && keep(a[i]) :: a[i].credits == b[i].credits
    ensures SumCredits(Filter(a, keep)) == SumCredits(Filter(b, keep))
    decreases |a|
  {
    if a != [] {
      var n := |a| - 1;
      FilteredSumsAgree(a[..n], b[..n], keep);
      var lastA := if keep(a[n]) then [a[n]] else [];
      var lastB := if keep(b[n]) then [b[n]] else [];
      SumCreditsAppend(Filter(a[..n], keep), lastA);
      SumCreditsAppend(Filter(b[..n], keep), lastB);
      if keep(a[n]) {
        assert SumCredits(lastA) == SumCredits(lastA[..0]) + a[n].credits;
        assert SumCredits(lastB) == SumCredits(lastB[..0]) + b[n].credits;
      }
    }
  }

  /** A patch that carries neither credits nor a semester leaves both kinds of sum alone. */
  lemma MergeKeepsCredits(cs: seq<Course>, p: CoursePatch, semesterId: int)
    requires p.credits == None && p.semester == None
    ensures TotalCredits(MergeById(cs, p)) == TotalCredits(cs)
    ensures SemesterCredits(MergeById(cs, p), semesterId) == SemesterCredits(cs, semesterId)
  {
    FilteredSumsAgree(MergeById(cs, p), cs, Placed);
    FilteredSumsAgree(MergeById(cs, p), cs, InSemester(semesterId));
  }
}
