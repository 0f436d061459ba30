/** The assignments tracker: the status tabs, the per-status counts, the
    status badge with its grade colour, and which assignments offer the
    Submit button (src/components/AssignmentsPage.tsx). */
module Assignments {
  import opened Common

  datatype Status = Pending | Submitted | Graded

  datatype Assignment = Assignment(id: int, title: string, status: Status, grade: Option<int>)

  /** The text the page compares statuses and tab names against. */
  function StatusName(s: Status): string
  {
    match s
    case Pending => "pending"
    case Submitted => "submitted"
    case Graded => "graded"
  }

  /** The elements of `xs` that satisfy `keep`, in their original order. */
  function Filter(xs: seq<Assignment>, keep: Assignment -> bool): (r: seq<Assignment>)
    ensures |r| <= |xs|
    ensures forall x :: x in r <==> x in xs && keep(x)
  {
    if xs == [] then []
    else (if keep(xs[0]) then [xs[0]] else []) + Filter(xs[1..], keep)
  }

  /** Filtering keeps order: filtering a concatenation is concatenating the
      filtered parts. */
  lemma {:induction false} FilterAppend(xs: seq<Assignment>, ys: seq<Assignment>, keep: Assignment -> bool)
    ensures Filter(xs + ys, keep) == Filter(xs, keep) + Filter(ys, keep)
    decreases |xs|
  {
    if xs != [] {
      var head := if keep(xs[0]) then [xs[0]] else [];
      assert (xs + ys)[0] == xs[0];
      assert (xs + ys)[1..] == xs[1..] + ys;
      calc {
        Filter(xs + ys, keep);
        head + Filter(xs[1..] + ys, keep);
        { FilterAppend(xs[1..], ys, keep); }
        head + (Filter(xs[1..], keep) + Filter(ys, keep));
        (head + Filter(xs[1..], keep)) + Filter(ys, keep);
      }
    } else {
      assert xs + ys == ys;
    }
  }

  /** A filter that keeps everything returns the list unchanged. */
  lemma {:induction false} FilterKeepAll(xs: seq<Assignment>, keep: Assignment -> bool)
    requires forall i :: 0 <= i < |xs| ==> keep(xs[i])
    ensures Filter(xs, keep) == xs
    decreases |xs|
  {
    if xs != [] {
      FilterKeepAll(xs[1..], keep);
    }
  }

  /** Whether an assignment is listed under a tab: "all" and any tab the
      page does not know list everything; a status tab lists that status. */
  predicate ListedUnder(a: Assignment, tab: string)
  {
    if tab == "all" then true
    else if tab == "pending" then a.status == Pending
    else if tab == "submitted" then a.status == Submitted
    else if tab == "graded" then a.status == Graded
    else true
  }

  function FilterByTab(xs: seq<Assignment>, tab: string): seq<Assignment>
  {
    Filter(xs, a => ListedUnder(a, tab))
  }

  /** The "all" tab, and any unrecognised one, lists every assignment in
      order. */
  lemma AllTabKeepsEverything(xs: seq<Assignment>, tab: string)
    requires tab !in {"pending", "submitted", "graded"}
    ensures FilterByTab(xs, tab) == xs
  {
    FilterKeepAll(xs, a => ListedUnder(a, tab));
  }

  /** A status tab lists exactly the assignments with that status. */
  lemma StatusTabKeepsThatStatus(xs: seq<Assignment>, s: Status)
    ensures FilterByTab(xs, StatusName(s)) == Filter(xs, (a: Assignment) => a.status == s)
    ensures forall x :: x in FilterByTab(xs, StatusName(s)) <==> x in xs && x.status == s
  {
    assert forall a :: ListedUnder(a, StatusName(s)) == (a.status == s);
    FilterSameKeep(xs, a => ListedUnder(a, StatusName(s)), (a: Assignment) => a.status == s);
  }

  lemma {:induction false} FilterSameKeep(xs: seq<Assignment>, k1: Assignment -> bool, k2: Assignment -> bool)
    requires forall a :: k1(a) == k2(a)
    ensures Filter(xs, k1) == Filter(xs, k2)
    decreases |xs|
  {
    if xs != [] {
      FilterSameKeep(xs[1..], k1, k2);
    }
  }

  /** The number shown on a status's summary card. */
  function CountStatus(xs: seq<Assignment>, s: Status): nat
  {
    |Filter(xs, (a: Assignment) => a.status == s)|
  }

  /** Every assignment has one of the three statuses, so the three counts
      add up to the total. */
  lemma {:induction false} CountsAddUp(xs: seq<Assignment>)
    ensures CountStatus(xs, Pending) + CountStatus(xs, Submitted) + CountStatus(xs, Graded) == |xs|
    decreases |xs|
  {
    if xs != [] {
      CountsAddUp(xs[1..]);
    }
  }

  // ---------------------------------------------------------------------------
  // Status badge

  datatype BadgeColor = Yellow | Blue | Green | Orange

  datatype StatusBadge = StatusBadge(caption: string, color: BadgeColor)

  /** JavaScript truthiness of an optional number: absent and 0 are false. */
  predicate Truthy(grade: Option<int>)
  {
    grade.Some? && grade.value != 0
  }

  /** The colour of a graded assignment's badge. */
  function GradeColor(grade: Option<int>): BadgeColor
  {
    if Truthy(grade) && grade.value >= 90 then Green
    else if Truthy(grade) && grade.value >= 80 then Blue
    else Orange
  }

  /** Green from 90, blue from 80, orange for everything else, including a
      missing grade and a grade of 0. */
  lemma GradeColorTiers(grade: Option<int>)
    ensures GradeColor(grade) == Green <==> grade.Some? && grade.value >= 90
    ensures GradeColor(grade) == Blue <==> grade.Some? && 80 <= grade.value < 90
    ensures GradeColor(grade) == Orange <==> grade.None? || grade.value < 80
  {
  }

  function StatusBadgeOf(status: string, grade: Option<int>): Option<StatusBadge>
  {
    if status == "pending" then Some(StatusBadge("Pending", Yellow))
    else if status == "submitted" then Some(StatusBadge("Submitted", Blue))
    else if status == "graded" then Some(StatusBadge("Graded", GradeColor(grade)))
    else None
  }

  /** Every status gets its own badge, and any other status text none; the
      grade only matters for graded assignments. */
  lemma StatusBadgeCases(s: Status, grade: Option<int>, other: string)
    requires other !in {"pending", "submitted", "graded"}
    ensures StatusBadgeOf(StatusName(s), grade) ==
              Some(match s
                   case Pending => StatusBadge("Pending", Yellow)
                   case Submitted => StatusBadge("Submitted", Blue)
                   case Graded => StatusBadge("Graded", GradeColor(grade)))
    ensures StatusBadgeOf(other, grade) == None
  {
  }

  /** Only pending assignments show the days-left indicator and the Submit
      button. */
  predicate ShowsSubmit(a: Assignment)
  {
    a.status == Pending
  }

  /** The pending tab shows Submit on every card; the submitted and graded
      tabs on none. */
  lemma SubmitOnlyUnderPendingTab(xs: seq<Assignment>)
    ensures forall x :: x in FilterByTab(xs, "pending") ==> ShowsSubmit(x)
    ensures forall x :: x in FilterByTab(xs, "submitted") + FilterByTab(xs, "graded") ==> !ShowsSubmit(x)
  {
  }

  /** The page's four sample assignments: two pending, one submitted (which
      carries a grade but still shows the Submitted badge) and one graded. */
  function SampleAssignments(): seq<Assignment>
  {
    [ Assignment(1, "Grammar Analysis Exercise", Submitted, Some(95)),
      Assignment(2, "Sentence Construction Challenge", Pending, None),
      Assignment(3, "Vocabulary Application Essay", Pending, None),
      Assignment(4, "Reading Comprehension Report", Graded, Some(88)) ]
  }

  lemma SampleCounts()
    ensures CountStatus(SampleAssignments(), Pending) == 2
    ensures CountStatus(SampleAssignments(), Submitted) == 1
    ensures CountStatus(SampleAssignments(), Graded) == 1
    ensures StatusBadgeOf("submitted", Some(95)) == Some(StatusBadge("Submitted", Blue))
    ensures StatusBadgeOf("graded", Some(88)) == Some(StatusBadge("Graded", Blue))
  {
    var xs := SampleAssignments();
    CountOfFour(xs[0], xs[1], xs[2], xs[3], Pending);
    CountOfFour(xs[0], xs[1], xs[2], xs[3], Submitted);
    CountOfFour(xs[0], xs[1], xs[2], xs[3], Graded);
  }

  function CountOne(a: Assignment, s: Status): nat
  {
    if a.status == s then 1 else 0
  }

  lemma CountOfFour(a: Assignment, b: Assignment, c: Assignment, d: Assignment, s: Status)
    ensures CountStatus([a, b, c, d], s) == CountOne(a, s) + CountOne(b, s) + CountOne(c, s) + CountOne(d, s)
  {
    var k := (x: Assignment) => x.status == s;
    assert [a, b, c, d] == [a] + ([b] + ([c] + [d]));
    FilterAppend([a], [b] + ([c] + [d]), k);
    FilterAppend([b], [c] + [d], k);
    FilterAppend([c], [d], k);
    assert [a][1..] == [] && [b][1..] == [] && [c][1..] == [] && [d][1..] == [];
  }
}
