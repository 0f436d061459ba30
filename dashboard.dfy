/** The dashboard: chapter completion and content totals, the rule that
    only unlocked chapters open, each chapter's display state, and the
    empty-achievements message (src/components/Dashboard.tsx). */
module Dashboard {
  import opened Common
  import App

  datatype Chapter = Chapter(
    id: int,
    title: string,
    isUnlocked: bool,
    isCompleted: bool,
    xpReward: int,
    quizCount: int,
    assignmentCount: int)

  /** Number of completed chapters. */
  function CompletedChapters(chapters: seq<Chapter>): (n: nat)
    ensures n <= |chapters|
  {
    if chapters == [] then 0
    else
      var last := |chapters| - 1;
      CompletedChapters(chapters[..last]) + (if chapters[last].isCompleted then 1 else 0)
  }

  ghost function CompletedIndices(chapters: seq<Chapter>): set<int>
  {
    set i | 0 <= i < |chapters| && chapters[i].isCompleted
  }

  /** The count is the number of positions holding a completed chapter. */
  lemma {:induction false} CompletedChaptersCounts(chapters: seq<Chapter>)
    ensures CompletedChapters(chapters) == |CompletedIndices(chapters)|
    decreases |chapters|
  {
    if chapters != [] {
      var last := |chapters| - 1;
      CompletedChaptersCounts(chapters[..last]);
      var before := CompletedIndices(chapters[..last]);
      if chapters[last].isCompleted {
        assert CompletedIndices(chapters) == before + {last};
      } else {
        assert CompletedIndices(chapters) == before;
      }
    }
  }

  /** `reduce((acc, ch) => acc + field(ch), acc)`: a left-to-right running
      total. */
  function SumFrom(chapters: seq<Chapter>, field: Chapter -> int, acc: int): int
  {
    if chapters == [] then acc else SumFrom(chapters[1..], field, acc + field(chapters[0]))
  }

  function TotalQuizzes(chapters: seq<Chapter>): int
  {
    SumFrom(chapters, (ch: Chapter) => ch.quizCount, 0)
  }

  function TotalAssignments(chapters: seq<Chapter>): int
  {
    SumFrom(chapters, (ch: Chapter) => ch.assignmentCount, 0)
  }

  /** The plain sum of a field over the chapters. */
  function Sum(chapters: seq<Chapter>, field: Chapter -> int): int
  {
    if chapters == [] then 0 else field(chapters[0]) + Sum(chapters[1..], field)
  }

  /** The running total starting from `acc` is `acc` plus the sum. */
  lemma {:induction false} SumFromIsSum(chapters: seq<Chapter>, field: Chapter -> int, acc: int)
    ensures SumFrom(chapters, field, acc) == acc + Sum(chapters, field)
    decreases |chapters|
  {
    if chapters != [] {
      SumFromIsSum(chapters[1..], field, acc + field(chapters[0]));
    }
  }

  lemma {:induction false} SumAppend(xs: seq<Chapter>, ys: seq<Chapter>, field: Chapter -> int)
    ensures Sum(xs + ys, field) == Sum(xs, field) + Sum(ys, field)
    decreases |xs|
  {
    if xs == [] {
      assert xs + ys == ys;
    } else {
      assert (xs + ys)[1..] == xs[1..] + ys;
      SumAppend(xs[1..], ys, field);
    }
  }

  /** The quiz total is the sum of the chapters' quiz counts: it splits over
      any division of the chapter list, and adding a chapter adds exactly
      its count. */
  lemma TotalQuizzesAdds(xs: seq<Chapter>, ys: seq<Chapter>)
    ensures TotalQuizzes(xs + ys) == TotalQuizzes(xs) + TotalQuizzes(ys)
    ensures TotalQuizzes([]) == 0
  {
    var f := (ch: Chapter) => ch.quizCount;
    SumFromIsSum(xs + ys, f, 0);
    SumFromIsSum(xs, f, 0);
    SumFromIsSum(ys, f, 0);
    SumAppend(xs, ys, f);
  }

  /** The same for the assignment total. */
  lemma TotalAssignmentsAdds(xs: seq<Chapter>, ys: seq<Chapter>)
    ensures TotalAssignments(xs + ys) == TotalAssignments(xs) + TotalAssignments(ys)
    ensures TotalAssignments([]) == 0
  {
    var f := (ch: Chapter) => ch.assignmentCount;
    SumFromIsSum(xs + ys, f, 0);
    SumFromIsSum(xs, f, 0);
    SumFromIsSum(ys, f, 0);
    SumAppend(xs, ys, f);
  }

  // ---------------------------------------------------------------------------
  // Chapter cards

  /** Clicking a card reports its chapter to the app only when it is
      unlocked. */
  function ChapterClick(ch: Chapter): Option<int>
  {
    if ch.isUnlocked then Some(ch.id) else None
  }

  datatype CardState = Completed | Unlocked | Locked

  /** Completion takes precedence over the lock. */
  function CardStateOf(ch: Chapter): CardState
  {
    if ch.isCompleted then Completed else if ch.isUnlocked then Unlocked else Locked
  }

  /** A card shown locked never opens and one shown unlocked always opens
      its own chapter; a card shown completed opens only if it is also
      unlocked. */
  lemma ClickFollowsLock(ch: Chapter)
    ensures CardStateOf(ch) == Locked ==> ChapterClick(ch) == None
    ensures CardStateOf(ch) == Unlocked ==> ChapterClick(ch) == Some(ch.id)
    ensures CardStateOf(ch) == Completed <==> ch.isCompleted
    ensures ChapterClick(ch).Some? <==> ch.isUnlocked
  {
  }

  /** The "complete your first quiz" message shows exactly when the user has
      no badges. */
  predicate ShowsNoAchievements(badges: seq<string>)
  {
    |badges| == 0
  }

  /** A new account shows the message, and the first quiz completed at
      level 1 removes it for good, since it always awards "First Steps". */
  lemma FirstQuizEarnsAnAchievement(u: App.User, score: int, xpEarned: int)
    requires u.level == 1
    ensures ShowsNoAchievements(App.NewUser(u.name, u.email).badges)
    ensures !ShowsNoAchievements(App.CompleteQuiz(u, score, xpEarned).badges)
  {
    App.AwardBadgesMembership(u.badges, u.level, score);
  }

  /** The message outlives the first quiz of an account that submitted an
      assignment first: that account is at level 2 by then, and a quiz that
      does not score exactly 5 awards it nothing. */
  lemma MessageOutlivesFirstQuiz(name: string, email: string, score: int, xpEarned: int)
    requires score != 5
    ensures ShowsNoAchievements(App.CompleteQuiz(App.SubmitAssignment(App.NewUser(name, email)), score, xpEarned).badges)
  {
    App.AssignmentFirstSkipsFirstSteps(name, email, score, xpEarned);
  }

  /** With "First Steps" awarded on the first quiz whatever the level, any
      quiz completed clears the message, from every consistent profile. */
  lemma FirstQuizClearsMessage(u: App.User, score: int, xpEarned: int)
    requires App.Consistent(u)
    ensures !ShowsNoAchievements(App.CompleteFirstQuiz(u, score, xpEarned).badges)
  {
    App.CompleteFirstQuizEarnsFirstSteps(u, score, xpEarned);
  }

  /** The dashboard's five sample chapters. */
  function SampleChapters(): seq<Chapter>
  {
    [ Chapter(1, "Grammar Fundamentals", true, false, 100, 3, 2),
      Chapter(2, "Vocabulary Building", false, false, 150, 4, 3),
      Chapter(3, "Reading Comprehension", false, false, 200, 5, 4),
      Chapter(4, "Writing Skills", false, false, 250, 4, 5),
      Chapter(5, "Advanced Grammar", false, false, 300, 6, 4) ]
  }

  /** With the sample chapters the dashboard reads 0/5 completed, 22
      quizzes and 18 assignments, and only the first chapter opens. */
  lemma SampleTotals()
    ensures CompletedChapters(SampleChapters()) == 0
    ensures TotalQuizzes(SampleChapters()) == 22
    ensures TotalAssignments(SampleChapters()) == 18
    ensures forall i :: 0 <= i < 5 ==> (ChapterClick(SampleChapters()[i]).Some? <==> i == 0)
  {
    var chs := SampleChapters();
    CompletedChaptersCounts(chs);
    assert CompletedIndices(chs) == {};
    var q := (ch: Chapter) => ch.quizCount;
    var a := (ch: Chapter) => ch.assignmentCount;
    assert chs[1..] == chs[1..2] + chs[2..] && chs[2..] == chs[2..3] + chs[3..];
    assert chs[3..] == chs[3..4] + chs[4..] && chs[4..][1..] == [];
    SumFromIsSum(chs, q, 0);
    SumFromIsSum(chs, a, 0);
  }
}
