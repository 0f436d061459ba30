/** A chapter's page: lesson paragraphs with `**bold**` markup, the quiz and
    assignment buttons, and the quiz currently taken, whose completion is
    forwarded to the app (src/components/ChapterContent.tsx). */
module Chapter {
  import opened Common
  import App

  // ---------------------------------------------------------------------------
  // `paragraph.split('**')` and the bold/plain alternation

  /** A "**" starts at position i of s. */
  predicate MarkerAt(s: string, i: int)
  {
    0 <= i && i + 1 < |s| && s[i] == '*' && s[i + 1] == '*'
  }

  ghost predicate MarkerFree(s: string)
  {
    forall i :: !MarkerAt(s, i)
  }

  /** Where the first "**" of s starts, if it has one. */
  function FirstMarker(s: string): (r: Option<nat>)
    ensures r.None? ==> MarkerFree(s)
    ensures r.Some? ==> MarkerAt(s, r.value) && MarkerFree(s[..r.value + 1])
  {
    if |s| < 2 then None
    else if s[0] == '*' && s[1] == '*' then Some(0)
    else
      var rest := FirstMarker(s[1..]);
      ShiftMarkers(s);
      if rest.None? then None
      else
        assert s[1..][..rest.value + 1] == s[1..rest.value + 2];
        assert s[..rest.value + 2][1..] == s[1..rest.value + 2];
        ShiftMarkers(s[..rest.value + 2]);
        Some(rest.value + 1)
  }

  /** Markers of `s` past its first character are the markers of `s[1..]`,
      shifted by one. */
  lemma ShiftMarkers(s: string)
    requires |s| >= 1
    ensures forall i :: 1 <= i ==> (MarkerAt(s, i) <==> MarkerAt(s[1..], i - 1))
    ensures forall j :: 0 <= j ==> (MarkerAt(s[1..], j) <==> MarkerAt(s, j + 1))
  {
    forall j | 0 <= j
      ensures MarkerAt(s[1..], j) <==> MarkerAt(s, j + 1)
    {
      if j + 2 < |s| {
        assert s[1..][j] == s[j + 1] && s[1..][j + 1] == s[j + 2];
      }
    }
    forall i | 1 <= i
      ensures MarkerAt(s, i) <==> MarkerAt(s[1..], i - 1)
    {
      assert MarkerAt(s[1..], i - 1) <==> MarkerAt(s, i - 1 + 1);
    }
  }

  /** The first marker is the one with no marker before it. */
  lemma FirstMarkerUnique(s: string, k: nat)
    requires MarkerAt(s, k) && MarkerFree(s[..k + 1])
    ensures FirstMarker(s) == Some(k)
  {
    var r := FirstMarker(s);
    PrefixMarkers(s, k + 1);
    if r.Some? {
      PrefixMarkers(s, r.value + 1);
    }
  }

  /** The markers of a prefix are the markers of the whole that end inside
      it. */
  lemma PrefixMarkers(s: string, n: nat)
    requires n <= |s|
    ensures forall j :: MarkerAt(s[..n], j) <==> MarkerAt(s, j) && j + 1 < n
  {
  }

  /** Splitting at a marker with none before it. */
  lemma SplitAtFirstMarker(s: string, k: nat)
    requires MarkerAt(s, k) && MarkerFree(s[..k + 1])
    ensures SplitBold(s) == [s[..k]] + SplitBold(s[k + 2..])
  {
    FirstMarkerUnique(s, k);
  }

  /** The pieces `split('**')` returns: the text before the first marker,
      then the pieces of what follows it. */
  function SplitBold(s: string): (parts: seq<string>)
    ensures |parts| >= 1
    ensures forall k :: 0 <= k < |parts| ==> MarkerFree(parts[k])
    decreases |s|
  {
    match FirstMarker(s)
    case None => [s]
    case Some(i) =>
      assert MarkerFree(s[..i]) by {
        assert forall j :: MarkerAt(s[..i], j) ==> MarkerAt(s[..i + 1], j);
      }
      [s[..i]] + SplitBold(s[i + 2..])
  }

  /** `parts.join('**')`. */
  function Join(parts: seq<string>): string
    requires |parts| >= 1
  {
    if |parts| == 1 then parts[0] else parts[0] + "**" + Join(parts[1..])
  }

  /** Joining the pieces with "**" gives the paragraph back. */
  lemma {:induction false} JoinSplitBold(s: string)
    ensures Join(SplitBold(s)) == s
    decreases |s|
  {
    match FirstMarker(s)
    case None =>
    case Some(i) =>
      JoinSplitBold(s[i + 2..]);
      var parts := SplitBold(s);
      assert parts[1..] == SplitBold(s[i + 2..]);
      assert s == s[..i] + "**" + s[i + 2..];
  }

  /** Number of "**" in s, counted left to right without overlap, the way
      `split` consumes them. */
  function CountMarkers(s: string): nat
  {
    if |s| < 2 then 0
    else if s[0] == '*' && s[1] == '*' then 1 + CountMarkers(s[2..])
    else CountMarkers(s[1..])
  }

  lemma {:induction false} MarkerFreeCountsZero(s: string)
    requires MarkerFree(s)
    ensures CountMarkers(s) == 0
    decreases |s|
  {
    if |s| >= 2 {
      assert !MarkerAt(s, 0);
      ShiftMarkers(s);
      MarkerFreeCountsZero(s[1..]);
    }
  }

  lemma {:induction false} CountFromFirstMarker(s: string, i: nat)
    requires MarkerAt(s, i) && MarkerFree(s[..i + 1])
    ensures CountMarkers(s) == 1 + CountMarkers(s[i + 2..])
    decreases i
  {
    if i > 0 {
      assert !MarkerAt(s[..i + 1], 0);
      ShiftMarkers(s);
      assert s[1..][..i] == s[1..i + 1];
      assert s[..i + 1][1..] == s[1..i + 1];
      ShiftMarkers(s[..i + 1]);
      assert s[1..][i + 1..] == s[i + 2..];
      CountFromFirstMarker(s[1..], i - 1);
    }
  }

  /** A paragraph splits into one more piece than it has markers. */
  lemma {:induction false} SplitBoldCount(s: string)
    ensures |SplitBold(s)| == CountMarkers(s) + 1
    decreases |s|
  {
    match FirstMarker(s)
    case None =>
      MarkerFreeCountsZero(s);
    case Some(i) =>
      CountFromFirstMarker(s, i);
      SplitBoldCount(s[i + 2..]);
  }

  datatype Segment = Plain(text: string) | Bold(text: string)

  /** Pieces at odd positions are rendered bold, the others plain. */
  function RenderParagraph(paragraph: string): seq<Segment>
  {
    var parts := SplitBold(paragraph);
    seq(|parts|, i requires 0 <= i < |parts| => if i % 2 == 1 then Bold(parts[i]) else Plain(parts[i]))
  }

  /** The rendered paragraph has a segment per piece, alternating plain and
      bold from a plain first one, and with balanced markers it ends plain:
      bold is exactly the text between the first and second marker, the
      third and fourth, and so on. */
  lemma RenderParagraphShape(paragraph: string)
    ensures |RenderParagraph(paragraph)| == CountMarkers(paragraph) + 1
    ensures forall i :: 0 <= i < |RenderParagraph(paragraph)| ==>
              RenderParagraph(paragraph)[i].text == SplitBold(paragraph)[i]
              && (RenderParagraph(paragraph)[i].Bold? <==> i % 2 == 1)
    ensures RenderParagraph(paragraph)[0].Plain?
    ensures CountMarkers(paragraph) % 2 == 0 ==> RenderParagraph(paragraph)[CountMarkers(paragraph)].Plain?
  {
    SplitBoldCount(paragraph);
  }

  /** A lesson paragraph that opens with a bold term. */
  lemma RenderExample()
    ensures RenderParagraph("**Verbs** run") == [Plain(""), Bold("Verbs"), Plain(" run")]
  {
    ExampleSplit();
    RenderPieces("**Verbs** run", ["", "Verbs", " run"]);
  }

  /** Rendering in terms of the pieces. */
  lemma RenderPieces(paragraph: string, parts: seq<string>)
    requires SplitBold(paragraph) == parts && |parts| == 3
    ensures RenderParagraph(paragraph) == [Plain(parts[0]), Bold(parts[1]), Plain(parts[2])]
  {
  }

  lemma ExampleSplit()
    ensures SplitBold("**Verbs** run") == ["", "Verbs", " run"]
  {
    var s := "**Verbs** run";
    ExampleTailSplit();
    ExampleHeadFacts();
    SplitAtFirstMarker(s, 0);
  }

  lemma ExampleTailSplit()
    ensures SplitBold("Verbs** run") == ["Verbs", " run"]
  {
    var t := "Verbs** run";
    ExampleTailFacts();
    SplitAtFirstMarker(t, 5);
  }

  lemma ExampleHeadFacts()
    ensures "**Verbs** run"[2..] == "Verbs** run" && "**Verbs** run"[..0] == ""
    ensures MarkerAt("**Verbs** run", 0) && MarkerFree("**Verbs** run"[..1])
  {
  }

  lemma ExampleTailFacts()
    ensures "Verbs** run"[7..] == " run" && "Verbs** run"[..5] == "Verbs"
    ensures MarkerAt("Verbs** run", 5) && MarkerFree("Verbs** run"[..6])
    ensures SplitBold(" run") == [" run"]
  {
    assert "Verbs** run"[..6] == "Verbs*";
    assert MarkerFree(" run");
  }

  // ---------------------------------------------------------------------------
  // Buttons

  datatype QuizCard = QuizCard(id: int, title: string, isCompleted: bool)

  /** `xpReward` is the "+N XP" the card advertises. */
  datatype AssignmentCard = AssignmentCard(id: int, title: string, xpReward: int, isCompleted: bool)

  function QuizButtonLabel(q: QuizCard): string
  {
    if q.isCompleted then "Retake Quiz" else "Start Quiz"
  }

  /** The quiz cards of the chapter page, from its fixed chapter data. */
  const ChapterQuizzes: seq<QuizCard> :=
    [QuizCard(1, "Parts of Speech Quiz", false), QuizCard(2, "Sentence Structure Quiz", false)]

  /** The completed flag the button reads comes from the fixed chapter data,
      where no quiz is completed, and finishing a quiz (`ChapterView.CompleteQuiz`)
      reports the result to the app without touching that data. So every
      card keeps offering "Start Quiz", and "Retake Quiz" never shows, however
      many quizzes the user completes. */
  lemma RetakeNeverShown()
    ensures forall q :: q in ChapterQuizzes ==> !q.isCompleted && QuizButtonLabel(q) == "Start Quiz"
    ensures forall q :: q in ChapterQuizzes ==> QuizButtonLabel(q) != "Retake Quiz"
  {
  }

  datatype Button = Button(caption: string, disabled: bool)

  function SubmitButton(a: AssignmentCard): Button
  {
    Button(if a.isCompleted then "Submitted" else "Submit Assignment", a.isCompleted)
  }

  /** The submit button is disabled exactly for completed assignments, and
      exactly when it reads "Submitted". */
  lemma SubmitButtonIff(a: AssignmentCard)
    ensures SubmitButton(a).disabled <==> a.isCompleted
    ensures SubmitButton(a).disabled <==> SubmitButton(a).caption == "Submitted"
  {
  }

  /** The XP a submission earns ignores the card's advertised reward: the
      app always grants its flat assignment XP, so the sample card's "+120
      XP" earns 100. */
  lemma SubmitIgnoresAdvertisedReward(u: App.User, a: AssignmentCard)
    ensures App.SubmitAssignment(u).xp == u.xp + App.AssignmentXp
    ensures a.xpReward != App.AssignmentXp ==> App.SubmitAssignment(u).xp != u.xp + a.xpReward
  {
  }

  // ---------------------------------------------------------------------------
  // The quiz being taken

  /** What the chapter reports to the app when a quiz is completed. */
  datatype Completion = Completion(quizId: int, score: int, xpEarned: int)

  class ChapterView {
    var selectedQuiz: Option<QuizCard>

    constructor ()
      ensures selectedQuiz == None
    {
      selectedQuiz := None;
    }

    /** "Start Quiz" or "Retake Quiz": the quiz replaces the chapter page. */
    method SelectQuiz(q: QuizCard)
      modifies this
      ensures selectedQuiz == Some(q)
    {
      selectedQuiz := Some(q);
    }

    /** The quiz's "Continue Learning": the app records the result under the
        selected quiz's id, then the chapter page returns. Only reachable
        while a quiz is selected, since only then is the quiz on screen. */
    method CompleteQuiz(app: App.EduQuest, score: int, xpEarned: int) returns (reported: Completion)
      requires selectedQuiz.Some? && app.Valid()
      modifies this, app
      ensures reported == Completion(old(selectedQuiz).value.id, score, xpEarned)
      ensures selectedQuiz == None
      ensures app.Valid()
      ensures app.user == if old(app.user).None? then None else Some(App.CompleteQuiz(old(app.user).value, score, xpEarned))
      ensures app.screen == old(app.screen)
    {
      reported := Completion(selectedQuiz.value.id, score, xpEarned);
      var _ := app.QuizComplete(reported.quizId, score, xpEarned);
      selectedQuiz := None;
    }

    /** Leaving the quiz early: back to the chapter page, nothing reported. */
    method BackFromQuiz()
      modifies this
      ensures selectedQuiz == None
    {
      selectedQuiz := None;
    }

    /** The assignment button: a click on an enabled button hands the
        assignment to the app; a disabled one does nothing. */
    method ClickSubmit(app: App.EduQuest, a: AssignmentCard)
      requires app.Valid()
      modifies app
      ensures app.Valid()
      ensures a.isCompleted ==> app.user == old(app.user)
      ensures !a.isCompleted ==> app.user == if old(app.user).None? then None else Some(App.SubmitAssignment(old(app.user).value))
      ensures app.screen == old(app.screen)
    {
      if !SubmitButton(a).disabled {
        var _ := app.AssignmentSubmit(a.id);
      }
    }
  }
}
