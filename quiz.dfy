/** The timed quiz: a session holding the learner's answers, the scoring
    rule, the XP and badge tiers derived from the score, the countdown and
    the `m:ss` clock display (src/components/QuizComponent.tsx). */
module Quiz {
  import opened Common

  datatype Question = Question(id: int, prompt: string, options: seq<string>, correctAnswer: int, explanation: string)

  /** The slot value of a question that has not been answered. */
  const Unanswered: int := -1

  /** A key is usable when it names one of the options (an index >= 0). */
  predicate ValidKeys(questions: seq<Question>)
  {
    forall i :: 0 <= i < |questions| ==> 0 <= questions[i].correctAnswer
  }

  /** The answer slots of a session that has just been opened. */
  function BlankAnswers(n: nat): (answers: seq<int>)
    ensures |answers| == n
    ensures forall i :: 0 <= i < n ==> answers[i] == Unanswered
  {
    seq(n, _ => Unanswered)
  }

  // ---------------------------------------------------------------------------
  // Scoring

  /** Number of positions whose chosen option is the question's key. */
  function CorrectCount(questions: seq<Question>, answers: seq<int>): (c: nat)
    requires |answers| == |questions|
    ensures c <= |questions|
  {
    if questions == [] then 0
    else
      var n := |questions| - 1;
      CorrectCount(questions[..n], answers[..n]) + (if answers[n] == questions[n].correctAnswer then 1 else 0)
  }

  /** The positions the learner got right. */
  ghost function Matches(questions: seq<Question>, answers: seq<int>): set<int>
    requires |answers| == |questions|
  {
    set i | 0 <= i < |questions| && answers[i] == questions[i].correctAnswer
  }

  /** The score counts exactly the positions where the answer equals the key. */
  lemma {:induction false} CorrectCountIsMatches(questions: seq<Question>, answers: seq<int>)
    requires |answers| == |questions|
    ensures CorrectCount(questions, answers) == |Matches(questions, answers)|
    decreases |questions|
  {
    if questions != [] {
      var n := |questions| - 1;
      CorrectCountIsMatches(questions[..n], answers[..n]);
      var before := Matches(questions[..n], answers[..n]);
      if answers[n] == questions[n].correctAnswer {
        assert Matches(questions, answers) == before + {n};
      } else {
        assert Matches(questions, answers) == before;
      }
    }
  }

  /** With usable keys an unanswered slot never scores, so a session nobody
      touched scores zero. */
  lemma {:induction false} BlankAnswersScoreZero(questions: seq<Question>)
    requires ValidKeys(questions)
    ensures CorrectCount(questions, BlankAnswers(|questions|)) == 0
    decreases |questions|
  {
    if questions != [] {
      var n := |questions| - 1;
      assert BlankAnswers(|questions|)[..n] == BlankAnswers(n);
      BlankAnswersScoreZero(questions[..n]);
    }
  }

  /** Every correct answer is an answered slot: the score never exceeds the
      number of answered questions when the keys are usable. */
  lemma {:induction false} ScoreAtMostAnswered(questions: seq<Question>, answers: seq<int>)
    requires |answers| == |questions| && ValidKeys(questions)
    ensures CorrectCount(questions, answers) <= |set i | 0 <= i < |answers| && answers[i] != Unanswered|
  {
    CorrectCountIsMatches(questions, answers);
    var answered := set i | 0 <= i < |answers| && answers[i] != Unanswered;
    assert Matches(questions, answers) <= answered;
    SubsetCard(Matches(questions, answers), answered);
  }

  lemma SubsetCard(a: set<int>, b: set<int>)
    requires a <= b
    ensures |a| <= |b|
  {
    assert b == a + (b - a);
  }

  /** How the result screen marks one question. */
  datatype Verdict = Skipped | Correct | Incorrect

  function VerdictOf(answer: int, key: int): Verdict
  {
    if answer == Unanswered then Skipped
    else if answer == key then Correct
    else Incorrect
  }

  /** With a usable key the review list marks a question Correct exactly when
      it counts towards the score. */
  lemma VerdictAgreesWithScore(questions: seq<Question>, answers: seq<int>, i: int)
    requires |answers| == |questions| && ValidKeys(questions) && 0 <= i < |questions|
    ensures VerdictOf(answers[i], questions[i].correctAnswer) == Correct <==> i in Matches(questions, answers)
    ensures VerdictOf(answers[i], questions[i].correctAnswer) == Skipped <==> answers[i] == Unanswered
  {
  }

  // ---------------------------------------------------------------------------
  // Tiers derived from the score

  /** XP for `correct` right answers out of `total`, given the quiz's maximum
      reward: the full reward from 90%, then 80%, 60%, 40% and 20% of it
      (rounded down) for the 80, 70, 60 and lower bands. */
  function XpEarned(correct: int, total: int, reward: int): int
  {
    if AtLeastPercent(correct, total, 90) then reward
    else if AtLeastPercent(correct, total, 80) then 4 * reward / 5
    else if AtLeastPercent(correct, total, 70) then 3 * reward / 5
    else if AtLeastPercent(correct, total, 60) then 2 * reward / 5
    else reward / 5
  }

  /** The award never exceeds the quiz's reward and is never negative. */
  lemma XpEarnedBounds(correct: int, total: int, reward: int)
    requires reward >= 0
    ensures 0 <= XpEarned(correct, total, reward) <= reward
  {
  }

  /** More right answers never earn less XP. */
  lemma {:induction false} XpEarnedMonotone(c1: int, c2: int, total: int, reward: int)
    requires c1 <= c2 && total > 0 && reward >= 0
    ensures XpEarned(c1, total, reward) <= XpEarned(c2, total, reward)
  {
    var bars := [90, 80, 70, 60];
    forall p | p in bars && AtLeastPercent(c1, total, p)
      ensures AtLeastPercent(c2, total, p)
    {
      AtLeastPercentMonotone(c1, c2, total, p);
    }
    forall p | p in bars[1..] && AtLeastPercent(c1, total, p + 10)
      ensures AtLeastPercent(c1, total, p)
    {
      AtLeastPercentAntitone(c1, total, p, p + 10);
    }
    forall p | p in bars[1..] && AtLeastPercent(c2, total, p + 10)
      ensures AtLeastPercent(c2, total, p)
    {
      AtLeastPercentAntitone(c2, total, p, p + 10);
    }
  }

  /** Five out of five earns the full reward; three out of five (60%) earns
      two fifths of it. */
  lemma XpEarnedExamples(reward: int)
    ensures XpEarned(5, 5, reward) == reward
    ensures XpEarned(3, 5, reward) == 2 * reward / 5
    ensures XpEarned(0, 5, reward) == reward / 5
  {
  }

  /** The advisory label on the result screen, by percentage band. */
  function BadgeEarned(correct: int, total: int): Option<string>
  {
    if AtLeastPercent(correct, total, 95) then Some("Perfect Score")
    else if AtLeastPercent(correct, total, 90) then Some("Excellent")
    else if AtLeastPercent(correct, total, 80) then Some("Great Job")
    else if AtLeastPercent(correct, total, 70) then Some("Good Work")
    else None
  }

  /** The label depends only on the ratio: two results with the same ratio
      get the same label, whatever the quiz's length. */
  lemma {:induction false} BadgeDependsOnRatioOnly(c1: int, n1: int, c2: int, n2: int)
    requires n1 > 0 && n2 > 0 && c1 * n2 == c2 * n1
    ensures BadgeEarned(c1, n1) == BadgeEarned(c2, n2)
  {
    forall p ensures AtLeastPercent(c1, n1, p) <==> AtLeastPercent(c2, n2, p) {
      SameRatioSameBar(c1, n1, c2, n2, p);
    }
  }

  lemma {:induction false} SameRatioSameBar(c1: int, n1: int, c2: int, n2: int, p: int)
    requires n1 > 0 && n2 > 0 && c1 * n2 == c2 * n1
    ensures 100 * c1 >= p * n1 <==> 100 * c2 >= p * n2
  {
    // Multiply both sides of each comparison by the other denominator.
    assert (100 * c1) * n2 == (100 * c2) * n1;
    if 100 * c1 >= p * n1 {
      MulMonotone(p * n1, 100 * c1, n2);
      assert (p * n2) * n1 <= (100 * c2) * n1;
      if 100 * c2 < p * n2 { MulMonotone(100 * c2 + 1, p * n2, n1); }
    } else {
      MulMonotone(100 * c1 + 1, p * n1, n2);
      assert (100 * c2) * n1 < (p * n2) * n1;
      if 100 * c2 >= p * n2 { MulMonotone(p * n2, 100 * c2, n1); }
    }
  }

  /** "Perfect Score" is a percentage band, not full marks: on quizzes with
      fewer than twenty questions it means every answer right, but 19 out of
      20 already earns it. */
  lemma {:induction false} PerfectLabelVersusFullMarks(correct: int, total: int)
    requires 0 < total < 20 && 0 <= correct <= total
    ensures BadgeEarned(correct, total) == Some("Perfect Score") <==> correct == total
  {
    if correct < total {
      assert 100 * correct <= 100 * total - 100;
      assert 100 * total - 100 < 95 * total;
    }
  }

  lemma PerfectLabelWithOneWrong()
    ensures BadgeEarned(19, 20) == Some("Perfect Score")
  {
  }

  /** The headline of the result screen. */
  function Headline(correct: int, total: int): string
  {
    if AtLeastPercent(correct, total, 90) then "Excellent Work!"
    else if AtLeastPercent(correct, total, 70) then "Great Job!"
    else "Keep Practicing!"
  }

  /** The headline agrees with the label: a label is shown exactly when the
      headline is not "Keep Practicing!", and "Excellent Work!" goes with
      "Excellent" or "Perfect Score". */
  lemma {:induction false} HeadlineAgreesWithBadge(correct: int, total: int)
    ensures BadgeEarned(correct, total).None? <==> Headline(correct, total) == "Keep Practicing!"
    ensures Headline(correct, total) == "Excellent Work!" <==>
              BadgeEarned(correct, total) in {Some("Perfect Score"), Some("Excellent")}
  {
    if AtLeastPercent(correct, total, 95) {
      AtLeastPercentAntitone(correct, total, 90, 95);
    }
    if AtLeastPercent(correct, total, 90) {
      AtLeastPercentAntitone(correct, total, 70, 90);
    } else if AtLeastPercent(correct, total, 80) {
      AtLeastPercentAntitone(correct, total, 70, 80);
    }
  }

  // ---------------------------------------------------------------------------
  // Countdown

  /** The three pieces of session state the countdown effect reads. */
  datatype Clock = Clock(started: bool, timeLeft: int, finished: bool)

  /** One firing of the countdown effect: while the quiz runs and time is
      left, one second passes; once the time is zero the quiz is finished. */
  function Tick(c: Clock): Clock
  {
    if c.started && c.timeLeft > 0 && !c.finished then c.(timeLeft := c.timeLeft - 1)
    else if c.timeLeft == 0 then c.(finished := true)
    else c
  }

  function Ticks(c: Clock, k: nat): Clock
    decreases k
  {
    if k == 0 then c else Ticks(Tick(c), k - 1)
  }

  /** A tick changes the time by at most one second, only downwards, never
      below zero from a non-negative start, and never un-finishes the quiz. */
  lemma TickStep(c: Clock)
    ensures c.timeLeft - 1 <= Tick(c).timeLeft <= c.timeLeft
    ensures c.timeLeft >= 0 ==> Tick(c).timeLeft >= 0
    ensures Tick(c).started == c.started
    ensures c.finished ==> Tick(c).finished
    ensures Tick(c).timeLeft < c.timeLeft <==> c.started && c.timeLeft > 0 && !c.finished
  {
  }

  /** A started quiz with `t` seconds left and nobody pressing Finish is
      finished after `t` decrements and one more firing at zero. */
  lemma {:induction false} CountdownFinishes(t: nat)
    ensures Ticks(Clock(true, t, false), t) == Clock(true, 0, false)
    ensures Ticks(Clock(true, t, false), t + 1) == Clock(true, 0, true)
  {
    if t > 0 {
      CountdownFinishes(t - 1);
    }
  }

  /** Before the learner presses Start the clock does not move. */
  lemma IdleClockStays(t: int, k: nat)
    requires t != 0
    ensures Ticks(Clock(false, t, false), k) == Clock(false, t, false)
  {
  }

  // ---------------------------------------------------------------------------
  // The `m:ss` display

  function DigitChar(d: nat): char
    requires d < 10
  {
    ('0' as int + d) as char
  }

  predicate IsDigit(c: char)
  {
    '0' <= c <= '9'
  }

  function DigitValue(c: char): nat
  {
    if IsDigit(c) then (c as int - '0' as int) else 0
  }

  /** Decimal rendering of a natural number, as `String(n)` gives it. */
  function Decimal(n: nat): (s: string)
    ensures |s| >= 1
    ensures forall i :: 0 <= i < |s| ==> IsDigit(s[i])
    ensures |s| > 1 ==> s[0] != '0'
  {
    if n < 10 then [DigitChar(n)] else Decimal(n / 10) + [DigitChar(n % 10)]
  }

  function ParseDecimal(s: string): nat
  {
    if s == [] then 0 else 10 * ParseDecimal(s[..|s| - 1]) + DigitValue(s[|s| - 1])
  }

  lemma {:induction false} DecimalRoundTrip(n: nat)
    ensures ParseDecimal(Decimal(n)) == n
  {
    if n >= 10 {
      DecimalRoundTrip(n / 10);
      var s := Decimal(n / 10) + [DigitChar(n % 10)];
      assert s[..|s| - 1] == Decimal(n / 10);
    }
  }

  /** `mins:ss` for a number of seconds: whole minutes, then the remaining
      seconds padded to two digits. */
  function FormatTime(seconds: nat): string
  {
    var mins, secs := seconds / 60, seconds % 60;
    Decimal(mins) + ":" + [DigitChar(secs / 10), DigitChar(secs % 10)]
  }

  /** Reads a `m:ss` display back into seconds: one or more digits of
      minutes, a colon, and two digits of seconds below sixty. Anything else
      is not a display and reads as None. */
  function ParseTime(s: string): (r: Option<nat>)
    ensures r.Some? ==> |s| >= 4 && s[|s| - 3] == ':'
    ensures r.Some? ==> forall i :: 0 <= i < |s| && i != |s| - 3 ==> IsDigit(s[i])
  {
    if |s| >= 4 && s[|s| - 3] == ':' && IsDigit(s[|s| - 2]) && IsDigit(s[|s| - 1])
       && DigitValue(s[|s| - 2]) < 6 && (forall i :: 0 <= i < |s| - 3 ==> IsDigit(s[i]))
    then Some(60 * ParseDecimal(s[..|s| - 3]) + ParseDecimal(s[|s| - 2..]))
    else None
  }

  /** The display loses nothing: minutes times sixty plus the two-digit
      seconds field is the number of seconds shown, and the seconds field is
      always below sixty. */
  lemma {:induction false} FormatTimeRoundTrip(seconds: nat)
    ensures ParseTime(FormatTime(seconds)) == Some(seconds)
  {
    var mins, secs := seconds / 60, seconds % 60;
    var head := Decimal(mins);
    var tail := [DigitChar(secs / 10), DigitChar(secs % 10)];
    var t := FormatTime(seconds);
    assert t == head + ":" + tail;
    assert |t| >= 4 && t[|t| - 3] == ':';
    assert t[..|t| - 3] == head;
    assert forall i :: 0 <= i < |t| - 3 ==> t[i] == head[i];
    assert t[|t| - 2..] == tail;
    DecimalRoundTrip(mins);
    TwoDigits(secs);
  }

  lemma TwoDigits(secs: nat)
    requires secs < 60
    ensures ParseDecimal([DigitChar(secs / 10), DigitChar(secs % 10)]) == secs
    ensures DigitValue(DigitChar(secs / 10)) < 6
  {
    var tail := [DigitChar(secs / 10), DigitChar(secs % 10)];
    assert tail[..1][..0] == [];
    assert tail[..1] == [DigitChar(secs / 10)];
    assert ParseDecimal(tail[..1]) == secs / 10;
  }

  /** Strings that are not `m:ss` displays are refused. */
  lemma ParseTimeRejects()
    ensures ParseTime("x:05") == None
    ensures ParseTime("1:5x") == None
    ensures ParseTime("1:65") == None
    ensures ParseTime(":05") == None
  {
    assert !IsDigit("x:05"[0]);
  }

  lemma FormatTimeExamples()
    ensures FormatTime(600) == "10:00"
    ensures FormatTime(65) == "1:05"
    ensures FormatTime(59) == "0:59"
  {
  }

  // ---------------------------------------------------------------------------
  // The session

  /** One attempt at a quiz: the answers chosen so far, the question on
      screen, whether the result screen is shown, and the countdown. */
  class Session {
    const questions: seq<Question>
    const timeLimit: int  // minutes
    const xpReward: int
    var currentQuestion: int
    var selectedAnswers: seq<int>
    var showResults: bool
    var timeLeft: int  // seconds
    var quizStarted: bool

    ghost predicate Valid()
      reads this
    {
      && |questions| > 0
      && |selectedAnswers| == |questions|
      && 0 <= currentQuestion < |questions|
    }

    function ClockState(): Clock
      reads this
    {
      Clock(quizStarted, timeLeft, showResults)
    }

    /** Opening a quiz: first question, every slot unanswered, the full
        time limit in seconds, not yet started. The question screen reads
        the current question, so a quiz must have at least one. */
    constructor (questions: seq<Question>, timeLimit: int, xpReward: int)
      requires |questions| > 0
      ensures Valid()
      ensures this.questions == questions && this.timeLimit == timeLimit && this.xpReward == xpReward
      ensures currentQuestion == 0 && selectedAnswers == BlankAnswers(|questions|)
      ensures !showResults && !quizStarted && timeLeft == timeLimit * 60
    {
      this.questions := questions;
      this.timeLimit := timeLimit;
      this.xpReward := xpReward;
      currentQuestion := 0;
      selectedAnswers := BlankAnswers(|questions|);
      showResults := false;
      timeLeft := timeLimit * 60;
      quizStarted := false;
    }

    method Start()
      modifies this
      ensures quizStarted
      ensures currentQuestion == old(currentQuestion) && selectedAnswers == old(selectedAnswers)
      ensures showResults == old(showResults) && timeLeft == old(timeLeft)
    {
      quizStarted := true;
    }

    /** Choosing an option overwrites the slot of the question on screen and
        nothing else. */
    method SelectAnswer(answerIndex: int)
      requires Valid()
      modifies this
      ensures Valid()
      ensures |selectedAnswers| == |old(selectedAnswers)|
      ensures selectedAnswers[currentQuestion] == answerIndex
      ensures forall i :: 0 <= i < |selectedAnswers| && i != currentQuestion ==> selectedAnswers[i] == old(selectedAnswers)[i]
      ensures currentQuestion == old(currentQuestion) && showResults == old(showResults)
      ensures timeLeft == old(timeLeft) && quizStarted == old(quizStarted)
    {
      var newAnswers := selectedAnswers;
      newAnswers := newAnswers[currentQuestion := answerIndex];
      selectedAnswers := newAnswers;
    }

    /** Moves to the next question unless the last one is on screen. */
    method Next()
      requires Valid()
      modifies this
      ensures Valid()
      ensures currentQuestion == if old(currentQuestion) < |questions| - 1 then old(currentQuestion) + 1 else old(currentQuestion)
      ensures selectedAnswers == old(selectedAnswers) && showResults == old(showResults)
      ensures timeLeft == old(timeLeft) && quizStarted == old(quizStarted)
    {
      if currentQuestion < |questions| - 1 {
        currentQuestion := currentQuestion + 1;
      }
    }

    /** Moves to the previous question unless the first one is on screen. */
    method Previous()
      requires Valid()
      modifies this
      ensures Valid()
      ensures currentQuestion == if old(currentQuestion) > 0 then old(currentQuestion) - 1 else old(currentQuestion)
      ensures selectedAnswers == old(selectedAnswers) && showResults == old(showResults)
      ensures timeLeft == old(timeLeft) && quizStarted == old(quizStarted)
    {
      if currentQuestion > 0 {
        currentQuestion := currentQuestion - 1;
      }
    }

    method Finish()
      modifies this
      ensures showResults
      ensures currentQuestion == old(currentQuestion) && selectedAnswers == old(selectedAnswers)
      ensures timeLeft == old(timeLeft) && quizStarted == old(quizStarted)
    {
      showResults := true;
    }

    /** One firing of the countdown effect. */
    method Countdown()
      modifies this
      ensures ClockState() == Tick(old(ClockState()))
      ensures currentQuestion == old(currentQuestion) && selectedAnswers == old(selectedAnswers)
    {
      if quizStarted && timeLeft > 0 && !showResults {
        timeLeft := timeLeft - 1;
      } else if timeLeft == 0 {
        Finish();
      }
    }

    /** Counts the questions answered correctly, one slot at a time. */
    method CalculateScore() returns (correct: nat)
      requires Valid()
      ensures correct == CorrectCount(questions, selectedAnswers)
      ensures correct <= |questions|
    {
      correct := 0;
      var index := 0;
      while index < |questions|
        invariant 0 <= index <= |questions|
        invariant correct == CorrectCount(questions[..index], selectedAnswers[..index])
      {
        if selectedAnswers[index] == questions[index].correctAnswer {
          correct := correct + 1;
        }
        index := index + 1;
        assert questions[..index][..index - 1] == questions[..index - 1];
        assert selectedAnswers[..index][..index - 1] == selectedAnswers[..index - 1];
      }
      assert questions[..index] == questions;
      assert selectedAnswers[..index] == selectedAnswers;
    }

    /** What "Continue Learning" hands to the chapter: the score and the XP
        tier it earns. */
    method Outcome() returns (score: nat, xpEarned: int)
      requires Valid()
      ensures score == CorrectCount(questions, selectedAnswers)
      ensures xpEarned == XpEarned(score, |questions|, xpReward)
    {
      score := CalculateScore();
      xpEarned := XpEarned(score, |questions|, xpReward);
    }
  }

  /** A learner who starts a one-minute quiz and never answers: after sixty
      seconds and one more firing of the countdown the result screen shows,
      the score is zero and the award is the lowest tier. */
  method RunOutTheClock(questions: seq<Question>, reward: int) returns (score: nat, xpEarned: int, finished: bool)
    requires |questions| > 0 && ValidKeys(questions)
    ensures finished && score == 0 && xpEarned == reward / 5
  {
    var s := new Session(questions, 1, reward);
    s.Start();
    var k := 0;
    while k < 60
      invariant 0 <= k <= 60
      invariant s.Valid() && s.questions == questions && s.xpReward == reward
      invariant s.ClockState() == Clock(true, 60 - k, false)
      invariant s.selectedAnswers == BlankAnswers(|questions|)
    {
      s.Countdown();
      k := k + 1;
    }
    s.Countdown();
    finished := s.showResults;
    BlankAnswersScoreZero(questions);
    score, xpEarned := s.Outcome();
  }
}
