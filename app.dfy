/** The learner profile and the application shell: account creation, the
    XP and level-up rule, badge awards on quiz completion, assignment XP,
    the display name taken from the login e-mail, and the screen the app
    shows (src/App.tsx). */
module App {
  import opened Common

  datatype User = User(name: string, email: string, level: int, xp: int, totalXp: int, badges: seq<string>)

  const PerfectScore: string := "Perfect Score"
  const FirstSteps: string := "First Steps"

  /** XP granted for submitting any assignment. */
  const AssignmentXp: int := 100

  /** A freshly created account. */
  function NewUser(name: string, email: string): User
  {
    User(name, email, 1, 0, 100, [])
  }

  predicate NoDuplicates(s: seq<string>)
  {
    forall i, j :: 0 <= i < j < |s| ==> s[i] != s[j]
  }

  /** What every profile the app creates keeps true: level at least one, the
      threshold for the next level is 100 + 200 + ... + 100 * level (that is,
      50 * level * (level + 1)), and no badge is listed twice. */
  predicate Consistent(u: User)
  {
    && u.level >= 1
    && u.totalXp == 50 * u.level * (u.level + 1)
    && NoDuplicates(u.badges)
  }

  // ---------------------------------------------------------------------------
  // XP and levels

  /** Adds `delta` XP. Reaching the threshold raises the level by exactly one
      and grows the threshold by the new level times 100; the XP itself is
      kept, not reduced by the threshold. */
  function ApplyXp(u: User, delta: int): User
  {
    var newXp := u.xp + delta;
    if newXp >= u.totalXp then
      u.(xp := newXp, level := u.level + 1, totalXp := u.totalXp + (u.level + 1) * 100)
    else
      u.(xp := newXp)
  }

  /** A new account is consistent, below its first threshold, and has no
      badges. */
  lemma NewUserConsistent(name: string, email: string)
    ensures Consistent(NewUser(name, email))
    ensures NewUser(name, email).xp < NewUser(name, email).totalXp
  {
  }

  /** The XP rule keeps the profile consistent: one level at most per award,
      and the threshold stays the triangular number of the level. */
  lemma {:induction false} ApplyXpConsistent(u: User, delta: int)
    requires Consistent(u)
    ensures Consistent(ApplyXp(u, delta))
    ensures ApplyXp(u, delta).xp == u.xp + delta
    ensures u.level <= ApplyXp(u, delta).level <= u.level + 1
    ensures ApplyXp(u, delta).level == u.level + 1 <==> u.xp + delta >= u.totalXp
    ensures ApplyXp(u, delta).badges == u.badges
    ensures ApplyXp(u, delta).name == u.name && ApplyXp(u, delta).email == u.email
    ensures ApplyXp(u, delta).totalXp ==
              if u.xp + delta >= u.totalXp then u.totalXp + (u.level + 1) * 100 else u.totalXp
  {
    var L := u.level;
    if u.xp + delta >= u.totalXp {
      calc {
        50 * L * (L + 1) + (L + 1) * 100;
        50 * (L + 1) * L + 50 * (L + 1) * 2;
        50 * (L + 1) * (L + 2);
      }
    }
  }

  /** XP below the threshold stays below it as long as one award is no
      larger than the next level's increment, which every award in the app
      (at most 100) is. */
  lemma {:induction false} ApplyXpStaysBelowThreshold(u: User, delta: int)
    requires Consistent(u) && u.xp < u.totalXp
    requires 0 <= delta <= (u.level + 1) * 100
    ensures ApplyXp(u, delta).xp < ApplyXp(u, delta).totalXp
  {
    assert (u.level + 1) * 100 >= 200;
  }

  /** Below the threshold, an award of zero changes nothing. */
  lemma ZeroAwardIsIdentity(u: User)
    requires u.xp < u.totalXp
    ensures ApplyXp(u, 0) == u
  {
  }

  /** At or above the threshold even an award of zero levels up, because the
      XP is never reduced on a level-up. */
  lemma ZeroAwardAtThresholdLevelsUp(u: User)
    requires u.xp >= u.totalXp
    ensures ApplyXp(u, 0).level == u.level + 1
  {
  }

  /** From a new account, 100 XP gives level 2 with 100 XP and a threshold
      of 300; a single award of 1000 XP still only reaches level 2. */
  lemma LevelUpExamples(name: string, email: string)
    ensures ApplyXp(NewUser(name, email), 100) == User(name, email, 2, 100, 300, [])
    ensures ApplyXp(NewUser(name, email), 1000) == User(name, email, 2, 1000, 300, [])
    ensures ApplyXp(ApplyXp(NewUser(name, email), 1000), 0).level == 3
  {
  }

  // ---------------------------------------------------------------------------
  // Quiz completion and assignment submission

  /** "Perfect Score" for a score of exactly 5, then "First Steps" while the
      profile is at level 1; each only when not yet held. */
  function AwardBadges(badges: seq<string>, level: int, score: int): seq<string>
  {
    var withPerfect := if score == 5 && PerfectScore !in badges then badges + [PerfectScore] else badges;
    if level == 1 && FirstSteps !in withPerfect then withPerfect + [FirstSteps] else withPerfect
  }

  /** The profile after a quiz: the XP rule, then the badge rule judged on
      the level before the update. */
  function CompleteQuiz(u: User, score: int, xpEarned: int): User
  {
    ApplyXp(u, xpEarned).(badges := AwardBadges(u.badges, u.level, score))
  }

  /** The profile after an assignment is submitted. */
  function SubmitAssignment(u: User): User
  {
    ApplyXp(u, AssignmentXp)
  }

  /** Apart from badges, a quiz completion is exactly an XP award of the
      quiz's XP. */
  lemma CompleteQuizIsXpAward(u: User, score: int, xpEarned: int)
    ensures CompleteQuiz(u, score, xpEarned).(badges := u.badges) == ApplyXp(u, xpEarned)
  {
  }

  /** Badges are only ever appended: the old list is a prefix of the new one,
      and what is appended is "Perfect Score", "First Steps", or both in
      that order. */
  lemma AwardBadgesAppends(badges: seq<string>, level: int, score: int)
    ensures AwardBadges(badges, level, score) in
      {badges, badges + [PerfectScore], badges + [FirstSteps], badges + [PerfectScore, FirstSteps]}
    ensures badges <= AwardBadges(badges, level, score)
  {
    assert badges + [PerfectScore] + [FirstSteps] == badges + [PerfectScore, FirstSteps];
  }

  /** The profile holds "Perfect Score" after a quiz exactly when it held it
      before or the score was 5, and "First Steps" exactly when it held it
      before or it was at level 1. */
  lemma AwardBadgesMembership(badges: seq<string>, level: int, score: int)
    ensures PerfectScore in AwardBadges(badges, level, score) <==> PerfectScore in badges || score == 5
    ensures FirstSteps in AwardBadges(badges, level, score) <==> FirstSteps in badges || level == 1
  {
    assert PerfectScore != FirstSteps;
  }

  /** Awarding never lists a badge twice. */
  lemma {:induction false} AwardBadgesNoDuplicates(badges: seq<string>, level: int, score: int)
    requires NoDuplicates(badges)
    ensures NoDuplicates(AwardBadges(badges, level, score))
  {
    assert PerfectScore != FirstSteps;
    var withPerfect := if score == 5 && PerfectScore !in badges then badges + [PerfectScore] else badges;
    AppendFreshKeepsNoDuplicates(badges, PerfectScore);
    AppendFreshKeepsNoDuplicates(withPerfect, FirstSteps);
  }

  lemma AppendFreshKeepsNoDuplicates(s: seq<string>, x: string)
    requires NoDuplicates(s)
    ensures x !in s ==> NoDuplicates(s + [x])
  {
  }

  /** A quiz completion keeps the profile consistent. */
  lemma {:induction false} CompleteQuizConsistent(u: User, score: int, xpEarned: int)
    requires Consistent(u)
    ensures Consistent(CompleteQuiz(u, score, xpEarned))
  {
    ApplyXpConsistent(u, xpEarned);
    AwardBadgesNoDuplicates(u.badges, u.level, score);
  }

  /** Completing the same quiz again adds no badge a second time. */
  lemma {:induction false} CompleteQuizBadgesIdempotent(u: User, score: int, xp1: int, xp2: int)
    requires u.level >= 1
    ensures CompleteQuiz(CompleteQuiz(u, score, xp1), score, xp2).badges == CompleteQuiz(u, score, xp1).badges
  {
    var once := CompleteQuiz(u, score, xp1);
    AwardBadgesMembership(u.badges, u.level, score);
    assert once.level >= u.level;
    if once.level == 1 {
      assert u.level == 1;
    }
  }

  /** "Perfect Score" follows the literal score 5, not full marks: full
      marks on a three-question quiz do not earn it, and five right answers
      earn it whatever the quiz's length. */
  lemma PerfectScoreIsLiteralFive(u: User, xpEarned: int)
    requires PerfectScore !in u.badges
    ensures PerfectScore !in CompleteQuiz(u, 3, xpEarned).badges
    ensures PerfectScore in CompleteQuiz(u, 5, xpEarned).badges
  {
    AwardBadgesMembership(u.badges, u.level, 3);
    AwardBadgesMembership(u.badges, u.level, 5);
  }

  /** An assignment adds exactly 100 XP under the same level rule and leaves
      the badges alone. */
  lemma {:induction false} SubmitAssignmentEffect(u: User)
    requires Consistent(u)
    ensures Consistent(SubmitAssignment(u))
    ensures SubmitAssignment(u).xp == u.xp + 100
    ensures SubmitAssignment(u).badges == u.badges
    ensures SubmitAssignment(u).level == (if u.xp + 100 >= u.totalXp then u.level + 1 else u.level)
    ensures SubmitAssignment(u).totalXp ==
              if u.xp + 100 >= u.totalXp then u.totalXp + (u.level + 1) * 100 else u.totalXp
    ensures SubmitAssignment(u).name == u.name && SubmitAssignment(u).email == u.email
  {
    ApplyXpConsistent(u, AssignmentXp);
  }

  /** "First Steps" hinges on the level, not on the quiz being the first:
      once an account has left level 1 without the badge, no quiz ever
      awards it. */
  lemma FirstStepsOnlyAtLevelOne(u: User, score: int, xpEarned: int)
    requires FirstSteps !in u.badges && u.level != 1
    ensures FirstSteps !in CompleteQuiz(u, score, xpEarned).badges
  {
    AwardBadgesMembership(u.badges, u.level, score);
  }

  /** A new account that submits an assignment before any quiz reaches
      level 2, so its first quiz, unless it scores exactly 5, awards no badge
      at all. */
  lemma {:induction false} AssignmentFirstSkipsFirstSteps(name: string, email: string, score: int, xpEarned: int)
    requires score != 5
    ensures SubmitAssignment(NewUser(name, email)).level == 2
    ensures CompleteQuiz(SubmitAssignment(NewUser(name, email)), score, xpEarned).badges == []
  {
    var v := SubmitAssignment(NewUser(name, email));
    assert v.badges == [] && v.level == 2;
    AwardBadgesAppends(v.badges, v.level, score);
    AwardBadgesMembership(v.badges, v.level, score);
  }

  /** The completion rule with "First Steps" awarded on the first quiz
      completed, whatever the level: the badge is given whenever it is not
      yet held. */
  function CompleteFirstQuiz(u: User, score: int, xpEarned: int): User
  {
    ApplyXp(u, xpEarned).(badges := AwardBadges(u.badges, 1, score))
  }

  /** Under that rule every quiz completion leaves "First Steps" in the
      profile and keeps it consistent, and at level 1 the rule is the app's
      own. */
  lemma {:induction false} CompleteFirstQuizEarnsFirstSteps(u: User, score: int, xpEarned: int)
    requires Consistent(u)
    ensures FirstSteps in CompleteFirstQuiz(u, score, xpEarned).badges
    ensures Consistent(CompleteFirstQuiz(u, score, xpEarned))
    ensures u.level == 1 ==> CompleteFirstQuiz(u, score, xpEarned) == CompleteQuiz(u, score, xpEarned)
  {
    AwardBadgesMembership(u.badges, 1, score);
    ApplyXpConsistent(u, xpEarned);
    AwardBadgesNoDuplicates(u.badges, 1, score);
  }

  // ---------------------------------------------------------------------------
  // Display name

  /** The part of an e-mail before its first '@' (the whole text when there
      is none). */
  function LocalPart(email: string): (p: string)
    ensures p <= email
    ensures '@' !in p
    ensures |p| < |email| ==> email[|p|] == '@'
  {
    if email == [] || email[0] == '@' then [] else [email[0]] + LocalPart(email[1..])
  }

  /** Upper-casing of one character, for the ASCII letters. */
  function UpperAscii(c: char): char
  {
    if 'a' <= c <= 'z' then (c as int - 32) as char else c
  }

  /** The name a login shows: the e-mail's local part with its first
      character upper-cased. */
  function DisplayName(email: string): string
  {
    var local := LocalPart(email);
    if local == [] then [] else [UpperAscii(local[0])] + local[1..]
  }

  /** The display name has the local part's length, differs from it at most
      in the first character, which is that character upper-cased, and never
      contains '@'. */
  lemma DisplayNameShape(email: string)
    ensures |DisplayName(email)| == |LocalPart(email)|
    ensures |DisplayName(email)| > 0 ==>
              DisplayName(email)[0] == UpperAscii(LocalPart(email)[0])
              && DisplayName(email)[1..] == LocalPart(email)[1..]
    ensures '@' !in DisplayName(email)
  {
    var local := LocalPart(email);
    if local != [] {
      var name := [UpperAscii(local[0])] + local[1..];
      forall i | 0 <= i < |name| ensures name[i] != '@' {
        if i > 0 { assert name[i] == local[i]; }
      }
    }
  }

  /** The three facts about `LocalPart` pin it down: any prefix without '@'
      that is followed by '@' or by nothing is the local part. */
  lemma {:induction false} LocalPartUnique(email: string, q: string)
    requires q <= email && '@' !in q
    requires |q| < |email| ==> email[|q|] == '@'
    ensures LocalPart(email) == q
  {
    var p := LocalPart(email);
    assert forall i :: 0 <= i < |q| ==> email[i] == q[i] && q[i] != '@';
    assert forall i :: 0 <= i < |p| ==> email[i] == p[i] && p[i] != '@';
    assert |p| == |q|;
    assert p == email[..|p|] && q == email[..|q|];
  }

  lemma DisplayNameExamples()
    ensures DisplayName("demo@eduquest.com") == "Demo"
    ensures DisplayName("ann@x@y") == "Ann"
    ensures DisplayName("@host") == ""
  {
    LocalPartUnique("demo@eduquest.com", "demo");
    LocalPartUnique("ann@x@y", "ann");
  }

  // ---------------------------------------------------------------------------
  // Screens

  /** The screen the app has been told to show. */
  datatype Screen = AuthScreen | DashboardScreen | ChapterScreen(chapterId: int) | AssignmentsScreen | ReviewScreen

  /** The page actually rendered. */
  datatype Page = AuthPage | DashboardPage | ChapterPage(chapterId: int) | AssignmentsPage | ReviewPage

  /** Without a user the authentication page is shown whatever the screen;
      with one, the screen decides, and the authentication screen falls to
      the default branch, which is the authentication page too. */
  function Render(user: Option<User>, screen: Screen): Page
  {
    if user.None? then AuthPage
    else match screen
      case DashboardScreen => DashboardPage
      case ChapterScreen(id) => ChapterPage(id)
      case AssignmentsScreen => AssignmentsPage
      case ReviewScreen => ReviewPage
      case AuthScreen => AuthPage
  }

  /** The authentication page is shown exactly when nobody is logged in or
      the screen is the authentication screen; otherwise the page is the
      one the screen names. */
  lemma RenderAuthExactly(user: Option<User>, screen: Screen)
    ensures Render(user, screen) == AuthPage <==> user.None? || screen == AuthScreen
    ensures user.Some? && screen.ChapterScreen? ==> Render(user, screen) == ChapterPage(screen.chapterId)
  {
  }

  /** The application's state: the logged-in user, if any, and the screen. */
  class EduQuest {
    var user: Option<User>
    var screen: Screen

    ghost predicate Valid()
      reads this
    {
      user.Some? ==> Consistent(user.value)
    }

    constructor ()
      ensures Valid() && user == None && screen == AuthScreen
    {
      user := None;
      screen := AuthScreen;
    }

    /** Logging in creates a level-1 profile named after the e-mail and
        opens the dashboard. The password is not checked. */
    method Login(email: string, password: string)
      modifies this
      ensures Valid()
      ensures user == Some(NewUser(DisplayName(email), email))
      ensures screen == DashboardScreen
    {
      var name := DisplayName(email);
      user := Some(User(name, email, 1, 0, 100, []));
      screen := DashboardScreen;
    }

    /** Signing up creates a level-1 profile with the given name and opens
        the dashboard. */
    method Signup(email: string, password: string, name: string)
      modifies this
      ensures Valid()
      ensures user == Some(NewUser(name, email))
      ensures screen == DashboardScreen
    {
      user := Some(User(name, email, 1, 0, 100, []));
      screen := DashboardScreen;
    }

    method Logout()
      modifies this
      ensures Valid() && user == None && screen == AuthScreen
    {
      user := None;
      screen := AuthScreen;
    }

    method SelectChapter(chapterId: int)
      modifies this
      ensures screen == ChapterScreen(chapterId) && user == old(user)
    {
      screen := ChapterScreen(chapterId);
    }

    method ViewAssignments()
      modifies this
      ensures screen == AssignmentsScreen && user == old(user)
    {
      screen := AssignmentsScreen;
    }

    method ViewReview()
      modifies this
      ensures screen == ReviewScreen && user == old(user)
    {
      screen := ReviewScreen;
    }

    /** Every page's back button returns to the dashboard. */
    method BackToDashboard()
      modifies this
      ensures screen == DashboardScreen && user == old(user)
    {
      screen := DashboardScreen;
    }

    /** Records a finished quiz. Without a user nothing happens; otherwise
        the profile becomes `CompleteQuiz` of the old one. `leveledUp` is
        the level-up notification. */
    method QuizComplete(quizId: int, score: int, xpEarned: int) returns (leveledUp: bool)
      requires Valid()
      modifies this
      ensures Valid()
      ensures user == if old(user).None? then None else Some(CompleteQuiz(old(user).value, score, xpEarned))
      ensures leveledUp <==> old(user).Some? && old(user).value.xp + xpEarned >= old(user).value.totalXp
      ensures screen == old(screen)
    {
      leveledUp := false;
      if user.None? {
        return;
      }
      var u := user.value;
      var newXp := u.xp + xpEarned;
      var newLevel := u.level;
      var newTotalXp := u.totalXp;
      var newBadges := u.badges;
      if newXp >= u.totalXp {
        newLevel := u.level + 1;
        newTotalXp := u.totalXp + newLevel * 100;
        leveledUp := true;
      }
      if score == 5 && PerfectScore !in newBadges {
        newBadges := newBadges + [PerfectScore];
      }
      if u.level == 1 && FirstSteps !in newBadges {
        newBadges := newBadges + [FirstSteps];
      }
      user := Some(u.(xp := newXp, level := newLevel, totalXp := newTotalXp, badges := newBadges));
      CompleteQuizConsistent(u, score, xpEarned);
    }

    /** Records a submitted assignment: 100 XP under the level rule. Without
        a user nothing happens. */
    method AssignmentSubmit(assignmentId: int) returns (leveledUp: bool)
      requires Valid()
      modifies this
      ensures Valid()
      ensures user == if old(user).None? then None else Some(SubmitAssignment(old(user).value))
      ensures leveledUp <==> old(user).Some? && old(user).value.xp + AssignmentXp >= old(user).value.totalXp
      ensures screen == old(screen)
    {
      var xpEarned := AssignmentXp;
      leveledUp := false;
      if user.None? {
        return;
      }
      var u := user.value;
      var newXp := u.xp + xpEarned;
      var newLevel := u.level;
      var newTotalXp := u.totalXp;
      if newXp >= u.totalXp {
        newLevel := u.level + 1;
        newTotalXp := u.totalXp + newLevel * 100;
        leveledUp := true;
      }
      user := Some(u.(xp := newXp, level := newLevel, totalXp := newTotalXp));
      ApplyXpConsistent(u, xpEarned);
    }
  }
}
