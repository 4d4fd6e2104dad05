/**
 * How a finished activity updates the user's progress record: experience
 * points, the streak counter and the two histories. Also the records a new
 * activity starts from, and the XP figure the result screen displays.
 */
module Rewards {
  import opened Types

  /** Every finished quiz earns this much, plus a bonus for each correct answer. */
  const QuizBaseXp: int := 20
  const XpPerCorrectAnswer: int := 10
  /** A finished course earns a flat reward, whatever its module results. */
  const CourseXp: int := 150

  /** The XP a quiz with `score` correct answers earns. */
  function QuizXp(score: int): (xp: int)
    ensures 0 <= score ==> QuizBaseXp <= xp
    ensures (xp - QuizBaseXp) % XpPerCorrectAnswer == 0
  {
    score * XpPerCorrectAnswer + QuizBaseXp
  }

  /** A quiz earns at least the base reward and at most the reward for all answers right. */
  lemma QuizXpRange(score: int, questionCount: nat)
    requires 0 <= score <= questionCount
    ensures QuizBaseXp <= QuizXp(score) <= questionCount * XpPerCorrectAnswer + QuizBaseXp
  {
  }

  /** The progress record a first visit starts with. */
  function DefaultUser(now: int): (u: UserState)
    ensures u.xp == 0 && u.streak == 0
    ensures u.completedQuizzes == [] && u.completedCourses == Some([])
    ensures u.lastLogin == now
  {
    UserState("Marmotte", 0, 0, [], Some([]), now)
  }

  /** A freshly generated quiz: its score starts at zero. */
  function NewQuiz(id: string, topic: string, difficulty: Difficulty, questions: seq<Question>, now: int): (q: Quiz)
    ensures q.score == Some(0) && q.questions == questions
    ensures q.topic == topic && q.difficulty == difficulty
  {
    Quiz(id, topic, difficulty, questions, now, Some(0))
  }

  /** A freshly generated course: nothing completed yet. */
  function NewCourse(id: string, topic: string, difficulty: Difficulty, modules: seq<Module>, now: int): (c: Course)
    ensures c.completedModules == [] && !c.isCompleted && c.modules == modules
    ensures c.topic == topic && c.difficulty == difficulty
  {
    Course(id, topic, difficulty, modules, now, [], false)
  }

  /** The course history, with an absent one (a record saved before it existed) read as empty. */
  function CourseHistory(u: UserState): (h: seq<Course>)
    ensures u.completedCourses.Some? ==> h == u.completedCourses.value
    ensures u.completedCourses.None? ==> h == []
  {
    u.completedCourses.GetOr([])
  }

  /** The quiz as it is stored once finished: the same quiz carrying its score. */
  function FinishedQuiz(quiz: Quiz, score: int): (q: Quiz)
    ensures q.score == Some(score)
    ensures q.(score := quiz.score) == quiz
  {
    quiz.(score := Some(score))
  }

  /**
   * Finishing a quiz: the XP grows by the quiz reward, the streak by one,
   * and the finished quiz is appended to the quiz history.
   */
  function CompleteQuiz(u: UserState, quiz: Quiz, score: int): (r: UserState)
    ensures r.xp - u.xp == QuizXp(score)
    ensures 0 <= score ==> r.xp > u.xp
    ensures r.streak == u.streak + 1
    ensures |r.completedQuizzes| == |u.completedQuizzes| + 1
    ensures r.completedQuizzes[..|u.completedQuizzes|] == u.completedQuizzes
    ensures r.completedQuizzes[|u.completedQuizzes|] == FinishedQuiz(quiz, score)
    ensures r.name == u.name && r.lastLogin == u.lastLogin && r.completedCourses == u.completedCourses
  {
    u.(xp := u.xp + QuizXp(score),
       completedQuizzes := u.completedQuizzes + [FinishedQuiz(quiz, score)],
       streak := u.streak + 1)
  }

  /**
   * Finishing a course: the XP grows by the flat course reward, the streak
   * by one, and the course, marked completed, is appended to the course
   * history (an absent history counts as empty).
   */
  function CompleteCourse(u: UserState, course: Course): (r: UserState)
    ensures r.xp - u.xp == CourseXp
    ensures r.streak == u.streak + 1
    ensures r.completedCourses.Some?
    ensures CourseHistory(r) == CourseHistory(u) + [course.(isCompleted := true)]
    ensures r.name == u.name && r.lastLogin == u.lastLogin && r.completedQuizzes == u.completedQuizzes
  {
    u.(xp := u.xp + CourseXp,
       completedCourses := Some(CourseHistory(u) + [course.(isCompleted := true)]),
       streak := u.streak + 1)
  }

  /** A record without course history is treated exactly like one with an empty history. */
  lemma LegacyCourseHistory(u: UserState, course: Course)
    ensures CompleteCourse(u.(completedCourses := None), course)
         == CompleteCourse(u.(completedCourses := Some([])), course)
  {
  }

  // ---------------------------------------------------------------------
  // Several activities in a row
  // ---------------------------------------------------------------------

  datatype Activity = QuizDone(quiz: Quiz, score: int) | CourseDone(course: Course)

  function Gain(a: Activity): int {
    match a
    case QuizDone(_, score) => QuizXp(score)
    case CourseDone(_) => CourseXp
  }

  function Apply(u: UserState, a: Activity): UserState {
    match a
    case QuizDone(quiz, score) => CompleteQuiz(u, quiz, score)
    case CourseDone(course) => CompleteCourse(u, course)
  }

  /** The record after the activities, finished in order. */
  function ApplyAll(u: UserState, acts: seq<Activity>): UserState
    decreases |acts|
  {
    if |acts| == 0 then u else ApplyAll(Apply(u, acts[0]), acts[1..])
  }

  function TotalGain(acts: seq<Activity>): int {
    if |acts| == 0 then 0 else Gain(acts[0]) + TotalGain(acts[1..])
  }

  /** The history entry an activity leaves: the quiz with its score, or the course marked completed. */
  function QuizEntry(a: Activity): seq<Quiz> {
    if a.QuizDone? then [FinishedQuiz(a.quiz, a.score)] else []
  }

  function CourseEntry(a: Activity): seq<Course> {
    if a.CourseDone? then [a.course.(isCompleted := true)] else []
  }

  /** The finished quizzes among the activities, in order, each with its score. */
  function QuizzesOf(acts: seq<Activity>): seq<Quiz> {
    if |acts| == 0 then [] else QuizEntry(acts[0]) + QuizzesOf(acts[1..])
  }

  /** The finished courses among the activities, in order, each marked completed. */
  function CoursesOf(acts: seq<Activity>): seq<Course> {
    if |acts| == 0 then [] else CourseEntry(acts[0]) + CoursesOf(acts[1..])
  }

  lemma ApplyEntries(u: UserState, a: Activity)
    ensures Apply(u, a).completedQuizzes == u.completedQuizzes + QuizEntry(a)
    ensures CourseHistory(Apply(u, a)) == CourseHistory(u) + CourseEntry(a)
  {
  }

  /**
   * After any sequence of finished activities the streak has grown by their
   * number and the XP by the sum of their rewards; name and login time are
   * untouched.
   */
  lemma {:induction false} ApplyAllTotals(u: UserState, acts: seq<Activity>)
    ensures ApplyAll(u, acts).streak == u.streak + |acts|
    ensures ApplyAll(u, acts).xp == u.xp + TotalGain(acts)
    ensures ApplyAll(u, acts).name == u.name && ApplyAll(u, acts).lastLogin == u.lastLogin
    decreases |acts|
  {
    if |acts| > 0 {
      ApplyAllTotals(Apply(u, acts[0]), acts[1..]);
    }
  }

  /** Each history grows by the activities of its kind, in the order they were finished. */
  lemma ApplyAllHistories(u: UserState, acts: seq<Activity>)
    ensures ApplyAll(u, acts).completedQuizzes == u.completedQuizzes + QuizzesOf(acts)
    ensures CourseHistory(ApplyAll(u, acts)) == CourseHistory(u) + CoursesOf(acts)
  {
    ApplyAllQuizHistory(u, acts);
    ApplyAllCourseHistory(u, acts);
  }

  lemma {:induction false} ApplyAllQuizHistory(u: UserState, acts: seq<Activity>)
    ensures ApplyAll(u, acts).completedQuizzes == u.completedQuizzes + QuizzesOf(acts)
    decreases |acts|
  {
    if |acts| > 0 {
      ApplyAllQuizHistory(Apply(u, acts[0]), acts[1..]);
      ApplyEntries(u, acts[0]);
      assert u.completedQuizzes + QuizEntry(acts[0]) + QuizzesOf(acts[1..])
          == u.completedQuizzes + (QuizEntry(acts[0]) + QuizzesOf(acts[1..]));
    }
  }

  lemma {:induction false} ApplyAllCourseHistory(u: UserState, acts: seq<Activity>)
    ensures CourseHistory(ApplyAll(u, acts)) == CourseHistory(u) + CoursesOf(acts)
    decreases |acts|
  {
    if |acts| > 0 {
      ApplyAllCourseHistory(Apply(u, acts[0]), acts[1..]);
      ApplyEntries(u, acts[0]);
      assert CourseHistory(u) + CourseEntry(acts[0]) + CoursesOf(acts[1..])
          == CourseHistory(u) + (CourseEntry(acts[0]) + CoursesOf(acts[1..]));
    }
  }

  predicate ScoresNonNegative(acts: seq<Activity>) {
    forall k :: 0 <= k < |acts| ==> (acts[k].QuizDone? ==> 0 <= acts[k].score)
  }

  /** With non-negative scores, XP never decreases over a sequence of activities. */
  lemma {:induction false} XpNeverDecreases(u: UserState, acts: seq<Activity>)
    requires ScoresNonNegative(acts)
    ensures ApplyAll(u, acts).xp >= u.xp + QuizBaseXp * |acts|
  {
    ApplyAllTotals(u, acts);
    TotalGainAtLeastBase(acts);
  }

  lemma {:induction false} TotalGainAtLeastBase(acts: seq<Activity>)
    requires ScoresNonNegative(acts)
    ensures TotalGain(acts) >= QuizBaseXp * |acts|
  {
    if |acts| > 0 {
      TotalGainAtLeastBase(acts[1..]);
    }
  }

  // ---------------------------------------------------------------------
  // The result screen
  // ---------------------------------------------------------------------

  /**
   * The XP the result screen shows: the course reward when the current
   * course is marked completed, otherwise the quiz reward for the current
   * quiz's score, a missing quiz or score counting as zero.
   */
  function ResultXp(currentQuiz: Option<Quiz>, currentCourse: Option<Course>): (xp: int)
    ensures currentCourse.Some? && currentCourse.value.isCompleted ==> xp == CourseXp
    ensures !(currentCourse.Some? && currentCourse.value.isCompleted) && currentQuiz.Some? && currentQuiz.value.score.Some?
      ==> xp == QuizXp(currentQuiz.value.score.value)
    ensures !(currentCourse.Some? && currentCourse.value.isCompleted) && (currentQuiz.None? || currentQuiz.value.score.None?)
      ==> xp == QuizBaseXp
  {
    var isCourse := currentCourse.Some? && currentCourse.value.isCompleted;
    var score := if currentQuiz.Some? then currentQuiz.value.score.GetOr(0) else 0;
    if isCourse then CourseXp else QuizXp(score)
  }
}
