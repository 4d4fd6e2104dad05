/**
 * The app shell: which screen is shown, the user's progress record, and
 * the quiz or course in progress. Starting an activity leaves the home
 * screen. Finishing it merges the reward into the record and shows the
 * result screen. "Continue" returns home.
 */
module Session {
  import opened Types
  import opened Rewards

  /**
   * The course-completion handler as written, reduced to what it assigns:
   * the merged progress record, and the current course, which it leaves
   * as it was (still not marked completed).
   */
  function CourseCompletionAsWritten(u: UserState, currentCourse: Option<Course>): (r: (UserState, Option<Course>))
    ensures currentCourse.None? ==> r == (u, None)
    ensures currentCourse.Some? ==> r.0 == CompleteCourse(u, currentCourse.value) && r.1 == currentCourse
  {
    match currentCourse
    case None => (u, None)
    case Some(c) => (CompleteCourse(u, c), currentCourse)
  }

  /**
   * As written, the result screen after a course shows the reward of a quiz
   * with no correct answer (20 XP) while the record was credited 150 XP: the
   * course it inspects was never marked completed. The quiz it reads instead
   * is missing, or one left midway, which still has its starting score.
   */
  lemma CourseResultAsWrittenShowsQuizXp(u: UserState, course: Course, currentQuiz: Option<Quiz>)
    requires !course.isCompleted
    requires currentQuiz.Some? ==> currentQuiz.value.score.None? || currentQuiz.value.score == Some(0)
    ensures var (r, shown) := CourseCompletionAsWritten(u, Some(course));
      r.xp - u.xp == CourseXp && ResultXp(currentQuiz, shown) == QuizBaseXp && ResultXp(currentQuiz, shown) != r.xp - u.xp
  {
  }

  /**
   * The course-completion handler with the current course replaced by its
   * completed copy, so the result screen recognises a finished course.
   */
  function CourseCompletion(u: UserState, currentCourse: Option<Course>): (r: (UserState, Option<Course>))
    ensures currentCourse.None? ==> r == (u, None)
    ensures currentCourse.Some? ==>
      && r.0 == CompleteCourse(u, currentCourse.value)
      && r.1 == Some(currentCourse.value.(isCompleted := true))
  {
    match currentCourse
    case None => (u, None)
    case Some(c) => (CompleteCourse(u, c), Some(c.(isCompleted := true)))
  }

  /** With the correction, the result screen shows exactly the XP the course earned, whatever quiz is current. */
  lemma CourseResultShowsCourseXp(u: UserState, course: Course, currentQuiz: Option<Quiz>)
    ensures var (r, shown) := CourseCompletion(u, Some(course));
      ResultXp(currentQuiz, shown) == CourseXp == r.xp - u.xp
  {
  }

  /** A quiz whose recorded score lies between 0 and its number of questions. */
  predicate ScoreWithinQuestions(q: Quiz) {
    q.score.Some? && 0 <= q.score.value <= |q.questions|
  }

  class App {
    var view: AppView
    var user: UserState
    var currentQuiz: Option<Quiz>
    var currentCourse: Option<Course>
    /** The XP credited by the last finished activity. */
    ghost var lastGain: int
    /** The last finished activity was a course, completed by the handler as written. */
    ghost var courseLeftUnmarked: bool

    /**
     * A course is marked completed only on the result screen; outside it, a
     * current quiz still has its starting score; every quiz in the history
     * has a score within its number of questions. The result screen shows
     * the XP the last activity earned, except after a course completed by
     * the handler as written, where it shows 20 for a credit of 150.
     */
    ghost predicate Valid()
      reads this
    {
      && (currentCourse.Some? && currentCourse.value.isCompleted ==> view == ResultView)
      && (view != ResultView && currentQuiz.Some? ==> currentQuiz.value.score == Some(0))
      && (forall k :: 0 <= k < |user.completedQuizzes| ==> ScoreWithinQuestions(user.completedQuizzes[k]))
      && (view == ResultView && !courseLeftUnmarked ==> ShownXp() == lastGain)
      && (view == ResultView && courseLeftUnmarked ==> ShownXp() == QuizBaseXp && lastGain == CourseXp)
    }

    /** The XP shown on the result screen. */
    function ShownXp(): int
      reads this
    {
      ResultXp(currentQuiz, currentCourse)
    }

    constructor (now: int)
      ensures Valid()
      ensures view == Home && user == DefaultUser(now)
      ensures currentQuiz == None && currentCourse == None
    {
      view := Home;
      user := DefaultUser(now);
      currentQuiz := None;
      currentCourse := None;
      lastGain := 0;
      courseLeftUnmarked := false;
    }

    /**
     * The home screen's start button in quiz mode. `generated` is what the
     * question generator returned; None stands for a thrown error, which is
     * reported and changes nothing.
     */
    method StartQuiz(generated: Option<seq<Question>>, id: string, topic: string, difficulty: Difficulty, now: int)
      requires Valid() && view == Home
      modifies this
      ensures Valid()
      ensures generated.None? ==> view == Home && currentQuiz == old(currentQuiz)
      ensures generated.Some? ==>
        view == QuizView && currentQuiz == Some(NewQuiz(id, topic, difficulty, generated.value, now))
      ensures user == old(user) && currentCourse == old(currentCourse)
    {
      if generated.Some? {
        currentQuiz := Some(NewQuiz(id, topic, difficulty, generated.value, now));
        view := QuizView;
      }
    }

    /** The home screen's start button in course mode; as for quizzes, None is a thrown error. */
    method StartCourse(generated: Option<seq<Module>>, id: string, topic: string, difficulty: Difficulty, now: int)
      requires Valid() && view == Home
      modifies this
      ensures Valid()
      ensures generated.None? ==> view == Home && currentCourse == old(currentCourse)
      ensures generated.Some? ==>
        view == CourseView && currentCourse == Some(NewCourse(id, topic, difficulty, generated.value, now))
      ensures user == old(user) && currentQuiz == old(currentQuiz)
    {
      if generated.Some? {
        currentCourse := Some(NewCourse(id, topic, difficulty, generated.value, now));
        view := CourseView;
      }
    }

    /**
     * The quiz runner reports the final score, which it keeps between 0 and
     * the number of questions. Without a current quiz nothing happens;
     * otherwise the reward is merged, the quiz keeps its score and the
     * result screen shows what was earned.
     */
    method HandleQuizComplete(score: int)
      requires Valid() && view == QuizView
      requires currentQuiz.Some? ==> 0 <= score <= |currentQuiz.value.questions|
      modifies this
      ensures Valid()
      ensures old(currentQuiz).None? ==>
        view == old(view) && user == old(user) && currentQuiz == None && currentCourse == old(currentCourse)
      ensures old(currentQuiz).Some? ==>
        && user == CompleteQuiz(old(user), old(currentQuiz).value, score)
        && currentQuiz == Some(FinishedQuiz(old(currentQuiz).value, score))
        && ScoreWithinQuestions(currentQuiz.value)
        && currentCourse == old(currentCourse)
        && view == ResultView
        && ShownXp() == QuizXp(score) == user.xp - old(user.xp)
    {
      if currentQuiz.None? {
        return;
      }
      var finalQuiz := FinishedQuiz(currentQuiz.value, score);
      user := CompleteQuiz(user, currentQuiz.value, score);
      currentQuiz := Some(finalQuiz);
      view := ResultView;
      lastGain := QuizXp(score);
      courseLeftUnmarked := false;
    }

    /**
     * The course viewer reports completion, handled as the app does it.
     * Without a current course nothing happens; otherwise the flat reward
     * is merged and the result screen opens, but the current course stays
     * unmarked, so the screen shows 20 XP where 150 were credited.
     */
    method HandleCourseComplete()
      requires Valid() && view == CourseView
      modifies this
      ensures Valid()
      ensures (user, currentCourse) == CourseCompletionAsWritten(old(user), old(currentCourse))
      ensures currentQuiz == old(currentQuiz)
      ensures old(currentCourse).None? ==> view == old(view)
      ensures old(currentCourse).Some? ==>
        && view == ResultView
        && user.xp - old(user.xp) == CourseXp
        && ShownXp() == QuizBaseXp
        && ShownXp() != user.xp - old(user.xp)
    {
      if currentCourse.None? {
        return;
      }
      var (u, c) := CourseCompletionAsWritten(user, currentCourse);
      user := u;
      currentCourse := c;
      view := ResultView;
      lastGain := CourseXp;
      courseLeftUnmarked := true;
    }

    /**
     * The course-completion handler with the correction from `CourseCompletion`:
     * the completed course becomes current, and the result screen shows the
     * course reward, exactly the XP credited.
     */
    method HandleCourseCompleteCorrected()
      requires Valid() && view == CourseView
      modifies this
      ensures Valid()
      ensures (user, currentCourse) == CourseCompletion(old(user), old(currentCourse))
      ensures currentQuiz == old(currentQuiz)
      ensures old(currentCourse).None? ==> view == old(view)
      ensures old(currentCourse).Some? ==>
        view == ResultView && ShownXp() == CourseXp == user.xp - old(user.xp)
    {
      if currentCourse.None? {
        return;
      }
      var (u, c) := CourseCompletion(user, currentCourse);
      user := u;
      currentCourse := c;
      view := ResultView;
      lastGain := CourseXp;
      courseLeftUnmarked := false;
    }

    /** "Continue" on the result screen: forget the activity and go home. */
    method Continue()
      requires Valid() && view == ResultView
      modifies this
      ensures Valid()
      ensures view == Home && currentQuiz == None && currentCourse == None && user == old(user)
    {
      currentQuiz := None;
      currentCourse := None;
      view := Home;
    }

    /** Leaving a quiz or a course midway: back home, nothing credited. */
    method Exit()
      requires Valid() && (view == QuizView || view == CourseView)
      modifies this
      ensures Valid()
      ensures view == Home && user == old(user)
      ensures currentQuiz == old(currentQuiz) && currentCourse == old(currentCourse)
    {
      view := Home;
    }
  }
}
