/**
 * The course viewer: it shows a course one module at a time. Each module
 * has a reading screen and, when the module carries a question, a
 * one-question quiz. Finishing that quiz moves to the next module, or
 * completes the course on the last module.
 */
module CourseViewer {
  import opened Types

  datatype Mode = Reading | Quizzing

  /** What a module-quiz result leads to. */
  datatype Progress = NextModule(index: nat) | CourseCompleted

  /**
   * The module-quiz handler as the viewer states it: a passing score and a
   * failing score each advance to the next module or complete the course.
   */
  function ModuleQuizOutcome(index: nat, moduleCount: nat, score: int): (p: Progress)
    ensures p.CourseCompleted? <==> index == moduleCount - 1
    ensures p.NextModule? ==> p.index == index + 1
  {
    var isLastModule := index == moduleCount - 1;
    if score > 0 then
      (if isLastModule then CourseCompleted else NextModule(index + 1))
    else
      (if isLastModule then CourseCompleted else NextModule(index + 1))
  }

  /** The two branches coincide: the score never gates progress. */
  lemma ModuleQuizIgnoresScore(index: nat, moduleCount: nat, passed: int, failed: int)
    ensures ModuleQuizOutcome(index, moduleCount, passed) == ModuleQuizOutcome(index, moduleCount, failed)
  {
  }

  /** From a module inside the course, the outcome is the next module, or completion on the last one. */
  lemma ModuleQuizOutcomeStaysInCourse(index: nat, moduleCount: nat, score: int)
    requires index < moduleCount
    ensures var p := ModuleQuizOutcome(index, moduleCount, score);
      (p.CourseCompleted? <==> index == moduleCount - 1)
      && (p.NextModule? ==> p.index == index + 1 && p.index < moduleCount)
  {
  }

  class Viewer {
    const modules: seq<Module>
    var currentModuleIndex: nat
    var mode: Mode

    ghost predicate Valid()
      reads this
    {
      0 < |modules| && currentModuleIndex < |modules|
    }

    /** The quiz is on screen only in quiz mode and when the current module has a question. */
    predicate ShowsQuiz(): (shown: bool)
      requires Valid()
      reads this
      ensures shown ==> mode != Reading
    {
      mode == Quizzing && modules[currentModuleIndex].quiz.Some?
    }

    function IsLastModule(): bool
      reads this
    {
      currentModuleIndex == |modules| - 1
    }

    /** The viewer reads the current module's title on its first screen, so the course must have a module. */
    constructor (course: Course)
      requires 0 < |course.modules|
      ensures Valid()
      ensures modules == course.modules
      ensures currentModuleIndex == 0 && mode == Reading
    {
      modules := course.modules;
      currentModuleIndex := 0;
      mode := Reading;
    }

    /** "Take the quiz" on the reading screen. */
    method TakeQuiz()
      requires Valid()
      modifies this
      ensures Valid()
      ensures mode == Quizzing && currentModuleIndex == old(currentModuleIndex)
      ensures ShowsQuiz() <==> modules[currentModuleIndex].quiz.Some?
    {
      mode := Quizzing;
    }

    /** Leaving the module quiz goes back to reading the same module. */
    method ExitQuiz()
      requires Valid() && ShowsQuiz()
      modifies this
      ensures Valid()
      ensures mode == Reading && currentModuleIndex == old(currentModuleIndex)
    {
      mode := Reading;
    }

    /**
     * The module quiz reports its score. `courseComplete` stands for the
     * call to the course-completion callback, which leaves the viewer's
     * state as it is.
     */
    method HandleModuleQuizComplete(score: int) returns (courseComplete: bool)
      requires Valid() && ShowsQuiz()
      modifies this
      ensures Valid()
      ensures courseComplete <==> old(currentModuleIndex) == |modules| - 1
      ensures courseComplete ==>
        currentModuleIndex == old(currentModuleIndex) && mode == old(mode)
        && ModuleQuizOutcome(old(currentModuleIndex), |modules|, score) == CourseCompleted
      ensures !courseComplete ==>
        currentModuleIndex == old(currentModuleIndex) + 1 && mode == Reading
        && ModuleQuizOutcome(old(currentModuleIndex), |modules|, score) == NextModule(currentModuleIndex)
    {
      if score > 0 {
        if IsLastModule() {
          courseComplete := true;
        } else {
          currentModuleIndex := currentModuleIndex + 1;
          mode := Reading;
          courseComplete := false;
        }
      } else {
        if IsLastModule() {
          courseComplete := true;
        } else {
          currentModuleIndex := currentModuleIndex + 1;
          mode := Reading;
          courseComplete := false;
        }
      }
    }
  }
}
