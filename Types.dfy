/**
 * The records of the learning app: questions, quizzes, course modules,
 * courses, the user's progress record and the top-level screens.
 * Identifiers and timestamps are opaque values supplied by the caller.
 */
module Types {

  /** A value that may be absent (`undefined` / `null` in the app). */
  datatype Option<+T> = None | Some(value: T) {
    function GetOr(default: T): T {
      match this
      case Some(v) => v
      case None => default
    }
  }

  /** The three difficulty levels offered on the home screen. */
  datatype Difficulty = Easy | Medium | Hard

  /** One multiple-choice question; `correctAnswerIndex` indexes `options`. */
  datatype Question = Question(
    id: string,
    text: string,
    codeSnippet: Option<string>,
    options: seq<string>,
    correctAnswerIndex: int,
    explanation: string,
    topic: string)

  /** A quiz; `score` is filled in when the quiz is completed. */
  datatype Quiz = Quiz(
    id: string,
    topic: string,
    difficulty: Difficulty,
    questions: seq<Question>,
    dateGenerated: int,
    score: Option<int>)

  /** The lesson of a module: markdown text and an optional code excerpt. */
  datatype CourseContent = CourseContent(text: string, codeSnippet: Option<string>)

  /** A course module with its optional one-question validation quiz. */
  datatype Module = Module(
    id: string,
    title: string,
    content: CourseContent,
    quiz: Option<Question>)

  datatype Course = Course(
    id: string,
    topic: string,
    difficulty: Difficulty,
    modules: seq<Module>,
    dateGenerated: int,
    completedModules: seq<string>,
    isCompleted: bool)

  /**
   * The persisted progress record. `completedCourses` is absent on records
   * saved before course history existed.
   */
  datatype UserState = UserState(
    name: string,
    xp: int,
    streak: int,
    completedQuizzes: seq<Quiz>,
    completedCourses: Option<seq<Course>>,
    lastLogin: int)

  /** The screens of the app. */
  datatype AppView = Home | QuizView | ResultView | HistoryView | CourseView
}
