# Learning session progression and rewards, in Dafny

This project models the logic of a gamified programming-lesson app. A user
starts a five-question quiz or a three-module course on a topic. The quiz
runner walks through the questions and scores the checked answers. The
course viewer alternates between reading a module and taking its
one-question quiz. The app shell merges each finished activity into the
user's progress record: experience points (XP), a streak counter, and the
quiz and course histories. It then shows a result screen. The lesson text
of a course module is a small markup dialect, read by a line-and-fence
parser.

Modules, one per source component:

- `Types` (`Types.dfy`): the records from `types.ts`. `Quiz.score` and
  `UserState.completedCourses` are `Option`s. An absent course history is
  how records saved before that field existed look.
- `QuizRunner` (`QuizRunner.dfy`): class `Runner` with the five state
  fields of the quiz component, and one method per user action. A ghost
  sequence `answers` records the option checked for each question.
  `Valid()` ties `score` to the number of correct entries in it.
- `Markdown` (`Markdown.dfy`): the lesson parser as pure functions over
  strings, producing a sequence of `Block`s.
- `CourseViewer` (`CourseViewer.dfy`): class `Viewer` with the module
  index and the reading/quiz mode.
- `Rewards` (`Rewards.dfy`): the record updates the app performs on
  completion, the records a new activity starts from, and the XP figure the
  result screen displays.
- `Session` (`Session.dfy`): class `App` with the screen, the progress
  record and the current quiz and course. Its handlers follow the app as
  written. Its `Valid()` says that after a quiz the result screen shows the
  XP just earned. After a course it shows 20 XP for a credit of 150 (see
  "## Findings"). A separate handler, `HandleCourseCompleteCorrected`,
  applies the fix, and with it the screen shows the 150 XP credited.

Modelling choices:

- React state setters are sequential assignments. `setScore(s => s + 1)`
  is `score := score + 1`.
- `score + (isCorrect ? 0 : 0)` in the quiz component is just `score`.
- Identifiers and timestamps (`Date.now()`) are opaque parameters.
- A failed content generation, where the generator throws, is an
  `Option` parameter. `None` means the error was reported and nothing
  changed.
- Handler preconditions say which screen the handler's button is on. They
  add what the caller guarantees: the runner's score range for
  `HandleQuizComplete`, and an option index taken from the rendered list
  for `SelectOption`. For example, the quiz-completion handler is only
  reachable from the quiz screen, and "continue" only from the result
  screen.
- `CheckAnswer` is only called by the main button while the answer is
  unchecked, and `NextQuestion` only once it is checked. `PressMainButton`
  models that dispatch, including the disabled state.
- The course viewer reads the current module's title on its first screen.
  It therefore requires a course with at least one module. The quiz runner
  likewise requires at least one question.
- `types.ts:23` declares `score?` as added after completion, but
  `startActivity` sets `score: 0` (`App.tsx:56`). The model follows the code.

## Model

| member | source | states |
|---|---|---|
| `QuizRunner.CorrectCount` | components/QuizComponent.tsx:26-30 | The number of checked answers that match their question's correct index never exceeds the number of checked answers. It equals that number exactly when every answer is right. |
| `QuizRunner.CorrectCountAppend` | components/QuizComponent.tsx:26-31 | Checking one more answer raises the correct count by 1 if it matches the correct index and by 0 otherwise. |
| `QuizRunner.Runner.constructor` | components/QuizComponent.tsx:15-19 | A quiz starts at question 0, with no selection, not checked, not correct and score 0. |
| `QuizRunner.Runner.SelectOption` | components/QuizComponent.tsx:87 | Clicking an option records it only while the answer is unchecked. Once checked, nothing changes. |
| `QuizRunner.Runner.CheckAnswer` | components/QuizComponent.tsx:24-32 | With no selection, every field is unchanged. Otherwise the answer becomes checked, `isCorrect` holds iff the selection equals the correct index, and the score rises by exactly 1 when correct, 0 otherwise. The index stays in range and the score never exceeds the questions checked so far, nor the total. |
| `QuizRunner.Runner.NextQuestion` | components/QuizComponent.tsx:34-43 | Before the last question: the index moves up by exactly 1, the selection and checked flag are cleared, and the score is unchanged. On the last question: the current score is reported and no state changes. |
| `QuizRunner.Runner.MainButtonEnabled` | components/QuizComponent.tsx:127 | The main button is disabled only with nothing selected and nothing checked; once the answer is checked it is always enabled. `PressMainButton` states what each enabled press does. |
| `QuizRunner.Runner.PressMainButton` | components/QuizComponent.tsx:127-128 | The button does nothing with no selection and nothing checked. Otherwise, before checking, it checks: the selection is kept and recorded, `isCorrect` holds iff it equals the correct index, and the score rises by 1 exactly then. Once checked, it advances: before the last question the index rises by 1 and the selection and checked flag clear, and on the last question the score is reported and nothing changes. A reported score never exceeds the number of questions. |
| `Markdown.IsSpace` | components/CourseViewer.tsx:34 | The characters `trim()` removes: the ECMAScript white space and line terminators. None of them is a word character, a backtick, `#` or `-`. |
| `Markdown.IsBlank` | components/CourseViewer.tsx:34 | A line that trims to empty; the empty line is blank, and a blank line cannot start a heading, a bullet or a fence. |
| `Markdown.FindFence` | components/CourseViewer.tsx:19 | Returns the first position at or after the start where three backticks begin, or none if there is none. |
| `Markdown.SplitFences` | components/CourseViewer.tsx:19 | The split on the fence pattern, keeping the matches, always has an odd number of segments. `SplitFencesShape` and `SplitAtFirstSegment` state what the segments are. |
| `Markdown.FirstMatch` | components/CourseViewer.tsx:19 | The first match of the fence pattern is a fenced segment preceded by fence-free text, and together with the rest it rebuilds the text. |
| `Markdown.SplitFencesShape` | components/CourseViewer.tsx:19 | Concatenating the segments of the split gives back the text. Segments alternate plain and fenced, starting and ending plain. Each fenced segment is fence, fence-free text, fence. Every plain segment but the last has no fence. |
| `Markdown.SplitFencesNoFence` | components/CourseViewer.tsx:19 | Text without a fence is a single plain segment. |
| `Markdown.SplitAtFirstSegment` | components/CourseViewer.tsx:19 | Fence-free text, then a fenced segment, then anything, splits into that text, that segment and the split of the rest. |
| `Markdown.WordEnd` | components/CourseViewer.tsx:25 | Returns the end of the maximal run of word characters (`\w`) from a position. |
| `Markdown.FenceHeaderLen` | components/CourseViewer.tsx:25 | The opening header is the fence, then a maximal word-character language tag, then at most one newline, as the first `replace` matches it. |
| `Markdown.StripFence` | components/CourseViewer.tsx:24-25 | The code of a segment starting with a fence is exactly what lies between the header and a closing fence at the very end, if one is there. |
| `Markdown.FencedSegmentCode` | components/CourseViewer.tsx:24-25 | For a segment matched as fenced, the header never reaches the closing fence, and the closing fence is always removed. |
| `Markdown.SplitLines` | components/CourseViewer.tsx:34 | Splitting on newlines gives at least one piece, no piece contains a newline, and joining the pieces with newlines gives back the text. |
| `Markdown.NonBlankLines` | components/CourseViewer.tsx:34 | Keeps exactly the lines that do not trim to empty: every kept line is a non-blank input line, and every non-blank input line is kept. It keeps all lines when none is blank and none when all are. |
| `Markdown.NonBlankLinesAppend` | components/CourseViewer.tsx:34 | Filtering two runs of lines in a row gives the filtered first run followed by the filtered second, so the kept lines stay in input order. |
| `Markdown.ClassifyLine` | components/CourseViewer.tsx:36-49 | A line is a heading iff it starts with `### `, `## ` or `# `, tested in that order. It is a bullet on `- `, and otherwise a paragraph, unchanged. The block's marker followed by its text is exactly the original line, so exactly the matched prefix is removed. |
| `Markdown.ClassifyLines` | components/CourseViewer.tsx:36-50 | Classifies each line in place, keeping order and count. |
| `Markdown.ClassifyLinesRoundTrip` | components/CourseViewer.tsx:36-49 | Turning classified lines back into markup lines gives the original lines. |
| `Markdown.PlainBlocks` | components/CourseViewer.tsx:33-50 | No block from a plain segment is code, blank or multi-line. |
| `Markdown.PlainBlocksLines` | components/CourseViewer.tsx:34-50 | The blocks of a plain segment, read back as lines, are exactly its non-blank lines in their original order. |
| `Markdown.RenderPart` | components/CourseViewer.tsx:24-50 | A segment starting with a fence becomes exactly one code block; any other segment becomes only non-code blocks, each for a non-blank line. |
| `Markdown.RenderParts` | components/CourseViewer.tsx:23-51 | Every non-code block rendered from the segments stands for a single non-blank line. |
| `Markdown.Render` | components/CourseViewer.tsx:14-54 | Every non-code block of a lesson stands for a single non-blank line. |
| `Markdown.RenderWithoutFences` | components/CourseViewer.tsx:19-50 | A lesson without fences renders as its non-blank lines, classified, in order. |
| `Markdown.RenderFirstFencedSegment` | components/CourseViewer.tsx:19-50 | A lesson made of fence-free text, a fenced segment and a rest renders as the text's blocks, one code block for the segment, then the rest's blocks, in that order. |
| `CourseViewer.ModuleQuizOutcome` | components/CourseViewer.tsx:63-92 | The module-quiz handler's outcome: course completion exactly on the last module, otherwise the next module index. |
| `CourseViewer.ModuleQuizIgnoresScore` | components/CourseViewer.tsx:63-92 | The passing and failing branches of the module-quiz handler give the same outcome for any two scores. |
| `CourseViewer.ModuleQuizOutcomeStaysInCourse` | components/CourseViewer.tsx:60-92 | From a module in the course, the outcome is course completion iff the module is the last. Otherwise it is the next module, which is still in the course. |
| `CourseViewer.Viewer.constructor` | components/CourseViewer.tsx:56-58 | A course view starts at module 0 in reading mode. |
| `CourseViewer.Viewer.ShowsQuiz` | components/CourseViewer.tsx:94 | The module quiz is on screen only in quiz mode, and only for a module that has a question; `TakeQuiz` states the equivalence. |
| `CourseViewer.Viewer.TakeQuiz` | components/CourseViewer.tsx:94-136 | "Take the quiz" switches to quiz mode on the same module. The quiz is shown iff the module has a question. |
| `CourseViewer.Viewer.ExitQuiz` | components/CourseViewer.tsx:99 | Leaving the module quiz returns to reading without changing the module index. |
| `CourseViewer.Viewer.HandleModuleQuizComplete` | components/CourseViewer.tsx:63-92 | For any score: on the last module, course completion is signalled and nothing changes. Otherwise the index rises by 1 and the mode returns to reading. The index stays within the modules. |
| `Rewards.QuizXp` | App.tsx:86 | The quiz reward is the base 20 plus a multiple of 10, and at least 20 for a non-negative score. |
| `Rewards.QuizXpRange` | App.tsx:86 | A quiz with score 0..n earns between 20 and 10n+20 XP. |
| `Rewards.DefaultUser` | App.tsx:13-20 | The first progress record has 0 XP, streak 0 and empty histories. |
| `Rewards.NewQuiz` | App.tsx:50-57 | A new quiz carries the generated questions, topic and difficulty, and score 0. |
| `Rewards.NewCourse` | App.tsx:63-71 | A new course carries the generated modules, topic and difficulty, no completed modules and `isCompleted` false. |
| `Rewards.CourseHistory` | App.tsx:108 | The course history as the completion handler reads it: the stored list, or the empty list when the field is absent. |
| `Rewards.FinishedQuiz` | App.tsx:85 | The finished quiz is the same quiz with its score set. |
| `Rewards.CompleteQuiz` | App.tsx:83-93 | XP rises by exactly `score*10+20`, so it increases for any non-negative score, and the streak rises by 1. The finished quiz is appended after the unchanged earlier entries. Name, login time and course history are unchanged. |
| `Rewards.CompleteCourse` | App.tsx:99-110 | XP rises by exactly 150 and the streak by 1. The course, marked completed, is appended to the course history, an absent history counting as empty. The quiz history is unchanged. |
| `Rewards.LegacyCourseHistory` | App.tsx:108 | Completing a course on a record without course history gives the same record as on one with an empty history. |
| `Rewards.ApplyAllTotals` | App.tsx:83-110 | After any sequence of finished activities, the streak has grown by their number and the XP by the sum of their rewards. Name and login time are unchanged. |
| `Rewards.ApplyAllHistories` | App.tsx:83-110 | After any sequence of finished activities, each history has grown by exactly the activities of its kind, in order. |
| `Rewards.XpNeverDecreases` | App.tsx:86-92 | With non-negative scores, XP after n activities is at least the old XP plus 20n. |
| `Rewards.ResultXp` | App.tsx:194-198 | The result screen shows 150 when the current course is marked completed. Otherwise it shows `score*10+20` for the current quiz's score, a missing quiz or score counting as 0. |
| `Session.CourseCompletionAsWritten` | App.tsx:99-113 | The course handler as written merges the reward but leaves the current course unmarked. |
| `Session.CourseResultAsWrittenShowsQuizXp` | App.tsx:99-113 | As written, after a course the user is credited 150 XP but the result screen shows 20. This holds with no current quiz, and with a quiz left midway, which still has its starting score. |
| `Session.CourseCompletion` | App.tsx:99-113 | The corrected course handler merges the reward and marks the current course completed. Without a current course it changes nothing. |
| `Session.CourseResultShowsCourseXp` | App.tsx:194-198 | With the correction, the result screen after a course shows 150, exactly the XP credited, whatever quiz is current. |
| `Session.App.constructor` | App.tsx:12-26 | The app starts on the home screen with the default record and no current quiz or course. |
| `Session.App.StartQuiz` | App.tsx:43-59 | A generated quiz becomes current, with score 0, and the quiz screen opens. A thrown error changes nothing; only a missing API key throws. Errors the generator catches come back as its fallback content, which opens the screen like any other result. |
| `Session.App.StartCourse` | App.tsx:60-80 | A generated course becomes current, not completed, and the course screen opens. A thrown error changes nothing; only a missing API key throws. Errors the generator catches come back as its fallback content, which opens the screen like any other result. |
| `Session.App.HandleQuizComplete` | App.tsx:83-97 | Without a current quiz nothing changes. Otherwise the record is updated by the quiz reward, the quiz keeps its score, the result screen opens, and it shows exactly the XP gained. The runner's score lies between 0 and the number of questions, so every quiz in the history has its score in that range. |
| `Session.App.HandleCourseComplete` | App.tsx:99-113 | As written: without a current course nothing changes. Otherwise the record gains 150 XP and the course, and the result screen opens. The current course is left unmarked, so the screen shows 20 XP, not the 150 gained. |
| `Session.App.HandleCourseCompleteCorrected` | App.tsx:99-113 | The corrected handler: the completed course also becomes current, and the result screen shows 150, exactly the XP gained. |
| `Session.App.Continue` | App.tsx:218-222 | "Continue" clears the current quiz and course and returns home, keeping the record. |
| `Session.App.Exit` | App.tsx:236-243 | Leaving a quiz or course returns home with nothing credited. |

## Left out

- Loading and saving the progress record (`App.tsx:32-41`) is left out: `localStorage` and JSON serialisation are I/O through a library not shown. The model keeps the in-memory record only.
- The content generator (`services/geminiService.ts`) is a network client. The model only sees what it returns or that it threw. Its built-in fallback question and its empty-module fallback are not modelled as constants.
- The loading flag, loading message, `alert` and `console.error` of `startActivity` are left out: they are presentation and I/O.
- The home screen's topic, difficulty and quiz/course toggle are left out as state. They appear as the parameters of `StartQuiz` and `StartCourse`.
- The `HISTORY` screen is declared in `types.ts` but never entered by `App.tsx`, so there is nothing to model.
- The app shell is not linked to the quiz runner as objects. `Session.App.HandleQuizComplete` requires the score range that `QuizRunner.Runner.PressMainButton` guarantees for a runner over the current quiz's questions.
- The course viewer receives the module-quiz score as a number. The one-question runner it shows is `QuizRunner.Runner` over that single question, whose score is at most 1, but the two objects are not linked in the model.
- The behaviour on an empty question list or an empty module list is left out. The components would dereference a missing element, so the runner and the viewer require a non-empty list instead.
- Rendering (JSX elements, class names, the progress bar's percentage, option colouring, icons, the mascot, the XP counter) is left out. The markdown output is a `Block` sequence, and heading levels 1 to 3 stand for the `h2` to `h4` elements the source emits.
- JavaScript strings are UTF-16 code units, while Dafny characters are Unicode scalar values. The only characters the parser tests (backticks, `#`, `-`, space, newline, word and space characters) are all in the Basic Multilingual Plane.
- `completedModules` of a course is never updated by the source, so the model never updates it either.

## Findings

| source | as written | input that shows it | evidently intended | confidence | as-written member | corrected member |
|---|---|---|---|---|---|---|
| App.tsx:99-113 | `handleCourseComplete` marks only a copy of the course as completed, for the history. It never stores that copy as the current course, so `renderResult` (App.tsx:195) sees an uncompleted course and shows the quiz formula with score 0. | Start any course from home and finish its last module. The record gains 150 XP, but the result screen shows "+20" and the quiz layout. | Store the completed course as the current one, so that the result screen shows the course layout and +150. | high, not executed | `Session.CourseResultAsWrittenShowsQuizXp` | `Session.CourseResultShowsCourseXp` |
