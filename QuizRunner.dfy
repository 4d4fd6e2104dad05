/**
 * The quiz runner: it walks through a list of questions, one at a time.
 * For each question the user picks an option, checks it, then advances.
 * On the last question, advancing reports the score to the caller.
 */
module QuizRunner {
  import opened Types

  /** How many of the given answers pick the correct option of their question. */
  function CorrectCount(questions: seq<Question>, answers: seq<int>): (r: nat)
    requires |answers| <= |questions|
    ensures r <= |answers|
    ensures r == |answers| <==> forall k :: 0 <= k < |answers| ==> answers[k] == questions[k].correctAnswerIndex
  {
    if |answers| == 0 then 0
    else
      var last := |answers| - 1;
      CorrectCount(questions, answers[..last])
        + (if answers[last] == questions[last].correctAnswerIndex then 1 else 0)
  }

  /** Appending one answer raises the count by one exactly when that answer is correct. */
  lemma {:induction false} CorrectCountAppend(questions: seq<Question>, answers: seq<int>, a: int)
    requires |answers| < |questions|
    ensures CorrectCount(questions, answers + [a])
         == CorrectCount(questions, answers) + (if a == questions[|answers|].correctAnswerIndex then 1 else 0)
  {
    assert (answers + [a])[..|answers|] == answers;
  }

  class Runner {
    const questions: seq<Question>
    var currentQuestionIndex: nat
    var selectedOption: Option<int>
    var isAnswerChecked: bool
    var isCorrect: bool
    var score: nat
    /** The option checked for each question answered so far, in order. */
    ghost var answers: seq<int>

    /** Questions whose answer has been checked so far. */
    function Checked(): nat
      reads this
    {
      currentQuestionIndex + (if isAnswerChecked then 1 else 0)
    }

    ghost predicate Valid()
      reads this
    {
      && 0 < |questions|
      && currentQuestionIndex < |questions|
      && |answers| == Checked()
      && score == CorrectCount(questions, answers)
      && (isAnswerChecked ==>
            && selectedOption == Some(answers[currentQuestionIndex])
            && isCorrect == (answers[currentQuestionIndex] == questions[currentQuestionIndex].correctAnswerIndex))
    }

    /** The main button is disabled when nothing is selected and nothing is checked. */
    predicate MainButtonEnabled(): (enabled: bool)
      reads this
      ensures isAnswerChecked ==> enabled
    {
      selectedOption.Some? || isAnswerChecked
    }

    constructor (questions: seq<Question>)
      requires 0 < |questions|
      ensures Valid()
      ensures this.questions == questions
      ensures currentQuestionIndex == 0 && selectedOption == None
      ensures !isAnswerChecked && !isCorrect && score == 0
    {
      this.questions := questions;
      currentQuestionIndex := 0;
      selectedOption := None;
      isAnswerChecked := false;
      isCorrect := false;
      score := 0;
      answers := [];
    }

    /** Clicking an option records it, unless the answer is already checked. */
    method SelectOption(idx: nat)
      requires Valid()
      requires idx < |questions[currentQuestionIndex].options|
      modifies this
      ensures Valid()
      ensures old(isAnswerChecked) ==> selectedOption == old(selectedOption)
      ensures !old(isAnswerChecked) ==> selectedOption == Some(idx)
      ensures currentQuestionIndex == old(currentQuestionIndex) && isAnswerChecked == old(isAnswerChecked)
      ensures isCorrect == old(isCorrect) && score == old(score) && answers == old(answers)
    {
      if !isAnswerChecked {
        selectedOption := Some(idx);
      }
    }

    /**
     * Checks the selected option against the current question. With no
     * selection nothing happens. Only the main button calls this, and only
     * while the answer is not yet checked.
     */
    method CheckAnswer()
      requires Valid()
      requires !isAnswerChecked
      modifies this
      ensures Valid()
      ensures score <= Checked() <= |questions|
      ensures old(selectedOption).None? ==>
        && !isAnswerChecked && selectedOption == None && isCorrect == old(isCorrect)
        && score == old(score) && currentQuestionIndex == old(currentQuestionIndex) && answers == old(answers)
      ensures old(selectedOption).Some? ==>
        && isAnswerChecked
        && isCorrect == (old(selectedOption).value == questions[currentQuestionIndex].correctAnswerIndex)
        && score == old(score) + (if isCorrect then 1 else 0)
        && selectedOption == old(selectedOption)
        && currentQuestionIndex == old(currentQuestionIndex)
        && answers == old(answers) + [old(selectedOption).value]
    {
      if selectedOption == None {
        return;
      }
      var correct := selectedOption.value == questions[currentQuestionIndex].correctAnswerIndex;
      CorrectCountAppend(questions, answers, selectedOption.value);
      answers := answers + [selectedOption.value];
      isCorrect := correct;
      isAnswerChecked := true;
      if correct {
        score := score + 1;
      }
    }

    /**
     * Moves to the next question, or on the last one reports the score
     * (returned as `completed`) and changes nothing. Only the main button
     * calls this, and only once the answer is checked.
     */
    method NextQuestion() returns (completed: Option<nat>)
      requires Valid()
      requires isAnswerChecked
      modifies this
      ensures Valid()
      ensures score <= Checked() <= |questions|
      ensures score == old(score) && isCorrect == old(isCorrect) && answers == old(answers)
      ensures old(currentQuestionIndex) < |questions| - 1 ==>
        && completed == None
        && currentQuestionIndex == old(currentQuestionIndex) + 1
        && selectedOption == None && !isAnswerChecked
      ensures old(currentQuestionIndex) == |questions| - 1 ==>
        && completed == Some(score)
        && currentQuestionIndex == old(currentQuestionIndex)
        && selectedOption == old(selectedOption) && isAnswerChecked
    {
      if currentQuestionIndex < |questions| - 1 {
        currentQuestionIndex := currentQuestionIndex + 1;
        selectedOption := None;
        isAnswerChecked := false;
        completed := None;
      } else {
        completed := Some(score);
      }
    }

    /**
     * The main button: disabled with nothing selected and nothing checked,
     * otherwise it advances once checked and checks before that.
     */
    method PressMainButton() returns (completed: Option<nat>)
      requires Valid()
      modifies this
      ensures Valid()
      ensures score <= Checked() <= |questions|
      ensures !old(MainButtonEnabled()) ==>
        && completed == None && selectedOption == None && !isAnswerChecked && isCorrect == old(isCorrect)
        && currentQuestionIndex == old(currentQuestionIndex) && score == old(score) && answers == old(answers)
      ensures old(MainButtonEnabled()) && !old(isAnswerChecked) ==>
        && completed == None && isAnswerChecked
        && isCorrect == (old(selectedOption).value == questions[currentQuestionIndex].correctAnswerIndex)
        && score == old(score) + (if isCorrect then 1 else 0)
        && selectedOption == old(selectedOption)
        && currentQuestionIndex == old(currentQuestionIndex)
        && answers == old(answers) + [old(selectedOption).value]
      ensures old(isAnswerChecked) ==>
        && score == old(score) && isCorrect == old(isCorrect) && answers == old(answers)
        && (if old(currentQuestionIndex) < |questions| - 1
            then
              && completed == None && currentQuestionIndex == old(currentQuestionIndex) + 1
              && selectedOption == None && !isAnswerChecked
            else
              && completed == Some(score) && currentQuestionIndex == old(currentQuestionIndex)
              && selectedOption == old(selectedOption) && isAnswerChecked)
      ensures completed.Some? ==> completed.value <= |questions|
    {
      if !MainButtonEnabled() {
        completed := None;
      } else if isAnswerChecked {
        completed := NextQuestion();
      } else {
        CheckAnswer();
        completed := None;
      }
    }
  }
}
