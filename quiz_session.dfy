/**
 * The client-side quiz session of `src/hooks/useQuiz.ts`. The hook's state
 * variables become the fields of `Quiz`; each callback, the one-second timer
 * tick, the "question shown" effect and the page-visibility handler become a
 * method that performs that transition at once. `Date.now()` is the `now`
 * parameter.
 */
module QuizSession {
  import opened Wrappers
  import opened QuizTypes
  import Seqs

  /** `timePerQuestion` when the caller gives none, in seconds. */
  const DefaultTimePerQuestion := 25

  /** `'idle' | 'in-progress' | 'completed' | 'locked'` */
  datatype Status = Idle | InProgress | Completed | Locked

  class Quiz {
    const questions: seq<Question>
    const timePerQuestion: int

    // quizState
    var currentQuestionIndex: nat
    var answers: map<string, string>
    var startTime: Option<int>
    var endTime: Option<int>
    var isCompleted: bool

    var timeRemaining: int
    var selectedAnswerId: Option<string>
    var isAnswerLocked: bool
    var questionStartTime: Option<int>
    var cheatingDetected: bool
    var quizStatus: Status

    /**
     * The index stays inside the question list (at 0 for an empty list), no
     * transition ever reaches `Completed`, and `cheatingDetected` is set
     * exactly while the session is locked.
     */
    predicate Valid()
      reads this
    {
      && (if |questions| == 0 then currentQuestionIndex == 0 else currentQuestionIndex < |questions|)
      && quizStatus != Completed
      && (cheatingDetected <==> quizStatus == Locked)
    }

    /** `questions[quizState.currentQuestionIndex]`, which is `undefined` past the end. */
    function CurrentQuestion(): (r: Option<Question>)
      reads this
      ensures r.Some? <==> currentQuestionIndex < |questions|
      ensures r.Some? ==> r.value == questions[currentQuestionIndex]
    {
      if currentQuestionIndex < |questions| then Some(questions[currentQuestionIndex]) else None
    }

    /** The hook's initial state. */
    constructor (questions: seq<Question>, timePerQuestion: int)
      ensures this.questions == questions && this.timePerQuestion == timePerQuestion
      ensures currentQuestionIndex == 0 && answers == map[] && startTime == None && endTime == None && !isCompleted
      ensures timeRemaining == timePerQuestion && selectedAnswerId == None && !isAnswerLocked
      ensures questionStartTime == None && !cheatingDetected && quizStatus == Idle
      ensures Valid()
    {
      this.questions := questions;
      this.timePerQuestion := timePerQuestion;
      currentQuestionIndex := 0;
      answers := map[];
      startTime := None;
      endTime := None;
      isCompleted := false;
      timeRemaining := timePerQuestion;
      selectedAnswerId := None;
      isAnswerLocked := false;
      questionStartTime := None;
      cheatingDetected := false;
      quizStatus := Idle;
    }

    /**
     * `startQuiz`: a fresh attempt. The answer lock and the selection are left
     * as they were; the "question shown" effect clears them once the status is
     * in progress.
     */
    method StartQuiz(now: int)
      requires Valid()
      modifies this
      ensures Valid()
      ensures currentQuestionIndex == 0 && answers == map[] && startTime == Some(now) && endTime == None && !isCompleted
      ensures timeRemaining == timePerQuestion && questionStartTime == Some(now)
      ensures quizStatus == InProgress && !cheatingDetected
      ensures selectedAnswerId == old(selectedAnswerId) && isAnswerLocked == old(isAnswerLocked)
    {
      currentQuestionIndex, answers, startTime, endTime, isCompleted := 0, map[], Some(now), None, false;
      timeRemaining := timePerQuestion;
      questionStartTime := Some(now);
      quizStatus := InProgress;
      cheatingDetected := false;
    }

    /** `selectAnswer`: only the selection changes, and only while the answer is not locked. */
    method SelectAnswer(answerId: string)
      requires Valid()
      modifies this
      ensures Valid()
      ensures selectedAnswerId == if old(isAnswerLocked) then old(selectedAnswerId) else Some(answerId)
      ensures unchanged(this`currentQuestionIndex, this`answers, this`startTime, this`endTime, this`isCompleted)
      ensures unchanged(this`timeRemaining, this`isAnswerLocked, this`questionStartTime, this`cheatingDetected, this`quizStatus)
    {
      if isAnswerLocked {
        return;
      }
      selectedAnswerId := Some(answerId);
    }

    /**
     * `lockAnswer`: unless the answer is already locked or there is no current
     * question, lock it and record `answerId` for the current question; every
     * other recorded answer is kept. The session status is not consulted.
     */
    method LockAnswer(answerId: string)
      requires Valid()
      modifies this
      ensures Valid()
      ensures old(isAnswerLocked) || old(CurrentQuestion()).None? ==>
                selectedAnswerId == old(selectedAnswerId) && isAnswerLocked == old(isAnswerLocked) && answers == old(answers)
      ensures !old(isAnswerLocked) && old(CurrentQuestion()).Some? ==>
                && isAnswerLocked && selectedAnswerId == Some(answerId)
                && answers == old(answers)[old(CurrentQuestion()).value.id := answerId]
      ensures unchanged(this`currentQuestionIndex, this`startTime, this`endTime, this`isCompleted)
      ensures unchanged(this`timeRemaining, this`questionStartTime, this`cheatingDetected, this`quizStatus)
    {
      var current := CurrentQuestion();
      if isAnswerLocked || current.None? {
        return;
      }
      isAnswerLocked := true;
      selectedAnswerId := Some(answerId);
      answers := answers[current.value.id := answerId];
    }

    /**
     * `nextQuestion`: before the last question, advance by one and clear the
     * lock, the selection and the timer; on the last question (or with no
     * questions) mark the attempt completed at `now` and keep the index.
     */
    method NextQuestion(now: int)
      requires Valid()
      modifies this
      ensures Valid()
      ensures old(currentQuestionIndex) < |questions| - 1 ==>
                && currentQuestionIndex == old(currentQuestionIndex) + 1
                && !isAnswerLocked && selectedAnswerId == None && timeRemaining == timePerQuestion
                && isCompleted == old(isCompleted) && endTime == old(endTime)
      ensures old(currentQuestionIndex) >= |questions| - 1 ==>
                && currentQuestionIndex == old(currentQuestionIndex)
                && isCompleted && endTime == Some(now)
                && isAnswerLocked == old(isAnswerLocked) && selectedAnswerId == old(selectedAnswerId)
                && timeRemaining == old(timeRemaining)
      ensures unchanged(this`answers, this`startTime, this`questionStartTime, this`cheatingDetected, this`quizStatus)
    {
      if currentQuestionIndex < |questions| - 1 {
        currentQuestionIndex := currentQuestionIndex + 1;
        isAnswerLocked := false;
        selectedAnswerId := None;
        timeRemaining := timePerQuestion;
      } else {
        isCompleted := true;
        endTime := Some(now);
      }
    }

    /** Whether the one-second interval is running. */
    predicate TimerRunning()
      reads this
    {
      !isAnswerLocked && CurrentQuestion().Some? && quizStatus == InProgress
    }

    /**
     * One firing of the one-second interval. Above one second the clock counts
     * down; at one second or less it stops at 0, the answer is locked, and the
     * selection is recorded only if one was made, so an unanswered question
     * stays absent from `answers`. Nothing happens while the timer is stopped.
     */
    method Tick()
      requires Valid()
      modifies this
      ensures Valid()
      ensures !old(TimerRunning()) ==> timeRemaining == old(timeRemaining) && isAnswerLocked == old(isAnswerLocked) && answers == old(answers)
      ensures old(TimerRunning()) && old(timeRemaining) > 1 ==>
                timeRemaining == old(timeRemaining) - 1 && isAnswerLocked == old(isAnswerLocked) && answers == old(answers)
      ensures old(TimerRunning()) && old(timeRemaining) <= 1 ==>
                && timeRemaining == 0 && isAnswerLocked
                && answers == (if old(selectedAnswerId).Some? && old(selectedAnswerId).value != ""
                               then old(answers)[old(CurrentQuestion()).value.id := old(selectedAnswerId).value]
                               else old(answers))
      ensures unchanged(this`currentQuestionIndex, this`startTime, this`endTime, this`isCompleted, this`selectedAnswerId)
      ensures unchanged(this`questionStartTime, this`cheatingDetected, this`quizStatus)
    {
      var current := CurrentQuestion();
      if isAnswerLocked || current.None? || quizStatus != InProgress {
        return;
      }
      if timeRemaining <= 1 {
        var currentAnswerId := if selectedAnswerId.Some? then selectedAnswerId.value else "";
        isAnswerLocked := true;
        if currentAnswerId != "" {
          answers := answers[current.value.id := currentAnswerId];
        }
        timeRemaining := 0;
      } else {
        timeRemaining := timeRemaining - 1;
      }
    }

    /**
     * The effect that runs when a question is shown: while the session is in
     * progress and the answer is not locked, restart the clock at `now` and
     * clear the selection.
     */
    method QuestionShown(now: int)
      requires Valid()
      modifies this
      ensures Valid()
      ensures old(TimerRunning()) ==>
                timeRemaining == timePerQuestion && questionStartTime == Some(now) && selectedAnswerId == None
      ensures !old(TimerRunning()) ==>
                timeRemaining == old(timeRemaining) && questionStartTime == old(questionStartTime) && selectedAnswerId == old(selectedAnswerId)
      ensures unchanged(this`currentQuestionIndex, this`answers, this`startTime, this`endTime, this`isCompleted)
      ensures unchanged(this`isAnswerLocked, this`cheatingDetected, this`quizStatus)
    {
      if CurrentQuestion().Some? && !isAnswerLocked && quizStatus == InProgress {
        timeRemaining := timePerQuestion;
        questionStartTime := Some(now);
        selectedAnswerId := None;
        isAnswerLocked := false;
      }
    }

    /**
     * The `visibilitychange` handler: hiding the page during an attempt locks
     * the session and flags cheating. Nothing but `StartQuiz` leaves `Locked`.
     */
    method VisibilityChange(hidden: bool)
      requires Valid()
      modifies this
      ensures Valid()
      ensures hidden && old(quizStatus) == InProgress ==> quizStatus == Locked && cheatingDetected
      ensures !(hidden && old(quizStatus) == InProgress) ==> quizStatus == old(quizStatus) && cheatingDetected == old(cheatingDetected)
      ensures old(quizStatus) == Locked ==> quizStatus == Locked
      ensures unchanged(this`currentQuestionIndex, this`answers, this`startTime, this`endTime, this`isCompleted)
      ensures unchanged(this`timeRemaining, this`selectedAnswerId, this`isAnswerLocked, this`questionStartTime)
    {
      if hidden && quizStatus == InProgress {
        cheatingDetected := true;
        quizStatus := Locked;
      }
    }

    /** `getSelectedAnswer`: the first of the current question's answers with the selected id, if any. */
    function GetSelectedAnswer(): (r: Option<Answer>)
      reads this
      ensures r.Some? ==> && selectedAnswerId.Some? && selectedAnswerId.value != "" && CurrentQuestion().Some?
                          && exists i :: 0 <= i < |CurrentQuestion().value.answers|
                               && CurrentQuestion().value.answers[i] == r.value
                               && r.value.id == selectedAnswerId.value
                               && forall j :: 0 <= j < i ==> CurrentQuestion().value.answers[j].id != selectedAnswerId.value
      ensures (selectedAnswerId.None? || selectedAnswerId.value == "" || CurrentQuestion().None?) ==> r.None?
      ensures selectedAnswerId.Some? && selectedAnswerId.value != "" && CurrentQuestion().Some? && r.None? ==>
                forall i :: 0 <= i < |CurrentQuestion().value.answers| ==>
                  CurrentQuestion().value.answers[i].id != selectedAnswerId.value
    {
      if selectedAnswerId.None? || selectedAnswerId.value == "" || CurrentQuestion().None? then None
      else
        var id := selectedAnswerId.value;
        Seqs.Find(CurrentQuestion().value.answers, (a: Answer) => a.id == id)
    }

    /** `getCorrectAnswer`: the first answer of the current question flagged correct, if any. */
    function GetCorrectAnswer(): (r: Option<Answer>)
      reads this
      ensures CurrentQuestion().None? ==> r.None?
      ensures r.Some? ==> exists i :: 0 <= i < |CurrentQuestion().value.answers|
                            && CurrentQuestion().value.answers[i] == r.value && r.value.isCorrect
                            && forall j :: 0 <= j < i ==> !CurrentQuestion().value.answers[j].isCorrect
      ensures CurrentQuestion().Some? && r.None? ==>
                forall i :: 0 <= i < |CurrentQuestion().value.answers| ==> !CurrentQuestion().value.answers[i].isCorrect
    {
      if CurrentQuestion().None? then None
      else Seqs.Find(CurrentQuestion().value.answers, (a: Answer) => a.isCorrect)
    }
  }
}
