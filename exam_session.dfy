/**
 * The exam session: the state the application component keeps, and the
 * handlers and timer step that change it. Each `useState` slot is a field;
 * each handler is a method that performs the same assignments.
 */
module ExamSession {
  import opened QuestionBank
  import opened AnswerStore
  import Grader

  /** `'home'`, `'exam'`, `'result'`. */
  datatype Mode = Home | Exam | Result

  /** The two exam editions, `'98'` and `'99'`, each with its own bank. */
  datatype Version = V98 | V99

  /** The exam duration `60 * 60` in seconds, used at start and as the initial timer value. */
  const ExamDuration: nat := 3600

  class Session {
    /** The question banks of the two editions; read-only data. */
    const bank98: seq<Section>
    const bank99: seq<Section>

    var mode: Mode
    var currentSectionIndex: nat
    var userAnswers: Store
    var examVersion: Version
    var showConfirmModal: bool
    var timeLeft: nat
    var isTimerRunning: bool

    /** How many times the expiry transition has fired since the last start. */
    ghost var expiries: nat

    /** `currentExamData`: the bank of the selected edition. */
    function ExamData(): seq<Section>
      reads this
    {
      if examVersion == V98 then bank98 else bank99
    }

    /**
     * The invariant every reachable state keeps: the home screen holds no
     * answers and a stopped timer; outside it the bank is non-empty and the
     * index stays within it (the result screen may also point one past the
     * last section, where the summary is shown); the timer only runs during
     * the exam; expiry fires at most once per start.
     */
    ghost predicate Valid()
      reads this
    {
      && (mode == Home ==> currentSectionIndex == 0 && userAnswers == map[] && !isTimerRunning)
      && (mode != Home ==> |ExamData()| > 0)
      && (mode == Exam ==> currentSectionIndex < |ExamData()|)
      && (mode == Result ==> currentSectionIndex <= |ExamData()|)
      && (isTimerRunning ==> mode == Exam && expiries == 0)
      && expiries <= 1
    }

    /** Outside the home screen the index names a section of the bank. */
    predicate WithinSections()
      reads this
    {
      mode != Home ==> currentSectionIndex < |ExamData()|
    }

    /** The result summary (score and percentage) is on screen. */
    predicate SummaryShown()
      reads this
    {
      mode == Result && currentSectionIndex >= |ExamData()|
    }

    /** The initial state of the component. */
    constructor (bank98: seq<Section>, bank99: seq<Section>)
      ensures this.bank98 == bank98 && this.bank99 == bank99
      ensures mode == Home && currentSectionIndex == 0 && userAnswers == map[]
      ensures examVersion == V98 && !showConfirmModal
      ensures timeLeft == ExamDuration && !isTimerRunning && expiries == 0
      ensures Valid() && WithinSections() && !SummaryShown()
    {
      this.bank98, this.bank99 := bank98, bank99;
      currentSectionIndex := 0;
      userAnswers := map[];
      mode := Home;
      examVersion := V98;
      showConfirmModal := false;
      timeLeft := ExamDuration;
      isTimerRunning := false;
      expiries := 0;
    }

    /** `handleStart`: start (or restart) the exam, unless the bank is empty. */
    method HandleStart()
      requires Valid()
      modifies this
      ensures Valid() && (old(WithinSections()) ==> WithinSections())
      ensures |old(ExamData())| == 0 ==> unchanged(this)
      ensures |old(ExamData())| > 0 ==>
        && mode == Exam && currentSectionIndex == 0 && userAnswers == map[]
        && timeLeft == ExamDuration && isTimerRunning && expiries == 0
        && examVersion == old(examVersion) && showConfirmModal == old(showConfirmModal)
    {
      if |ExamData()| == 0 {
        return;
      }
      mode := Exam;
      currentSectionIndex := 0;
      userAnswers := map[];
      timeLeft := ExamDuration;
      isTimerRunning := true;
      expiries := 0;
    }

    /** `handleFinishButton`: ask for confirmation before finishing. */
    method HandleFinishButton()
      requires Valid()
      modifies this
      ensures Valid() && (old(WithinSections()) ==> WithinSections())
      ensures showConfirmModal
      ensures mode == old(mode) && currentSectionIndex == old(currentSectionIndex)
      ensures userAnswers == old(userAnswers) && examVersion == old(examVersion)
      ensures timeLeft == old(timeLeft) && isTimerRunning == old(isTimerRunning) && expiries == old(expiries)
    {
      showConfirmModal := true;
    }

    /** The dialog's cancel button: close it, nothing else. */
    method CancelFinish()
      requires Valid()
      modifies this
      ensures Valid() && (old(WithinSections()) ==> WithinSections())
      ensures !showConfirmModal
      ensures mode == old(mode) && currentSectionIndex == old(currentSectionIndex)
      ensures userAnswers == old(userAnswers) && examVersion == old(examVersion)
      ensures timeLeft == old(timeLeft) && isTimerRunning == old(isTimerRunning) && expiries == old(expiries)
    {
      showConfirmModal := false;
    }

    /**
     * `confirmFinish`: close the dialog, stop the timer without an expiry,
     * and go to the result screen at the first section. The dialog is only
     * rendered on the exam and review screens.
     */
    method ConfirmFinish()
      requires Valid() && mode != Home
      modifies this
      ensures Valid() && WithinSections()
      ensures !showConfirmModal && !isTimerRunning && mode == Result && currentSectionIndex == 0
      ensures userAnswers == old(userAnswers) && examVersion == old(examVersion)
      ensures timeLeft == old(timeLeft) && expiries == old(expiries)
    {
      showConfirmModal := false;
      isTimerRunning := false;
      mode := Result;
      currentSectionIndex := 0;
    }

    /**
     * `handleAnswerChange(questionId, subId, value)`: upsert one answer.
     * Its callers are the answer controls, rendered only on the exam and
     * review screens.
     */
    method HandleAnswerChange(questionId: string, subId: string, value: string)
      requires Valid() && mode != Home
      modifies this
      ensures Valid() && (old(WithinSections()) ==> WithinSections())
      ensures userAnswers == Record(old(userAnswers), questionId, subId, value)
      ensures mode == old(mode) && currentSectionIndex == old(currentSectionIndex)
      ensures examVersion == old(examVersion) && showConfirmModal == old(showConfirmModal)
      ensures timeLeft == old(timeLeft) && isTimerRunning == old(isTimerRunning) && expiries == old(expiries)
    {
      userAnswers := Record(userAnswers, questionId, subId, value);
    }

    /**
     * `nextQuestion`: move forward, or at the last section open the
     * confirmation dialog. Its caller is the footer of the exam and review
     * screens.
     */
    method NextQuestion()
      requires Valid() && mode != Home
      modifies this
      ensures Valid() && (old(WithinSections()) ==> WithinSections())
      ensures old(currentSectionIndex) < |ExamData()| - 1 ==>
        currentSectionIndex == old(currentSectionIndex) + 1 && showConfirmModal == old(showConfirmModal)
      ensures old(currentSectionIndex) >= |ExamData()| - 1 ==>
        currentSectionIndex == old(currentSectionIndex) && showConfirmModal
      ensures mode == old(mode) && userAnswers == old(userAnswers) && examVersion == old(examVersion)
      ensures timeLeft == old(timeLeft) && isTimerRunning == old(isTimerRunning) && expiries == old(expiries)
    {
      if currentSectionIndex < |ExamData()| - 1 {
        currentSectionIndex := currentSectionIndex + 1;
      } else {
        HandleFinishButton();
      }
    }

    /**
     * `nextQuestion` as its result screen evidently intends: past the last
     * section of the review, show the summary instead of the dialog.
     */
    method NextQuestionIntended()
      requires Valid() && mode != Home
      modifies this
      ensures Valid()
      ensures old(currentSectionIndex) < |ExamData()| - 1 ==>
        currentSectionIndex == old(currentSectionIndex) + 1 && showConfirmModal == old(showConfirmModal)
      ensures old(currentSectionIndex) >= |ExamData()| - 1 && mode == Result ==>
        currentSectionIndex == |ExamData()| && SummaryShown() && showConfirmModal == old(showConfirmModal)
      ensures old(currentSectionIndex) >= |ExamData()| - 1 && mode == Exam ==>
        currentSectionIndex == old(currentSectionIndex) && showConfirmModal
      ensures mode == old(mode) && userAnswers == old(userAnswers) && examVersion == old(examVersion)
      ensures timeLeft == old(timeLeft) && isTimerRunning == old(isTimerRunning) && expiries == old(expiries)
    {
      if currentSectionIndex < |ExamData()| - 1 {
        currentSectionIndex := currentSectionIndex + 1;
      } else if mode == Result {
        currentSectionIndex := |ExamData()|;
      } else {
        HandleFinishButton();
      }
    }

    /** The summary's review button: back to the first section. */
    method ReviewAnswers()
      requires Valid()
      modifies this
      ensures Valid() && WithinSections() && !SummaryShown()
      ensures currentSectionIndex == 0
      ensures mode == old(mode) && userAnswers == old(userAnswers) && examVersion == old(examVersion)
      ensures showConfirmModal == old(showConfirmModal)
      ensures timeLeft == old(timeLeft) && isTimerRunning == old(isTimerRunning) && expiries == old(expiries)
    {
      currentSectionIndex := 0;
    }

    /** `prevQuestion`: move back unless at the first section. */
    method PrevQuestion()
      requires Valid()
      modifies this
      ensures Valid() && (old(WithinSections()) ==> WithinSections())
      ensures old(currentSectionIndex) > 0 ==> currentSectionIndex == old(currentSectionIndex) - 1
      ensures old(currentSectionIndex) == 0 ==> currentSectionIndex == 0
      ensures mode == old(mode) && userAnswers == old(userAnswers) && examVersion == old(examVersion)
      ensures showConfirmModal == old(showConfirmModal)
      ensures timeLeft == old(timeLeft) && isTimerRunning == old(isTimerRunning) && expiries == old(expiries)
    {
      if currentSectionIndex > 0 {
        currentSectionIndex := currentSectionIndex - 1;
      }
    }

    /**
     * `toggleExamVersion`: refused during the exam; otherwise switch edition,
     * and from the result screen also reset to the home screen. The
     * remaining time is left as it was.
     */
    method ToggleExamVersion()
      requires Valid()
      modifies this
      ensures Valid() && (old(WithinSections()) ==> WithinSections())
      ensures old(mode) == Exam ==> unchanged(this)
      ensures old(mode) != Exam ==> examVersion != old(examVersion) && mode == Home
      ensures old(mode) == Result ==>
        currentSectionIndex == 0 && userAnswers == map[] && !isTimerRunning
      ensures old(mode) == Home ==>
        currentSectionIndex == old(currentSectionIndex) && userAnswers == old(userAnswers)
        && isTimerRunning == old(isTimerRunning)
      ensures timeLeft == old(timeLeft) && showConfirmModal == old(showConfirmModal) && expiries == old(expiries)
    {
      if mode == Exam {
        return;
      }
      var newVersion := if examVersion == V98 then V99 else V98;
      examVersion := newVersion;
      if mode != Home {
        mode := Home;
        currentSectionIndex := 0;
        userAnswers := map[];
        isTimerRunning := false;
      }
    }

    /**
     * One step of the timer: while it runs with time left, one call of the
     * interval callback drops the remaining time by one; once it is zero,
     * the effect's expiry run stops the timer and moves the session to the
     * result screen. A stopped timer does nothing.
     */
    method Tick()
      requires Valid()
      modifies this
      ensures Valid() && (old(WithinSections()) ==> WithinSections())
      ensures !old(isTimerRunning) ==> unchanged(this)
      ensures old(isTimerRunning) && old(timeLeft) > 0 ==>
        && timeLeft == old(timeLeft) - 1 && isTimerRunning
        && mode == old(mode) && currentSectionIndex == old(currentSectionIndex) && expiries == old(expiries)
      ensures old(isTimerRunning) && old(timeLeft) == 0 ==>
        && timeLeft == 0 && !isTimerRunning
        && mode == Result && currentSectionIndex == 0 && expiries == old(expiries) + 1
      ensures userAnswers == old(userAnswers) && examVersion == old(examVersion)
      ensures showConfirmModal == old(showConfirmModal)
    {
      if isTimerRunning && timeLeft > 0 {
        timeLeft := timeLeft - 1;
      } else if timeLeft == 0 && isTimerRunning {
        isTimerRunning := false;
        mode := Result;
        currentSectionIndex := 0;
        expiries := expiries + 1;
      }
    }

    /**
     * The grading pass of the result screen over the selected bank and the
     * stored answers. It changes no state.
     */
    method Score() returns (correctCount: nat, totalQuestions: nat, percentage: nat)
      ensures totalQuestions == Grader.Total(ExamData())
      ensures correctCount == Grader.Correct(ExamData(), userAnswers)
      ensures correctCount <= totalQuestions
      ensures percentage == Grader.Percentage(correctCount, totalQuestions) && percentage <= 100
    {
      correctCount, totalQuestions := Grader.Grade(ExamData(), userAnswers);
      Grader.CorrectAtMostTotal(ExamData(), userAnswers);
      percentage := Grader.Percentage(correctCount, totalQuestions);
    }
  }
}
