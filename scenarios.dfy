/**
 * Runs of the session and banks graded by the grading pass, stated against the
 * specifications of the handlers alone.
 */
module Scenarios {
  import opened Optional
  import opened QuestionBank
  import opened AnswerStore
  import opened Grader
  import opened ExamSession

  /**
   * Starting for an edition with questions and letting 3600 seconds pass
   * ends the exam by itself: after 3600 decrements the timer shows zero,
   * and the next run of the timer effect moves to the result screen.
   */
  method TimeRunsOut(bank98: seq<Section>, bank99: seq<Section>) returns (modeAtZero: Mode, finalMode: Mode, left: nat, running: bool)
    requires |bank98| > 0
    ensures modeAtZero == Exam
    ensures finalMode == Result && left == 0 && !running
  {
    var s := new Session(bank98, bank99);
    s.HandleStart();
    var i := 0;
    while i < ExamDuration
      invariant 0 <= i <= ExamDuration
      invariant s.Valid() && s.mode == Exam && s.isTimerRunning
      invariant s.timeLeft == ExamDuration - i
    {
      s.Tick();
      i := i + 1;
    }
    modeAtZero := s.mode;
    s.Tick();
    assert s.expiries == 1;
    s.Tick();
    assert s.expiries == 1;
    finalMode, left, running := s.mode, s.timeLeft, s.isTimerRunning;
  }

  /**
   * Finishing early stops the clock: later timer runs change nothing. A
   * restart after that is indistinguishable from the first start.
   */
  method FinishThenRestart(bank98: seq<Section>, bank99: seq<Section>, q: string, sub: string, v: string)
    returns (leftAtFinish: nat, leftLater: nat, answersAfterRestart: Store, indexAfterRestart: nat, leftAfterRestart: nat, modeAfterRestart: Mode)
    requires |bank98| > 1
    ensures leftLater == leftAtFinish
    ensures answersAfterRestart == map[] && indexAfterRestart == 0
    ensures leftAfterRestart == ExamDuration && modeAfterRestart == Exam
  {
    var s := new Session(bank98, bank99);
    s.HandleStart();
    s.Tick();
    s.HandleAnswerChange(q, sub, v);
    s.NextQuestion();
    s.ConfirmFinish();
    leftAtFinish := s.timeLeft;
    s.Tick();
    s.Tick();
    leftLater := s.timeLeft;
    s.HandleStart();
    answersAfterRestart, indexAfterRestart, leftAfterRestart, modeAfterRestart :=
      s.userAnswers, s.currentSectionIndex, s.timeLeft, s.mode;
  }

  /**
   * As written, walking the review to its end never reaches the summary:
   * the last "next" opens the dialog and confirming it returns to the
   * first section.
   */
  method ReviewToTheEndAsWritten(bank98: seq<Section>, bank99: seq<Section>) returns (dialogAtEnd: bool, summary: bool, index: nat)
    requires |bank98| > 0
    ensures dialogAtEnd && !summary && index == 0
  {
    var s := new Session(bank98, bank99);
    s.HandleStart();
    s.ConfirmFinish();
    while s.currentSectionIndex < |s.ExamData()| - 1
      invariant s.Valid() && s.WithinSections() && s.mode == Result
      decreases |s.ExamData()| - s.currentSectionIndex
    {
      s.NextQuestion();
    }
    s.NextQuestion();
    dialogAtEnd := s.showConfirmModal;
    s.ConfirmFinish();
    summary, index := s.SummaryShown(), s.currentSectionIndex;
  }

  /** With the intended navigation the review ends on the summary. */
  method ReviewToTheEndIntended(bank98: seq<Section>, bank99: seq<Section>) returns (summary: bool, index: nat)
    requires |bank98| > 0
    ensures summary && index == |bank98|
  {
    var s := new Session(bank98, bank99);
    s.HandleStart();
    s.ConfirmFinish();
    while s.currentSectionIndex < |s.ExamData()| - 1
      invariant s.Valid() && s.mode == Result && s.examVersion == V98
      invariant s.currentSectionIndex < |s.ExamData()|
      decreases |s.ExamData()| - s.currentSectionIndex
    {
      s.NextQuestionIntended();
    }
    s.NextQuestionIntended();
    summary, index := s.SummaryShown(), s.currentSectionIndex;
  }

  const KeysS1: map<string, string> := map["b1" := "X", "b2" := "Y"]
  const SegmentsS1: seq<Segment> :=
    [Literal("a "), Marker(false, Some("b1")), Marker(true, None), Marker(false, Some("b2"))]

  lemma SegmentsS1Units()
    ensures SegmentUnits("s1", KeysS1, SegmentsS1)
         == [Unit(Key("s1", "b1"), Some("X")), Unit(Key("s1", "b2"), Some("Y"))]
  {
    var segs := SegmentsS1;
    var u1 := Unit(Key("s1", "b1"), Some("X"));
    assert segs[..1][..0] == [] && segs[..2][..1] == segs[..1] && segs[..3][..2] == segs[..2] && segs[..4] == segs;
    assert SegmentUnits("s1", KeysS1, segs[..1]) == [];
    assert SegmentUnits("s1", KeysS1, segs[..2]) == [u1];
    assert SegmentUnits("s1", KeysS1, segs[..3]) == [u1];
  }

  /** One fill-in-blank section with blanks b1 (key X) and b2 (key Y); only b1 answered, with X. */
  lemma HalfOfTwoBlanks()
    ensures var bank := [FillInBlank("s1", SegmentsS1, KeysS1)];
            var answers := map[Key("s1", "b1") := "X"];
            Correct(bank, answers) == 1 && Total(bank) == 2 && Percentage(1, 2) == 50
  {
    var bank := [FillInBlank("s1", SegmentsS1, KeysS1)];
    var answers := map[Key("s1", "b1") := "X"];
    var u1 := Unit(Key("s1", "b1"), Some("X"));
    var u2 := Unit(Key("s1", "b2"), Some("Y"));
    SegmentsS1Units();
    assert bank[..0] == [];
    assert BankUnits(bank) == [u1, u2];
    assert Key("s1", "b2") != Key("s1", "b1") by {
      assert Key("s1", "b2")[4] != Key("s1", "b1")[4];
    }
    assert !Scores(u2, answers);
    assert [u1, u2][..1] == [u1] && [u1][..0] == [];
    assert Matches([u1], answers) == 1;
  }

  /** One multiple-choice section of three sub-questions, all answered correctly. */
  lemma AllThreeCorrect()
    ensures var qs := [SubQuestion("1", Some("a")), SubQuestion("2", Some("b")), SubQuestion("3", Some("c"))];
            var bank := [MultipleChoice("m", qs)];
            var answers := map[Key("m", "1") := "a", Key("m", "2") := "b", Key("m", "3") := "c"];
            Correct(bank, answers) == 3 && Total(bank) == 3 && Percentage(3, 3) == 100
  {
    var qs := [SubQuestion("1", Some("a")), SubQuestion("2", Some("b")), SubQuestion("3", Some("c"))];
    var bank := [MultipleChoice("m", qs)];
    var answers := map[Key("m", "1") := "a", Key("m", "2") := "b", Key("m", "3") := "c"];
    QuestionUnitsAll("m", qs);
    assert bank[..0] == [];
    var units := BankUnits(bank);
    assert SectionUnits(bank[0]) == QuestionUnits("m", qs);
    assert BankUnits(bank[..0]) == [];
    assert units == BankUnits(bank[..0]) + SectionUnits(bank[0]);
    assert units == QuestionUnits("m", qs);
    FullMarksIff(bank, answers);
    assert Key("m", "1")[2] != Key("m", "2")[2] && Key("m", "1")[2] != Key("m", "3")[2] && Key("m", "2")[2] != Key("m", "3")[2];
    assert Lookup(answers, Key("m", "1")) == Some("a");
    assert Lookup(answers, Key("m", "2")) == Some("b");
    assert Lookup(answers, Key("m", "3")) == Some("c");
    forall i | 0 <= i < |units| ensures Scores(units[i], answers) {
      assert units[i] == QuestionUnit("m", qs[i]);
    }
  }

  /**
   * A blank whose id is missing from the answer key scores without any
   * answer, since both sides of the comparison are `undefined`.
   */
  lemma UnkeyedBlankScoresUnanswered()
    ensures var bank := [FillInBlank("s1", [Marker(false, Some("b1"))], map[])];
            Correct(bank, map[]) == 1 && Total(bank) == 1
  {
    var segs := [Marker(false, Some("b1"))];
    var bank := [FillInBlank("s1", segs, map[])];
    var u := Unit(Key("s1", "b1"), None);
    assert segs[..0] == [];
    assert SegmentUnits("s1", map[], segs) == [u];
    assert bank[..0] == [];
    assert BankUnits(bank) == [u];
    assert Scores(u, map[]);
    MatchesSnoc([], u, map[]);
    assert [] + [u] == [u];
  }
}
