/**
 * The grading pass run on the result screen: every answerable unit of
 * every section adds one to the total, and one to the correct count when
 * the stored answer equals the key. A missing stored answer and a missing
 * key entry are both `undefined`, and `undefined === undefined` holds, so
 * an unanswered unit without a key entry scores.
 */
module Grader {
  import opened Optional
  import opened QuestionBank
  import opened AnswerStore
  import opened Arithmetic

  /** An answerable unit: its composite key in the answer store and its answer-key value. */
  datatype Unit = Unit(key: string, expected: Option<string>)

  /** The unit of one fill-in-blank segment: object segments with a truthy id. */
  function SegmentUnit(sectionId: string, answers: map<string, string>, seg: Segment): Option<Unit> {
    if seg.Marker? && Present(seg.id) then
      Some(Unit(Key(sectionId, seg.id.value), Lookup(answers, seg.id.value)))
    else None
  }

  /** The unit of one scenario line: lines with a truthy question number. */
  function SceneUnit(sectionId: string, answers: map<string, string>, scene: Scene): Option<Unit> {
    if Present(scene.questionNo) then
      Some(Unit(Key(sectionId, scene.questionNo.value), Lookup(answers, scene.questionNo.value)))
    else None
  }

  /** The unit of one choice sub-question: every sub-question is one. */
  function QuestionUnit(sectionId: string, q: SubQuestion): Unit {
    Unit(Key(sectionId, q.subId), q.demoAnswer)
  }

  function SegmentUnits(sectionId: string, answers: map<string, string>, segs: seq<Segment>): seq<Unit> {
    if segs == [] then []
    else
      var rest := SegmentUnits(sectionId, answers, segs[..|segs| - 1]);
      match SegmentUnit(sectionId, answers, segs[|segs| - 1])
      case Some(u) => rest + [u]
      case None => rest
  }

  function SceneUnits(sectionId: string, answers: map<string, string>, scenes: seq<Scene>): seq<Unit> {
    if scenes == [] then []
    else
      var rest := SceneUnits(sectionId, answers, scenes[..|scenes| - 1]);
      match SceneUnit(sectionId, answers, scenes[|scenes| - 1])
      case Some(u) => rest + [u]
      case None => rest
  }

  function QuestionUnits(sectionId: string, qs: seq<SubQuestion>): seq<Unit> {
    if qs == [] then []
    else QuestionUnits(sectionId, qs[..|qs| - 1]) + [QuestionUnit(sectionId, qs[|qs| - 1])]
  }

  /** The answerable units of one section, in order, dispatched on its type. */
  function SectionUnits(s: Section): seq<Unit> {
    match s
    case FillInBlank(id, segs, answers) => SegmentUnits(id, answers, segs)
    case ScenarioJudgment(id, scenes, answers) => SceneUnits(id, answers, scenes)
    case MultipleChoice(id, qs) => QuestionUnits(id, qs)
    case BinaryChoice(id, qs) => QuestionUnits(id, qs)
    case Unrecognised(_) => []
  }

  /** All answerable units of a bank, section after section. */
  function BankUnits(bank: seq<Section>): seq<Unit> {
    if bank == [] then []
    else BankUnits(bank[..|bank| - 1]) + SectionUnits(bank[|bank| - 1])
  }

  /** Whether a unit scores: stored answer strictly equal to the key. */
  predicate Scores(u: Unit, userAnswers: Store) {
    Lookup(userAnswers, u.key) == u.expected
  }

  /** The number of units that score. */
  function Matches(units: seq<Unit>, userAnswers: Store): nat {
    if units == [] then 0
    else Matches(units[..|units| - 1], userAnswers) + (if Scores(units[|units| - 1], userAnswers) then 1 else 0)
  }

  /** `totalQuestions` after the pass. */
  function Total(bank: seq<Section>): nat {
    |BankUnits(bank)|
  }

  /** `correctCount` after the pass. */
  function Correct(bank: seq<Section>, userAnswers: Store): nat {
    Matches(BankUnits(bank), userAnswers)
  }

  lemma {:induction false} MatchesAppend(a: seq<Unit>, b: seq<Unit>, userAnswers: Store)
    ensures Matches(a + b, userAnswers) == Matches(a, userAnswers) + Matches(b, userAnswers)
  {
    if b != [] {
      var b' := b[..|b| - 1];
      assert (a + b)[..|a + b| - 1] == a + b';
      MatchesAppend(a, b', userAnswers);
    } else {
      assert a + b == a;
    }
  }

  /** The count of scoring units never exceeds the number of units. */
  lemma {:induction false} MatchesAtMostLength(units: seq<Unit>, userAnswers: Store)
    ensures Matches(units, userAnswers) <= |units|
  {
    if units != [] {
      MatchesAtMostLength(units[..|units| - 1], userAnswers);
    }
  }

  /** Every unit scores exactly when the count of scoring units is the number of units. */
  lemma {:induction false} MatchesFullIff(units: seq<Unit>, userAnswers: Store)
    ensures Matches(units, userAnswers) == |units| <==> forall i :: 0 <= i < |units| ==> Scores(units[i], userAnswers)
  {
    if units != [] {
      var init := units[..|units| - 1];
      MatchesFullIff(init, userAnswers);
      MatchesAtMostLength(init, userAnswers);
      if forall i :: 0 <= i < |units| ==> Scores(units[i], userAnswers) {
        assert forall i :: 0 <= i < |init| ==> Scores(init[i], userAnswers) by {
          forall i | 0 <= i < |init| ensures Scores(init[i], userAnswers) {
            assert init[i] == units[i];
          }
        }
      } else if Matches(units, userAnswers) == |units| {
        assert Scores(units[|units| - 1], userAnswers);
        forall i | 0 <= i < |units| ensures Scores(units[i], userAnswers) {
          if i < |init| { assert units[i] == init[i]; }
        }
      }
    }
  }

  /** No unit scores exactly when the count of scoring units is zero. */
  lemma {:induction false} MatchesZeroIff(units: seq<Unit>, userAnswers: Store)
    ensures Matches(units, userAnswers) == 0 <==> forall i :: 0 <= i < |units| ==> !Scores(units[i], userAnswers)
  {
    if units != [] {
      var init := units[..|units| - 1];
      MatchesZeroIff(init, userAnswers);
      if Matches(units, userAnswers) == 0 {
        forall i | 0 <= i < |units| ensures !Scores(units[i], userAnswers) {
          if i < |init| { assert units[i] == init[i]; }
        }
      }
    }
  }

  /** `0 <= correctCount <= totalQuestions`. */
  lemma CorrectAtMostTotal(bank: seq<Section>, userAnswers: Store)
    ensures Correct(bank, userAnswers) <= Total(bank)
  {
    MatchesAtMostLength(BankUnits(bank), userAnswers);
  }

  /** Full marks exactly when every answerable unit's stored answer equals its key. */
  lemma FullMarksIff(bank: seq<Section>, userAnswers: Store)
    ensures (Correct(bank, userAnswers) == Total(bank))
        <==> (forall i :: 0 <= i < |BankUnits(bank)| ==> Scores(BankUnits(bank)[i], userAnswers))
  {
    var units := BankUnits(bank);
    MatchesFullIff(units, userAnswers);
    assert Correct(bank, userAnswers) == Matches(units, userAnswers) && Total(bank) == |units|;
    if Correct(bank, userAnswers) == Total(bank) {
      assert forall i :: 0 <= i < |units| ==> Scores(units[i], userAnswers);
    } else {
      var i :| 0 <= i < |units| && !Scores(units[i], userAnswers);
      assert !Scores(BankUnits(bank)[i], userAnswers);
    }
  }

  /**
   * With nothing answered, the score is zero exactly when every unit has an
   * entry in its answer key; a unit without one scores on `undefined === undefined`.
   */
  lemma EmptyAnswersScoreZeroIff(bank: seq<Section>)
    ensures (Correct(bank, map[]) == 0)
        <==> (forall i :: 0 <= i < |BankUnits(bank)| ==> BankUnits(bank)[i].expected.Some?)
  {
    var units := BankUnits(bank);
    MatchesZeroIff(units, map[]);
    assert forall u: Unit :: Scores(u, map[]) <==> u.expected.None?;
    assert Correct(bank, map[]) == Matches(units, map[]);
    if Correct(bank, map[]) != 0 {
      var i :| 0 <= i < |units| && Scores(units[i], map[]);
      assert BankUnits(bank)[i].expected.None?;
    }
  }

  /** A fill-in-blank section grades exactly its object segments with a truthy id. */
  lemma {:induction false} SegmentUnitsExactly(sectionId: string, answers: map<string, string>, segs: seq<Segment>, u: Unit)
    ensures u in SegmentUnits(sectionId, answers, segs)
        <==> exists j :: 0 <= j < |segs| && SegmentUnit(sectionId, answers, segs[j]) == Some(u)
  {
    if segs != [] {
      var init := segs[..|segs| - 1];
      SegmentUnitsExactly(sectionId, answers, init, u);
      if exists j :: 0 <= j < |segs| && SegmentUnit(sectionId, answers, segs[j]) == Some(u) {
        var j :| 0 <= j < |segs| && SegmentUnit(sectionId, answers, segs[j]) == Some(u);
        if j < |init| { assert init[j] == segs[j]; }
      }
      if exists j :: 0 <= j < |init| && SegmentUnit(sectionId, answers, init[j]) == Some(u) {
        var j :| 0 <= j < |init| && SegmentUnit(sectionId, answers, init[j]) == Some(u);
        assert segs[j] == init[j];
      }
    }
  }

  /** A scenario-judgment section grades exactly its lines with a truthy question number. */
  lemma {:induction false} SceneUnitsExactly(sectionId: string, answers: map<string, string>, scenes: seq<Scene>, u: Unit)
    ensures u in SceneUnits(sectionId, answers, scenes)
        <==> exists j :: 0 <= j < |scenes| && SceneUnit(sectionId, answers, scenes[j]) == Some(u)
  {
    if scenes != [] {
      var init := scenes[..|scenes| - 1];
      SceneUnitsExactly(sectionId, answers, init, u);
      if exists j :: 0 <= j < |scenes| && SceneUnit(sectionId, answers, scenes[j]) == Some(u) {
        var j :| 0 <= j < |scenes| && SceneUnit(sectionId, answers, scenes[j]) == Some(u);
        if j < |init| { assert init[j] == scenes[j]; }
      }
      if exists j :: 0 <= j < |init| && SceneUnit(sectionId, answers, init[j]) == Some(u) {
        var j :| 0 <= j < |init| && SceneUnit(sectionId, answers, init[j]) == Some(u);
        assert scenes[j] == init[j];
      }
    }
  }

  /** The number of object segments with a truthy id. */
  function CountedSegments(segs: seq<Segment>): nat {
    if segs == [] then 0
    else
      var seg := segs[|segs| - 1];
      CountedSegments(segs[..|segs| - 1]) + (if seg.Marker? && Present(seg.id) then 1 else 0)
  }

  /** The number of scenario lines with a truthy question number. */
  function CountedScenes(scenes: seq<Scene>): nat {
    if scenes == [] then 0
    else CountedScenes(scenes[..|scenes| - 1]) + (if Present(scenes[|scenes| - 1].questionNo) then 1 else 0)
  }

  /** A fill-in-blank section adds one unit per object segment with a truthy id. */
  lemma {:induction false} SegmentUnitsCount(sectionId: string, answers: map<string, string>, segs: seq<Segment>)
    ensures |SegmentUnits(sectionId, answers, segs)| == CountedSegments(segs)
  {
    if segs != [] {
      SegmentUnitsCount(sectionId, answers, segs[..|segs| - 1]);
    }
  }

  /** A scenario-judgment section adds one unit per line with a truthy question number. */
  lemma {:induction false} SceneUnitsCount(sectionId: string, answers: map<string, string>, scenes: seq<Scene>)
    ensures |SceneUnits(sectionId, answers, scenes)| == CountedScenes(scenes)
  {
    if scenes != [] {
      SceneUnitsCount(sectionId, answers, scenes[..|scenes| - 1]);
    }
  }

  /** A choice section grades every sub-question, in order. */
  lemma {:induction false} QuestionUnitsAll(sectionId: string, qs: seq<SubQuestion>)
    ensures |QuestionUnits(sectionId, qs)| == |qs|
    ensures forall j :: 0 <= j < |qs| ==> QuestionUnits(sectionId, qs)[j] == QuestionUnit(sectionId, qs[j])
  {
    if qs != [] {
      var init := qs[..|qs| - 1];
      QuestionUnitsAll(sectionId, init);
      forall j | 0 <= j < |qs|
        ensures QuestionUnits(sectionId, qs)[j] == QuestionUnit(sectionId, qs[j])
      {
        if j < |init| { assert qs[j] == init[j]; }
      }
    }
  }

  /**
   * `Math.round(correct / total * 100)` for `total > 0`, else 0, in integer
   * arithmetic: the nearest integer to `100 * correct / total`, halves up.
   */
  function Percentage(correct: nat, total: nat): (p: nat)
    ensures total == 0 ==> p == 0
    ensures total > 0 ==> 2 * total * p <= 200 * correct + total < 2 * total * (p + 1)
    ensures correct <= total ==> p <= 100
    ensures total > 0 && correct == total ==> p == 100
  {
    if total > 0 then RoundingBounds(correct, total); (200 * correct + total) / (2 * total) else 0
  }

  lemma RoundingBounds(correct: nat, total: nat)
    requires total > 0
    ensures var p := (200 * correct + total) / (2 * total);
      2 * total * p <= 200 * correct + total < 2 * total * (p + 1)
      && (correct <= total ==> p <= 100)
      && (correct == total ==> p == 100)
  {
    var x, d := 200 * correct + total, 2 * total;
    var p, r := x / d, x % d;
    assert x == d * p + r && 0 <= r < d;
    assert d * (p + 1) == d * p + d;
    if correct <= total {
      assert x < d * 101;
      if p >= 101 {
        MulAtLeast(d, p, 101);
      }
    }
    if correct == total {
      assert x == d * 100 + total;
      DivUnique(x, d, 100, total);
    }
  }

  /** Grading one more section adds its units to both counters. */
  lemma BankUnitsStep(bank: seq<Section>, i: nat, userAnswers: Store)
    requires i < |bank|
    ensures Total(bank[..i + 1]) == Total(bank[..i]) + |SectionUnits(bank[i])|
    ensures Correct(bank[..i + 1], userAnswers) == Correct(bank[..i], userAnswers) + Matches(SectionUnits(bank[i]), userAnswers)
  {
    assert bank[..i + 1][..i] == bank[..i];
    MatchesAppend(BankUnits(bank[..i]), SectionUnits(bank[i]), userAnswers);
  }

  lemma MatchesSnoc(units: seq<Unit>, u: Unit, userAnswers: Store)
    ensures Matches(units + [u], userAnswers) == Matches(units, userAnswers) + (if Scores(u, userAnswers) then 1 else 0)
  {
    assert (units + [u])[..|units|] == units;
  }

  /** Walking one more segment: a truthy-id object adds one unit, scoring when answer and key agree. */
  lemma SegmentStep(sectionId: string, answers: map<string, string>, segs: seq<Segment>, j: nat, userAnswers: Store)
    requires j < |segs|
    ensures var counted := segs[j].Marker? && Present(segs[j].id);
      && |SegmentUnits(sectionId, answers, segs[..j + 1])|
           == |SegmentUnits(sectionId, answers, segs[..j])| + (if counted then 1 else 0)
      && Matches(SegmentUnits(sectionId, answers, segs[..j + 1]), userAnswers)
           == Matches(SegmentUnits(sectionId, answers, segs[..j]), userAnswers)
              + (if counted && Lookup(userAnswers, Key(sectionId, segs[j].id.value)) == Lookup(answers, segs[j].id.value)
                 then 1 else 0)
  {
    assert segs[..j + 1][..j] == segs[..j];
    var before := SegmentUnits(sectionId, answers, segs[..j]);
    match SegmentUnit(sectionId, answers, segs[j])
    case Some(u) => MatchesSnoc(before, u, userAnswers);
    case None =>
  }

  /** Walking one more scenario line: a truthy question number adds one unit. */
  lemma SceneStep(sectionId: string, answers: map<string, string>, scenes: seq<Scene>, j: nat, userAnswers: Store)
    requires j < |scenes|
    ensures var counted := Present(scenes[j].questionNo);
      && |SceneUnits(sectionId, answers, scenes[..j + 1])|
           == |SceneUnits(sectionId, answers, scenes[..j])| + (if counted then 1 else 0)
      && Matches(SceneUnits(sectionId, answers, scenes[..j + 1]), userAnswers)
           == Matches(SceneUnits(sectionId, answers, scenes[..j]), userAnswers)
              + (if counted && Lookup(userAnswers, Key(sectionId, scenes[j].questionNo.value))
                               == Lookup(answers, scenes[j].questionNo.value)
                 then 1 else 0)
  {
    assert scenes[..j + 1][..j] == scenes[..j];
    var before := SceneUnits(sectionId, answers, scenes[..j]);
    match SceneUnit(sectionId, answers, scenes[j])
    case Some(u) => MatchesSnoc(before, u, userAnswers);
    case None =>
  }

  /** Walking one more sub-question: it always adds one unit. */
  lemma QuestionStep(sectionId: string, qs: seq<SubQuestion>, j: nat, userAnswers: Store)
    requires j < |qs|
    ensures |QuestionUnits(sectionId, qs[..j + 1])| == |QuestionUnits(sectionId, qs[..j])| + 1
    ensures Matches(QuestionUnits(sectionId, qs[..j + 1]), userAnswers)
         == Matches(QuestionUnits(sectionId, qs[..j]), userAnswers)
            + (if Lookup(userAnswers, Key(sectionId, qs[j].subId)) == qs[j].demoAnswer then 1 else 0)
  {
    assert qs[..j + 1][..j] == qs[..j];
    MatchesSnoc(QuestionUnits(sectionId, qs[..j]), QuestionUnit(sectionId, qs[j]), userAnswers);
  }

  /** The inner walk over a fill-in-blank section's segments. */
  method GradeFillInBlank(section: Section, userAnswers: Store) returns (correctCount: nat, totalQuestions: nat)
    requires section.FillInBlank?
    ensures totalQuestions == |SectionUnits(section)|
    ensures correctCount == Matches(SectionUnits(section), userAnswers)
  {
    totalQuestions, correctCount := 0, 0;
    var segs := section.textSegments;
    var j := 0;
    while j < |segs|
      invariant 0 <= j <= |segs|
      invariant totalQuestions == |SegmentUnits(section.id, section.answers, segs[..j])|
      invariant correctCount == Matches(SegmentUnits(section.id, section.answers, segs[..j]), userAnswers)
    {
      var seg := segs[j];
      SegmentStep(section.id, section.answers, segs, j, userAnswers);
      if seg.Marker? && Present(seg.id) {
        totalQuestions := totalQuestions + 1;
        if Lookup(userAnswers, Key(section.id, seg.id.value)) == Lookup(section.answers, seg.id.value) {
          correctCount := correctCount + 1;
        }
      }
      j := j + 1;
    }
    assert segs[..|segs|] == segs;
  }

  /** The inner walk over a scenario-judgment section's lines. */
  method GradeScenarioJudgment(section: Section, userAnswers: Store) returns (correctCount: nat, totalQuestions: nat)
    requires section.ScenarioJudgment?
    ensures totalQuestions == |SectionUnits(section)|
    ensures correctCount == Matches(SectionUnits(section), userAnswers)
  {
    totalQuestions, correctCount := 0, 0;
    var scenes := section.scenarios;
    var j := 0;
    while j < |scenes|
      invariant 0 <= j <= |scenes|
      invariant totalQuestions == |SceneUnits(section.id, section.answers, scenes[..j])|
      invariant correctCount == Matches(SceneUnits(section.id, section.answers, scenes[..j]), userAnswers)
    {
      var scene := scenes[j];
      SceneStep(section.id, section.answers, scenes, j, userAnswers);
      if Present(scene.questionNo) {
        totalQuestions := totalQuestions + 1;
        if Lookup(userAnswers, Key(section.id, scene.questionNo.value)) == Lookup(section.answers, scene.questionNo.value) {
          correctCount := correctCount + 1;
        }
      }
      j := j + 1;
    }
    assert scenes[..|scenes|] == scenes;
  }

  /** The inner walk over a multiple- or binary-choice section's sub-questions. */
  method GradeChoice(section: Section, userAnswers: Store) returns (correctCount: nat, totalQuestions: nat)
    requires section.MultipleChoice? || section.BinaryChoice?
    ensures totalQuestions == |SectionUnits(section)|
    ensures correctCount == Matches(SectionUnits(section), userAnswers)
  {
    totalQuestions, correctCount := 0, 0;
    var qs := section.questions;
    var j := 0;
    while j < |qs|
      invariant 0 <= j <= |qs|
      invariant totalQuestions == |QuestionUnits(section.id, qs[..j])|
      invariant correctCount == Matches(QuestionUnits(section.id, qs[..j]), userAnswers)
    {
      var q := qs[j];
      QuestionStep(section.id, qs, j, userAnswers);
      totalQuestions := totalQuestions + 1;
      if Lookup(userAnswers, Key(section.id, q.subId)) == q.demoAnswer {
        correctCount := correctCount + 1;
      }
      j := j + 1;
    }
    assert qs[..|qs|] == qs;
  }

  /** One section of the pass, dispatched on its type; an unrecognised type adds nothing. */
  method GradeSection(section: Section, userAnswers: Store) returns (correctCount: nat, totalQuestions: nat)
    ensures totalQuestions == |SectionUnits(section)|
    ensures correctCount == Matches(SectionUnits(section), userAnswers)
  {
    correctCount, totalQuestions := 0, 0;
    if section.FillInBlank? {
      correctCount, totalQuestions := GradeFillInBlank(section, userAnswers);
    } else if section.ScenarioJudgment? {
      correctCount, totalQuestions := GradeScenarioJudgment(section, userAnswers);
    } else if section.MultipleChoice? || section.BinaryChoice? {
      correctCount, totalQuestions := GradeChoice(section, userAnswers);
    }
  }

  /**
   * The grading pass: a walk over the sections that keeps the two counters
   * `correctCount` and `totalQuestions`, dispatching on the section type.
   */
  method Grade(bank: seq<Section>, userAnswers: Store) returns (correctCount: nat, totalQuestions: nat)
    ensures totalQuestions == Total(bank)
    ensures correctCount == Correct(bank, userAnswers)
  {
    totalQuestions, correctCount := 0, 0;
    var i := 0;
    while i < |bank|
      invariant 0 <= i <= |bank|
      invariant totalQuestions == Total(bank[..i])
      invariant correctCount == Correct(bank[..i], userAnswers)
    {
      var c, t := GradeSection(bank[i], userAnswers);
      BankUnitsStep(bank, i, userAnswers);
      totalQuestions, correctCount := totalQuestions + t, correctCount + c;
      i := i + 1;
    }
    assert bank[..|bank|] == bank;
  }
}
