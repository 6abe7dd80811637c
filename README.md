# hc-exam-app exam session, modelled in Dafny

The application is a single-page, self-study mock exam. Its main
component runs the session. It keeps the screen mode (home, exam or
result) and the index of the current section. It keeps the user's answers,
keyed by `sectionId_subId`, and the selected exam edition ('98' or '99'). It
also keeps the confirm-dialog flag and a one-hour countdown. The handlers
change that state. On the result screen, a grading pass walks every section
of the selected bank and counts answerable units and correct answers.

This project models that core:

- `QuestionBank` (`question_bank.dfy`) holds the fields of a section that
  the grading pass reads. JavaScript truthiness of an optional id is `Present`.
- `AnswerStore` (`answer_store.dfy`) holds the composite key and the
  spread-update upsert. It also proves last-write-wins over a whole
  sequence of writes.
- `Grader` (`grader.dfy`) is the grading pass, written as loops. The loops
  are proved against specification functions: `BankUnits` lists the
  answerable units of a bank, and `Matches` counts those whose stored
  answer strictly equals the key. It also holds the rounded percentage.
- `Display` (`display.dfy`) holds `formatTime`, with a parser proved to be
  its left inverse, and the progress-bar value.
- `ExamSession` (`exam_session.dfy`) has a `Session` class. Each React
  state slot is a field of it, and each handler is a method. A ghost
  invariant `Valid` is kept by every method. The timer is `Tick`: one
  call of the interval callback (402) while time is left, or the effect's
  expiry run (404-408) once `timeLeft` is 0.
- `Scenarios` (`scenarios.dfy`) holds whole runs of the session, three
  concrete grading examples, and both sides of the finding below.
- `Optional` and `Arithmetic` are small support modules.

The bank content lives in a data module that is not part of this model, so
every result holds for an arbitrary bank.

A unit missing from the answer key is still counted in the total. If it is
unanswered it scores, because both sides of `===` are then `undefined` (`Grader.EmptyAnswersScoreZeroIff`,
`Scenarios.UnkeyedBlankScoresUnanswered`).

## Model

| member | source | states |
|---|---|---|
| `AnswerStore.Key` | src/App.js:440 | no contract of its own; `KeyInjective` and `KeyCollision` state when the template key is unique |
| `AnswerStore.Lookup` | src/App.js:536 | no contract of its own; property access, giving `None` for `undefined`; `Record` and `ReplayIsLastWrite` state what it reads after updates |
| `AnswerStore.Record` | src/App.js:437-442 | the new store maps the composite key to the value; every other key reads as before; the key set grows by that one key only |
| `AnswerStore.ReplayIsLastWrite` | src/App.js:437-442 | after any sequence of answer changes, each key reads as the value of its most recent write, or undefined if it was never written |
| `AnswerStore.OverwriteKeepsLatest` | src/App.js:437-442 | answering the same unit twice leaves exactly the store that answering it once with the second value leaves |
| `AnswerStore.KeyInjective` | src/App.js:440 | when section ids contain no `_`, equal composite keys come from equal (section id, sub id) pairs |
| `AnswerStore.KeyCollision` | src/App.js:440 | without that condition two different units share a key: `a_b`/`c` and `a`/`b_c` |
| `Grader.SegmentUnitsCount` | src/App.js:533-535 | a fill-in-blank section contributes exactly as many units as it has object segments with a truthy id |
| `Grader.SceneUnitsCount` | src/App.js:540-542 | a scenario section contributes exactly as many units as it has lines with a truthy question number |
| `Grader.Grade` | src/App.js:527-552 | the loop's counters end equal to the number of answerable units of the bank and the number of those whose stored answer strictly equals the key |
| `Grader.GradeSection` | src/App.js:532-551 | one section adds its own units to both counters; a section of an unrecognised type adds nothing |
| `Grader.GradeFillInBlank` | src/App.js:532-539 | the segment walk counts the object segments with a truthy id, and the matches among them |
| `Grader.GradeScenarioJudgment` | src/App.js:539-546 | the scenario walk counts the lines with a truthy question number, and the matches among them |
| `Grader.GradeChoice` | src/App.js:546-551 | the sub-question walk counts every sub-question, and those whose stored answer equals `demoAnswer` |
| `Grader.SegmentUnitsExactly` | src/App.js:533-535 | a unit is graded for a fill-in-blank section if and only if some segment of it is an object with a truthy id and yields that unit |
| `Grader.SceneUnitsExactly` | src/App.js:540-542 | a unit is graded for a scenario section if and only if some line with a truthy question number yields it |
| `Grader.QuestionUnitsAll` | src/App.js:547-549 | a choice section grades exactly its sub-questions, one unit each, in order |
| `Grader.CorrectAtMostTotal` | src/App.js:527-552 | the correct count never exceeds the total |
| `Grader.FullMarksIff` | src/App.js:527-552 | correct equals total if and only if every answerable unit's stored answer equals its key |
| `Grader.EmptyAnswersScoreZeroIff` | src/App.js:527-552 | with no answers stored, the score is zero if and only if every unit has an answer-key entry |
| `Grader.MatchesAppend` | src/App.js:530-552 | counting matches over two unit lists in a row adds the two counts, so the sections' counts sum |
| `Grader.Percentage` | src/App.js:554 | zero for an empty bank; otherwise the nearest integer to 100 * correct / total, halves rounded up; at most 100 while correct is at most total; exactly 100 for full marks |
| `Display.Digits` | src/App.js:415 | `toString` of a non-negative integer: at least one decimal digit, no leading zero, one digit exactly below 10, at most two below 100; `DigitsValue` states that it denotes the number |
| `Display.PadStart` | src/App.js:415 | the result is the input left-padded with `'0'` to the width, or the input itself if it is already that long |
| `Display.FormatTime` | src/App.js:412-416 | no contract of its own; `FormatTimeFields` and `ParseFormatTime` state its shape and its round trip |
| `Display.FormatTimeFields` | src/App.js:412-416 | the countdown text is a minutes field of at least two digits denoting seconds / 60, a colon, and a two-digit field denoting seconds % 60 |
| `Display.ParseFormatTime` | src/App.js:412-416 | reading the `MM:SS` text back gives the remaining seconds, for every non-negative count |
| `Display.FormatTimeInjective` | src/App.js:412-416 | different remaining times are shown as different texts |
| `Display.FormatTimeFullHour` | src/App.js:385 | the initial hour is shown as `60:00`; minutes are not wrapped at 60 |
| `Display.Progress` | src/App.js:395 | no contract of its own; `ProgressBounds` and `ProgressMonotone` state its value and monotonicity |
| `Display.ProgressBounds` | src/App.js:395 | 0 for an empty bank; otherwise the floor of (index + 1) * 100 / length, at most 100 inside the bank, and 100 exactly at the last section |
| `Display.ProgressMonotone` | src/App.js:395 | moving forward never shrinks the progress bar |
| `ExamSession.Session.ExamData` | src/App.js:389 | no contract of its own; the bank of the selected edition, which `Score` and the navigation contracts refer to |
| `ExamSession.Session.constructor` | src/App.js:378-386 | the initial state: home screen, index 0, no answers, edition '98', dialog closed, 3600 seconds on a stopped timer |
| `ExamSession.Session.HandleStart` | src/App.js:419-426 | with an empty bank nothing changes; otherwise exam mode at section 0, no answers, a full hour, timer running; edition and dialog unchanged |
| `ExamSession.Session.HandleFinishButton` | src/App.js:428 | opens the dialog and changes nothing else |
| `ExamSession.Session.CancelFinish` | src/App.js:592 | closes the dialog and changes nothing else |
| `ExamSession.Session.ConfirmFinish` | src/App.js:430-435 | closes the dialog, stops the timer, goes to the result screen at section 0; answers, edition and remaining time are kept |
| `ExamSession.Session.HandleAnswerChange` | src/App.js:437-442 | the answers become the upsert of the one key; nothing else changes |
| `ExamSession.Session.NextQuestion` | src/App.js:444-451 | advances by one before the last section; at the last section keeps the index and opens the dialog |
| `ExamSession.Session.NextQuestionIntended` | src/App.js:557 | as `NextQuestion`, except that at the last section of the review it moves past the end, so the summary is shown |
| `ExamSession.Session.ReviewAnswers` | src/App.js:568 | the summary's review button goes back to section 0 and changes nothing else |
| `ExamSession.Session.PrevQuestion` | src/App.js:453-458 | goes back by one, except at section 0, where nothing changes |
| `ExamSession.Session.ToggleExamVersion` | src/App.js:460-471 | refused during the exam; otherwise flips the edition and lands on the home screen; leaving the result screen also clears answers, index and timer |
| `ExamSession.Session.Tick` | src/App.js:398-410 | a stopped timer changes nothing; a running timer above zero loses one second; a running timer at zero stops and moves to the result screen at section 0, once per start |
| `ExamSession.Session.Score` | src/App.js:527-554 | the result screen's correct count, total and percentage for the selected bank and stored answers, with correct at most total and percentage at most 100 |
| `Scenarios.TimeRunsOut` | src/App.js:398-410 | after a start, 3600 timer runs reach zero still in the exam; the next run ends the exam; later runs change nothing |
| `Scenarios.FinishThenRestart` | src/App.js:419-435 | finishing early freezes the remaining time; restarting clears the answers and index and refills the hour |
| `Scenarios.ReviewToTheEndAsWritten` | src/App.js:444-451 | walking the review to the end opens the dialog, and confirming it returns to section 0 without the summary |
| `Scenarios.ReviewToTheEndIntended` | src/App.js:557-581 | with the corrected navigation the same walk ends on the summary |
| `Scenarios.HalfOfTwoBlanks` | src/App.js:532-539 | a text with blanks b1 and b2, a layout break and a literal, with only b1 answered correctly, grades 1 of 2, which is 50% |
| `Scenarios.AllThreeCorrect` | src/App.js:546-551 | three multiple-choice sub-questions all answered with their `demoAnswer` grade 3 of 3, which is 100% |
| `Scenarios.UnkeyedBlankScoresUnanswered` | src/App.js:536 | a blank missing from the answer key counts as correct when unanswered |

## Left out

- Rendering is left out: the JSX screens, themes, icons, the low-time colour threshold, explanations and `window.scrollTo`. They change no session state.
- The bank content of the data module is not part of this model, so a bank is any sequence of sections.
- The timer's wall-clock scheduling is not modelled: `setInterval` every 1000 ms, and `clearInterval` when the effect re-runs. `Tick` is one call of the interval callback (402) while time is left, or the effect's expiry run (404-408) once `timeLeft` is 0. So a running timer at D seconds expires on tick D + 1.
- Stale reads between renders are not modelled. The guards at 445 and 454 read the rendered `currentSectionIndex`, while the updates at 446 and 455 use `prev`. Each handler of the model acts on the latest state, so two clicks handled before one re-render are not captured.
- `Grader.Percentage`: uses exact integer rounding of 100 * correct / total. `Math.round` of the floating-point product can differ when the exact value is a half that floating point misses.
- `Display.ProgressBounds`: the source's progress is a floating-point percentage; the model takes its integer floor.
- `Grader.SegmentUnit`: ids and question numbers are strings. A numeric question number 0 would be falsy in JavaScript; the model has no numeric ids.
- `ExamSession.Session.ConfirmFinish`: requires a non-home screen; the dialog that calls it is rendered only on the exam and review screens.
- `ExamSession.Session.HandleAnswerChange`: requires a non-home screen; the answer controls that call it are rendered only on the exam and review screens.
- `ExamSession.Session.NextQuestion`: requires a non-home screen; the footer button that calls it is rendered only on the exam and review screens.
- Key collisions for section ids containing `_` are not ruled out, since the source does not rule them out. `AnswerStore.KeyCollision` shows one.

## Findings

| source | as written | input that shows it | evidently intended | confidence | as-written member | corrected member |
|---|---|---|---|---|---|---|
| src/App.js:444-451 | on the result screen at the last section, "next" opens the finish dialog; confirming it sets the index back to 0. No handler moves the index past the last section, so the score summary, shown only once the index reaches the bank length (557), is never shown: every as-written method of `Session` keeps `WithinSections` | any non-empty bank: start, confirm finish, press "next" to the last section, press "next", confirm | at the last section of the review, "next" (labelled "back to results", line 663) moves past the end and shows the summary | high, not executed | `ExamSession.Session.NextQuestion`, `Scenarios.ReviewToTheEndAsWritten` | `ExamSession.Session.NextQuestionIntended`, `Scenarios.ReviewToTheEndIntended` |
