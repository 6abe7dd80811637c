/**
 * The question bank: one `Section` per exam page. The bank content itself
 * lives in a data module that is not part of this model, so a bank is an
 * arbitrary `seq<Section>`. Only the fields the grading pass reads are kept;
 * titles, instructions, option texts and explanations are display data.
 */
module QuestionBank {
  import opened Optional

  /** JavaScript truthiness of an optional string field: present and non-empty. */
  predicate Present(field: Option<string>) {
    field.Some? && field.value != ""
  }

  /**
   * One element of a fill-in-blank text: a literal string, or an object.
   * An object with `break` set is a layout break; an object with a truthy
   * `id` is a blank. Grading looks only at `id`.
   */
  datatype Segment =
    | Literal(text: string)
    | Marker(isBreak: bool, id: Option<string>)

  /** One line of a scenario; a line with a truthy `questionNo` is a judgment to answer. */
  datatype Scene = Scene(speaker: string, questionNo: Option<string>)

  /** A sub-question of a multiple- or binary-choice section with its key `demoAnswer`. */
  datatype SubQuestion = SubQuestion(subId: string, demoAnswer: Option<string>)

  /**
   * A section, tagged by its `type` string. `Unrecognised` stands for any
   * other `type` value, which the grading pass's if/else-if chain skips.
   */
  datatype Section =
    | FillInBlank(id: string, textSegments: seq<Segment>, answers: map<string, string>)
    | ScenarioJudgment(id: string, scenarios: seq<Scene>, answers: map<string, string>)
    | MultipleChoice(id: string, questions: seq<SubQuestion>)
    | BinaryChoice(id: string, questions: seq<SubQuestion>)
    | Unrecognised(id: string)
}
