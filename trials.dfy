/** The values the experiment passes between its parts: trial definitions
    read from the trial table, the trials built from them, attention-check
    questions and the experiment configuration. */
module Trials {
  import opened Wrappers

  /** One cell of a trial-table record: numeric columns hold what `parseInt`
      gave (`None` for NaN); other columns hold the text, `None` when the
      line had no value at that column. */
  datatype Field = Number(n: Option<int>) | Text(s: Option<string>)

  /** A trial-table record: column header to cell. */
  type Record = map<string, Field>

  /** `record[key]` read as a number; absent, NaN or text all give `None`. */
  function NumberOf(record: Record, key: string): Option<int>
  {
    if key in record && record[key].Number? then record[key].n else None
  }

  /** `record[key]` read as text; absent or numeric gives `None`. */
  function TextOf(record: Record, key: string): Option<string>
  {
    if key in record && record[key].Text? then record[key].s else None
  }

  /** Practice trials are numbered `practice_1` … and main trials 1, 2, …. */
  datatype TrialNumber = PracticeNumber(p: nat) | MainNumber(m: nat)

  /** A trial as presented: the table's fields, the side the risky bar is on
      and whether it is a practice trial. `None` stands for undefined or NaN. */
  datatype Trial = Trial(
    number: TrialNumber,
    riskProbability: Option<int>,
    riskReward: Option<int>,
    safeReward: Option<int>,
    sizeCondition: Option<string>,
    riskOnLeft: bool,
    isPractice: bool,
    combinationId: Option<int>,
    expectedValue: Option<int>,
    trialId: Option<int>)

  /** The trial built from a table record. */
  function TrialOf(record: Record, number: TrialNumber, riskOnLeft: bool, isPractice: bool): Trial
  {
    Trial(number,
          NumberOf(record, "risk_probability"), NumberOf(record, "risk_reward"),
          NumberOf(record, "safe_reward"), TextOf(record, "size_condition"),
          riskOnLeft, isPractice,
          NumberOf(record, "combination_id"), NumberOf(record, "expected_value"),
          NumberOf(record, "trial_id"))
  }

  /** An attention-check question from the configuration. */
  datatype Question = Question(kind: string, prompt: string, correctAnswer: string)

  /** One step of a timeline: a trial or an attention check. */
  datatype Item = TrialItem(trial: Trial) | CheckItem(question: Question)

  datatype BarSize = BarSize(width: int, height: int)

  /** The `experimentConfig` object. */
  datatype Config = Config(
    mainTrials: int,
    attentionChecks: int,
    trialDuration: int,
    largeBar: BarSize,
    smallBar: BarSize,
    largeFont: int,
    smallFont: int)

  /** The configuration file: its `experimentConfig`, its attention-check
      questions (`None` when absent) and its optional `studyType`. */
  datatype ConfigFile = ConfigFile(
    experimentConfig: Config,
    attentionCheckQuestions: Option<seq<Question>>,
    studyType: Option<string>)

  /** `Math.floor(u * n)` for a draw `u` of `Math.random()`: an index below `n`. */
  function RandomIndex(u: real, n: nat): (j: nat)
    requires 0.0 <= u < 1.0 && n > 0
    ensures j < n
    ensures j as real <= u * n as real < (j + 1) as real
  {
    assert 0.0 <= u * n as real < n as real by {
      assert u * n as real <= 1.0 * n as real;
    }
    (u * n as real).Floor
  }
}
