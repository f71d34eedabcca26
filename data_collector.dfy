/** What the browser records and sends: the row written for each main trial,
    the attention-check record, the bonus drawn at the end, the retrying
    upload and the messages shown when saving fails. */
module DataCollector {
  import opened Wrappers
  import opened Text
  import opened Trials
  import Csv

  // ---------------------------------------------------------------------
  // the trial row

  /** The recorded choice: the clicked bar, or `timeout` when none was clicked. */
  function ChoiceText(current: Option<string>): (c: string)
    ensures c == "risk" || c == "safe" || c == "timeout"
    ensures current == Some("risk") || current == Some("safe") ==> c == current.value
    ensures c == "timeout" ==> current != Some("risk") && current != Some("safe")
  {
    if current == Some("risk") || current == Some("safe") then current.value else "timeout"
  }

  /** `x || 0` for a value that may be NaN or undefined. */
  function OrZero(x: Option<int>): int
  {
    match x
    case Some(v) => v
    case None => 0
  }

  /** `x || 'unknown'` for text. */
  function TextOrUnknown(x: Option<string>): string
  {
    match x
    case Some(s) => if s != "" then s else "unknown"
    case None => "unknown"
  }

  /** `x || 'unknown'` for a number: zero and NaN are falsy. */
  function NumberOrUnknown(x: Option<int>): string
  {
    match x
    case Some(v) => if v != 0 then IntText(v) else "unknown"
    case None => "unknown"
  }

  /** The expected-value comparison: `same` when `(p / 100) * r` is within
      0.01 of `s`, `safe` when `s` is the larger, `risky` otherwise; a NaN
      fails every comparison and so gives `risky`. */
  function EvLabel(p: Option<int>, r: Option<int>, s: Option<int>): (word: string)
    ensures word == "same" || word == "safe" || word == "risky"
  {
    if p.Some? && r.Some? && s.Some? then
      // (p / 100) * r, exact: the same value as p * r / 100
      var riskEV := (p.value * r.value) as real / 100.0;
      var diff := riskEV - s.value as real;
      if -0.01 < diff < 0.01 then "same"
      else if s.value as real > riskEV then "safe"
      else "risky"
    else "risky"
  }

  /** For whole-number tables the 0.01 tolerance means exact equality of
      `p * r` and `100 * s`, and the label orders the two expected values. */
  lemma EvLabelExact(p: int, r: int, s: int)
    ensures EvLabel(Some(p), Some(r), Some(s)) == "same" <==> p * r == 100 * s
    ensures EvLabel(Some(p), Some(r), Some(s)) == "safe" <==> 100 * s > p * r
    ensures EvLabel(Some(p), Some(r), Some(s)) == "risky" <==> 100 * s < p * r
  {
    var d := p * r - 100 * s;
    var riskEV := (p * r) as real / 100.0;
    assert riskEV - s as real == d as real / 100.0;
    if -1 < d < 1 {
      assert d == 0;
    }
  }

  /** The three decimal digits of a fraction `f / 1000`. */
  function Digits3(f: nat): string
    requires f < 1000
  {
    [DigitChar(f / 100), DigitChar(f / 10 % 10), DigitChar(f % 10)]
  }

  function DropTrailingZeros(s: string): string
    decreases |s|
  {
    if |s| > 0 && s[|s| - 1] == '0' then DropTrailingZeros(s[..|s| - 1]) else s
  }

  /** How JavaScript prints `ms / 1000` seconds: the shortest decimal. */
  function SecondsText(ms: int): string
    decreases if ms < 0 then 1 else 0
  {
    if ms < 0 then "-" + SecondsText(-ms)
    else if ms % 1000 == 0 then IntText(ms / 1000)
    else IntText(ms / 1000) + "." + DropTrailingZeros(Digits3(ms % 1000))
  }

  /** `barChoiceTime || NaN`: no click, or a click at zero seconds, prints `NaN`. */
  function BarChoiceText(barChoiceMs: Option<int>): string
  {
    match barChoiceMs
    case Some(b) => if b != 0 then SecondsText(b) else "NaN"
    case None => "NaN"
  }

  /** `(barChoiceTime && submitTime) ? submitTime - barChoiceTime : NaN`. */
  function ConfidenceTimeText(barChoiceMs: Option<int>, submitMs: int): string
  {
    match barChoiceMs
    case Some(b) => if b != 0 && submitMs != 0 then SecondsText(submitMs - b) else "NaN"
    case None => "NaN"
  }

  /** The fifteen fields of a main-trial row, before escaping:
      participant, trial number, size condition, choice, confidence, the two
      probabilities and rewards, the two positions, the EV label and the two
      response times, and the trial id. */
  function TrialRow(subjectId: Option<string>, trialNumber: int, trial: Trial, currentChoice: Option<string>,
                    confidence: Option<int>, barChoiceMs: Option<int>, submitMs: int): (row: seq<string>)
    ensures |row| == 15
  {
    [ TextOrUnknown(subjectId),
      IntText(trialNumber),
      TextOrUnknown(trial.sizeCondition),
      ChoiceText(currentChoice),
      match confidence case Some(c) => IntText(c) case None => "NaN",
      IntText(OrZero(trial.riskProbability)),
      IntText(OrZero(trial.riskReward)),
      "100",
      IntText(OrZero(trial.safeReward)),
      if trial.riskOnLeft then "left" else "right",
      if trial.riskOnLeft then "right" else "left",
      EvLabel(trial.riskProbability, trial.riskReward, trial.safeReward),
      BarChoiceText(barChoiceMs),
      ConfidenceTimeText(barChoiceMs, submitMs),
      NumberOrUnknown(trial.trialId) ]
  }

  /** The row carries the trial's number and recorded choice, the safe
      probability is always 100, and the two positions are always opposite,
      the risky one on the left exactly when the trial says so. */
  lemma TrialRowFields(subjectId: Option<string>, trialNumber: int, trial: Trial, currentChoice: Option<string>,
                       confidence: Option<int>, barChoiceMs: Option<int>, submitMs: int)
    ensures var row := TrialRow(subjectId, trialNumber, trial, currentChoice, confidence, barChoiceMs, submitMs);
            && row[1] == IntText(trialNumber) && row[3] == ChoiceText(currentChoice) && row[7] == "100"
            && (row[9] == "left" || row[9] == "right") && (row[10] == "left" || row[10] == "right")
            && row[9] != row[10] && (row[9] == "left" <==> trial.riskOnLeft)
  {
  }

  /** Only the participant id of a trial row can hold a newline: every other
      field is a number, a fixed word or the table's size condition. */
  lemma {:induction false} IntTextOneLine(n: int)
    ensures '\n' !in IntText(n)
  {
    NatTextDigits(if n < 0 then -n else n);
  }

  lemma NatTextDigits(n: nat)
    ensures forall k :: 0 <= k < |NatText(n)| ==> IsDigit(NatText(n)[k])
  {
  }

  lemma {:induction false} DropTrailingZerosPrefix(s: string)
    ensures |DropTrailingZeros(s)| <= |s| && DropTrailingZeros(s) == s[..|DropTrailingZeros(s)|]
    decreases |s|
  {
    if |s| > 0 && s[|s| - 1] == '0' {
      DropTrailingZerosPrefix(s[..|s| - 1]);
    }
  }

  lemma SecondsOneLine(ms: int)
    ensures '\n' !in SecondsText(ms) && ',' !in SecondsText(ms) && '"' !in SecondsText(ms)
  {
    if ms < 0 {
      SecondsOneLineNat(-ms);
      UnmarkedAppend("-", SecondsText(-ms));
      assert SecondsText(ms) == "-" + SecondsText(-ms);
    } else {
      SecondsOneLineNat(ms);
    }
  }

  lemma UnmarkedAppend(a: string, b: string)
    requires '\n' !in a && ',' !in a && '"' !in a
    requires '\n' !in b && ',' !in b && '"' !in b
    ensures '\n' !in a + b && ',' !in a + b && '"' !in a + b
  {
  }

  lemma SecondsOneLineNat(ms: nat)
    ensures '\n' !in SecondsText(ms) && ',' !in SecondsText(ms) && '"' !in SecondsText(ms)
  {
    var whole, fraction := ms / 1000, ms % 1000;
    WholeAndFraction(whole, fraction);
    assert SecondsText(ms) == if fraction == 0 then IntText(whole)
                              else IntText(whole) + "." + DropTrailingZeros(Digits3(fraction));
  }

  /** Whole seconds, and whole seconds with a printed fraction, hold only
      digits and the point. */
  lemma WholeAndFraction(whole: nat, fraction: nat)
    requires fraction < 1000
    ensures var s := IntText(whole); '\n' !in s && ',' !in s && '"' !in s
    ensures var s := IntText(whole) + "." + DropTrailingZeros(Digits3(fraction));
            '\n' !in s && ',' !in s && '"' !in s
  {
    assert IntText(whole) == NatText(whole);
    DigitsUnmarked(NatText(whole));
    FractionDigits(fraction);
    DigitsUnmarked(DropTrailingZeros(Digits3(fraction)));
  }

  /** The printed fraction of a second holds only digits. */
  lemma FractionDigits(f: nat)
    requires f < 1000
    ensures AllDigits(DropTrailingZeros(Digits3(f)))
  {
    var digits := Digits3(f);
    var kept := DropTrailingZeros(digits);
    DropTrailingZerosPrefix(digits);
    assert forall k :: 0 <= k < |kept| ==> kept[k] == digits[k];
  }

  lemma DigitsUnmarked(s: string)
    requires AllDigits(s)
    ensures '\n' !in s && ',' !in s && '"' !in s
  {
  }

  lemma WordsOneLine()
    ensures '\n' !in "same" && '\n' !in "safe" && '\n' !in "risky" && '\n' !in "100"
    ensures '\n' !in "left" && '\n' !in "right" && '\n' !in "NaN"
    ensures '\n' !in "risk" && '\n' !in "timeout"
  {
  }

  lemma TextOrUnknownOneLine(x: Option<string>)
    requires x.Some? ==> '\n' !in x.value
    ensures '\n' !in TextOrUnknown(x)
  {
  }

  lemma NumberOrUnknownOneLine(x: Option<int>)
    ensures '\n' !in NumberOrUnknown(x)
  {
    if x.Some? {
      IntTextOneLine(x.value);
    }
  }

  lemma TimesOneLine(barChoiceMs: Option<int>, submitMs: int)
    ensures '\n' !in BarChoiceText(barChoiceMs) && '\n' !in ConfidenceTimeText(barChoiceMs, submitMs)
  {
    if barChoiceMs.Some? {
      SecondsOneLine(barChoiceMs.value);
      SecondsOneLine(submitMs - barChoiceMs.value);
    }
  }

  /** The row's fields hold no newline unless the participant id or the
      size condition does. */
  lemma TrialRowOneLine(subjectId: Option<string>, trialNumber: int, trial: Trial, currentChoice: Option<string>,
                        confidence: Option<int>, barChoiceMs: Option<int>, submitMs: int)
    requires subjectId.Some? ==> '\n' !in subjectId.value
    requires trial.sizeCondition.Some? ==> '\n' !in trial.sizeCondition.value
    ensures var row := TrialRow(subjectId, trialNumber, trial, currentChoice, confidence, barChoiceMs, submitMs);
            forall k :: 0 <= k < |row| ==> '\n' !in row[k]
  {
    var row := TrialRow(subjectId, trialNumber, trial, currentChoice, confidence, barChoiceMs, submitMs);
    TextOrUnknownOneLine(subjectId);
    TextOrUnknownOneLine(trial.sizeCondition);
    IntTextOneLine(trialNumber);
    IntTextOneLine(OrZero(trial.riskProbability));
    IntTextOneLine(OrZero(trial.riskReward));
    IntTextOneLine(OrZero(trial.safeReward));
    if confidence.Some? {
      IntTextOneLine(confidence.value);
    }
    NumberOrUnknownOneLine(trial.trialId);
    TimesOneLine(barChoiceMs, submitMs);
    WordsOneLine();
  }

  /** What `saveTrialData` pushes to `csvData`: the escaped fields joined by
      commas and ended by a newline. */
  function RowLine(row: seq<string>): string
  {
    Csv.EncodeRow(row) + "\n"
  }

  /** The record kept for the bonus draw. */
  datatype CompletedTrial = CompletedTrial(trialNumber: int, choice: string,
                                           riskProbability: int, riskReward: int, safeReward: int)

  function CompletedOf(trialNumber: int, trial: Trial, currentChoice: Option<string>): CompletedTrial
  {
    CompletedTrial(trialNumber, ChoiceText(currentChoice),
                   OrZero(trial.riskProbability), OrZero(trial.riskReward), OrZero(trial.safeReward))
  }

  /** The record `saveAttentionCheckData` keeps. */
  datatype AttentionRow = AttentionRow(
    participantId: string, number: nat, questionType: string, prompt: string,
    correctAnswer: string, userAnswer: string, isCorrect: bool,
    responseSeconds: real, timestamp: string, sessionId: string)

  /** Row `n` of the upload: fifteen fields numbered `n`, and the
      completed-trial record of the same number and choice. */
  predicate RowAt(row: seq<string>, completed: CompletedTrial, n: int)
  {
    && |row| == 15 && row[1] == IntText(n)
    && completed.trialNumber == n && row[3] == completed.choice
  }

  predicate RowsMatch(rows: seq<seq<string>>, completed: seq<CompletedTrial>)
    decreases |rows|
  {
    && |completed| == |rows|
    && (|rows| > 0 ==>
          && RowsMatch(rows[..|rows| - 1], completed[..|rows| - 1])
          && RowAt(rows[|rows| - 1], completed[|rows| - 1], |rows|))
  }

  /** Row `k` and completed trial `k` carry the number `k + 1`. */
  lemma {:induction false} RowsMatchAt(rows: seq<seq<string>>, completed: seq<CompletedTrial>, k: int)
    requires RowsMatch(rows, completed) && 0 <= k < |rows|
    ensures RowAt(rows[k], completed[k], k + 1)
    decreases |rows|
  {
    if k < |rows| - 1 {
      RowsMatchAt(rows[..|rows| - 1], completed[..|rows| - 1], k);
    }
  }

  /** The escaped lines of `rows`, in order. */
  function LinesOf(rows: seq<seq<string>>): (lines: seq<string>)
    ensures |lines| == |rows|
    decreases |rows|
  {
    if rows == [] then [] else LinesOf(rows[..|rows| - 1]) + [RowLine(rows[|rows| - 1])]
  }

  lemma {:induction false} LinesOfAt(rows: seq<seq<string>>, k: int)
    requires 0 <= k < |rows|
    ensures LinesOf(rows)[k] == RowLine(rows[k])
    decreases |rows|
  {
    if k < |rows| - 1 {
      LinesOfAt(rows[..|rows| - 1], k);
    }
  }

  lemma RowsMatchAppend(rows: seq<seq<string>>, completed: seq<CompletedTrial>,
                        row: seq<string>, c: CompletedTrial)
    requires RowsMatch(rows, completed) && RowAt(row, c, |rows| + 1)
    ensures RowsMatch(rows + [row], completed + [c])
    ensures LinesOf(rows + [row]) == LinesOf(rows) + [RowLine(row)]
  {
    assert (rows + [row])[..|rows|] == rows;
    assert (completed + [c])[..|rows|] == completed;
  }

  /** A recorded trial's row, its line and its completed-trial record agree. */
  lemma TrialRowAt(subjectId: Option<string>, n: int, trial: Trial, choice: Option<string>,
                   confidence: Option<int>, barChoiceMs: Option<int>, submitMs: int)
    ensures var row := TrialRow(subjectId, n, trial, choice, confidence, barChoiceMs, submitMs);
            RowAt(row, CompletedOf(n, trial, choice), n)
  {
  }

  /** Attention checks numbered 1, 2, … in the order they were answered. */
  predicate Numbered(records: seq<AttentionRow>)
  {
    forall k :: 0 <= k < |records| ==> records[k].number == k + 1
  }

  /** The records kept by `saveTrialData` and `saveAttentionCheckData`: the
      counter one past the last row, each row matched with its completed-trial
      record, the rows' escaped lines in order, and the attention checks
      numbered 1, 2, …. */
  predicate RecordsOk(trialCounter: int, completed: seq<CompletedTrial>, rows: seq<seq<string>>,
                      lines: seq<string>, attention: seq<AttentionRow>)
  {
    && trialCounter == |completed| + 1
    && RowsMatch(rows, completed)
    && lines == LinesOf(rows)
    && Numbered(attention)
  }

  /** The `localStorage` key of a participant's backup. */
  function BackupKey(subjectId: Option<string>): string
  {
    "risk_survey_backup_" + subjectId.GetOr("null")
  }

  // ---------------------------------------------------------------------
  // the bonus

  /** A trial the bonus may be drawn from: numbered 1 to 120 with a bar chosen. */
  predicate Eligible(t: CompletedTrial)
  {
    1 <= t.trialNumber <= 120 && (t.choice == "risk" || t.choice == "safe")
  }

  function EligibleTrials(completed: seq<CompletedTrial>): (e: seq<CompletedTrial>)
    ensures forall t :: t in e <==> t in completed && Eligible(t)
    ensures |e| <= |completed|
    decreases |completed|
  {
    if |completed| == 0 then []
    else (if Eligible(completed[0]) then [completed[0]] else []) + EligibleTrials(completed[1..])
  }

  /** The eligible trials keep the order of `completed`: those of a
      concatenation are those of the first part, then those of the second. */
  lemma {:induction false} EligibleTrialsAppend(a: seq<CompletedTrial>, b: seq<CompletedTrial>)
    ensures EligibleTrials(a + b) == EligibleTrials(a) + EligibleTrials(b)
    decreases |a|
  {
    if |a| > 0 {
      assert (a + b)[1..] == a[1..] + b;
      EligibleTrialsAppend(a[1..], b);
    } else {
      assert a + b == b;
    }
  }

  /** One trial is listed once if it is eligible and not at all otherwise. */
  lemma EligibleTrialsOne(t: CompletedTrial)
    ensures EligibleTrials([t]) == if Eligible(t) then [t] else []
  {
    assert [t][1..] == [];
  }

  /** `convertPointsToUSD`: points of 500,000 and more are on the millions
      scale, worth one dollar per 500,000; smaller amounts are on the hundreds
      scale, one dollar per 50 points. */
  function ConvertPointsToUSD(points: int): real
  {
    if points >= 500000 then points as real / 500000.0 else points as real / 50.0
  }

  /** The reward ranges of the task map to two to twelve dollars on the
      hundreds scale and one to three dollars on the millions scale. */
  lemma ConversionScales(points: int)
    ensures 100 <= points <= 600 ==> 2.0 <= ConvertPointsToUSD(points) <= 12.0
    ensures 500000 <= points <= 1500000 ==> 1.0 <= ConvertPointsToUSD(points) <= 3.0
    ensures points >= 0 ==> ConvertPointsToUSD(points) >= 0.0
  {
  }

  /** The threshold belongs to the millions scale: exactly 500000 points pay
      one dollar, while one point less is still paid at fifty points a dollar. */
  lemma ConversionTiers(points: int)
    ensures points >= 500000 ==> ConvertPointsToUSD(points) * 500000.0 == points as real
    ensures points < 500000 ==> ConvertPointsToUSD(points) * 50.0 == points as real
    ensures ConvertPointsToUSD(150) == 3.0 && ConvertPointsToUSD(750000) == 1.5
    ensures ConvertPointsToUSD(500000) == 1.0 && ConvertPointsToUSD(499999) == 9999.98
  {
  }

  datatype BonusResult =BonusResult(bonus: real, selected: Option<CompletedTrial>, win: bool, rewardPoints: int)

  /** `calculateBonus`: `pick` is the draw choosing the trial, `roll` the draw
      (times 100) deciding a risky choice. */
  function CalculateBonus(completed: seq<CompletedTrial>, pick: real, roll: real): (r: BonusResult)
    requires 0.0 <= pick < 1.0
    ensures r.selected.None? <==> forall t :: t in completed ==> !Eligible(t)
    ensures r.selected.None? ==> r.bonus == 0.0 && !r.win && r.rewardPoints == 0
    ensures r.selected.Some? ==> r.selected.value in completed && Eligible(r.selected.value)
    ensures var e := EligibleTrials(completed);
            |e| > 0 ==> r.selected == Some(e[RandomIndex(pick, |e|)])
    ensures r.selected.Some? && r.selected.value.choice == "safe" ==>
              r.win && r.rewardPoints == r.selected.value.safeReward
              && r.bonus == ConvertPointsToUSD(r.selected.value.safeReward)
    ensures r.selected.Some? && r.selected.value.choice == "risk" ==>
              (r.win <==> roll * 100.0 <= r.selected.value.riskProbability as real)
              && r.rewardPoints == (if r.win then r.selected.value.riskReward else 0)
              && r.bonus == (if r.win then ConvertPointsToUSD(r.selected.value.riskReward) else 0.0)
  {
    var main := EligibleTrials(completed);
    if |main| == 0 then
      BonusResult(0.0, None, false, 0)
    else
      var t := main[RandomIndex(pick, |main|)];
      assert t in main;
      if t.choice == "safe" then
        BonusResult(ConvertPointsToUSD(t.safeReward), Some(t), true, t.safeReward)
      else if t.choice == "risk" then
        if roll * 100.0 <= t.riskProbability as real then
          BonusResult(ConvertPointsToUSD(t.riskReward), Some(t), true, t.riskReward)
        else
          BonusResult(0.0, Some(t), false, 0)
      else
        assert false; BonusResult(0.0, Some(t), false, 0)
  }

  /** The pick draw `u` chooses eligible trial `j` exactly when `u * n` lies
      in `[j, j + 1)`: for every `j` the draws choosing it form an interval
      of the same width `1 / n`. */
  lemma RandomIndexIs(u: real, n: nat, j: nat)
    requires 0.0 <= u < 1.0 && j < n
    ensures RandomIndex(u, n) == j <==> j as real <= u * n as real < (j + 1) as real
  {
    var k := RandomIndex(u, n);
    var x := u * n as real;
    assert k as real <= x < (k + 1) as real;
    if k < j {
      assert (k + 1) as real <= j as real;
    } else if k > j {
      assert (j + 1) as real <= k as real;
    }
  }

  /** A risky choice pays when the roll draw is at most `p / 100`: a chance of
      `p` percent for `p` between 0 and 100. */
  lemma RiskWinChance(completed: seq<CompletedTrial>, pick: real, roll: real)
    requires 0.0 <= pick < 1.0 && 0.0 <= roll < 1.0
    ensures var r := CalculateBonus(completed, pick, roll);
            r.selected.Some? && r.selected.value.choice == "risk" ==>
              && (r.win <==> roll <= r.selected.value.riskProbability as real / 100.0)
              && (r.selected.value.riskProbability >= 100 ==> r.win)
              && (r.selected.value.riskProbability < 0 ==> !r.win)
  {
  }

  /** With non-negative rewards the bonus is never negative. */
  lemma BonusNonNegative(completed: seq<CompletedTrial>, pick: real, roll: real)
    requires 0.0 <= pick < 1.0
    requires forall t :: t in completed ==> t.safeReward >= 0 && t.riskReward >= 0
    ensures CalculateBonus(completed, pick, roll).bonus >= 0.0
  {
  }

  // ---------------------------------------------------------------------
  // uploading with retries

  datatype FetchError = FetchError(name: string, message: string)

  /** The outcome of one `fetch`: an `ok` response, or an error (a network
      failure, a timeout abort, or a response that is not `ok`). */
  datatype Attempt = Ok | Failed(error: FetchError)

  /** What `fetchWithRetry` settles with: the response of a numbered attempt,
      or the last error thrown (`None`: no attempt was made). */
  datatype Fetched = Response(attempt: nat) | Thrown(error: Option<FetchError>)

  function Pow2(n: nat): nat
  {
    if n == 0 then 1 else 2 * Pow2(n - 1)
  }

  /** The waits, in milliseconds, after the first `n` failed attempts: 2 s, 4 s, 8 s, …. */
  function Backoff(n: nat): seq<nat>
  {
    seq(n, k requires 0 <= k < n => Pow2(k + 1) * 1000)
  }

  /** `fetchWithRetry`: `attempts(k)` is what attempt `k` gets back. Every
      failed attempt but the last is followed by a wait and a wake-up ping. */
  method FetchWithRetry(attempts: nat -> Attempt, maxRetries: int) returns (result: Fetched, waits: seq<nat>)
    ensures result.Response? ==>
              && 1 <= result.attempt <= maxRetries && attempts(result.attempt).Ok?
              && forall k :: 1 <= k < result.attempt ==> attempts(k).Failed?
    ensures result.Thrown? ==>
              && (forall k :: 1 <= k <= maxRetries ==> attempts(k).Failed?)
              && result.error == (if maxRetries >= 1 then Some(attempts(maxRetries).error) else None)
    ensures waits == Backoff(if result.Response? then result.attempt - 1
                             else if maxRetries >= 1 then maxRetries - 1 else 0)
  {
    var lastError: Option<FetchError> := None;
    waits := [];
    var attempt := 1;
    while attempt <= maxRetries
      invariant 1 <= attempt <= (if maxRetries >= 1 then maxRetries + 1 else 1)
      invariant forall k :: 1 <= k < attempt ==> attempts(k).Failed?
      invariant lastError == (if attempt > 1 then Some(attempts(attempt - 1).error) else None)
      invariant waits == Backoff(if attempt - 1 < maxRetries then attempt - 1
                                 else if maxRetries >= 1 then maxRetries - 1 else 0)
      decreases maxRetries - attempt
    {
      var outcome := attempts(attempt);
      if outcome.Ok? {
        return Response(attempt), waits;
      }
      lastError := Some(outcome.error);
      if attempt < maxRetries {
        waits := waits + [Pow2(attempt) * 1000];
      }
      attempt := attempt + 1;
    }
    result := Thrown(lastError);
  }

  function Sum(s: seq<nat>): nat
    decreases |s|
  {
    if |s| == 0 then 0 else Sum(s[..|s| - 1]) + s[|s| - 1]
  }

  /** The waits add up to `2^(n+1) - 2` seconds: with the default of three
      attempts, at most the two waits of 2 s and 4 s. */
  lemma {:induction false} BackoffTotal(n: nat)
    ensures Sum(Backoff(n)) == 1000 * (Pow2(n + 1) - 2)
    ensures n == 2 ==> Backoff(n) == [2000, 4000]
    decreases n
  {
    if n > 0 {
      BackoffTotal(n - 1);
      assert Backoff(n)[..n - 1] == Backoff(n - 1);
    }
  }

  // ---------------------------------------------------------------------
  // messages

  const NoDataMessage := "No trial data was collected. Please contact the researcher."
  const NoSubjectMessage := "Subject ID is missing. Please contact the researcher."
  const TimeoutMessage := "Request timed out - the server may be slow to respond. Please try again."
  const NetworkMessage := "Network error - unable to reach the server. Please check your internet connection and try again."
  const CorsMessage := "CORS error - the server may not be configured to accept requests from this origin."
  const SavePrefix := "There was an error saving your data: "

  /** The fallback text names none of the explained failures. */
  lemma UnknownErrorNamesNoCase()
    ensures !Contains("Unknown error", "timeout") && !Contains("Unknown error", "Failed to fetch")
    ensures !Contains("Unknown error", "NetworkError") && !Contains("Unknown error", "CORS")
  {
    NoTimeout();
    NoFailedFetch();
    NoNetworkError();
    NoCors();
  }

  // One literal string fact per lemma keeps each proof small.
  lemma NoTimeout() ensures !Contains("Unknown error", "timeout") { NotContainsFirst("Unknown error", "timeout"); }
  lemma NoFailedFetch() ensures !Contains("Unknown error", "Failed to fetch") { NotContainsFirst("Unknown error", "Failed to fetch"); }
  lemma NoNetworkError() ensures !Contains("Unknown error", "NetworkError") { NotContainsFirst("Unknown error", "NetworkError"); }
  lemma NoCors() ensures !Contains("Unknown error", "CORS") { NotContainsFirst("Unknown error", "CORS"); }

  /** The message shown when the upload fails: a timeout, a network failure
      and a CORS refusal get an explanation; any other error is shown as it is. */
  function SaveErrorMessage(err: FetchError): (shown: string)
    ensures |shown| >= |SavePrefix| && shown[..|SavePrefix|] == SavePrefix
    ensures (&& err.name != "AbortError" && err.message != "" && !Contains(err.message, "timeout")
             && !Contains(err.message, "Failed to fetch") && !Contains(err.message, "NetworkError")
             && !Contains(err.message, "CORS")) ==> shown == SavePrefix + err.message
    ensures err.name == "AbortError" || Contains(err.message, "timeout") ==> shown == SavePrefix + TimeoutMessage
    ensures (&& err.name != "AbortError" && !Contains(err.message, "timeout")
             && (Contains(err.message, "Failed to fetch") || Contains(err.message, "NetworkError")))
            ==> shown == SavePrefix + NetworkMessage
    ensures (&& err.name != "AbortError" && !Contains(err.message, "timeout")
             && !Contains(err.message, "Failed to fetch") && !Contains(err.message, "NetworkError")
             && Contains(err.message, "CORS")) ==> shown == SavePrefix + CorsMessage
    ensures err.name != "AbortError" && err.message == "" ==> shown == SavePrefix + "Unknown error"
  {
    UnknownErrorNamesNoCase();
    var m := if err.message != "" then err.message else "Unknown error";
    var text :=
      if err.name == "AbortError" || Contains(m, "timeout") then TimeoutMessage
      else if Contains(m, "Failed to fetch") || Contains(m, "NetworkError") then NetworkMessage
      else if Contains(m, "CORS") then CorsMessage
      else m;
    SavePrefix + text
  }
}
