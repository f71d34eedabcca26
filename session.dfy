/** The `RiskSurveyExperiment` object of one browser session: its fields and
    the methods that walk the timeline, record the trials and attention
    checks, and finish the session by uploading the data and drawing the
    bonus. Clock readings, the `localStorage` copy and the uploads' outcomes
    are parameters. */
module Session {
  import opened Wrappers
  import opened Text
  import opened Trials
  import TrialManager
  import TrialRunner
  import DataCollector
  import Experiment
  import DataExport
  import SaveEndpoint
  import Csv

  /** What `saveBackupToLocalStorage` stores. */
  datatype Backup = Backup(subjectId: Option<string>, csvData: seq<string>,
                           attentionCheckData: seq<DataCollector.AttentionRow>,
                           timestamp: string, sessionId: string)

  /** What `runNextTrial` goes on to: the main-trial introduction after the
      practice block, the end of the experiment after the main block, or the
      next trial or attention check of the timeline. `Stuck` is the
      `TypeError` it throws when the timeline was never set (generation
      failed): nothing is shown and nothing changes. */
  datatype Step = ToMainIntro | ToFinish | PresentTrial(trial: Trial) | PresentCheck(question: Question) | Stuck

  /** The choice made in the current trial, the time from the trial's start
      to it, and the start times of the trial and of the attention check. */
  datatype TrialClock = TrialClock(choice: Option<string>, barChoiceMs: Option<int>,
                                   trialStartMs: int, attentionCheckStartMs: int)

  /** The trial records: the stored lines, their fields, the completed
      trials, the counter and the `localStorage` backups. */
  datatype TrialLog = TrialLog(lines: seq<string>, rows: seq<seq<string>>,
                               completed: seq<DataCollector.CompletedTrial>, counter: int,
                               backups: map<string, Backup>)

  /** The step `runNextTrial` takes at position `index` of `timeline`. */
  function StepAt(timeline: seq<Item>, index: int, isPractice: bool): (step: Step)
    requires index >= 0
    ensures index >= |timeline| ==> step == (if isPractice then ToMainIntro else ToFinish)
    ensures index < |timeline| && timeline[index].TrialItem? ==> step == PresentTrial(timeline[index].trial)
    ensures index < |timeline| && timeline[index].CheckItem? ==> step == PresentCheck(timeline[index].question)
  {
    if index >= |timeline| then (if isPractice then ToMainIntro else ToFinish)
    else match timeline[index]
      case TrialItem(t) => PresentTrial(t)
      case CheckItem(q) => PresentCheck(q)
  }

  /** The step `runNextTrial` takes when the current timeline may be unset. */
  function StepOf(timeline: Option<seq<Item>>, index: int, isPractice: bool): (step: Step)
    requires index >= 0
    ensures step.Stuck? <==> timeline.None?
    ensures timeline.Some? ==> step == StepAt(timeline.value, index, isPractice)
  {
    match timeline
    case None => Stuck
    case Some(items) => StepAt(items, index, isPractice)
  }

  /** What `init` ends with: the welcome page, or the error page when the
      configuration cannot be fetched. */
  datatype InitOutcome = Welcome | ConfigError(message: string)

  const ConfigErrorMessage := "Could not load experiment configuration. Please contact the researcher."

  /** How `finishExperiment` ends: the data-error page (nothing sent), the
      save-error page, or the download page after both uploads. */
  datatype Finish = DataError(message: string) | SaveError(message: string) | Completed

  /** Some attempt among the first three gets an `ok` response. */
  predicate Succeeds(attempts: nat -> Attempt)
  {
    exists k :: 1 <= k <= 3 && attempts(k).Ok?
  }

  type Attempt = DataCollector.Attempt

  class RiskSurveyExperiment {
    // trial flow
    var currentTrialIndex: int
    /** `None` until a timeline is chosen, and when the chosen one was never generated. */
    var currentTimeline: Option<seq<Item>>
    var isPractice: bool
    /** The running countdown's seconds left; `None` when no timer runs. */
    var currentTimer: Option<real>
    var currentChoice: Option<string>
    var currentConfidence: Option<int>
    var sliderInteracted: bool
    /** The clock at the start of the current trial (0 before the first one,
        as `Date.now() - null` counts from 0). */
    var trialStartMs: int
    /** Milliseconds from the start of the trial to the bar click. */
    var barChoiceMs: Option<int>
    var attentionCheckStartMs: int

    // what was generated
    var trials: seq<Trial>
    /** `None` (undefined) until a generation succeeds. */
    var practiceTrials: Option<seq<Trial>>
    var finalTimeline: Option<seq<Item>>
    var attentionChecks: seq<Question>
    var experimentConfig: Option<Config>
    var attentionCheckQuestions: Option<seq<Question>>
    var studyType: string

    // the participant
    var subjectId: Option<string>
    var sessionId: string
    var consentGiven: bool
    var consentData: Option<DataExport.ConsentData>

    // what was recorded
    var csvData: seq<string>
    var attentionCheckData: seq<DataCollector.AttentionRow>
    var trialCounter: int
    var completedTrials: seq<DataCollector.CompletedTrial>
    var bonus: Option<real>
    var selectedTrialForBonus: Option<DataCollector.CompletedTrial>
    var phase1RowCount: int
    /** `localStorage`, as far as this session writes it. */
    var backups: map<string, Backup>
    /** The unescaped fields of each row in `csvData`. */
    ghost var rows: seq<seq<string>>

    /** Every stored row is the escaped line of fifteen fields numbered by
        its position, matched by the completed-trial record of the same
        number and choice, and attention checks are numbered 1, 2, …. */
    ghost predicate RecordsValid()
      reads this`trialCounter, this`completedTrials, this`rows, this`csvData, this`attentionCheckData
    {
      DataCollector.RecordsOk(trialCounter, completedTrials, rows, csvData, attentionCheckData)
    }

    /** The position is never negative, and without a configuration nothing
        has been generated. */
    predicate FlowValid()
      reads this`currentTrialIndex, this`experimentConfig, this`practiceTrials, this`finalTimeline
      reads this`currentTimeline
    {
      && currentTrialIndex >= 0
      && (experimentConfig.None? ==> practiceTrials.None? && finalTimeline.None? && currentTimeline.None?)
    }

    ghost predicate Valid()
      reads this`trialCounter, this`completedTrials, this`rows, this`csvData, this`attentionCheckData
      reads this`currentTrialIndex, this`experimentConfig, this`practiceTrials, this`finalTimeline
      reads this`currentTimeline
    {
      RecordsValid() && FlowValid()
    }

    /** The constructor's initial state; `isoNow` is the start time. */
    constructor(isoNow: string)
      ensures Valid()
      ensures currentTrialIndex == 0 && trialCounter == 1
      ensures csvData == [] && attentionCheckData == [] && completedTrials == []
      ensures trials == [] && attentionChecks == []
      ensures practiceTrials == None && finalTimeline == None && currentTimeline == None
      ensures currentTimer == None && experimentConfig == None && attentionCheckQuestions == None
      ensures subjectId == None && currentChoice == None && currentConfidence == None && barChoiceMs == None
      ensures !sliderInteracted && bonus == None && selectedTrialForBonus == None
      ensures sessionId == Experiment.SessionId(isoNow)
      ensures studyType == "risk-survey" && phase1RowCount == 0
      ensures consentData == None && !consentGiven && backups == map[]
    {
      currentTrialIndex := 0;
      currentTimeline := None;
      isPractice := false;
      currentTimer := None;
      currentChoice := None;
      currentConfidence := None;
      sliderInteracted := false;
      trialStartMs := 0;
      barChoiceMs := None;
      attentionCheckStartMs := 0;
      trials := [];
      practiceTrials := None;
      finalTimeline := None;
      attentionChecks := [];
      experimentConfig := None;
      attentionCheckQuestions := None;
      studyType := "risk-survey";
      subjectId := None;
      sessionId := Experiment.SessionId(isoNow);
      consentGiven := false;
      consentData := None;
      csvData := [];
      attentionCheckData := [];
      trialCounter := 1;
      completedTrials := [];
      bonus := None;
      selectedTrialForBonus := None;
      phase1RowCount := 0;
      backups := map[];
      rows := [];
    }

    // -------------------------------------------------------------------
    // consent tracking

    /** `initializeDataTracking`: a fresh consent record for this participant. */
    method InitializeDataTracking(isoNow: string)
      modifies this`consentData
      ensures consentData == Some(DataExport.InitialConsent(subjectId, consentGiven, isoNow))
    {
      consentData := Some(DataExport.InitialConsent(subjectId, consentGiven, isoNow));
    }

    /** `recordConsent`: the decision and its time replace the old ones. With
        no record (tracking never initialised) the call fails and nothing changes. */
    method RecordConsent(given: bool, isoNow: string)
      modifies this`consentData
      ensures old(consentData).Some? ==> consentData == Some(DataExport.Recorded(old(consentData).value, given, isoNow))
      ensures old(consentData).None? ==> consentData == None
    {
      if consentData.Some? {
        consentData := Some(DataExport.Recorded(consentData.value, given, isoNow));
      }
    }

    // -------------------------------------------------------------------
    // init and generateTrials

    /** Whether the attention checks take part: questions are configured and some are requested. */
    predicate WithChecks()
      reads this`experimentConfig, this`attentionCheckQuestions
    {
      experimentConfig.Some? && |attentionCheckQuestions.GetOr([])| > 0 && experimentConfig.value.attentionChecks > 0
    }

    /** The lists and timeline hold what generation makes of the table
        `text` with the current configuration and questions (see
        `TrialManager.Generated`): the fixed practice list, the capped main
        list drawn from the non-50 % records, the checks spread among them. */
    ghost predicate HasGenerated(text: Option<string>, draws: TrialManager.Draws)
      reads this`experimentConfig, this`attentionCheckQuestions, this`practiceTrials, this`trials
      reads this`attentionChecks, this`finalTimeline
    {
      && text.Some? && experimentConfig.Some? && practiceTrials.Some? && finalTimeline.Some?
      && TrialManager.Generated(
           TrialManager.Schedule(practiceTrials.value, trials, if WithChecks() then attentionChecks else [],
                                 finalTimeline.value),
           TrialManager.TableRecords(text.value), experimentConfig.value, attentionCheckQuestions.GetOr([]), draws)
    }

    /** `init`: choose the study from the `study` URL parameter, fetch its
        configuration (`files` maps a path to its parsed content, `None` when
        the fetch fails), keep the file's settings and generate the trials. */
    method Init(studyParam: Option<string>, files: string -> Option<ConfigFile>,
                trialsCsv: Option<string>, draws: TrialManager.Draws)
      returns (outcome: InitOutcome, path: string)
      requires FlowValid() && TrialManager.ValidDraws(draws)
      modifies this`studyType, this`experimentConfig, this`attentionCheckQuestions
      modifies this`trials, this`practiceTrials, this`finalTimeline, this`attentionChecks
      ensures FlowValid()
      ensures path == Experiment.ConfigPath(Experiment.StudyFromParam(studyParam))
      ensures files(path).None? ==>
                && outcome == ConfigError(ConfigErrorMessage)
                && studyType == Experiment.StudyFromParam(studyParam)
                && experimentConfig == old(experimentConfig) && attentionCheckQuestions == old(attentionCheckQuestions)
                && trials == old(trials) && practiceTrials == old(practiceTrials)
                && finalTimeline == old(finalTimeline) && attentionChecks == old(attentionChecks)
      ensures files(path).Some? ==>
                && outcome == Welcome
                && experimentConfig == Some(files(path).value.experimentConfig)
                && attentionCheckQuestions == Some(Experiment.QuestionsOf(files(path).value))
                && studyType == Experiment.StudyAfterLoad(Experiment.StudyFromParam(studyParam), files(path).value.studyType)
      ensures files(path).Some? && TrialManager.CanGenerate(trialsCsv) ==>
                && HasGenerated(trialsCsv, draws)
                && (!WithChecks() ==> attentionChecks == old(attentionChecks))
      ensures files(path).Some? && !TrialManager.CanGenerate(trialsCsv) ==>
                && trials == old(trials) && practiceTrials == old(practiceTrials)
                && finalTimeline == old(finalTimeline) && attentionChecks == old(attentionChecks)
    {
      studyType := Experiment.StudyFromParam(studyParam);
      path := Experiment.ConfigPath(studyType);
      var file := files(path);
      if file.None? {
        return ConfigError(ConfigErrorMessage), path;
      }
      experimentConfig := Some(file.value.experimentConfig);
      attentionCheckQuestions := Some(Experiment.QuestionsOf(file.value));
      studyType := Experiment.StudyAfterLoad(studyType, file.value.studyType);
      var _ := GenerateTrials(trialsCsv, draws);
      outcome := Welcome;
    }

    /** `generateTrials`: load the trial table and build the practice list,
        the main list and the timeline. It succeeds exactly when there is a
        configuration and the table keeps a record that is not 50 %; any
        failure is logged and changes nothing. The attention checks are
        replaced only when questions are configured and requested. */
    method GenerateTrials(trialsCsv: Option<string>, draws: TrialManager.Draws) returns (generated: bool)
      requires FlowValid() && TrialManager.ValidDraws(draws)
      modifies this`trials, this`practiceTrials, this`finalTimeline, this`attentionChecks
      ensures FlowValid()
      ensures generated <==> experimentConfig.Some? && TrialManager.CanGenerate(trialsCsv)
      ensures !generated ==> trials == old(trials) && practiceTrials == old(practiceTrials)
                             && finalTimeline == old(finalTimeline) && attentionChecks == old(attentionChecks)
      ensures generated ==> HasGenerated(trialsCsv, draws) && (!WithChecks() ==> attentionChecks == old(attentionChecks))
    {
      generated := false;
      if experimentConfig.None? {
        return;
      }
      var questions := attentionCheckQuestions.GetOr([]);
      var built := TrialManager.Build(trialsCsv, experimentConfig.value, questions, draws);
      if built.Failure? {
        return;
      }
      if !WithChecks() {
        assert built.value.checks == [];
      }
      Adopt(built.value, WithChecks());
      generated := true;
    }

    /** Keep a generated schedule: its practice list, main list and timeline,
        and its attention checks when `withChecks`. */
    method Adopt(s: TrialManager.Schedule, withChecks: bool)
      requires FlowValid() && experimentConfig.Some?
      modifies this`trials, this`practiceTrials, this`finalTimeline, this`attentionChecks
      ensures FlowValid()
      ensures practiceTrials == Some(s.practice) && trials == s.main && finalTimeline == Some(s.timeline)
      ensures attentionChecks == (if withChecks then s.checks else old(attentionChecks))
    {
      practiceTrials := Some(s.practice);
      trials := s.main;
      finalTimeline := Some(s.timeline);
      if withChecks {
        attentionChecks := s.checks;
      }
    }

    // -------------------------------------------------------------------
    // walking the timeline

    /** `startPractice`: the practice trials from the start. When generation
        failed the practice list is undefined and `runNextTrial` is stuck. */
    method StartPractice(nowMs: int) returns (step: Step)
      requires FlowValid()
      modifies this`currentTrialIndex, this`isPractice, this`currentTimeline
      modifies this`currentTimer, this`attentionCheckStartMs, this`currentChoice, this`trialStartMs, this`barChoiceMs
      ensures FlowValid()
      ensures currentTrialIndex == 0 && isPractice
      ensures currentTimeline == (if practiceTrials.Some? then Some(TrialManager.Items(practiceTrials.value)) else None)
      ensures step == StepOf(currentTimeline, 0, true)
      ensures practiceTrials.None? ==> step == Stuck
      ensures step.PresentTrial? || step.PresentCheck? ==> currentTimer == None
      ensures !step.PresentTrial? && !step.PresentCheck? ==> currentTimer == old(currentTimer)
      ensures Entered(step, nowMs, old(TrialState()))
    {
      currentTrialIndex := 0;
      isPractice := true;
      currentTimeline := if practiceTrials.Some? then Some(TrialManager.Items(practiceTrials.value)) else None;
      step := RunNextTrial(nowMs);
    }

    /** `beginMainTrials` (once the page is full screen): the main timeline
        from the start, stuck when it was never generated. */
    method BeginMainTrials(nowMs: int) returns (step: Step)
      requires FlowValid()
      modifies this`currentTrialIndex, this`isPractice, this`currentTimeline
      modifies this`currentTimer, this`attentionCheckStartMs, this`currentChoice, this`trialStartMs, this`barChoiceMs
      ensures FlowValid()
      ensures currentTrialIndex == 0 && !isPractice && currentTimeline == finalTimeline
      ensures step == StepOf(currentTimeline, 0, false)
      ensures finalTimeline.None? ==> step == Stuck
      ensures step.PresentTrial? ==> currentTimer == Some(experimentConfig.value.trialDuration as real / 1000.0)
      ensures step.PresentCheck? ==> currentTimer == None
      ensures !step.PresentTrial? && !step.PresentCheck? ==> currentTimer == old(currentTimer)
      ensures Entered(step, nowMs, old(TrialState()))
    {
      currentTrialIndex := 0;
      isPractice := false;
      currentTimeline := finalTimeline;
      step := RunNextTrial(nowMs);
    }

    /** The choice and the clocks of the current trial. */
    function TrialState(): TrialClock
      reads this`currentChoice, this`barChoiceMs, this`trialStartMs, this`attentionCheckStartMs
    {
      TrialClock(currentChoice, barChoiceMs, trialStartMs, attentionCheckStartMs)
    }

    /** The trial state `runNextTrial` leaves after `step`, from the state
        `before`: a trial starts with no choice and its clock at `nowMs`, an
        attention check takes `nowMs` as its start, and anything else leaves
        the choice and the clocks as they were. */
    predicate Entered(step: Step, nowMs: int, before: TrialClock)
      reads this`currentChoice, this`barChoiceMs, this`trialStartMs, this`attentionCheckStartMs
    {
      TrialState() == (match step
                       case PresentTrial(_) => TrialClock(None, None, nowMs, before.attentionCheckStartMs)
                       case PresentCheck(_) => before.(attentionCheckStartMs := nowMs)
                       case _ => before)
    }

    /** `runNextTrial`: with no timeline it throws (stuck); past the end of
        the timeline, go on to the main trials after practice or finish
        after the main block (nothing changes); otherwise present the item
        at the current position. A trial restarts the trial state and,
        outside practice, the countdown; an attention check stops any
        countdown and notes its start time. */
    method RunNextTrial(nowMs: int) returns (step: Step)
      requires FlowValid()
      modifies this`currentTimer, this`attentionCheckStartMs, this`currentChoice, this`trialStartMs, this`barChoiceMs
      ensures step == StepOf(currentTimeline, currentTrialIndex, isPractice)
      ensures step.ToMainIntro? || step.ToFinish? || step.Stuck? ==>
                && currentTimer == old(currentTimer) && attentionCheckStartMs == old(attentionCheckStartMs)
                && currentChoice == old(currentChoice) && trialStartMs == old(trialStartMs)
                && barChoiceMs == old(barChoiceMs)
      ensures step.PresentTrial? ==>
                && currentChoice == None && barChoiceMs == None && trialStartMs == nowMs
                && currentTimer == (if isPractice then None
                                    else Some(experimentConfig.value.trialDuration as real / 1000.0))
                && attentionCheckStartMs == old(attentionCheckStartMs)
      ensures step.PresentCheck? ==>
                && currentTimer == None && attentionCheckStartMs == nowMs
                && currentChoice == old(currentChoice) && barChoiceMs == old(barChoiceMs)
                && trialStartMs == old(trialStartMs)
    {
      step := StepOf(currentTimeline, currentTrialIndex, isPractice);
      if currentTimeline.None? || currentTrialIndex >= |currentTimeline.value| {
        return;
      }
      match currentTimeline.value[currentTrialIndex]
      case CheckItem(q) =>
        ClearTimer();
        attentionCheckStartMs := nowMs;
      case TrialItem(t) =>
        ClearTimer();
        ResetTrialState(nowMs);
        if !isPractice {
          StartTrialTimer();
        }
    }

    /** `clearTimer`: afterwards no countdown runs. */
    method ClearTimer()
      modifies this`currentTimer
      ensures currentTimer == None
    {
      if currentTimer.Some? {
        currentTimer := None;
      }
    }

    /** `resetTrialState`: no choice yet, and the trial's clock starts now. */
    method ResetTrialState(nowMs: int)
      modifies this`currentChoice, this`trialStartMs, this`barChoiceMs
      ensures currentChoice == None && barChoiceMs == None && trialStartMs == nowMs
    {
      currentChoice := None;
      trialStartMs := nowMs;
      barChoiceMs := None;
    }

    /** `startTrialTimer`: a countdown from the trial duration in seconds. */
    method StartTrialTimer()
      requires experimentConfig.Some?
      modifies this`currentTimer
      ensures currentTimer == Some(experimentConfig.value.trialDuration as real / 1000.0)
    {
      currentTimer := Some(experimentConfig.value.trialDuration as real / 1000.0);
    }

    /** The trial `finishTrial` records: the main trial at the current position. */
    function TrialToSave(): Trial
      requires Saves(currentTrialIndex)
      reads this`isPractice, this`currentTimeline, this`currentTrialIndex
    {
      currentTimeline.value[currentTrialIndex].trial
    }

    /** One second of the countdown: one second less, and when none is left
        the timer stops and the trial finishes as `FinishTrial` does. */
    method Tick(nowMs: int, isoNow: string) returns (finished: Option<Step>)
      requires Valid() && currentTimer.Some?
      requires !isPractice ==> currentTimeline.Some? && 0 <= currentTrialIndex < |currentTimeline.value|
      modifies this`currentTimer, this`currentTrialIndex
      modifies this`trialCounter, this`csvData, this`rows, this`completedTrials, this`backups
      modifies this`attentionCheckStartMs, this`currentChoice, this`trialStartMs, this`barChoiceMs
      ensures Valid()
      ensures finished.Some? <==> old(currentTimer).value - 1.0 <= 0.0
      ensures finished.None? ==>
                && currentTimer == Some(old(currentTimer).value - 1.0)
                && currentTrialIndex == old(currentTrialIndex)
                && Log() == old(Log()) && TrialState() == old(TrialState())
      ensures finished.Some? ==>
                && currentTrialIndex == old(currentTrialIndex) + 1
                && finished.value == StepOf(currentTimeline, currentTrialIndex, isPractice)
                && (!finished.value.PresentTrial? || isPractice ==> currentTimer == None)
                && (finished.value.PresentTrial? && !isPractice ==>
                      currentTimer == Some(experimentConfig.value.trialDuration as real / 1000.0))
                && Entered(finished.value, nowMs, old(TrialState()))
                && Log() == old(LogAfterFinish(nowMs, isoNow))
    {
      var timeLeft := currentTimer.value - 1.0;
      if timeLeft <= 0.0 {
        var step := TimeUp(nowMs, isoNow);
        return Some(step);
      }
      CountDown(timeLeft);
      finished := None;
    }

    /** A second of the countdown gone, with time left: the new time shown. */
    method CountDown(timeLeft: real)
      requires Valid()
      modifies this`currentTimer
      ensures Valid() && currentTimer == Some(timeLeft)
      ensures Log() == old(Log()) && TrialState() == old(TrialState())
    {
      currentTimer := Some(timeLeft);
    }

    /** `selectChoice`: the clicked bar and the time of the click; the
        automatic advance 300 ms later is a separate `AdvanceTrial` call. */
    method SelectChoice(choice: string, nowMs: int)
      modifies this`currentChoice, this`barChoiceMs
      ensures currentChoice == Some(choice) && barChoiceMs == Some(nowMs - trialStartMs)
    {
      barChoiceMs := Some(nowMs - trialStartMs);
      currentChoice := Some(choice);
    }

    /** The countdown's end: stop it, then finish the trial. */
    method TimeUp(nowMs: int, isoNow: string) returns (step: Step)
      requires Valid()
      requires !isPractice ==> currentTimeline.Some? && 0 <= currentTrialIndex < |currentTimeline.value|
      modifies this`currentTimer, this`currentTrialIndex
      modifies this`trialCounter, this`csvData, this`rows, this`completedTrials, this`backups
      modifies this`attentionCheckStartMs, this`currentChoice, this`trialStartMs, this`barChoiceMs
      ensures Valid()
      ensures currentTrialIndex == old(currentTrialIndex) + 1
      ensures step == StepOf(currentTimeline, currentTrialIndex, isPractice)
      ensures !step.PresentTrial? || isPractice ==> currentTimer == None
      ensures step.PresentTrial? && !isPractice ==>
                currentTimer == Some(experimentConfig.value.trialDuration as real / 1000.0)
      ensures Log() == old(LogAfterFinish(nowMs, isoNow))
      ensures Entered(step, nowMs, old(TrialState()))
    {
      ClearTimer();
      step := FinishTrial(nowMs, isoNow);
    }

    /** `finishTrial`: stop the countdown, record the trial when it is a main
        trial, move one position on and run what comes next. */
    method FinishTrial(nowMs: int, isoNow: string) returns (step: Step)
      requires Valid()
      requires !isPractice ==> currentTimeline.Some? && 0 <= currentTrialIndex < |currentTimeline.value|
      modifies this`currentTimer, this`currentTrialIndex
      modifies this`trialCounter, this`csvData, this`rows, this`completedTrials, this`backups
      modifies this`attentionCheckStartMs, this`currentChoice, this`trialStartMs, this`barChoiceMs
      ensures Valid()
      ensures currentTrialIndex == old(currentTrialIndex) + 1
      ensures step == StepOf(currentTimeline, currentTrialIndex, isPractice)
      ensures !step.PresentTrial? || isPractice ==> currentTimer == None
      ensures step.PresentTrial? && !isPractice ==>
                currentTimer == Some(experimentConfig.value.trialDuration as real / 1000.0)
      ensures Log() == old(LogAfterFinish(nowMs, isoNow))
      ensures Entered(step, nowMs, old(TrialState()))
    {
      StopAndRecord(nowMs, isoNow);
      step := MoveOn(nowMs);
    }

    /** The first half of `finishTrial`: stop the countdown, then record the
        trial when it is a main trial. */
    method StopAndRecord(nowMs: int, isoNow: string)
      requires Valid()
      modifies this`currentTimer, this`trialCounter, this`csvData, this`rows, this`completedTrials, this`backups
      ensures Valid() && currentTimer == None
      ensures Log() == old(LogAfterFinish(nowMs, isoNow))
    {
      // Clearing the timer leaves the row to save as it was.
      ghost var saves := Saves(currentTrialIndex);
      ghost var row := if saves then Some(PendingRow(TrialToSave(), nowMs)) else None;
      ClearTimer();
      assert saves == Saves(currentTrialIndex);
      assert saves ==> row == Some(PendingRow(TrialToSave(), nowMs));
      RecordIfMain(nowMs, isoNow);
    }

    /** The common end of `finishTrial` and the attention check's handler:
        one position on, then `runNextTrial`. */
    method MoveOn(nowMs: int) returns (step: Step)
      requires Valid()
      modifies this`currentTrialIndex
      modifies this`currentTimer, this`attentionCheckStartMs, this`currentChoice, this`trialStartMs, this`barChoiceMs
      ensures Valid()
      ensures currentTrialIndex == old(currentTrialIndex) + 1
      ensures step == StepOf(currentTimeline, currentTrialIndex, isPractice)
      ensures step.ToMainIntro? || step.ToFinish? || step.Stuck? ==> currentTimer == old(currentTimer)
      ensures step.PresentCheck? || (step.PresentTrial? && isPractice) ==> currentTimer == None
      ensures step.PresentTrial? && !isPractice ==>
                currentTimer == Some(experimentConfig.value.trialDuration as real / 1000.0)
      ensures Entered(step, nowMs, old(TrialState()))
    {
      currentTrialIndex := currentTrialIndex + 1;
      step := RunNextTrial(nowMs);
    }

    /** The trial records as they stand. */
    ghost function Log(): TrialLog
      reads this`csvData, this`rows, this`completedTrials, this`trialCounter, this`backups
    {
      TrialLog(csvData, rows, completedTrials, trialCounter, backups)
    }

    /** The records once `saveTrialData` has stored the main trial at the
        current position, submitted at `nowMs`: its escaped line and its
        fields appended, its completed-trial record numbered by the counter,
        the counter one higher and the participant's backup rewritten. */
    ghost function LogAfterSave(nowMs: int, isoNow: string): TrialLog
      requires Saves(currentTrialIndex)
      reads this`isPractice, this`currentTimeline, this`currentTrialIndex
      reads this`subjectId, this`trialCounter, this`currentChoice, this`sliderInteracted
      reads this`currentConfidence, this`barChoiceMs, this`trialStartMs
      reads this`csvData, this`rows, this`completedTrials, this`backups, this`attentionCheckData, this`sessionId
    {
      var row := PendingRow(TrialToSave(), nowMs);
      var lines := csvData + [DataCollector.RowLine(row)];
      TrialLog(lines, rows + [row],
               completedTrials + [DataCollector.CompletedOf(trialCounter, TrialToSave(), currentChoice)],
               trialCounter + 1,
               backups[DataCollector.BackupKey(subjectId) := Backup(subjectId, lines, attentionCheckData, isoNow, sessionId)])
    }

    /** The records `finishTrial` leaves: the main trial saved, or for any
        other item the records as they were. */
    ghost function LogAfterFinish(nowMs: int, isoNow: string): TrialLog
      reads this`isPractice, this`currentTimeline, this`currentTrialIndex
      reads this`subjectId, this`trialCounter, this`currentChoice, this`sliderInteracted
      reads this`currentConfidence, this`barChoiceMs, this`trialStartMs
      reads this`csvData, this`rows, this`completedTrials, this`backups, this`attentionCheckData, this`sessionId
    {
      if Saves(currentTrialIndex) then LogAfterSave(nowMs, isoNow) else Log()
    }

    /** Whether finishing the item at `index` records a row: a main trial. */
    predicate Saves(index: int)
      reads this`isPractice, this`currentTimeline
    {
      && !isPractice && currentTimeline.Some?
      && 0 <= index < |currentTimeline.value| && currentTimeline.value[index].TrialItem?
    }

    /** The recording step of `finishTrial`: `saveTrialData` for a main trial, nothing otherwise. */
    method RecordIfMain(nowMs: int, isoNow: string)
      requires RecordsValid()
      modifies this`trialCounter, this`csvData, this`rows, this`completedTrials, this`backups
      ensures RecordsValid()
      ensures Log() == old(LogAfterFinish(nowMs, isoNow))
    {
      if Saves(currentTrialIndex) {
        SaveTrialData(TrialToSave(), nowMs, isoNow);
      }
    }

    /** `advanceTrial`: the automatic advance after a click finishes the trial
        exactly as `FinishTrial` does. */
    method AdvanceTrial(nowMs: int, isoNow: string) returns (step: Step)
      requires Valid()
      requires !isPractice ==> currentTimeline.Some? && 0 <= currentTrialIndex < |currentTimeline.value|
      modifies this`currentTimer, this`currentTrialIndex
      modifies this`trialCounter, this`csvData, this`rows, this`completedTrials, this`backups
      modifies this`attentionCheckStartMs, this`currentChoice, this`trialStartMs, this`barChoiceMs
      ensures Valid()
      ensures currentTrialIndex == old(currentTrialIndex) + 1
      ensures step == StepOf(currentTimeline, currentTrialIndex, isPractice)
      ensures !step.PresentTrial? || isPractice ==> currentTimer == None
      ensures step.PresentTrial? && !isPractice ==>
                currentTimer == Some(experimentConfig.value.trialDuration as real / 1000.0)
      ensures Log() == old(LogAfterFinish(nowMs, isoNow))
      ensures Entered(step, nowMs, old(TrialState()))
    {
      step := FinishTrial(nowMs, isoNow);
    }

    /** The attention check's Next button: score the answer (`selected` is
        the chosen option, label or typed text), record it, move on. */
    method SubmitAttention(question: Question, selected: Option<string>, nowMs: int, isoNow: string)
      returns (step: Step)
      requires Valid()
      modifies this`attentionCheckData, this`backups, this`currentTrialIndex
      modifies this`currentTimer, this`attentionCheckStartMs, this`currentChoice, this`trialStartMs, this`barChoiceMs
      ensures Valid()
      ensures var scored := TrialRunner.ScoreAnswer(question, selected);
              attentionCheckData == old(attentionCheckData) + [DataCollector.AttentionRow(
                DataCollector.TextOrUnknown(subjectId), |old(attentionCheckData)| + 1, question.kind,
                question.prompt, question.correctAnswer, scored.userAnswer, scored.isCorrect,
                (nowMs - old(attentionCheckStartMs)) as real / 1000.0, isoNow, sessionId)]
      ensures backups == old(backups)[DataCollector.BackupKey(subjectId) := Snapshot(isoNow)]
      ensures currentTrialIndex == old(currentTrialIndex) + 1
      ensures step == StepOf(currentTimeline, currentTrialIndex, isPractice)
      ensures step.ToMainIntro? || step.ToFinish? || step.Stuck? ==> currentTimer == old(currentTimer)
      ensures step.PresentCheck? || (step.PresentTrial? && isPractice) ==> currentTimer == None
      ensures step.PresentTrial? && !isPractice ==>
                currentTimer == Some(experimentConfig.value.trialDuration as real / 1000.0)
      ensures Entered(step, nowMs, old(TrialState()))
    {
      RecordAnswer(question, selected, nowMs, isoNow);
      step := MoveOn(nowMs);
    }

    /** The recording half of the Next button: the answer scored, with the
        seconds since the check was shown. */
    method RecordAnswer(question: Question, selected: Option<string>, nowMs: int, isoNow: string)
      requires Valid()
      modifies this`attentionCheckData, this`backups
      ensures Valid()
      ensures var scored := TrialRunner.ScoreAnswer(question, selected);
              attentionCheckData == old(attentionCheckData) + [DataCollector.AttentionRow(
                DataCollector.TextOrUnknown(subjectId), |old(attentionCheckData)| + 1, question.kind,
                question.prompt, question.correctAnswer, scored.userAnswer, scored.isCorrect,
                (nowMs - attentionCheckStartMs) as real / 1000.0, isoNow, sessionId)]
      ensures backups == old(backups)[DataCollector.BackupKey(subjectId) := Snapshot(isoNow)]
    {
      var scored := TrialRunner.ScoreAnswer(question, selected);
      SaveAttentionCheckData(question, scored.userAnswer, scored.isCorrect,
                             (nowMs - attentionCheckStartMs) as real / 1000.0, isoNow);
    }

    // -------------------------------------------------------------------
    // recording

    /** The confidence written to a row: NaN unless the slider was used. */
    function Confidence(): Option<int>
      reads this`sliderInteracted, this`currentConfidence
    {
      if sliderInteracted && currentConfidence.Some? then currentConfidence else None
    }

    /** The backup of what has been recorded so far. */
    function Snapshot(isoNow: string): Backup
      reads this`subjectId, this`csvData, this`attentionCheckData, this`sessionId
    {
      Backup(subjectId, csvData, attentionCheckData, isoNow, sessionId)
    }

    /** The row `saveTrialData` builds for `trial` when it is submitted at `nowMs`. */
    function PendingRow(trial: Trial, nowMs: int): seq<string>
      reads this`subjectId, this`trialCounter, this`currentChoice, this`sliderInteracted
      reads this`currentConfidence, this`barChoiceMs, this`trialStartMs
    {
      DataCollector.TrialRow(subjectId, trialCounter, trial, currentChoice, Confidence(), barChoiceMs, nowMs - trialStartMs)
    }

    /** `saveTrialData`: one escaped fifteen-field row numbered by
        `trialCounter`, one completed-trial record of the same number, the
        counter one higher, and the backup rewritten. */
    method SaveTrialData(trial: Trial, nowMs: int, isoNow: string)
      requires RecordsValid()
      modifies this`trialCounter, this`csvData, this`rows, this`completedTrials, this`backups
      ensures RecordsValid()
      ensures csvData == old(csvData) + [DataCollector.RowLine(old(PendingRow(trial, nowMs)))]
      ensures rows == old(rows) + [old(PendingRow(trial, nowMs))]
      ensures completedTrials == old(completedTrials) + [DataCollector.CompletedOf(old(trialCounter), trial, currentChoice)]
      ensures trialCounter == old(trialCounter) + 1
      ensures backups == old(backups)[DataCollector.BackupKey(subjectId) := Snapshot(isoNow)]
    {
      var row := PendingRow(trial, nowMs);
      DataCollector.TrialRowAt(subjectId, trialCounter, trial, currentChoice, Confidence(), barChoiceMs, nowMs - trialStartMs);
      AppendRow(row, DataCollector.RowLine(row), DataCollector.CompletedOf(trialCounter, trial, currentChoice));
      WriteBackup(isoNow);
    }

    /** One more row, line and completed-trial record, numbered by the counter. */
    method AppendRow(row: seq<string>, line: string, done: DataCollector.CompletedTrial)
      requires RecordsValid() && DataCollector.RowAt(row, done, trialCounter) && line == DataCollector.RowLine(row)
      modifies this`trialCounter, this`csvData, this`rows, this`completedTrials
      ensures RecordsValid()
      ensures csvData == old(csvData) + [line] && rows == old(rows) + [row]
      ensures completedTrials == old(completedTrials) + [done]
      ensures trialCounter == old(trialCounter) + 1
    {
      DataCollector.RowsMatchAppend(rows, completedTrials, row, done);
      trialCounter := trialCounter + 1;
      csvData := csvData + [line];
      rows := rows + [row];
      completedTrials := completedTrials + [done];
    }

    /** `saveBackupToLocalStorage`: the participant's backup replaced by the current records. */
    method WriteBackup(isoNow: string)
      modifies this`backups
      ensures backups == old(backups)[DataCollector.BackupKey(subjectId) := Snapshot(isoNow)]
    {
      backups := backups[DataCollector.BackupKey(subjectId) := Snapshot(isoNow)];
    }

    /** `saveAttentionCheckData`: one record numbered one past the last,
        and the backup rewritten. */
    method SaveAttentionCheckData(question: Question, userAnswer: string, isCorrect: bool,
                                  responseSeconds: real, isoNow: string)
      requires RecordsValid()
      modifies this`attentionCheckData, this`backups
      ensures RecordsValid()
      ensures attentionCheckData == old(attentionCheckData) + [DataCollector.AttentionRow(
                DataCollector.TextOrUnknown(subjectId), |old(attentionCheckData)| + 1, question.kind,
                question.prompt, question.correctAnswer, userAnswer, isCorrect, responseSeconds, isoNow, sessionId)]
      ensures backups == old(backups)[DataCollector.BackupKey(subjectId) := Snapshot(isoNow)]
    {
      var record := DataCollector.AttentionRow(
        DataCollector.TextOrUnknown(subjectId), |attentionCheckData| + 1, question.kind,
        question.prompt, question.correctAnswer, userAnswer, isCorrect, responseSeconds, isoNow, sessionId);
      attentionCheckData := attentionCheckData + [record];
      WriteBackup(isoNow);
    }

    // -------------------------------------------------------------------
    // finishing

    /** `finishExperiment`. Without rows or without a subject id nothing is
        sent. Otherwise the rows go to `/save` as one body, then the attention
        records to `/save-attention`, each upload trying three times
        (`saveAttempts`, `attentionAttempts` give the outcomes); only when
        both succeed is the backup removed and the bonus drawn (`pick`,
        `roll` are the draws of `calculateBonus`). */
    method FinishExperiment(saveAttempts: nat -> Attempt, attentionAttempts: nat -> Attempt,
                            pick: real, roll: real)
      returns (outcome: Finish, posted: seq<string>, body: string)
      requires 0.0 <= pick < 1.0
      modifies this`backups, this`bonus, this`selectedTrialForBonus
      ensures |csvData| == 0 ==> outcome == DataError(DataCollector.NoDataMessage)
      ensures |csvData| > 0 && (subjectId.None? || subjectId == Some("")) ==>
                outcome == DataError(DataCollector.NoSubjectMessage)
      ensures outcome.DataError? <==> |csvData| == 0 || subjectId.None? || subjectId == Some("")
      ensures outcome.DataError? ==> posted == []
      ensures !outcome.DataError? ==>
                && body == Concat(csvData)
                && posted == (if Succeeds(saveAttempts) then ["/save", "/save-attention"] else ["/save"])
                && (outcome == Completed <==> Succeeds(saveAttempts) && Succeeds(attentionAttempts))
      ensures outcome.SaveError? ==>
                outcome.message == DataCollector.SaveErrorMessage(
                  if !Succeeds(saveAttempts) then saveAttempts(3).error else attentionAttempts(3).error)
      ensures outcome != Completed ==>
                backups == old(backups) && bonus == old(bonus) && selectedTrialForBonus == old(selectedTrialForBonus)
      ensures outcome == Completed ==>
                && backups == old(backups) - {DataCollector.BackupKey(subjectId)}
                && var drawn := DataCollector.CalculateBonus(completedTrials, pick, roll);
                   bonus == Some(drawn.bonus) && selectedTrialForBonus == drawn.selected
    {
      posted := [];
      body := "";
      if |csvData| == 0 {
        return DataError(DataCollector.NoDataMessage), posted, body;
      }
      if subjectId.None? || subjectId == Some("") {
        return DataError(DataCollector.NoSubjectMessage), posted, body;
      }
      body := Concat(csvData);
      posted := ["/save"];
      var saved, _ := DataCollector.FetchWithRetry(saveAttempts, 3);
      if saved.Thrown? {
        NoSuccess(saveAttempts);
        return SaveError(DataCollector.SaveErrorMessage(saved.error.value)), posted, body;
      }
      posted := posted + ["/save-attention"];
      var sent, _ := DataCollector.FetchWithRetry(attentionAttempts, 3);
      if sent.Thrown? {
        NoSuccess(attentionAttempts);
        return SaveError(DataCollector.SaveErrorMessage(sent.error.value)), posted, body;
      }
      backups := backups - {DataCollector.BackupKey(subjectId)};
      var drawn := DataCollector.CalculateBonus(completedTrials, pick, roll);
      bonus := Some(drawn.bonus);
      selectedTrialForBonus := drawn.selected;
      outcome := Completed;
    }
  }

  /** Three failed attempts mean no success. */
  lemma NoSuccess(attempts: nat -> Attempt)
    requires forall k :: 1 <= k <= 3 ==> attempts(k).Failed?
    ensures !Succeeds(attempts)
  {
  }

  /** No field of a recorded row holds a line end (true when the subject id
      and the table's size conditions hold none). */
  predicate OneLineRows(rows: seq<seq<string>>)
  {
    forall k, j :: 0 <= k < |rows| && 0 <= j < |rows[k]| ==> '\n' !in rows[k][j]
  }

  /** The body `finishExperiment` posts, read back by `/save`: one kept line
      per recorded row, in order, each parsing back to the row's fifteen
      unescaped fields. */
  lemma UploadReadsBack(trialCounter: int, completed: seq<DataCollector.CompletedTrial>,
                        rows: seq<seq<string>>, lines: seq<string>,
                        attention: seq<DataCollector.AttentionRow>)
    requires DataCollector.RecordsOk(trialCounter, completed, rows, lines, attention)
    requires OneLineRows(rows)
    ensures |SaveEndpoint.Rows(Concat(lines))| == |rows|
    ensures forall k :: 0 <= k < |rows| ==> Csv.ParseRow(SaveEndpoint.Rows(Concat(lines))[k]) == rows[k]
  {
    var bodies := seq(|rows|, k requires 0 <= k < |rows| => Csv.EncodeRow(rows[k]));
    forall k | 0 <= k < |rows|
      ensures lines[k] == bodies[k] + "\n" && '\n' !in bodies[k] && !Blank(bodies[k])
      ensures Csv.ParseRow(bodies[k]) == rows[k]
    {
      DataCollector.LinesOfAt(rows, k);
      assert |rows[k]| == 15 by {
        DataCollector.RowsMatchAt(rows, completed, k);
      }
      Csv.EncodeRowOneLine(rows[k]);
      Csv.EncodeRowNotBlank(rows[k]);
      Csv.RowRoundTrip(rows[k]);
    }
    assert lines == Terminated(bodies);
    SaveEndpoint.RowsOfTerminated(bodies);
  }
}
