/** The comprehension check shown before the practice block: three numeric
    questions about an example pair of bars. Answering all three wrongly ends
    the study; anything better leads to the practice trials. */
module Comprehension {
  import opened Wrappers
  import opened Text

  /** The correct answers, in question order: the right option's maximum,
      the left option's maximum and the left option's minimum. */
  const CorrectAnswers: seq<int> := [150, 200, 0]

  datatype Response = Response(questionNumber: nat, userAnswer: int, correctAnswer: int,
                               isCorrect: bool, responseMs: int)

  datatype SubmitOutcome = Invalid | Correct | Incorrect

  /** Where `nextComprehensionQuestion` leads. */
  datatype NextStep = ShowQuestion | Failed | ToPractice

  /** The number of wrong responses. */
  function Wrong(responses: seq<Response>): nat
    decreases |responses|
  {
    if |responses| == 0 then 0
    else Wrong(responses[..|responses| - 1]) + (if responses[|responses| - 1].isCorrect then 0 else 1)
  }

  /** There are never more failures than responses. */
  lemma {:induction false} WrongAtMost(responses: seq<Response>)
    ensures Wrong(responses) <= |responses|
    decreases |responses|
  {
    if |responses| > 0 {
      WrongAtMost(responses[..|responses| - 1]);
    }
  }

  /** A blank answer never parses as a number, so the blank test is covered
      by the NaN test. */
  lemma BlankIsNaN(input: string)
    requires Trim(input) == ""
    ensures ParseInt(input) == None
  {
    var t := TrimStart(input);
    assert |t| == 0;
  }

  /** The question number `0`, `1` or `2` decides which bar is pointed at. */
  predicate HighlightLeft(question: int) { question == 1 || question == 2 }
  predicate HighlightRight(question: int) { question == 0 }
  predicate HighlightLeftBottom(question: int) { question == 2 }

  /** Each question points at exactly one option; the bottom label is pointed
      at only for the question whose answer is the minimum, 0. */
  lemma HighlightsMatchQuestions(question: int)
    requires 0 <= question < |CorrectAnswers|
    ensures HighlightLeft(question) != HighlightRight(question)
    ensures HighlightLeftBottom(question) ==> HighlightLeft(question)
    ensures HighlightLeftBottom(question) <==> CorrectAnswers[question] == 0
  {
  }

  /** The `comprehensionState` object. */
  class ComprehensionState {
    var currentQuestion: int
    var failureCount: int
    var startMs: int
    var responses: seq<Response>

    /** Every wrong response, and nothing else, counts as a failure. */
    ghost predicate Valid()
      reads this
    {
      0 <= currentQuestion <= |CorrectAnswers| && failureCount == Wrong(responses)
    }

    /** `startComprehensionCheck`. */
    constructor(nowMs: int)
      ensures Valid()
      ensures currentQuestion == 0 && failureCount == 0 && startMs == nowMs && responses == []
    {
      currentQuestion := 0;
      failureCount := 0;
      startMs := nowMs;
      responses := [];
    }

    /** `submitComprehensionAnswer` for the text in the answer box. */
    method Submit(input: string, nowMs: int) returns (outcome: SubmitOutcome)
      requires Valid() && currentQuestion < |CorrectAnswers|
      modifies this
      ensures Valid()
      ensures ParseInt(input) == None || Trim(input) == "" ==>
                outcome == Invalid && responses == old(responses) && failureCount == old(failureCount)
      ensures ParseInt(input).Some? && Trim(input) != "" ==>
                var answer := ParseInt(input).value;
                var right := answer == CorrectAnswers[old(currentQuestion)];
                && outcome == (if right then Correct else Incorrect)
                && responses == old(responses) + [Response(old(currentQuestion) + 1, answer,
                                                           CorrectAnswers[old(currentQuestion)], right,
                                                           nowMs - old(startMs))]
                && failureCount == old(failureCount) + (if right then 0 else 1)
      ensures currentQuestion == old(currentQuestion) && startMs == old(startMs)
    {
      var answer := ParseInt(input);
      if answer == None || Trim(input) == "" {
        return Invalid;
      }
      var correct := CorrectAnswers[currentQuestion];
      var isCorrect := answer.value == correct;
      var response := Response(currentQuestion + 1, answer.value, correct, isCorrect, nowMs - startMs);
      assert (responses + [response])[..|responses|] == responses;
      responses := responses + [response];
      if isCorrect {
        outcome := Correct;
      } else {
        failureCount := failureCount + 1;
        outcome := Incorrect;
      }
    }

    /** `nextComprehensionQuestion`, reached after the feedback page whatever
        the participant says about it. */
    method Next(nowMs: int) returns (step: NextStep)
      requires Valid() && currentQuestion < |CorrectAnswers|
      modifies this
      ensures Valid()
      ensures currentQuestion == old(currentQuestion) + 1
      ensures responses == old(responses) && failureCount == old(failureCount)
      ensures currentQuestion < |CorrectAnswers| ==> step == ShowQuestion && startMs == nowMs
      ensures currentQuestion >= |CorrectAnswers| ==>
                step == (if failureCount >= 3 then Failed else ToPractice) && startMs == old(startMs)
    {
      currentQuestion := currentQuestion + 1;
      if currentQuestion >= 3 {
        if failureCount >= 3 {
          return Failed;
        }
        return ToPractice;
      }
      startMs := nowMs;
      step := ShowQuestion;
    }

    /** `handleUnderstandingResponse`: whether or not the participant says
        they understood, the check moves on to the next question. */
    method HandleUnderstandingResponse(understood: bool, nowMs: int) returns (step: NextStep)
      requires Valid() && currentQuestion < |CorrectAnswers|
      modifies this
      ensures Valid()
      ensures currentQuestion == old(currentQuestion) + 1
      ensures responses == old(responses) && failureCount == old(failureCount)
      ensures currentQuestion < |CorrectAnswers| ==> step == ShowQuestion && startMs == nowMs
      ensures currentQuestion >= |CorrectAnswers| ==>
                step == (if failureCount >= 3 then Failed else ToPractice) && startMs == old(startMs)
    {
      step := Next(nowMs);
    }
  }

  /** The value a valid answer box holds. */
  predicate ValidAnswer(input: string)
  {
    ParseInt(input).Some? && Trim(input) != ""
  }

  /** Three valid answers in a row, each followed by the feedback page: the
      study ends exactly when all three are wrong. */
  method CheckThreeAnswers(a0: string, a1: string, a2: string, nowMs: int) returns (step: NextStep)
    requires ValidAnswer(a0) && ValidAnswer(a1) && ValidAnswer(a2)
    ensures step == Failed <==>
              ParseInt(a0).value != 150 && ParseInt(a1).value != 200 && ParseInt(a2).value != 0
    ensures step == Failed || step == ToPractice
  {
    var state := new ComprehensionState(nowMs);
    var o0 := state.Submit(a0, nowMs);
    var s0 := state.Next(nowMs);
    var o1 := state.Submit(a1, nowMs);
    var s1 := state.Next(nowMs);
    var o2 := state.Submit(a2, nowMs);
    step := state.Next(nowMs);
  }
}
