/** Pure parts of running a trial: the reward labels, the bar size classes
    and the scoring of an attention-check answer. */
module TrialRunner {
  import opened Wrappers
  import opened Text
  import opened Trials

  // ---------------------------------------------------------------------
  // formatNumberWithCommas

  /** The regular expression's match: a digit position `p` of a run of `|d|`
      digits gets a comma when it is not the first and a whole number of
      three-digit groups follows. */
  predicate CommaAt(d: string, p: nat)
  {
    0 < p < |d| && (|d| - p) % 3 == 0
  }

  /** `d` from position `p` on with the matched commas inserted. */
  function Commas(d: string, p: nat): string
    requires p <= |d|
    decreases |d| - p
  {
    if p == |d| then "" else (if CommaAt(d, p) then "," else "") + [d[p]] + Commas(d, p + 1)
  }

  /** `formatNumberWithCommas` for an integer or NaN (`None`). The minus sign
      is not a digit, so it only precedes the digit run. */
  function FormatNumberWithCommas(n: Option<int>): string
  {
    match n
    case None => "NaN"
    case Some(v) => if v < 0 then "-" + Commas(NatText(-v), 0) else Commas(NatText(v), 0)
  }

  /** The reference reading: digits grouped by threes from the right. */
  function GroupThrees(d: string): string
    decreases |d|
  {
    if |d| <= 3 then d else GroupThrees(d[..|d| - 3]) + "," + d[|d| - 3..]
  }

  lemma {:induction false} CommasTail(d: string, p: nat)
    requires p <= |d| && (|d| < p + 3 || (p == 0 && |d| <= 3))
    ensures Commas(d, p) == d[p..]
    decreases |d| - p
  {
    if p < |d| {
      CommasTail(d, p + 1);
      assert [d[p]] + d[p + 1..] == d[p..];
    }
  }

  lemma {:induction false} CommasSplit(d: string, p: nat)
    requires |d| > 3 && p <= |d| - 3
    ensures Commas(d, p) == Commas(d[..|d| - 3], p) + "," + d[|d| - 3..]
    decreases |d| - 3 - p
  {
    var e := d[..|d| - 3];
    if p == |d| - 3 {
      CommasTail(d, p + 1);
      assert [d[p]] + d[p + 1..] == d[p..];
    } else {
      assert CommaAt(d, p) == CommaAt(e, p);
      CommasSplit(d, p + 1);
    }
  }

  /** The regular expression inserts exactly the commas of grouping by threes. */
  lemma {:induction false} CommasAreGroups(d: string)
    ensures Commas(d, 0) == GroupThrees(d)
    decreases |d|
  {
    if |d| <= 3 {
      CommasTail(d, 0);
    } else {
      CommasSplit(d, 0);
      CommasAreGroups(d[..|d| - 3]);
    }
  }

  /** Dropping the commas of the grouping gives back the digits. */
  lemma {:induction false} GroupsRemoved(d: string)
    requires AllDigits(d)
    ensures Without(GroupThrees(d), {','}) == d
    decreases |d|
  {
    var drop := {','};
    if |d| <= 3 {
      WithoutNone(d, drop);
    } else {
      var front, back := d[..|d| - 3], d[|d| - 3..];
      assert AllDigits(front) && AllDigits(back) by {
        assert forall k :: 0 <= k < |front| ==> front[k] == d[k];
        assert forall k :: 0 <= k < |back| ==> back[k] == d[|d| - 3 + k];
      }
      var g := GroupThrees(front);
      assert GroupThrees(d) == g + "," + back;
      assert Without(g + "," + back, drop) == Without(g + ",", drop) + Without(back, drop) by {
        WithoutAppend(g + ",", back, drop);
      }
      assert Without(g + ",", drop) == front by {
        WithoutAppend(g, ",", drop);
        assert Without(",", drop) == "";
        GroupsRemoved(front);
      }
      assert Without(back, drop) == back by {
        WithoutNone(back, drop);
      }
      assert front + back == d;
    }
  }

  /** Dropping the commas gives back `String(n)`, and the digits come in
      groups of three after the first. */
  lemma FormatRoundTrip(v: int)
    ensures Without(FormatNumberWithCommas(Some(v)), {','}) == IntText(v)
    ensures FormatNumberWithCommas(Some(v)) ==
              (if v < 0 then "-" + GroupThrees(NatText(-v)) else GroupThrees(NatText(v)))
  {
    var d := NatText(if v < 0 then -v else v);
    CommasAreGroups(d);
    GroupsRemoved(d);
    if v < 0 {
      WithoutAppend("-", Commas(d, 0), {','});
    }
  }

  // ---------------------------------------------------------------------
  // getSizeClass

  /** `getSizeClass`: the class of the risky or the safe bar under a size condition. */
  function SizeClass(sizeCondition: Option<string>, optionType: string): (c: string)
    ensures c == "size-large" || c == "size-small"
    ensures c == "size-large" <==>
              || sizeCondition == Some("both-large")
              || (sizeCondition == Some("risk-large") && optionType == "risk")
              || (sizeCondition == Some("safe-large") && optionType == "safe")
  {
    match sizeCondition
    case Some("both-large") => "size-large"
    case Some("both-small") => "size-small"
    case Some("risk-large") => if optionType == "risk" then "size-large" else "size-small"
    case Some("safe-large") => if optionType == "safe" then "size-large" else "size-small"
    case _ => "size-small"
  }

  /** In the two mixed conditions exactly the named bar is large; an unknown
      condition shows both bars small. */
  lemma MixedConditions(sizeCondition: Option<string>)
    ensures sizeCondition == Some("risk-large") || sizeCondition == Some("safe-large") ==>
              SizeClass(sizeCondition, "risk") != SizeClass(sizeCondition, "safe")
    ensures sizeCondition !in {Some("both-large"), Some("risk-large"), Some("safe-large")} ==>
              SizeClass(sizeCondition, "risk") == "size-small" && SizeClass(sizeCondition, "safe") == "size-small"
  {
  }

  // ---------------------------------------------------------------------
  // scoring an attention check

  datatype Scored = Scored(userAnswer: string, isCorrect: bool)

  /** The click handler's scoring: `selected` is the checked radio's value
      (multi-choice) or label (likert), or the text box's value (text);
      `None` when nothing is checked or there is no box. */
  function ScoreAnswer(question: Question, selected: Option<string>): Scored
  {
    if question.kind == "multi-choice" || question.kind == "likert" then
      match selected
      case Some(a) => Scored(a, a == question.correctAnswer)
      case None => Scored("", false)
    else if question.kind == "text" then
      match selected
      case Some(a) => Scored(Trim(a), ToLower(Trim(a)) == ToLower(question.correctAnswer))
      case None => Scored("", false)
    else Scored("", false)
  }

  lemma {:induction false} TrimStartIdem(s: string)
    ensures TrimStart(TrimStart(s)) == TrimStart(s)
  {
  }

  lemma {:induction false} TrimEndIdem(s: string)
    ensures TrimEnd(TrimEnd(s)) == TrimEnd(s)
  {
  }

  lemma TrimIdem(s: string)
    ensures Trim(Trim(s)) == Trim(s)
  {
    var t := Trim(s);
    if |t| > 0 {
      assert !IsSpace(t[0]) && !IsSpace(t[|t| - 1]);
      assert TrimStart(t) == t;
    }
  }

  lemma {:induction false} LowerTrimStart(s: string)
    ensures TrimStart(ToLower(s)) == ToLower(TrimStart(s))
    decreases |s|
  {
    if |s| > 0 {
      assert IsSpace(LowerChar(s[0])) == IsSpace(s[0]);
      assert ToLower(s)[1..] == ToLower(s[1..]);
      LowerTrimStart(s[1..]);
    }
  }

  lemma {:induction false} LowerTrimEnd(s: string)
    ensures TrimEnd(ToLower(s)) == ToLower(TrimEnd(s))
    decreases |s|
  {
    if |s| > 0 {
      assert IsSpace(LowerChar(s[|s| - 1])) == IsSpace(s[|s| - 1]);
      assert ToLower(s)[..|s| - 1] == ToLower(s[..|s| - 1]);
      LowerTrimEnd(s[..|s| - 1]);
    }
  }

  lemma LowerIdem(s: string)
    ensures ToLower(ToLower(s)) == ToLower(s)
  {
  }

  /** A typed answer is scored after trimming and ignoring the case of ASCII
      letters: surrounding spaces and capitals never change the score. */
  lemma TextAnswerTolerant(question: Question, a: string)
    requires question.kind == "text"
    ensures ScoreAnswer(question, Some(Trim(a))) == ScoreAnswer(question, Some(a))
    ensures ScoreAnswer(question, Some(ToLower(a))).isCorrect == ScoreAnswer(question, Some(a)).isCorrect
  {
    var t := Trim(a);
    var answer := ToLower(question.correctAnswer);
    TrimIdem(a);
    TrimLower(a);
    LowerIdem(t);
    ScoreText(question, a);
    ScoreText(question, t);
    ScoreText(question, ToLower(a));
  }

  lemma ScoreText(question: Question, x: string)
    requires question.kind == "text"
    ensures ScoreAnswer(question, Some(x)) == Scored(Trim(x), ToLower(Trim(x)) == ToLower(question.correctAnswer))
  {
  }

  lemma TrimLower(a: string)
    ensures Trim(ToLower(a)) == ToLower(Trim(a))
  {
    LowerTrimStart(a);
    LowerTrimEnd(TrimStart(a));
  }

  /** A chosen option is right exactly when it is the configured answer. */
  lemma ChoiceAnswerExact(question: Question, a: string)
    requires question.kind == "multi-choice" || question.kind == "likert"
    ensures ScoreAnswer(question, Some(a)).isCorrect <==> a == question.correctAnswer
    ensures ScoreAnswer(question, Some(a)).userAnswer == a
  {
  }
}
