/** The value-level parts of the `RiskSurveyExperiment` object: the session
    identifier taken from the start time, the choice of study and
    configuration file, and the inline bar styles. */
module Experiment {
  import opened Wrappers
  import opened Text
  import opened Trials

  // ---------------------------------------------------------------------
  // session identifier

  /** `ses_` followed by the first 15 characters of the ISO start time with
      every `-` and `:` removed. */
  function SessionId(iso: string): (id: string)
    ensures |id| >= 4 && id[..4] == "ses_"
    ensures |id| <= 19
    ensures forall k :: 4 <= k < |id| ==> id[k] in iso && id[k] != '-' && id[k] != ':'
  {
    var packed := Without(iso, {'-', ':'});
    WithoutKeeps(iso, {'-', ':'});
    var kept := if |packed| <= 15 then packed else packed[..15];
    assert forall k :: 0 <= k < |kept| ==> kept[k] in packed;
    "ses_" + kept
  }

  /** A run of characters holding no separator of an ISO timestamp. */
  predicate Plain(s: string)
  {
    '-' !in s && ':' !in s
  }

  /** The identifier of a start time whose separators leave `packed`. */
  lemma SessionIdPacked(iso: string, packed: string)
    requires Without(iso, {'-', ':'}) == packed && |packed| >= 15
    ensures SessionId(iso) == "ses_" + packed[..15]
  {
  }

  /** Removing separators around one separator `c`. */
  lemma WithoutAround(a: string, c: char, b: string, drop: set<char>)
    requires c in drop
    ensures Without(a + [c] + b, drop) == Without(a, drop) + Without(b, drop)
  {
    WithoutAppend(a, [c], drop);
    WithoutAppend(a + [c], b, drop);
  }

  /** Three plain runs joined by one separator each lose just the separators. */
  lemma PackThree(x: string, c: char, y: string, z: string)
    requires c == '-' || c == ':'
    requires Plain(x) && Plain(y) && Plain(z)
    ensures Without(x + [c] + y + [c] + z, {'-', ':'}) == x + y + z
  {
    var drop := {'-', ':'};
    WithoutNone(x, drop);
    WithoutNone(y, drop);
    WithoutNone(z, drop);
    WithoutAround(x, c, y, drop);
    WithoutAround(x + [c] + y, c, z, drop);
  }

  /** The `T` between date and time is kept. */
  lemma JoinAtT(date: string, time: string)
    ensures Without(date + "T" + time, {'-', ':'}) == Without(date, {'-', ':'}) + "T" + Without(time, {'-', ':'})
  {
    var drop := {'-', ':'};
    assert Without("T", drop) == "T";
    WithoutAppend(date, "T", drop);
    WithoutAppend(date + "T", time, drop);
  }

  /** Removing the separators of `YYYY-MM-DDTHH:MM:SS…` leaves `YYYYMMDDTHHMMSS…`. */
  lemma PackIso(year: string, month: string, day: string,
                hour: string, minute: string, rest: string)
    requires Plain(year) && Plain(month) && Plain(day) && Plain(hour) && Plain(minute) && Plain(rest)
    ensures Without((year + "-" + month + "-" + day) + "T" + (hour + ":" + minute + ":" + rest), {'-', ':'})
            == (year + month + day) + "T" + (hour + minute + rest)
  {
    PackThree(year, '-', month, day);
    PackThree(hour, ':', minute, rest);
    JoinAtT(year + "-" + month + "-" + day, hour + ":" + minute + ":" + rest);
  }

  /** For `new Date().toISOString()`, `YYYY-MM-DDTHH:MM:SS.sssZ`, the
      identifier is `ses_YYYYMMDDTHHMMSS`: date and time to the second. */
  lemma SessionIdOfIso(year: string, month: string, day: string,
                       hour: string, minute: string, rest: string)
    requires |year| == 4 && |month| == 2 && |day| == 2 && |hour| == 2 && |minute| == 2 && |rest| >= 2
    requires Plain(year) && Plain(month) && Plain(day) && Plain(hour) && Plain(minute) && Plain(rest)
    ensures SessionId(year + "-" + month + "-" + day + "T" + hour + ":" + minute + ":" + rest)
            == "ses_" + year + month + day + "T" + hour + minute + rest[..2]
  {
    var iso := (year + "-" + month + "-" + day) + "T" + (hour + ":" + minute + ":" + rest);
    var front := year + month + day + "T" + hour + minute;
    PackIso(year, month, day, hour, minute, rest);
    assert (year + month + day) + "T" + (hour + minute + rest) == front + rest;
    SessionIdPacked(iso, front + rest);
    PrefixOfAppend(front, rest, 2);
    assert iso == year + "-" + month + "-" + day + "T" + hour + ":" + minute + ":" + rest;
  }

  lemma PrefixOfAppend(a: string, b: string, n: nat)
    requires n <= |b|
    ensures (a + b)[..|a| + n] == a + b[..n]
  {
  }

  // ---------------------------------------------------------------------
  // study selection

  /** The study named by the page's `study` URL parameter: `ip`, or the
      default `risk-survey` for any other value or none. */
  function StudyFromParam(param: Option<string>): (study: string)
    ensures study == "ip" || study == "risk-survey"
    ensures study == "ip" <==> param == Some("ip")
  {
    if param == Some("ip") then "ip" else "risk-survey"
  }

  /** The configuration file fetched for a study. */
  function ConfigPath(study: string): (path: string)
    ensures path == "config_ip_study.json" || path == "config.json"
    ensures path == "config_ip_study.json" <==> study == "ip"
  {
    if study == "ip" then "config_ip_study.json" else "config.json"
  }

  /** The study after the configuration is read: the file's `studyType`
      replaces the URL's choice when it is present and non-empty. */
  function StudyAfterLoad(fromParam: string, fileStudy: Option<string>): (study: string)
    ensures fileStudy.Some? && fileStudy.value != "" ==> study == fileStudy.value
    ensures fileStudy.None? || fileStudy == Some("") ==> study == fromParam
  {
    match fileStudy
    case Some(s) => if s != "" then s else fromParam
    case None => fromParam
  }

  /** The questions kept after loading: the file's list, or none when it has no list. */
  function QuestionsOf(file: ConfigFile): (questions: seq<Question>)
    ensures file.attentionCheckQuestions.Some? ==> questions == file.attentionCheckQuestions.value
    ensures file.attentionCheckQuestions.None? ==> questions == []
  {
    file.attentionCheckQuestions.GetOr([])
  }

  // ---------------------------------------------------------------------
  // getBarStyles

  /** The inline styles of a bar and of its label. */
  datatype BarStyle = BarStyle(bar: string, text: string)

  function FontStyle(font: int): string
  {
    "font-size: " + IntText(font) + "px;"
  }

  /** `getBarStyles`: the large sizes exactly for the class `size-large`,
      the small ones for every other class; the bar's style carries its
      width and height and ends with the label's font size. */
  function BarStyles(config: Config, sizeClass: string): (style: BarStyle)
    ensures sizeClass == "size-large" ==> style.text == FontStyle(config.largeFont)
    ensures sizeClass != "size-large" ==> style.text == FontStyle(config.smallFont)
    ensures var size := if sizeClass == "size-large" then config.largeBar else config.smallBar;
            style.bar == "width: " + IntText(size.width) + "px; height: " + IntText(size.height) + "px; " + style.text
  {
    var isLarge := sizeClass == "size-large";
    var size := if isLarge then config.largeBar else config.smallBar;
    var font := if isLarge then config.largeFont else config.smallFont;
    BarStyle("width: " + IntText(size.width) + "px; height: " + IntText(size.height) + "px; " + FontStyle(font),
             FontStyle(font))
  }

  lemma FontStyleInjective(m: int, n: int)
    requires FontStyle(m) == FontStyle(n)
    ensures m == n
  {
    var pre := "font-size: ";
    var a := FontStyle(m);
    assert a == pre + (IntText(m) + "px;");
    assert FontStyle(n) == pre + (IntText(n) + "px;");
    assert IntText(m) + "px;" == a[|pre|..] == IntText(n) + "px;";
    var l := |IntText(m) + "px;"|;
    assert IntText(m) == (IntText(m) + "px;")[..l - 3];
    assert IntText(n) == (IntText(n) + "px;")[..l - 3];
    IntTextInjective(m, n);
  }

  /** A large and a small label look different exactly when the configured
      font sizes differ. */
  lemma LabelsDiffer(config: Config)
    ensures BarStyles(config, "size-large").text != BarStyles(config, "size-small").text
            <==> config.largeFont != config.smallFont
  {
    if BarStyles(config, "size-large").text == BarStyles(config, "size-small").text {
      FontStyleInjective(config.largeFont, config.smallFont);
    }
  }
}
