/** The consent record kept beside the trial data, and the plain-text
    report written from it. */
module DataExport {
  import opened Wrappers
  import opened Text

  const ConsentVersion: string := "Yale IRB Protocol 0910005795 v1.0"
  const IrbApprovalDate: string := "7/20/2025"
  const IrbProtocol: string := "0910005795"

  /** The participant's decision and the protocol it was made under. */
  datatype Consent = Consent(given: bool, timestamp: string, consentVersion: string,
                             irbApprovalDate: string, irbProtocol: string)

  /** `consentData`: the participant and their consent. */
  datatype ConsentData = ConsentData(subjectId: string, consent: Consent)

  /** `initializeDataTracking`'s record: the subject id, or `NO_ID` when it
      is missing or empty; consent given only when it was set to true; the
      current time; and the fixed protocol, approval date and version. */
  function InitialConsent(subjectId: Option<string>, consentGiven: bool, isoNow: string): (d: ConsentData)
    ensures subjectId.Some? && subjectId.value != "" ==> d.subjectId == subjectId.value
    ensures subjectId.None? || subjectId == Some("") ==> d.subjectId == "NO_ID"
    ensures d.consent.given == consentGiven && d.consent.timestamp == isoNow
    ensures d.consent.irbProtocol == "0910005795" && d.consent.irbApprovalDate == "7/20/2025"
    ensures d.consent.consentVersion == "Yale IRB Protocol 0910005795 v1.0"
  {
    var id := match subjectId case Some(s) => (if s != "" then s else "NO_ID") case None => "NO_ID";
    ConsentData(id, Consent(consentGiven, isoNow, ConsentVersion, IrbApprovalDate, IrbProtocol))
  }

  /** `recordConsent`: the decision and its time are replaced; the subject
      and the protocol fields are kept. */
  function Recorded(d: ConsentData, given: bool, isoNow: string): (r: ConsentData)
    ensures r.consent.given == given && r.consent.timestamp == isoNow
    ensures r.subjectId == d.subjectId
    ensures r.consent.consentVersion == d.consent.consentVersion
    ensures r.consent.irbApprovalDate == d.consent.irbApprovalDate
    ensures r.consent.irbProtocol == d.consent.irbProtocol
  {
    d.(consent := d.consent.(given := given, timestamp := isoNow))
  }

  function YesNo(given: bool): string
  {
    if given then "YES" else "NO"
  }

  // The report's fixed lines; the long ones are written in pieces.
  const Title: string := "YALE UNIVERSITY - DECISION-MAKING STUDY"
  const RecordHeading: string := "CONSENT RECORD"
  const Rule: string := "=====================" + "====================="
  const SubjectHeading: string := "SUBJECT INFORMATION"
  const DecisionHeading: string := "CONSENT DECISION" + " (REQUIRED FOR IRB COMPLIANCE)"
  const NotesHeading: string := "NOTES"
  const NotesLine: string :=
    "This file records" + " consent status." + " Trial-level data" + " exported separately" + " by DataCollector.js"

  /** The report's lines without their line ends, blank separator lines included. */
  function ReportLines(d: ConsentData): seq<string>
  {
    [ Title, RecordHeading, Rule, "",
      SubjectHeading,
      "Subject ID," + d.subjectId,
      "",
      DecisionHeading,
      "Consent Given," + YesNo(d.consent.given),
      "Decision Timestamp," + d.consent.timestamp,
      "IRB Protocol Number," + d.consent.irbProtocol,
      "IRB Approval Date," + d.consent.irbApprovalDate,
      "Consent Document Version," + d.consent.consentVersion,
      "",
      NotesHeading,
      NotesLine ]
  }

  /** `generateConsentReport`: every line followed by a line end. */
  function ConsentReport(d: ConsentData): string
  {
    var lines := ReportLines(d);
    Concat(Terminated(lines))
  }

  /** No field written into the report breaks a line. */
  predicate OneLineFields(d: ConsentData)
  {
    && '\n' !in d.subjectId && '\n' !in d.consent.timestamp && '\n' !in d.consent.irbProtocol
    && '\n' !in d.consent.irbApprovalDate && '\n' !in d.consent.consentVersion
  }

  /** Read back line by line, the report gives its lines in order: the
      subject, then the decision, its time, the protocol, the approval date
      and the version, and then the notes; the file ends with a line end. */
  lemma ReportSplits(d: ConsentData)
    requires OneLineFields(d)
    ensures Split(ConsentReport(d), '\n') == ReportLines(d) + [""]
    ensures var lines := Split(ConsentReport(d), '\n');
            && lines[5] == "Subject ID," + d.subjectId
            && lines[8] == "Consent Given," + YesNo(d.consent.given)
            && lines[9] == "Decision Timestamp," + d.consent.timestamp
            && lines[10] == "IRB Protocol Number," + d.consent.irbProtocol
            && lines[11] == "IRB Approval Date," + d.consent.irbApprovalDate
            && lines[12] == "Consent Document Version," + d.consent.consentVersion
  {
    var lines := ReportLines(d);
    LinesOneLine(d);
    SplitTerminated(lines);
  }

  lemma TitleOneLine()
    ensures '\n' !in Title && '\n' !in RecordHeading
  {
  }

  lemma RuleOneLine()
    ensures '\n' !in Rule && '\n' !in SubjectHeading && '\n' !in NotesHeading
  {
    assert '\n' !in "=====================";
  }

  lemma DecisionOneLine()
    ensures '\n' !in DecisionHeading
  {
    assert '\n' !in "CONSENT DECISION";
    assert '\n' !in " (REQUIRED FOR IRB COMPLIANCE)";
  }

  lemma NotesFrontOneLine()
    ensures '\n' !in "This file records" && '\n' !in " consent status."
  {
  }

  lemma NotesBackOneLine()
    ensures '\n' !in " Trial-level data" && '\n' !in " exported separately" && '\n' !in " by DataCollector.js"
  {
  }

  lemma NotesOneLine()
    ensures '\n' !in NotesLine
  {
    NotesFrontOneLine();
    NotesBackOneLine();
  }

  /** No line of the report holds a line end of its own. */
  lemma LinesOneLine(d: ConsentData)
    requires OneLineFields(d)
    ensures forall k :: 0 <= k < |ReportLines(d)| ==> '\n' !in ReportLines(d)[k]
  {
    TitleOneLine();
    RuleOneLine();
    DecisionOneLine();
    NotesOneLine();
    assert '\n' !in YesNo(d.consent.given);
  }

  /** The report says `Consent Given,YES` exactly when consent was given and
      `Consent Given,NO` exactly when it was not. */
  lemma ReportStatesDecision(d: ConsentData)
    requires OneLineFields(d)
    ensures "Consent Given,YES" in Split(ConsentReport(d), '\n') <==> d.consent.given
    ensures "Consent Given,NO" in Split(ConsentReport(d), '\n') <==> !d.consent.given
  {
    ReportSplits(d);
    var lines := Split(ConsentReport(d), '\n');
    var yes := "Consent Given,YES";
    var no := "Consent Given,NO";
    forall k | 0 <= k < |lines| && k != 8
      ensures lines[k] != yes && lines[k] != no
    {
      if k == 1 || k == 7 {
        assert lines[k][1] == 'O';
      } else if k == 12 {
        assert lines[k][8] == 'D';
      } else if k == 3 || k == 6 || k == 13 || k == 16 {
        assert lines[k] == "";
      } else if k == 0 {
        assert lines[k] == Title && Title[0] == 'Y';
      } else if k == 2 {
        assert lines[k] == Rule && Rule[0] == '=';
      } else if k == 4 {
        assert lines[k] == SubjectHeading && SubjectHeading[0] == 'S';
      } else if k == 14 {
        assert lines[k] == NotesHeading && NotesHeading[0] == 'N';
      } else if k == 15 {
        assert lines[k] == NotesLine && NotesLine[0] == 'T';
      } else {
        assert k == 5 || k == 9 || k == 10 || k == 11;
        assert lines[k][0] != 'C';
      }
    }
    assert |yes| != |no|;
    if d.consent.given {
      assert lines[8] == yes;
    } else {
      assert lines[8] == no;
    }
  }
}
