/** The server's `/save` endpoint: the posted text is cut into lines, blank
    lines are dropped, and every remaining line becomes one stored entry keyed
    by the seventeen column names. */
module SaveEndpoint {
  import opened Wrappers
  import opened Text
  import Csv

  /** A stored field value. `NaN` is what `parseFloat` gives for a non-numeral. */
  datatype Value = Null | Num(n: real) | NaN | Bool(b: bool) | Str(s: string)

  /** One stored document: field name to value. */
  type Entry = map<string, Value>

  /** The column order of a stored trial row. */
  const Keys: seq<string> := [
    "participant_id", "trial_number", "bar_size_condition", "choice", "confidence",
    "risk_probability", "risk_reward", "safe_probability", "safe_reward",
    "risk_position", "safe_position", "ev", "bar_choice_time", "confidence_choice_time",
    "trial_id", "is_bonus_trial", "bonus_amount"]

  /** The columns stored as numbers. */
  const NumericKeys: set<string> := {
    "trial_number", "confidence", "risk_probability", "risk_reward", "safe_reward",
    "safe_probability", "bar_choice_time", "confidence_choice_time", "trial_id", "bonus_amount"}

  /** The value of `parseFloat` as stored: a number, or NaN. */
  function FromFloat(n: Option<real>): Value
  {
    match n
    case Some(x) => Num(x)
    case None => NaN
  }

  /** How the value under `key` is stored. `parseFloat` stands for JavaScript's
      `parseFloat`, returning `None` for NaN. */
  function DecodeValue(key: string, value: Option<string>, parseFloat: string -> Option<real>): (v: Value)
    ensures key in NumericKeys ==>
              (v == Null <==> value == None || value == Some("null") || value == Some(""))
    ensures key in NumericKeys && v != Null ==> v == FromFloat(parseFloat(value.value))
    ensures key == "is_bonus_trial" ==>
              (v == Bool(true) <==> value == Some("TRUE") || value == Some("true") || value == Some("1"))
    ensures key !in NumericKeys && key != "is_bonus_trial" ==> v == Str(value.GetOr(""))
  {
    if key in NumericKeys then
      if value == None || value == Some("null") || value == Some("") then Null
      else FromFloat(parseFloat(value.value))
    else if key == "is_bonus_trial" then
      Bool(value == Some("TRUE") || value == Some("true") || value == Some("1"))
    else
      Str(value.GetOr(""))
  }

  /** `entry` holds exactly the seventeen keys, each decoded from the value at its column. */
  ghost predicate DecodedFrom(entry: Entry, values: seq<string>, parseFloat: string -> Option<real>)
  {
    && (forall k :: k in entry <==> k in Keys)
    && forall j :: 0 <= j < |Keys| ==> entry[Keys[j]] == DecodeValue(Keys[j], ValueAt(values, j), parseFloat)
  }

  lemma KeysDistinct()
    ensures forall i, j :: 0 <= i < j < |Keys| ==> Keys[i] != Keys[j]
  {
  }

  /** The `keys.forEach` loop that fills one entry. */
  method DecodeEntry(values: seq<string>, parseFloat: string -> Option<real>) returns (entry: Entry)
    ensures DecodedFrom(entry, values, parseFloat)
  {
    KeysDistinct();
    entry := map[];
    for j := 0 to |Keys|
      invariant forall k :: k in entry <==> k in Keys[..j]
      invariant forall i :: 0 <= i < j ==> entry[Keys[i]] == DecodeValue(Keys[i], ValueAt(values, i), parseFloat)
    {
      entry := entry[Keys[j] := DecodeValue(Keys[j], ValueAt(values, j), parseFloat)];
    }
    assert Keys[..|Keys|] == Keys;
  }

  /** The lines `data.split('\n').filter(row => row.trim() !== '')` keeps. */
  function Rows(data: string): seq<string>
  {
    NonBlank(Split(data, '\n'))
  }

  datatype SaveResponse =
    | NoData                                          // 400: nothing posted
    | Saved(entries: seq<Entry>, mismatched: seq<nat>) // 200: entries to insert, rows with a wrong value count

  /** Every row gives exactly one entry decoded from its parsed values. */
  ghost predicate EntriesOf(entries: seq<Entry>, rows: seq<string>, parseFloat: string -> Option<real>)
  {
    |entries| == |rows| &&
    forall r :: 0 <= r < |entries| ==> DecodedFrom(entries[r], Csv.ParseRow(rows[r]), parseFloat)
  }

  /** The `rows.map` over the kept lines. */
  method DecodeRows(rows: seq<string>, parseFloat: string -> Option<real>) returns (entries: seq<Entry>, mismatched: seq<nat>)
    ensures EntriesOf(entries, rows, parseFloat)
    ensures forall r :: r in mismatched <==> 0 <= r < |rows| && |Csv.ParseRow(rows[r])| != |Keys|
  {
    entries := [];
    mismatched := [];
    for r := 0 to |rows|
      invariant EntriesOf(entries, rows[..r], parseFloat)
      invariant forall q :: q in mismatched <==> 0 <= q < r && |Csv.ParseRow(rows[q])| != |Keys|
    {
      var values := Csv.ParseCSVRow(rows[r]);
      if |values| != |Keys| {
        mismatched := mismatched + [r];
      }
      var entry := DecodeEntry(values, parseFloat);
      entries := entries + [entry];
    }
    assert rows[..|rows|] == rows;
  }

  /** `/save`: every non-blank line becomes exactly one entry, whatever its
      value count; a count other than seventeen is only reported. */
  method Save(data: Option<string>, parseFloat: string -> Option<real>) returns (response: SaveResponse)
    ensures data == None || data == Some("") <==> response == NoData
    ensures response.Saved? ==>
              && EntriesOf(response.entries, Rows(data.value), parseFloat)
              && (forall r :: r in response.mismatched <==>
                    0 <= r < |Rows(data.value)| && |Csv.ParseRow(Rows(data.value)[r])| != |Keys|)
  {
    if data == None || data == Some("") {
      return NoData;
    }
    var entries, mismatched := DecodeRows(Rows(data.value), parseFloat);
    response := Saved(entries, mismatched);
  }

  /** A fifteen-field browser row is stored as not the bonus trial and with no bonus amount. */
  lemma FifteenFieldRow(entry: Entry, values: seq<string>, parseFloat: string -> Option<real>)
    requires |values| == 15 && DecodedFrom(entry, values, parseFloat)
    ensures entry["is_bonus_trial"] == Bool(false)
    ensures entry["bonus_amount"] == Null
  {
    assert Keys[15] == "is_bonus_trial" && Keys[16] == "bonus_amount";
  }

  /** The lines `/save` keeps from rows that each end in a newline, hold no
      other newline and are not blank: exactly the rows, in order. */
  lemma RowsOfTerminated(bodies: seq<string>)
    requires forall k :: 0 <= k < |bodies| ==> '\n' !in bodies[k] && !Blank(bodies[k])
    ensures Rows(Concat(Terminated(bodies))) == bodies
  {
    SplitTerminated(bodies);
    NonBlankAppend(bodies, [""]);
    NonBlankAll(bodies);
    assert NonBlank([""]) == [];
    assert bodies + [] == bodies;
  }
}
