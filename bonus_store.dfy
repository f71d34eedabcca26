/** The server's `/save-bonus` endpoint: one bonus record per participant
    is inserted or merged, and the selected trial row is marked. The two
    collections are held in memory, in the order a query visits them. */
module BonusStore {
  import opened Wrappers
  import opened SaveEndpoint

  /** JavaScript truthiness of a stored value. */
  predicate Truthy(v: Value)
  {
    match v
    case Null => false
    case NaN => false
    case Num(x) => x != 0.0
    case Bool(b) => b
    case Str(s) => s != ""
  }

  /** `doc.key` is present and truthy. */
  predicate HasTruthy(doc: Entry, key: string)
  {
    key in doc && Truthy(doc[key])
  }

  /** A query document matches when it agrees on every field it names. */
  predicate Matches(doc: Entry, query: Entry)
  {
    forall k :: k in query ==> k in doc && doc[k] == query[k]
  }

  /** The position `findOne`/`updateOne` acts on: the first matching document. */
  function FirstMatch(coll: seq<Entry>, query: Entry): (r: Option<nat>)
    ensures r.Some? ==> r.value < |coll| && Matches(coll[r.value], query)
                        && forall i :: 0 <= i < r.value ==> !Matches(coll[i], query)
    ensures r.None? ==> forall i :: 0 <= i < |coll| ==> !Matches(coll[i], query)
    decreases |coll|
  {
    if |coll| == 0 then None
    else if Matches(coll[0], query) then Some(0)
    else match FirstMatch(coll[1..], query)
      case None => None
      case Some(i) => Some(i + 1)
  }

  /** How many documents match. */
  function Count(coll: seq<Entry>, query: Entry): nat
    decreases |coll|
  {
    if |coll| == 0 then 0
    else (if Matches(coll[0], query) then 1 else 0) + Count(coll[1..], query)
  }

  /** `{participant_id: data.participant_id}`. */
  function ByParticipant(data: Entry): Entry
    requires "participant_id" in data
  {
    map["participant_id" := data["participant_id"]]
  }

  /** Update the first matching record with `$set: data`, or insert `data`. */
  function Upsert(coll: seq<Entry>, data: Entry): seq<Entry>
    requires "participant_id" in data
  {
    match FirstMatch(coll, ByParticipant(data))
    case Some(i) => coll[i := coll[i] + data]
    case None => coll + [data]
  }

  /** `parseFloat(outcome_amount) || 0`; a JSON number reads back as itself. */
  function BonusAmount(v: Option<Value>, parseFloat: string -> Option<real>): real
  {
    match v
    case Some(Num(x)) => x
    case Some(Str(s)) => (match parseFloat(s) case Some(x) => x case None => 0.0)
    case _ => 0.0
  }

  /** A missing amount, or one `parseFloat` cannot read (NaN), is stored as 0. */
  lemma BonusAmountDefault(v: Option<Value>, parseFloat: string -> Option<real>)
    ensures v.None? ==> BonusAmount(v, parseFloat) == 0.0
    ensures v.Some? && v.value.Str? && parseFloat(v.value.s).None? ==> BonusAmount(v, parseFloat) == 0.0
    ensures v.Some? && (v.value.Null? || v.value.NaN? || v.value.Bool?) ==> BonusAmount(v, parseFloat) == 0.0
    ensures v.Some? && v.value.Str? && parseFloat(v.value.s).Some? ==> BonusAmount(v, parseFloat) == parseFloat(v.value.s).value
  {
  }

  /** The posted `outcome_amount`, `None` when absent. */
  function OutcomeAmount(data: Entry): Option<Value>
  {
    if "outcome_amount" in data then Some(data["outcome_amount"]) else None
  }

  /** The result-collection query for the bonus trial. */
  function BonusTrialQuery(data: Entry): Entry
    requires "participant_id" in data && "bonus_trial_number" in data
  {
    map["participant_id" := data["participant_id"], "trial_number" := data["bonus_trial_number"]]
  }

  /** Mark the first matching trial row as the bonus trial; no match changes nothing. */
  function MarkBonusTrial(results: seq<Entry>, data: Entry, parseFloat: string -> Option<real>): seq<Entry>
    requires "participant_id" in data && "bonus_trial_number" in data
  {
    match FirstMatch(results, BonusTrialQuery(data))
    case Some(i) =>
      results[i := results[i]["is_bonus_trial" := Bool(true)]
                             ["bonus_amount" := Num(BonusAmount(OutcomeAmount(data), parseFloat))]]
    case None => results
  }

  datatype BonusResponse = MissingParticipant | BonusSaved

  class Store {
    /** The `bonus_payments` collection. */
    var bonusPayments: seq<Entry>
    /** The `result` collection. */
    var results: seq<Entry>

    constructor(bonusPayments: seq<Entry>, results: seq<Entry>)
      ensures this.bonusPayments == bonusPayments && this.results == results
    {
      this.bonusPayments := bonusPayments;
      this.results := results;
    }

    /** `/save-bonus`. */
    method SaveBonus(data: Entry, parseFloat: string -> Option<real>) returns (response: BonusResponse)
      modifies this
      ensures !HasTruthy(data, "participant_id") ==>
                response == MissingParticipant && bonusPayments == old(bonusPayments) && results == old(results)
      ensures HasTruthy(data, "participant_id") ==>
                && response == BonusSaved
                && bonusPayments == Upsert(old(bonusPayments), data)
                && results == (if HasTruthy(data, "bonus_trial_number")
                               then MarkBonusTrial(old(results), data, parseFloat)
                               else old(results))
    {
      if !HasTruthy(data, "participant_id") {
        return MissingParticipant;
      }
      var existing := FirstMatch(bonusPayments, ByParticipant(data));
      if existing.Some? {
        bonusPayments := bonusPayments[existing.value := bonusPayments[existing.value] + data];
      } else {
        bonusPayments := bonusPayments + [data];
      }
      if HasTruthy(data, "bonus_trial_number") {
        results := MarkBonusTrial(results, data, parseFloat);
      }
      response := BonusSaved;
    }
  }

  lemma {:induction false} CountAppend(coll: seq<Entry>, doc: Entry, query: Entry)
    ensures Count(coll + [doc], query) == Count(coll, query) + (if Matches(doc, query) then 1 else 0)
    decreases |coll|
  {
    if |coll| > 0 {
      assert (coll + [doc])[1..] == coll[1..] + [doc];
      CountAppend(coll[1..], doc, query);
    }
  }

  lemma {:induction false} CountUpdate(coll: seq<Entry>, i: nat, doc: Entry, query: Entry)
    requires i < |coll|
    requires Matches(doc, query) == Matches(coll[i], query)
    ensures Count(coll[i := doc], query) == Count(coll, query)
    decreases |coll|
  {
    if i > 0 {
      assert coll[i := doc][1..] == coll[1..][i - 1 := doc];
      CountUpdate(coll[1..], i - 1, doc, query);
    }
  }

  /** The upsert never adds a second record for a participant: after it there
      is exactly one when there were none, else as many as before. */
  lemma UpsertCount(coll: seq<Entry>, data: Entry)
    requires "participant_id" in data
    ensures Count(Upsert(coll, data), ByParticipant(data)) ==
              if Count(coll, ByParticipant(data)) == 0 then 1 else Count(coll, ByParticipant(data))
  {
    var q := ByParticipant(data);
    match FirstMatch(coll, q)
    case Some(i) =>
      assert Matches(coll[i] + data, q);
      CountUpdate(coll, i, coll[i] + data, q);
      CountPositive(coll, i, q);
    case None =>
      CountAppend(coll, data, q);
      CountZero(coll, q);
  }

  lemma {:induction false} CountPositive(coll: seq<Entry>, i: nat, query: Entry)
    requires i < |coll| && Matches(coll[i], query)
    ensures Count(coll, query) > 0
    decreases |coll|
  {
    if i > 0 {
      CountPositive(coll[1..], i - 1, query);
    }
  }

  lemma {:induction false} CountZero(coll: seq<Entry>, query: Entry)
    requires forall i :: 0 <= i < |coll| ==> !Matches(coll[i], query)
    ensures Count(coll, query) == 0
    decreases |coll|
  {
    if |coll| > 0 {
      CountZero(coll[1..], query);
    }
  }

  /** After the upsert the participant's first record carries every posted
      field, and every other record is as it was. */
  lemma UpsertCarriesData(coll: seq<Entry>, data: Entry)
    requires "participant_id" in data
    ensures var after := Upsert(coll, data);
            match FirstMatch(after, ByParticipant(data))
            case Some(i) =>
              (forall k :: k in data ==> k in after[i] && after[i][k] == data[k])
              && |after| == (if i < |coll| then |coll| else |coll| + 1)
              && forall j :: 0 <= j < |coll| && j != i ==> after[j] == coll[j]
            case None => false
  {
    var q := ByParticipant(data);
    var after := Upsert(coll, data);
    match FirstMatch(coll, q)
    case Some(i) =>
      assert after == coll[i := coll[i] + data];
      assert Matches(after[i], q);
      assert FirstMatch(after, q) == Some(i) by {
        FirstMatchIs(after, i, q);
      }
    case None =>
      assert after == coll + [data];
      assert Matches(after[|coll|], q);
      assert FirstMatch(after, q) == Some(|coll|) by {
        FirstMatchIs(after, |coll|, q);
      }
  }

  lemma FirstMatchIs(coll: seq<Entry>, i: nat, query: Entry)
    requires i < |coll| && Matches(coll[i], query)
    requires forall j :: 0 <= j < i ==> !Matches(coll[j], query)
    ensures FirstMatch(coll, query) == Some(i)
  {
    var r := FirstMatch(coll, query);
    assert r.Some?;
  }

  /** Marking the bonus trial touches only the first matching row: it becomes
      the bonus trial with the posted amount (0 when unreadable, see
      `BonusAmountDefault`), all else unchanged. */
  lemma MarkTouchesOneRow(results: seq<Entry>, data: Entry, parseFloat: string -> Option<real>, i: nat)
    requires "participant_id" in data && "bonus_trial_number" in data
    requires FirstMatch(results, BonusTrialQuery(data)) == Some(i)
    ensures var after := MarkBonusTrial(results, data, parseFloat);
            && |after| == |results|
            && after[i]["is_bonus_trial"] == Bool(true)
            && after[i]["trial_number"] == data["bonus_trial_number"]
            && after[i]["bonus_amount"] == Num(BonusAmount(OutcomeAmount(data), parseFloat))
            && (forall k :: k in results[i] && k != "is_bonus_trial" && k != "bonus_amount" ==>
                  k in after[i] && after[i][k] == results[i][k])
            && forall j :: 0 <= j < |results| && j != i ==> after[j] == results[j]
  {
    assert "trial_number" in BonusTrialQuery(data);
  }
}
