/** Trial generation: reading the trial table, dropping the 50% trials,
    shuffling, choosing the main and the fixed practice trials, and spreading
    the attention checks through the main timeline. */
module TrialManager {
  import opened Wrappers
  import opened Text
  import opened Trials

  /** The columns `parseInt` converts. */
  const NumericHeaders: set<string> :=
    {"trial_id", "combination_id", "risk_probability", "risk_reward", "safe_reward", "expected_value"}

  /** The cell stored for one column of a line. */
  function FieldFor(header: string, value: Option<string>): Field
  {
    if header in NumericHeaders then Number(if value.Some? then ParseInt(value.value) else None)
    else Text(value)
  }

  /** No column after `j` and before `n` has the name of column `j`. */
  predicate LastBefore(headers: seq<string>, j: nat, n: nat)
    requires j < n <= |headers|
  {
    forall k :: j < k < n ==> headers[k] != headers[j]
  }

  /** `record` has one entry per header name, holding the cell of the last
      column with that name. */
  ghost predicate RecordFrom(record: Record, headers: seq<string>, values: seq<string>)
  {
    && (forall h :: h in record <==> h in headers)
    && forall j :: 0 <= j < |headers| && LastBefore(headers, j, |headers|) ==>
         record[headers[j]] == FieldFor(headers[j], ValueAt(values, j))
  }

  /** The record the first `n` columns of a line fill, one column after the other. */
  function RecordOf(headers: seq<string>, values: seq<string>, n: nat): Record
    requires n <= |headers|
  {
    if n == 0 then map[]
    else RecordOf(headers, values, n - 1)[headers[n - 1] := FieldFor(headers[n - 1], ValueAt(values, n - 1))]
  }

  /** The columns a line fills name exactly the headers. */
  lemma {:induction false} RecordOfKeys(headers: seq<string>, values: seq<string>, n: nat)
    requires n <= |headers|
    ensures forall h :: h in RecordOf(headers, values, n) <==> exists k :: 0 <= k < n && headers[k] == h
  {
    if n > 0 {
      RecordOfKeys(headers, values, n - 1);
      var prev := RecordOf(headers, values, n - 1);
      var cur := RecordOf(headers, values, n);
      assert cur.Keys == prev.Keys + {headers[n - 1]};
      forall h | h in prev
        ensures exists k :: 0 <= k < n && headers[k] == h
      {
        var k :| 0 <= k < n - 1 && headers[k] == h;
      }
    }
  }

  /** Each header holds the cell of the last column with its name. */
  lemma {:induction false} RecordOfCells(headers: seq<string>, values: seq<string>, n: nat)
    requires n <= |headers|
    ensures forall j :: 0 <= j < n && LastBefore(headers, j, n) ==>
              && headers[j] in RecordOf(headers, values, n)
              && RecordOf(headers, values, n)[headers[j]] == FieldFor(headers[j], ValueAt(values, j))
  {
    if n > 0 {
      RecordOfCells(headers, values, n - 1);
      var prev := RecordOf(headers, values, n - 1);
      var cur := RecordOf(headers, values, n);
      assert cur == prev[headers[n - 1] := FieldFor(headers[n - 1], ValueAt(values, n - 1))];
      forall j | 0 <= j < n - 1 && LastBefore(headers, j, n)
        ensures headers[j] in cur && cur[headers[j]] == FieldFor(headers[j], ValueAt(values, j))
      {
        assert headers[n - 1] != headers[j];
        assert LastBefore(headers, j, n - 1);
      }
    }
  }

  lemma RecordOfFrom(headers: seq<string>, values: seq<string>)
    ensures RecordFrom(RecordOf(headers, values, |headers|), headers, values)
  {
    RecordOfKeys(headers, values, |headers|);
    RecordOfCells(headers, values, |headers|);
  }

  /** The `headers.forEach` loop that fills one record. */
  method BuildRecord(headers: seq<string>, values: seq<string>) returns (record: Record)
    ensures RecordFrom(record, headers, values)
    ensures record == RecordOf(headers, values, |headers|)
  {
    record := map[];
    for i := 0 to |headers|
      invariant record == RecordOf(headers, values, i)
    {
      record := record[headers[i] := FieldFor(headers[i], ValueAt(values, i))];
    }
    RecordOfFrom(headers, values);
  }

  /** Every line after the header line gives one record, in order. */
  ghost predicate RecordsFrom(records: seq<Record>, headers: seq<string>, lines: seq<string>)
    requires |lines| >= 1
  {
    && |records| == |lines| - 1
    && forall i :: 0 <= i < |records| ==> RecordFrom(records[i], headers, Split(lines[i + 1], ','))
  }

  /** The records of the lines after the header line. */
  function RecordsOf(headers: seq<string>, lines: seq<string>): seq<Record>
    requires |lines| >= 1
  {
    seq(|lines| - 1, i requires 0 <= i < |lines| - 1 => RecordOf(headers, Split(lines[i + 1], ','), |headers|))
  }

  /** The loop over the lines after the header line. */
  method BuildRecords(headers: seq<string>, lines: seq<string>) returns (records: seq<Record>)
    requires |lines| >= 1
    ensures RecordsFrom(records, headers, lines)
    ensures records == RecordsOf(headers, lines)
  {
    records := [];
    for i := 1 to |lines|
      invariant |records| == i - 1
      invariant forall k :: 0 <= k < i - 1 ==> records[k] == RecordOf(headers, Split(lines[k + 1], ','), |headers|)
    {
      var record := BuildRecord(headers, Split(lines[i], ','));
      records := records + [record];
    }
    forall k | 0 <= k < |records|
      ensures RecordFrom(records[k], headers, Split(lines[k + 1], ','))
    {
      RecordOfFrom(headers, Split(lines[k + 1], ','));
    }
  }

  /** The non-blank lines of the trial table. */
  function TableLines(text: string): seq<string>
  {
    NonBlank(Split(text, '\n'))
  }

  /** The records of a table: one per non-blank line after the first, keyed by the first. */
  function TableRecords(text: string): seq<Record>
  {
    var lines := TableLines(text);
    if |lines| == 0 then [] else RecordsOf(Split(lines[0], ','), lines)
  }

  /** `loadTrialsFromCSV`: `text` is the fetched table, `None` when the fetch failed.
      The first non-blank line names the columns; every later one is a record. */
  method LoadTrials(text: Option<string>) returns (result: Result<seq<Record>>)
    ensures text.None? ==> result.Failure?
    ensures text.Some? ==> (result.Failure? <==> |TableLines(text.value)| < 2)
    ensures result.Success? ==>
              var lines := TableLines(text.value);
              RecordsFrom(result.value, Split(lines[0], ','), lines) && result.value == TableRecords(text.value)
  {
    if text.None? {
      return Failure("Failed to load trials CSV");
    }
    var lines := TableLines(text.value);
    if |lines| < 2 {
      return Failure("CSV file appears to be empty or malformed");
    }
    var records := BuildRecords(Split(lines[0], ','), lines);
    result := Success(records);
  }

  /** The trials kept for the session: every record whose risk probability is not 50. */
  predicate NotFifty(record: Record)
  {
    NumberOf(record, "risk_probability") != Some(50)
  }

  function DropFifty(records: seq<Record>): (kept: seq<Record>)
    ensures forall r :: r in kept <==> r in records && NotFifty(r)
    ensures |kept| <= |records|
    ensures multiset(kept) <= multiset(records)
    decreases |records|
  {
    if |records| == 0 then []
    else
      assert records == [records[0]] + records[1..];
      (if NotFifty(records[0]) then [records[0]] else []) + DropFifty(records[1..])
  }

  /** Filtering keeps the order of the table: the records kept from a
      concatenation are those kept from the first part, then from the second. */
  lemma {:induction false} DropFiftyAppend(a: seq<Record>, b: seq<Record>)
    ensures DropFifty(a + b) == DropFifty(a) + DropFifty(b)
    decreases |a|
  {
    if |a| > 0 {
      assert (a + b)[1..] == a[1..] + b;
      DropFiftyAppend(a[1..], b);
    } else {
      assert a + b == b;
    }
  }

  /** One record is kept as it is when its risk probability is not 50, and
      dropped otherwise. */
  lemma DropFiftyOne(r: Record)
    ensures DropFifty([r]) == if NotFifty(r) then [r] else []
  {
    assert [r][1..] == [];
  }

  /** `shuffle`: Fisher–Yates on a copy; `draws(i)` is the draw used at step `i`. */
  method Shuffle<T>(s: seq<T>, draws: nat -> real) returns (r: seq<T>)
    requires forall k :: 0.0 <= draws(k) < 1.0
    ensures |r| == |s|
    ensures multiset(r) == multiset(s)
  {
    if |s| == 0 {
      return s;
    }
    var a := new T[|s|](k requires 0 <= k < |s| => s[k]);
    assert a[..] == s;
    var i := |s| - 1;
    while i > 0
      invariant 0 <= i < |s|
      invariant multiset(a[..]) == multiset(s)
      decreases i
    {
      var j := RandomIndex(draws(i), i + 1);
      a[i], a[j] := a[j], a[i];
      i := i - 1;
    }
    r := a[..];
  }

  /** The end index of `slice(0, end)` on a sequence of length `n`: a negative end counts from the back. */
  function SliceEnd(end: int, n: nat): (k: nat)
    ensures k <= n
  {
    if end >= 0 then (if end < n then end else n)
    else if n + end > 0 then n + end else 0
  }

  /** `Math.min(mainTrials, n)` used as a slice end. */
  function MainCount(mainTrials: int, n: nat): (k: nat)
    ensures k <= n
    ensures mainTrials >= 0 ==> k == if mainTrials < n then mainTrials else n
  {
    SliceEnd(if mainTrials < n then mainTrials else n, n)
  }

  /** The trial ids the practice block is made of, in order. */
  const PracticeIds: seq<int> := [1, 15, 30, 45, 60, 75, 90, 105]

  /** `find`: the first record with this trial id. */
  function FindById(records: seq<Record>, id: int): (r: Option<nat>)
    ensures r.Some? ==> r.value < |records| && NumberOf(records[r.value], "trial_id") == Some(id)
                        && forall k :: 0 <= k < r.value ==> NumberOf(records[k], "trial_id") != Some(id)
    ensures r.None? ==> forall k :: 0 <= k < |records| ==> NumberOf(records[k], "trial_id") != Some(id)
    decreases |records|
  {
    if |records| == 0 then None
    else if NumberOf(records[0], "trial_id") == Some(id) then Some(0)
    else match FindById(records[1..], id)
      case None => None
      case Some(k) => Some(k + 1)
  }

  /** Record `k` is the first with trial id `id`. */
  predicate FirstWithId(records: seq<Record>, k: int, id: int)
    requires 0 <= k < |records|
  {
    && NumberOf(records[k], "trial_id") == Some(id)
    && forall j :: 0 <= j < k ==> NumberOf(records[j], "trial_id") != Some(id)
  }

  /** `createFixedPracticeTrials`: the record with each practice id, or the
      first record when none has it. With no records at all the source reads
      a field of `undefined`, which is the `None` here. */
  function PracticeRecords(records: seq<Record>): (r: Option<seq<Record>>)
    ensures r.Some? <==> |records| > 0
    ensures r.Some? ==> |r.value| == |PracticeIds|
    ensures r.Some? ==> forall i :: 0 <= i < |r.value| ==> r.value[i] in records
    ensures r.Some? ==> forall i :: 0 <= i < |PracticeIds| ==>
              if exists k :: 0 <= k < |records| && NumberOf(records[k], "trial_id") == Some(PracticeIds[i])
              then exists k :: 0 <= k < |records| && r.value[i] == records[k] && FirstWithId(records, k, PracticeIds[i])
              else r.value[i] == records[0]
  {
    if |records| == 0 then None
    else Some(seq(|PracticeIds|, i requires 0 <= i < |PracticeIds| =>
                match FindById(records, PracticeIds[i])
                case Some(k) => records[k]
                case None => records[0]))
  }

  /** The practice trials, numbered `practice_1` …; `sides(i) < 0.5` puts the risky bar left. */
  function PracticeTrials(records: seq<Record>, sides: nat -> real): seq<Trial>
  {
    seq(|records|, i requires 0 <= i < |records| => TrialOf(records[i], PracticeNumber(i + 1), sides(i) < 0.5, true))
  }

  /** The main trials, numbered 1 …. */
  function MainTrials(records: seq<Record>, sides: nat -> real): seq<Trial>
  {
    seq(|records|, i requires 0 <= i < |records| => TrialOf(records[i], MainNumber(i + 1), sides(i) < 0.5, false))
  }

  // ---- Spreading the attention checks ----

  function Items(trials: seq<Trial>): (items: seq<Item>)
    ensures |items| == |trials|
  {
    seq(|trials|, k requires 0 <= k < |trials| => TrialItem(trials[k]))
  }

  /** `i * width`, built up one block at a time. */
  function Times(i: nat, width: nat): nat
    decreases i
  {
    if i == 0 then 0 else Times(i - 1, width) + width
  }

  lemma {:induction false} TimesIsProduct(i: nat, width: nat)
    ensures Times(i, width) == i * width
    decreases i
  {
    if i > 0 {
      TimesIsProduct(i - 1, width);
      assert (i - 1) * width + width == i * width;
    }
  }

  lemma {:induction false} TimesMono(a: nat, b: nat, width: nat)
    requires a <= b
    ensures Times(a, width) <= Times(b, width)
    decreases b - a
  {
    if a < b {
      TimesMono(a, b - 1, width);
    }
  }

  /** The first `i` blocks: `width` main trials, then attention check number `i`. */
  function Blocks(main: seq<Trial>, checks: seq<Question>, width: nat, i: nat): seq<Item>
    requires i <= |checks| && Times(i, width) <= |main|
    decreases i
  {
    if i == 0 then []
    else
      Blocks(main, checks, width, i - 1) + Items(main[Times(i - 1, width) .. Times(i, width)]) + [CheckItem(checks[i - 1])]
  }

  /** The number of main trials between two attention checks. */
  function Interval(mainCount: nat, checkCount: nat): nat
  {
    mainCount / (checkCount + 1)
  }

  /** `checkCount + 1` blocks of `Interval` trials fit in the main trials,
      and with at least one trial the last check has a trial after it. */
  lemma IntervalFits(m: nat, k: nat)
    ensures Times(k + 1, Interval(m, k)) <= m
    ensures m > 0 ==> Times(k, Interval(m, k)) < m
  {
    var w := Interval(m, k);
    TimesIsProduct(k + 1, w);
    TimesIsProduct(k, w);
    assert (k + 1) * w + m % (k + 1) == m;
    assert (k + 1) * w == k * w + w;
  }

  /** The final timeline: the attention checks spread evenly through the main
      trials, or the main trials alone when there are no checks or no trials. */
  function Spread(main: seq<Trial>, checks: seq<Question>): seq<Item>
  {
    if |checks| == 0 || |main| == 0 then Items(main)
    else
      var w := Interval(|main|, |checks|);
      IntervalFits(|main|, |checks|);
      Blocks(main, checks, w, |checks|) + Items(main[Times(|checks|, w)..])
  }

  lemma {:induction false} BlocksLength(main: seq<Trial>, checks: seq<Question>, width: nat, i: nat)
    requires i <= |checks| && Times(i, width) <= |main|
    ensures |Blocks(main, checks, width, i)| == Times(i, width) + i
    decreases i
  {
    if i > 0 {
      BlocksLength(main, checks, width, i - 1);
    }
  }

  lemma ItemsSlice(trials: seq<Trial>, a: nat, b: nat)
    requires a <= b <= |trials|
    ensures Items(trials)[a..b] == Items(trials[a..b])
    ensures Items(trials[a..])[..b - a] == Items(trials[a..b])
    ensures Items(trials[a..])[b - a..] == Items(trials[b..])
  {
  }

  /** `interval` never lets an insert position fall past the end, so the
      push branch is never taken. */
  method Interleave(main: seq<Trial>, checks: seq<Question>) returns (timeline: seq<Item>)
    ensures timeline == Spread(main, checks)
  {
    timeline := Items(main);
    if |checks| > 0 && |main| > 0 {
      var interval := |main| / (|checks| + 1);
      IntervalFits(|main|, |checks|);
      var inserted := 0;
      for i := 0 to |checks|
        invariant inserted == i
        invariant Times(i, interval) <= |main|
        invariant timeline == Blocks(main, checks, interval, i) + Items(main[Times(i, interval)..])
      {
        var pos := (i + 1) * interval + inserted;
        TimesMono(i + 1, |checks|, interval);
        InsertAt(main, checks, interval, i, timeline);
        if pos < |timeline| {
          timeline := timeline[..pos] + [CheckItem(checks[i])] + timeline[pos..];
          inserted := inserted + 1;
        } else {
          assert false;
        }
      }
    }
  }

  /** Pass `i` of the insertion loop puts check `i` at `(i + 1) * w + i`,
      which lies inside the timeline, and extends the blocks by one. */
  lemma InsertAt(main: seq<Trial>, checks: seq<Question>, w: nat, i: nat, timeline: seq<Item>)
    requires i < |checks| && Times(i + 1, w) < |main|
    requires timeline == Blocks(main, checks, w, i) + Items(main[Times(i, w)..])
    ensures (i + 1) * w + i < |timeline|
    ensures timeline[..(i + 1) * w + i] + [CheckItem(checks[i])] + timeline[(i + 1) * w + i..]
            == Blocks(main, checks, w, i + 1) + Items(main[Times(i + 1, w)..])
  {
    var pos := (i + 1) * w + i;
    assert pos == Times(i + 1, w) + i by {
      TimesIsProduct(i + 1, w);
    }
    InsertStep(main, checks, w, i, timeline);
  }

  /** One pass of `generateTrials`' insertion loop: splicing check `i` in at
      its position extends the blocks by one. */
  lemma InsertStep(main: seq<Trial>, checks: seq<Question>, w: nat, i: nat, timeline: seq<Item>)
    requires i < |checks| && Times(i + 1, w) < |main|
    requires timeline == Blocks(main, checks, w, i) + Items(main[Times(i, w)..])
    ensures Times(i + 1, w) + i < |timeline|
    ensures timeline[..Times(i + 1, w) + i] + [CheckItem(checks[i])] + timeline[Times(i + 1, w) + i..]
            == Blocks(main, checks, w, i + 1) + Items(main[Times(i + 1, w)..])
  {
    var lo, hi := Times(i, w), Times(i + 1, w);
    var pos := hi + i;
    BlocksLength(main, checks, w, i);
    var before := Blocks(main, checks, w, i);
    ItemsSlice(main, lo, hi);
    assert timeline[..pos] == before + Items(main[lo..hi]);
    assert timeline[pos..] == Items(main[hi..]);
  }

  /** The main trials of a timeline, in order. */
  function TrialsOf(items: seq<Item>): seq<Trial>
    decreases |items|
  {
    if |items| == 0 then []
    else (if items[0].TrialItem? then [items[0].trial] else []) + TrialsOf(items[1..])
  }

  /** The attention checks of a timeline, in order. */
  function ChecksOf(items: seq<Item>): seq<Question>
    decreases |items|
  {
    if |items| == 0 then []
    else (if items[0].CheckItem? then [items[0].question] else []) + ChecksOf(items[1..])
  }

  lemma {:induction false} OfAppend(a: seq<Item>, b: seq<Item>)
    ensures TrialsOf(a + b) == TrialsOf(a) + TrialsOf(b)
    ensures ChecksOf(a + b) == ChecksOf(a) + ChecksOf(b)
    decreases |a|
  {
    if |a| > 0 {
      assert (a + b)[1..] == a[1..] + b;
      OfAppend(a[1..], b);
    } else {
      assert a + b == b;
    }
  }

  lemma {:induction false} OfItems(trials: seq<Trial>)
    ensures TrialsOf(Items(trials)) == trials
    ensures ChecksOf(Items(trials)) == []
    decreases |trials|
  {
    if |trials| > 0 {
      assert Items(trials)[1..] == Items(trials[1..]);
      OfItems(trials[1..]);
    }
  }

  lemma OfBlocks(main: seq<Trial>, checks: seq<Question>, width: nat, i: nat)
    requires i <= |checks| && Times(i, width) <= |main|
    ensures TrialsOf(Blocks(main, checks, width, i)) == main[..Times(i, width)]
    ensures ChecksOf(Blocks(main, checks, width, i)) == checks[..i]
  {
    TrialsOfBlocks(main, checks, width, i);
    ChecksOfBlocks(main, checks, width, i);
  }

  lemma {:induction false} TrialsOfBlocks(main: seq<Trial>, checks: seq<Question>, width: nat, i: nat)
    requires i <= |checks| && Times(i, width) <= |main|
    ensures TrialsOf(Blocks(main, checks, width, i)) == main[..Times(i, width)]
    decreases i
  {
    if i > 0 {
      var lo, hi := Times(i - 1, width), Times(i, width);
      var prev := Blocks(main, checks, width, i - 1);
      var mid := Items(main[lo..hi]);
      var last: seq<Item> := [CheckItem(checks[i - 1])];
      assert Blocks(main, checks, width, i) == prev + mid + last;
      TrialsOfBlocks(main, checks, width, i - 1);
      OfAppend(prev + mid, last);
      OfAppend(prev, mid);
      OfItems(main[lo..hi]);
      assert TrialsOf(last) == [];
      assert main[..lo] + main[lo..hi] == main[..hi];
    }
  }

  lemma {:induction false} ChecksOfBlocks(main: seq<Trial>, checks: seq<Question>, width: nat, i: nat)
    requires i <= |checks| && Times(i, width) <= |main|
    ensures ChecksOf(Blocks(main, checks, width, i)) == checks[..i]
    decreases i
  {
    if i > 0 {
      var lo, hi := Times(i - 1, width), Times(i, width);
      var prev := Blocks(main, checks, width, i - 1);
      var mid := Items(main[lo..hi]);
      var last: seq<Item> := [CheckItem(checks[i - 1])];
      assert Blocks(main, checks, width, i) == prev + mid + last;
      ChecksOfBlocks(main, checks, width, i - 1);
      OfAppend(prev + mid, last);
      OfAppend(prev, mid);
      OfItems(main[lo..hi]);
      assert ChecksOf(last) == [checks[i - 1]];
      assert checks[..i - 1] + [checks[i - 1]] == checks[..i];
    }
  }

  /** Spreading keeps every main trial, in order, and every attention check,
      in order, provided there is at least one main trial. */
  lemma SpreadKeepsOrder(main: seq<Trial>, checks: seq<Question>)
    ensures TrialsOf(Spread(main, checks)) == main
    ensures ChecksOf(Spread(main, checks)) == (if |main| > 0 then checks else [])
    ensures |Spread(main, checks)| == |main| + |ChecksOf(Spread(main, checks))|
  {
    if |checks| == 0 || |main| == 0 {
      OfItems(main);
    } else {
      var w := Interval(|main|, |checks|);
      var k := |checks|;
      IntervalFits(|main|, k);
      var n := Times(k, w);
      OfBlocks(main, checks, w, k);
      OfItems(main[n..]);
      OfAppend(Blocks(main, checks, w, k), Items(main[n..]));
      BlocksLength(main, checks, w, k);
      assert main[..n] + main[n..] == main;
      assert checks[..k] == checks;
    }
  }

  lemma {:induction false} BlocksPosition(main: seq<Trial>, checks: seq<Question>, width: nat, i: nat, c: nat)
    requires i <= |checks| && Times(i, width) <= |main| && c < i
    ensures Times(c + 1, width) + c < |Blocks(main, checks, width, i)|
    ensures Blocks(main, checks, width, i)[Times(c + 1, width) + c] == CheckItem(checks[c])
    decreases i
  {
    var lo, hi := Times(i - 1, width), Times(i, width);
    BlocksLength(main, checks, width, i - 1);
    var prev := Blocks(main, checks, width, i - 1);
    var mid := Items(main[lo..hi]);
    var whole := Blocks(main, checks, width, i);
    assert whole == prev + mid + [CheckItem(checks[i - 1])];
    var idx := Times(c + 1, width) + c;
    if c < i - 1 {
      BlocksPosition(main, checks, width, i - 1, c);
      assert whole[idx] == prev[idx];
    } else {
      assert idx == |prev| + |mid|;
    }
  }

  /** Attention check `c` follows exactly `(c + 1) * Interval` main trials
      (`Times`, by `TimesIsProduct`). */
  lemma SpreadPositions(main: seq<Trial>, checks: seq<Question>, c: nat)
    requires |main| > 0 && c < |checks|
    ensures var idx := Times(c + 1, Interval(|main|, |checks|)) + c;
            idx < |Spread(main, checks)| && Spread(main, checks)[idx] == CheckItem(checks[c])
  {
    var w := Interval(|main|, |checks|);
    var k := |checks|;
    IntervalFits(|main|, k);
    BlocksPosition(main, checks, w, k, c);
    var blocks := Blocks(main, checks, w, k);
    assert Spread(main, checks) == blocks + Items(main[Times(k, w)..]);
    var idx := Times(c + 1, w) + c;
    assert Spread(main, checks)[idx] == blocks[idx];
  }

  // ---- Generating the session's trials ----

  /** The `Math.random()` draws generation consumes, one stream per use. */
  datatype Draws = Draws(trialShuffle: nat -> real, practiceSides: nat -> real,
                         mainSides: nat -> real, checkShuffle: nat -> real)

  ghost predicate ValidDraws(d: Draws)
  {
    && (forall k :: 0.0 <= d.trialShuffle(k) < 1.0)
    && (forall k :: 0.0 <= d.checkShuffle(k) < 1.0)
  }

  /** What `generateTrials` leaves behind. */
  datatype Schedule = Schedule(practice: seq<Trial>, main: seq<Trial>, checks: seq<Question>, timeline: seq<Item>)

  /** What every generated schedule promises: eight practice trials numbered
      `practice_1` … `practice_8`, at most `mainTrials` main trials numbered
      1, 2, …, the requested number of attention checks drawn from the
      questions, and the main trials with the checks spread among them. */
  predicate Fits(s: Schedule, config: Config, questions: seq<Question>)
  {
    && |s.practice| == 8
    && (forall i :: 0 <= i < 8 ==> s.practice[i].number == PracticeNumber(i + 1) && s.practice[i].isPractice)
    && (config.mainTrials >= 0 ==> |s.main| <= config.mainTrials)
    && (forall i :: 0 <= i < |s.main| ==> s.main[i].number == MainNumber(i + 1) && !s.main[i].isPractice)
    && |s.checks| == (if |questions| > 0 && config.attentionChecks > 0
                      then SliceEnd(config.attentionChecks, |questions|) else 0)
    && multiset(s.checks) <= multiset(questions)
    && s.timeline == Spread(s.main, s.checks)
  }

  /** No trial of the practice or main list has a risk probability of 50. */
  predicate NoFifty(s: Schedule)
  {
    forall t :: t in s.practice + s.main ==> t.riskProbability != Some(50)
  }

  /** `s` is what generation makes of the table's `records`: a schedule that
      `Fits`, whose practice list is the fixed one and whose main list holds
      `min(mainTrials, n)` trials of the `n` kept records, each built from
      one of them, with no 50 % trial anywhere. */
  ghost predicate Generated(s: Schedule, records: seq<Record>, config: Config, questions: seq<Question>, draws: Draws)
  {
    var kept := DropFifty(records);
    && |kept| > 0
    && Fits(s, config, questions)
    && s.practice == PracticeTrials(PracticeRecords(kept).value, draws.practiceSides)
    && |s.main| == MainCount(config.mainTrials, |kept|)
    && (forall i :: 0 <= i < |s.main| ==>
          exists r :: r in kept && s.main[i] == TrialOf(r, MainNumber(i + 1), draws.mainSides(i) < 0.5, false))
    && (DistinctIds(kept) ==> forall i, j :: 0 <= i < j < |s.main| ==> s.main[i].trialId != s.main[j].trialId)
    && NoFifty(s)
  }

  /** Whether `generateTrials` succeeds on the fetched table: it is there,
      has a header and a data line, and keeps a record that is not 50 %. */
  predicate CanGenerate(text: Option<string>)
  {
    text.Some? && |TableLines(text.value)| >= 2 && |DropFifty(TableRecords(text.value))| > 0
  }

  /** The practice list always has its eight trials, numbered `practice_1` to `practice_8`. */
  lemma PracticeEight(kept: seq<Record>, sides: nat -> real)
    requires |kept| > 0
    ensures var practice := PracticeTrials(PracticeRecords(kept).value, sides);
            && |practice| == 8
            && forall i :: 0 <= i < 8 ==> practice[i].number == PracticeNumber(i + 1) && practice[i].isPractice
  {
    var chosen := PracticeRecords(kept).value;
    assert |chosen| == |PracticeIds| == 8;
    PracticeNumbered(chosen, sides);
  }

  lemma PracticeNumbered(chosen: seq<Record>, sides: nat -> real)
    ensures var practice := PracticeTrials(chosen, sides);
            && |practice| == |chosen|
            && forall i :: 0 <= i < |chosen| ==> practice[i].number == PracticeNumber(i + 1) && practice[i].isPractice
  {
    var practice := PracticeTrials(chosen, sides);
    forall i | 0 <= i < |chosen|
      ensures practice[i].number == PracticeNumber(i + 1) && practice[i].isPractice
    {
      assert practice[i] == TrialOf(chosen[i], PracticeNumber(i + 1), sides(i) < 0.5, true);
    }
  }

  /** Every two records have different trial ids. */
  predicate DistinctIds(records: seq<Record>)
  {
    forall p, q :: 0 <= p < q < |records| ==> NumberOf(records[p], "trial_id") != NumberOf(records[q], "trial_id")
  }

  lemma {:induction false} TwoPositions<T>(s: seq<T>, i: nat, j: nat)
    requires i < j < |s| && s[i] == s[j]
    ensures multiset(s)[s[i]] >= 2
  {
    assert s == s[..j] + s[j..];
    assert s[i] in s[..j];
    assert s[j..][0] == s[i];
    assert multiset(s) == multiset(s[..j]) + multiset(s[j..]);
  }

  lemma {:induction false} DistinctIdsOnce(records: seq<Record>, r: Record)
    requires DistinctIds(records)
    ensures multiset(records)[r] <= 1
    decreases |records|
  {
    if |records| > 0 {
      var rest := records[1..];
      assert DistinctIds(rest) by {
        forall p, q | 0 <= p < q < |rest|
          ensures NumberOf(rest[p], "trial_id") != NumberOf(rest[q], "trial_id")
        {
          assert rest[p] == records[p + 1] && rest[q] == records[q + 1];
        }
      }
      DistinctIdsOnce(rest, r);
      assert records == [records[0]] + rest;
      if records[0] == r {
        forall q | 0 <= q < |rest|
          ensures rest[q] != r
        {
          assert rest[q] == records[q + 1];
        }
        assert r !in rest;
      }
    }
  }

  /** Without repeated trial ids in the table, no record is chosen twice. */
  lemma PrefixKeepsDistinct(kept: seq<Record>, shuffled: seq<Record>, n: nat)
    requires DistinctIds(kept) && multiset(shuffled) == multiset(kept) && n <= |shuffled|
    ensures DistinctIds(shuffled[..n])
  {
    forall p, q | 0 <= p < q < n
      ensures NumberOf(shuffled[p], "trial_id") != NumberOf(shuffled[q], "trial_id")
    {
      if shuffled[p] == shuffled[q] {
        TwoPositions(shuffled, p, q);
        DistinctIdsOnce(kept, shuffled[p]);
      } else {
        assert shuffled[p] in multiset(kept) && shuffled[q] in multiset(kept);
        var a :| 0 <= a < |kept| && kept[a] == shuffled[p];
        var b :| 0 <= b < |kept| && kept[b] == shuffled[q];
        assert a != b;
      }
    }
  }

  /** The shuffled, capped main trials, numbered 1 …. */
  method SelectMain(kept: seq<Record>, mainTrials: int, shuffleDraws: nat -> real, sides: nat -> real)
    returns (main: seq<Trial>)
    requires forall k :: 0.0 <= shuffleDraws(k) < 1.0
    ensures |main| == MainCount(mainTrials, |kept|)
    ensures forall i :: 0 <= i < |main| ==>
              && main[i].number == MainNumber(i + 1) && !main[i].isPractice
              && exists r :: r in kept && main[i] == TrialOf(r, MainNumber(i + 1), sides(i) < 0.5, false)
    ensures DistinctIds(kept) ==> forall i, j :: 0 <= i < j < |main| ==> main[i].trialId != main[j].trialId
  {
    var shuffled := Shuffle(kept, shuffleDraws);
    var count := MainCount(mainTrials, |shuffled|);
    var selected := shuffled[..count];
    main := MainTrials(selected, sides);
    forall i | 0 <= i < |main|
      ensures selected[i] in kept
      ensures main[i] == TrialOf(selected[i], MainNumber(i + 1), sides(i) < 0.5, false)
      ensures main[i].trialId == NumberOf(selected[i], "trial_id")
    {
      assert selected[i] in multiset(shuffled);
    }
    if DistinctIds(kept) {
      PrefixKeepsDistinct(kept, shuffled, count);
    }
  }

  /** The attention checks: a shuffled prefix of the questions, when any are
      configured and requested. */
  method SelectChecks(questions: seq<Question>, attentionChecks: int, shuffleDraws: nat -> real)
    returns (checks: seq<Question>)
    requires forall k :: 0.0 <= shuffleDraws(k) < 1.0
    ensures |checks| == (if |questions| > 0 && attentionChecks > 0
                         then SliceEnd(attentionChecks, |questions|) else 0)
    ensures multiset(checks) <= multiset(questions)
  {
    checks := [];
    if |questions| > 0 && attentionChecks > 0 {
      var mixed := Shuffle(questions, shuffleDraws);
      checks := mixed[..SliceEnd(attentionChecks, |mixed|)];
      assert mixed == checks + mixed[|checks|..];
      assert multiset(mixed) == multiset(checks) + multiset(mixed[|checks|..]);
    }
  }

  /** `generateTrials` after the table is loaded. It fails, changing nothing,
      exactly when no non-50% record is left for the practice block. */
  method Generate(records: seq<Record>, config: Config, questions: seq<Question>, draws: Draws)
    returns (result: Result<Schedule>)
    requires ValidDraws(draws)
    ensures result.Failure? <==> |DropFifty(records)| == 0
    ensures result.Success? ==>
              var kept := DropFifty(records);
              var s := result.value;
              && s.practice == PracticeTrials(PracticeRecords(kept).value, draws.practiceSides)
              && |s.main| == MainCount(config.mainTrials, |kept|)
              && (forall i :: 0 <= i < |s.main| ==>
                    && s.main[i].number == MainNumber(i + 1) && !s.main[i].isPractice
                    && exists r :: r in kept && s.main[i] == TrialOf(r, MainNumber(i + 1), draws.mainSides(i) < 0.5, false))
              && (DistinctIds(kept) ==> forall i, j :: 0 <= i < j < |s.main| ==> s.main[i].trialId != s.main[j].trialId)
              && |s.checks| == (if |questions| > 0 && config.attentionChecks > 0
                                then SliceEnd(config.attentionChecks, |questions|) else 0)
              && multiset(s.checks) <= multiset(questions)
              && s.timeline == Spread(s.main, s.checks)
    ensures result.Success? ==> forall t :: t in result.value.practice + result.value.main ==> t.riskProbability != Some(50)
    ensures result.Success? ==> Fits(result.value, config, questions)
    ensures result.Success? ==> Generated(result.value, records, config, questions, draws)
  {
    var kept := DropFifty(records);
    var main := SelectMain(kept, config.mainTrials, draws.trialShuffle, draws.mainSides);
    var practiceRecords := PracticeRecords(kept);
    if practiceRecords.None? {
      return Failure("Cannot read properties of undefined");
    }
    var practice := PracticeTrials(practiceRecords.value, draws.practiceSides);
    PracticeEight(kept, draws.practiceSides);
    PracticeFromKept(kept, draws.practiceSides);
    MainFromKept(kept, main, config.mainTrials, draws.mainSides);
    var checks := SelectChecks(questions, config.attentionChecks, draws.checkShuffle);
    var timeline := Interleave(main, checks);
    result := Success(Schedule(practice, main, checks, timeline));
  }

  /** Every practice trial comes from a kept record, so none is a 50 % trial. */
  lemma PracticeFromKept(kept: seq<Record>, sides: nat -> real)
    requires |kept| > 0
    requires forall r :: r in kept ==> NotFifty(r)
    ensures forall t :: t in PracticeTrials(PracticeRecords(kept).value, sides) ==> t.riskProbability != Some(50)
  {
    var chosen := PracticeRecords(kept).value;
    var practice := PracticeTrials(chosen, sides);
    forall i | 0 <= i < |practice|
      ensures practice[i].riskProbability != Some(50)
    {
      assert practice[i] == TrialOf(chosen[i], PracticeNumber(i + 1), sides(i) < 0.5, true);
      assert NotFifty(chosen[i]);
    }
  }

  /** Main trials built from kept records are never 50 % trials. */
  lemma MainFromKept(kept: seq<Record>, main: seq<Trial>, mainTrials: int, sides: nat -> real)
    requires forall r :: r in kept ==> NotFifty(r)
    requires forall i :: 0 <= i < |main| ==>
               exists r :: r in kept && main[i] == TrialOf(r, MainNumber(i + 1), sides(i) < 0.5, false)
    ensures forall t :: t in main ==> t.riskProbability != Some(50)
  {
    forall t | t in main
      ensures t.riskProbability != Some(50)
    {
      var i :| 0 <= i < |main| && main[i] == t;
      var r :| r in kept && main[i] == TrialOf(r, MainNumber(i + 1), sides(i) < 0.5, false);
      assert t.riskProbability == NumberOf(r, "risk_probability");
    }
  }

  /** `generateTrials`' loading and generation together: the table is read
      and the schedule built from it, or the first failure is reported. */
  method Build(text: Option<string>, config: Config, questions: seq<Question>, draws: Draws)
    returns (result: Result<Schedule>)
    requires ValidDraws(draws)
    ensures text.None? || |TableLines(text.value)| < 2 ==> result.Failure?
    ensures result.Success? <==> CanGenerate(text)
    ensures result.Success? ==> Generated(result.value, TableRecords(text.value), config, questions, draws)
  {
    var loaded := LoadTrials(text);
    if loaded.Failure? {
      return Failure(loaded.error);
    }
    result := Generate(loaded.value, config, questions, draws);
  }
}
