/** The record-management commands of sync_records_cli.py over the sync
    record store: the statistics of show_stats (totals, the records grouped
    by date and by issue, the issues with the most time), the confirmation
    guard of clear_all and the whole minutes list_records shows. The two
    grouping dictionaries keep their keys in first-insertion order, so they
    are sequences of groups here. */
module RecordsCli {
  import opened Wrappers
  import opened Text
  import opened Sorting
  import opened SyncTracker

  /** One item of the `dates` or `issues` dictionary: the key and its
      {'count': ..., 'duration': ...} value. */
  datatype Group = Group(key: string, count: nat, duration: int)

  /** What a grouping is keyed on: start_date or issue_key. */
  datatype GroupField = ByDate | ByIssue

  function KeyOf(field: GroupField, r: SyncRecord): string {
    match field
    case ByDate => r.row.startDate
    case ByIssue => r.row.issueKey
  }

  // ---------------------------------------------------------------------
  // Grouping

  /** The dictionary after `count += 1` and `duration += d` under key k; a
      new key is added at the end with a zero value first. */
  function AddTo(groups: seq<Group>, k: string, d: int): (r: seq<Group>)
    ensures |groups| <= |r| <= |groups| + 1 && 1 <= |r|
  {
    if groups == [] then [Group(k, 1, d)]
    else if groups[0].key == k then [groups[0].(count := groups[0].count + 1, duration := groups[0].duration + d)] + groups[1..]
    else [groups[0]] + AddTo(groups[1..], k, d)
  }

  /** The dictionary the grouping loop builds over the records. */
  function Grouped(records: seq<SyncRecord>, field: GroupField): (r: seq<Group>)
    ensures |r| <= |records|
    ensures records != [] ==> 1 <= |r|
  {
    if records == [] then []
    else
      var last := records[|records| - 1];
      AddTo(Grouped(records[..|records| - 1], field), KeyOf(field, last), last.row.duration)
  }

  /** How many records have key k. */
  function CountOf(records: seq<SyncRecord>, field: GroupField, k: string): nat {
    if records == [] then 0
    else CountOf(records[..|records| - 1], field, k) + (if KeyOf(field, records[|records| - 1]) == k then 1 else 0)
  }

  /** The summed duration of the records with key k. */
  function DurationOf(records: seq<SyncRecord>, field: GroupField, k: string): int {
    if records == [] then 0
    else DurationOf(records[..|records| - 1], field, k)
           + (if KeyOf(field, records[|records| - 1]) == k then records[|records| - 1].row.duration else 0)
  }

  /** sum(record['duration'] for record in records). */
  function TotalDuration(records: seq<SyncRecord>): int {
    if records == [] then 0 else TotalDuration(records[..|records| - 1]) + records[|records| - 1].row.duration
  }

  predicate HasKey(groups: seq<Group>, k: string) {
    exists i :: 0 <= i < |groups| && groups[i].key == k
  }

  predicate UniqueKeys(groups: seq<Group>) {
    forall i, j :: 0 <= i < j < |groups| ==> groups[i].key != groups[j].key
  }

  function CountSum(groups: seq<Group>): int {
    if groups == [] then 0 else groups[0].count + CountSum(groups[1..])
  }

  function DurationSum(groups: seq<Group>): int {
    if groups == [] then 0 else groups[0].duration + DurationSum(groups[1..])
  }

  function Bumped(g: Group, d: int): Group {
    g.(count := g.count + 1, duration := g.duration + d)
  }

  /** A key already present is updated where it stands. */
  lemma {:induction false} AddToFound(groups: seq<Group>, k: string, d: int, i: nat)
    requires i < |groups| && groups[i].key == k
    requires forall j :: 0 <= j < i ==> groups[j].key != k
    ensures AddTo(groups, k, d) == groups[i := Bumped(groups[i], d)]
  {
    if i > 0 {
      AddToFound(groups[1..], k, d, i - 1);
    }
  }

  /** A new key is added at the end with one record. */
  lemma {:induction false} AddToNew(groups: seq<Group>, k: string, d: int)
    requires !HasKey(groups, k)
    ensures AddTo(groups, k, d) == groups + [Group(k, 1, d)]
  {
    if groups != [] {
      assert groups[0].key != k;
      assert !HasKey(groups[1..], k) by {
        forall j | 0 <= j < |groups[1..]| ensures groups[1..][j].key != k {
          assert groups[1..][j] == groups[j + 1];
        }
      }
      AddToNew(groups[1..], k, d);
      assert groups == [groups[0]] + groups[1..];
    }
  }

  /** Each update adds one record and its duration to the totals. */
  lemma {:induction false} AddToSums(groups: seq<Group>, k: string, d: int)
    ensures CountSum(AddTo(groups, k, d)) == CountSum(groups) + 1
    ensures DurationSum(AddTo(groups, k, d)) == DurationSum(groups) + d
  {
    if groups != [] && groups[0].key != k {
      AddToSums(groups[1..], k, d);
      var r := AddTo(groups, k, d);
      assert r[1..] == AddTo(groups[1..], k, d);
    } else if groups != [] {
      var r := AddTo(groups, k, d);
      assert r[1..] == groups[1..];
    }
  }

  /** The per-date (or per-issue) counts sum to the number of records and
      the durations to the total duration. */
  lemma {:induction false} GroupedSums(records: seq<SyncRecord>, field: GroupField)
    ensures CountSum(Grouped(records, field)) == |records|
    ensures DurationSum(Grouped(records, field)) == TotalDuration(records)
  {
    if records != [] {
      var init, last := records[..|records| - 1], records[|records| - 1];
      GroupedSums(init, field);
      AddToSums(Grouped(init, field), KeyOf(field, last), last.row.duration);
    }
  }

  /** The groups' keys are exactly the records' keys. */
  ghost predicate SameKeys(g: seq<Group>, records: seq<SyncRecord>, field: GroupField) {
    forall k :: HasKey(g, k) <==> CountOf(records, field, k) > 0
  }

  /** Each group holds the count and the summed duration of the records
      with its key. */
  predicate Tallies(g: seq<Group>, records: seq<SyncRecord>, field: GroupField) {
    forall i :: 0 <= i < |g| ==>
      g[i].count == CountOf(records, field, g[i].key) && g[i].duration == DurationOf(records, field, g[i].key)
  }

  /** Every key appears once, the keys are exactly those of the records,
      and each group holds the count and the summed duration of the records
      with its key. */
  lemma {:induction false} GroupedCorrect(records: seq<SyncRecord>, field: GroupField)
    ensures var g := Grouped(records, field);
      UniqueKeys(g) && SameKeys(g, records, field) && Tallies(g, records, field)
  {
    if records != [] {
      var init, last := records[..|records| - 1], records[|records| - 1];
      assert records == init + [last];
      GroupedCorrect(init, field);
      var g0 := Grouped(init, field);
      var k, d := KeyOf(field, last), last.row.duration;
      if HasKey(g0, k) {
        var i :| 0 <= i < |g0| && g0[i].key == k;
        assert forall j :: 0 <= j < i ==> g0[j].key != k;
        AddToFound(g0, k, d, i);
        FoundKeys(g0, init, last, field, i);
        FoundTallies(g0, init, last, field, i);
      } else {
        AddToNew(g0, k, d);
        NewKeys(g0, init, last, field);
        NewTallies(g0, init, last, field);
      }
    }
  }

  lemma SnocCounts(init: seq<SyncRecord>, last: SyncRecord, field: GroupField, k: string)
    ensures CountOf(init + [last], field, k) == CountOf(init, field, k) + (if KeyOf(field, last) == k then 1 else 0)
    ensures DurationOf(init + [last], field, k) == DurationOf(init, field, k) + (if KeyOf(field, last) == k then last.row.duration else 0)
  {
    assert (init + [last])[..|init|] == init;
  }

  lemma FoundKeys(g0: seq<Group>, init: seq<SyncRecord>, last: SyncRecord, field: GroupField, i: nat)
    requires UniqueKeys(g0) && SameKeys(g0, init, field)
    requires i < |g0| && g0[i].key == KeyOf(field, last)
    ensures var g := g0[i := Bumped(g0[i], last.row.duration)];
      UniqueKeys(g) && SameKeys(g, init + [last], field)
  {
    var g := g0[i := Bumped(g0[i], last.row.duration)];
    assert forall j :: 0 <= j < |g| ==> g[j].key == g0[j].key;
    forall k' ensures HasKey(g, k') <==> CountOf(init + [last], field, k') > 0 {
      SnocCounts(init, last, field, k');
      if HasKey(g, k') {
        var j :| 0 <= j < |g| && g[j].key == k';
        assert g0[j].key == k';
      }
      if HasKey(g0, k') {
        var j :| 0 <= j < |g0| && g0[j].key == k';
        assert g[j].key == k';
      }
    }
  }

  lemma FoundTallies(g0: seq<Group>, init: seq<SyncRecord>, last: SyncRecord, field: GroupField, i: nat)
    requires UniqueKeys(g0) && Tallies(g0, init, field)
    requires i < |g0| && g0[i].key == KeyOf(field, last)
    ensures Tallies(g0[i := Bumped(g0[i], last.row.duration)], init + [last], field)
  {
    var g := g0[i := Bumped(g0[i], last.row.duration)];
    forall j | 0 <= j < |g|
      ensures g[j].count == CountOf(init + [last], field, g[j].key) && g[j].duration == DurationOf(init + [last], field, g[j].key)
    {
      SnocCounts(init, last, field, g[j].key);
    }
  }

  lemma NewKeys(g0: seq<Group>, init: seq<SyncRecord>, last: SyncRecord, field: GroupField)
    requires UniqueKeys(g0) && SameKeys(g0, init, field)
    requires !HasKey(g0, KeyOf(field, last))
    ensures var g := g0 + [Group(KeyOf(field, last), 1, last.row.duration)];
      UniqueKeys(g) && SameKeys(g, init + [last], field)
  {
    var k := KeyOf(field, last);
    var g := g0 + [Group(k, 1, last.row.duration)];
    forall j | 0 <= j < |g0| ensures g0[j].key != k {
      assert HasKey(g0, g0[j].key);
    }
    forall k' ensures HasKey(g, k') <==> CountOf(init + [last], field, k') > 0 {
      SnocCounts(init, last, field, k');
      if HasKey(g, k') {
        var j :| 0 <= j < |g| && g[j].key == k';
        if j < |g0| { assert g0[j].key == k'; }
      }
      if HasKey(g0, k') {
        var j :| 0 <= j < |g0| && g0[j].key == k';
        assert g[j].key == k';
      }
      assert g[|g0|].key == k;
    }
  }

  lemma NewTallies(g0: seq<Group>, init: seq<SyncRecord>, last: SyncRecord, field: GroupField)
    requires SameKeys(g0, init, field) && Tallies(g0, init, field)
    requires !HasKey(g0, KeyOf(field, last))
    ensures Tallies(g0 + [Group(KeyOf(field, last), 1, last.row.duration)], init + [last], field)
  {
    var k := KeyOf(field, last);
    var g := g0 + [Group(k, 1, last.row.duration)];
    assert CountOf(init, field, k) == 0;
    NoCountNoDuration(init, field, k);
    forall j | 0 <= j < |g|
      ensures g[j].count == CountOf(init + [last], field, g[j].key) && g[j].duration == DurationOf(init + [last], field, g[j].key)
    {
      SnocCounts(init, last, field, g[j].key);
      if j < |g0| {
        assert HasKey(g0, g0[j].key);
      }
    }
  }

  /** Keys no record has sum to no duration. */
  lemma {:induction false} NoCountNoDuration(records: seq<SyncRecord>, field: GroupField, k: string)
    requires CountOf(records, field, k) == 0
    ensures DurationOf(records, field, k) == 0
  {
    if records != [] {
      NoCountNoDuration(records[..|records| - 1], field, k);
    }
  }

  /** The loop over the records for one grouping: the dictionary is
      updated in place, one record at a time. */
  method GroupBy(records: seq<SyncRecord>, field: GroupField) returns (groups: seq<Group>)
    ensures groups == Grouped(records, field)
  {
    groups := [];
    var n := 0;
    while n < |records|
      invariant n <= |records|
      invariant groups == Grouped(records[..n], field)
    {
      var record := records[n];
      groups := AddRecord(groups, KeyOf(field, record), record.row.duration);
      assert records[..n + 1][..n] == records[..n];
      n := n + 1;
    }
    assert records[..n] == records;
  }

  /** `if key not in d: d[key] = {...}; d[key]['count'] += 1; ...`. */
  method AddRecord(groups: seq<Group>, k: string, d: int) returns (r: seq<Group>)
    ensures r == AddTo(groups, k, d)
  {
    var i := 0;
    while i < |groups| && groups[i].key != k
      invariant i <= |groups|
      invariant forall j :: 0 <= j < i ==> groups[j].key != k
    {
      i := i + 1;
    }
    if i < |groups| {
      AddToFound(groups, k, d, i);
      r := groups[i := Bumped(groups[i], d)];
    } else {
      AddToNew(groups, k, d);
      r := groups + [Group(k, 1, d)];
    }
  }

  // ---------------------------------------------------------------------
  // Top issues and the date range

  /** The sort key of sorted(..., key=duration, reverse=True): a stable sort
      by the negated duration. */
  function NegatedDuration(g: Group): int {
    -g.duration
  }

  function Keys(groups: seq<Group>): seq<string> {
    seq(|groups|, i requires 0 <= i < |groups| => groups[i].key)
  }

  /** sorted_issues[:10]. */
  function TopIssues(issues: seq<Group>): seq<Group> {
    var sorted := SortBy(issues, NegatedDuration);
    if |sorted| <= 10 then sorted else sorted[..10]
  }

  /** At most ten issues, drawn from the dictionary, longest first, and no
      issue left out has more time than one listed. */
  lemma TopIssuesCorrect(issues: seq<Group>)
    ensures var r := TopIssues(issues);
      && |r| == (if |issues| <= 10 then |issues| else 10)
      && multiset(r) <= multiset(issues)
      && (forall i, j :: 0 <= i < j < |r| ==> r[i].duration >= r[j].duration)
      && (forall x, i :: x in multiset(issues) - multiset(r) && 0 <= i < |r| ==> x.duration <= r[i].duration)
  {
    var sorted := SortBy(issues, NegatedDuration);
    SortByCorrect(issues, NegatedDuration);
    var n := if |sorted| <= 10 then |sorted| else 10;
    assert TopIssues(issues) == sorted[..n];
    PrefixNonIncreasing(sorted, n);
    RestNotLonger(sorted, n);
  }

  lemma PrefixNonIncreasing(sorted: seq<Group>, n: nat)
    requires SortedBy(sorted, NegatedDuration) && n <= |sorted|
    ensures forall i, j :: 0 <= i < j < n ==> sorted[..n][i].duration >= sorted[..n][j].duration
  {
    forall i, j | 0 <= i < j < n ensures sorted[..n][i].duration >= sorted[..n][j].duration {
      assert NegatedDuration(sorted[i]) <= NegatedDuration(sorted[j]);
    }
  }

  /** What a prefix of a sorted list leaves out is no longer than anything
      in the prefix. */
  lemma RestNotLonger(sorted: seq<Group>, n: nat)
    requires SortedBy(sorted, NegatedDuration) && n <= |sorted|
    ensures multiset(sorted[..n]) <= multiset(sorted)
    ensures forall x, i :: x in multiset(sorted) - multiset(sorted[..n]) && 0 <= i < n ==> x.duration <= sorted[..n][i].duration
  {
    assert sorted == sorted[..n] + sorted[n..];
    assert multiset(sorted) == multiset(sorted[..n]) + multiset(sorted[n..]);
    forall x, i | x in multiset(sorted) - multiset(sorted[..n]) && 0 <= i < n ensures x.duration <= sorted[..n][i].duration {
      assert x in sorted[n..];
      var j :| 0 <= j < |sorted[n..]| && sorted[n..][j] == x;
      assert NegatedDuration(sorted[i]) <= NegatedDuration(sorted[n + j]);
    }
  }

  /** min(keys) under Python's string order. */
  function MinKey(keys: seq<string>): string
    requires keys != []
  {
    if |keys| == 1 then keys[0]
    else
      var m := MinKey(keys[1..]);
      if LexLe(keys[0], m) then keys[0] else m
  }

  /** max(keys) under Python's string order. */
  function MaxKey(keys: seq<string>): string
    requires keys != []
  {
    if |keys| == 1 then keys[0]
    else
      var m := MaxKey(keys[1..]);
      if LexLe(m, keys[0]) then keys[0] else m
  }

  lemma {:induction false} MinKeyLeast(keys: seq<string>)
    requires keys != []
    ensures MinKey(keys) in keys && forall k :: k in keys ==> LexLe(MinKey(keys), k)
  {
    if |keys| > 1 {
      var m := MinKey(keys[1..]);
      MinKeyLeast(keys[1..]);
      LexLeTotal(keys[0], m);
      LexLeRefl(keys[0]);
      forall k | k in keys ensures LexLe(MinKey(keys), k) {
        if k in keys[1..] {
          if LexLe(keys[0], m) { LexLeTrans(keys[0], m, k); }
        } else {
          assert k == keys[0];
        }
      }
    } else {
      LexLeRefl(keys[0]);
    }
  }

  lemma {:induction false} MaxKeyGreatest(keys: seq<string>)
    requires keys != []
    ensures MaxKey(keys) in keys && forall k :: k in keys ==> LexLe(k, MaxKey(keys))
  {
    if |keys| > 1 {
      var m := MaxKey(keys[1..]);
      MaxKeyGreatest(keys[1..]);
      LexLeTotal(keys[0], m);
      LexLeRefl(keys[0]);
      forall k | k in keys ensures LexLe(k, MaxKey(keys)) {
        if k in keys[1..] {
          if LexLe(m, keys[0]) { LexLeTrans(k, m, keys[0]); }
        } else {
          assert k == keys[0];
        }
      }
    } else {
      LexLeRefl(keys[0]);
    }
  }

  // ---------------------------------------------------------------------
  // show_stats

  /** What show_stats reports. */
  datatype Stats = Stats(
    totalRecords: nat,
    totalDuration: int,
    firstDate: string,
    lastDate: string,
    uniqueDates: nat,
    uniqueIssues: nat,
    topIssues: seq<Group>)

  /** show_stats: every record list_synced_entries() returns, with no date
      bounds; nothing when the table is empty; otherwise the totals, the
      date range, the number of dates and of issues, and the top issues. */
  method ShowStats(tracker: Tracker) returns (records: seq<SyncRecord>, stats: Option<Stats>)
    ensures Listing(tracker.rows, records, tracker.rows.Keys, None, None)
    ensures stats.None? <==> tracker.rows == map[]
    ensures stats.Some? ==>
      var dates := Grouped(records, ByDate);
      var issues := Grouped(records, ByIssue);
      && stats.value.totalRecords == |records| == |tracker.rows|
      && stats.value.totalDuration == TotalDuration(records)
      && dates != [] && stats.value.firstDate == MinKey(Keys(dates)) && stats.value.lastDate == MaxKey(Keys(dates))
      && stats.value.uniqueDates == |dates| && stats.value.uniqueIssues == |issues|
      && stats.value.topIssues == TopIssues(issues)
  {
    records := tracker.ListSyncedEntries(None, None);
    UnboundedListingAll(tracker.rows, records);
    if records == [] {
      return records, None;
    }
    var dates := GroupBy(records, ByDate);
    var issues := GroupBy(records, ByIssue);
    stats := Some(Stats(|records|, TotalDuration(records), MinKey(Keys(dates)), MaxKey(Keys(dates)),
                        |dates|, |issues|, TopIssues(issues)));
  }

  // ---------------------------------------------------------------------
  // clear_all and list_records

  /** clear_all: without --confirm nothing is deleted; with it every record
      is, and their number is reported. */
  method ClearAll(tracker: Tracker, confirm: bool) returns (cleared: Option<nat>)
    modifies tracker
    ensures !confirm ==> cleared.None? && tracker.rows == old(tracker.rows)
    ensures confirm ==> cleared == Some(|old(tracker.rows)|) && tracker.rows == map[]
  {
    if !confirm {
      return None;
    }
    var count := tracker.ClearAllRecords();
    cleared := Some(count);
  }

  /** record['duration'] // 60: whole minutes, rounded down. */
  function DurationMinutes(duration: int): (minutes: int)
    ensures 60 * minutes <= duration < 60 * minutes + 60
  {
    duration / 60
  }
}
