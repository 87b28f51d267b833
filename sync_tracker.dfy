/** The sync record store: one row per synced worklog, keyed by a hash of
    the entry's identifying data, so that re-running a sync can tell which
    entries were already submitted. The SQLite table is modelled as a map
    from entry_hash (the UNIQUE column) to the rest of the row; SHA-256 is an
    uninterpreted function `digest`, and the JSON text columns hold the
    values they encode. */
module SyncTracker {
  import opened Wrappers
  import opened Text
  import opened Decimal
  import opened Sorting

  /** additional_data: a JSON object, here a list of key/value pairs. */
  type Metadata = seq<(string, string)>

  /** A row of sync_records apart from its entry_hash. */
  datatype Row = Row(
    togglIds: seq<int>,
    issueKey: string,
    description: string,
    duration: int,
    startDate: string,
    tempoWorklogId: Option<string>,
    syncTimestamp: string,
    additionalData: Option<Metadata>)

  /** The dictionary get_sync_record and list_synced_entries return. */
  datatype SyncRecord = SyncRecord(entryHash: string, row: Row)

  /** What identifies a synced entry. */
  datatype EntryKey = EntryKey(togglIds: seq<int>, issueKey: string, description: string,
                               duration: int, startDate: string)

  // ---------------------------------------------------------------------
  // The entry hash

  /** str(list) for a list of integers: "[1001, 1002]". */
  function IdsText(ids: seq<int>): string {
    "[" + JoinInts(ids) + "]"
  }

  function JoinInts(ids: seq<int>): string {
    if ids == [] then ""
    else if |ids| == 1 then IntToString(ids[0])
    else IntToString(ids[0]) + ", " + JoinInts(ids[1..])
  }

  /** The text hashed for an entry: the sorted ids, then the other fields,
      separated by '|'. */
  function KeyData(k: EntryKey): string {
    IdsText(SortBy(k.togglIds, Identity)) + "|" + k.issueKey + "|" + k.description + "|"
      + IntToString(k.duration) + "|" + k.startDate
  }

  /** _generate_entry_hash: the hex digest of the key text. */
  function EntryHash(digest: string -> string, k: EntryKey): string {
    digest(KeyData(k))
  }

  /** The hash depends on the set of ids with their multiplicities, not on
      their order. */
  lemma EntryHashOrderIndependent(digest: string -> string, k1: EntryKey, k2: EntryKey)
    requires multiset(k1.togglIds) == multiset(k2.togglIds)
    requires k1.issueKey == k2.issueKey && k1.description == k2.description
    requires k1.duration == k2.duration && k1.startDate == k2.startDate
    ensures EntryHash(digest, k1) == EntryHash(digest, k2)
  {
    SortIgnoresOrder(k1.togglIds, k2.togglIds);
  }

  // ---------------------------------------------------------------------
  // The table as a value, and what each write does to it

  /** additional_data is stored only when it is truthy (not None, not {}). */
  function StoredMetadata(m: Option<Metadata>): (r: Option<Metadata>)
    ensures r.Some? <==> m.Some? && m.value != []
    ensures r.Some? ==> r == m
  {
    if m.Some? && m.value != [] then m else None
  }

  /** The row record_sync writes for an entry. */
  function NewRow(k: EntryKey, worklogId: Option<string>, timestamp: string, data: Option<Metadata>): Row {
    Row(SortBy(k.togglIds, Identity), k.issueKey, k.description, k.duration, k.startDate,
        worklogId, timestamp, StoredMetadata(data))
  }

  /** The table after record_sync: the INSERT happens only when the hash is
      new; otherwise the UNIQUE constraint rejects it and the table is
      unchanged. */
  function AfterRecord(rows: map<string, Row>, digest: string -> string, k: EntryKey,
                       worklogId: Option<string>, timestamp: string, data: Option<Metadata>): map<string, Row>
  {
    var h := EntryHash(digest, k);
    if h in rows then rows else rows[h := NewRow(k, worklogId, timestamp, data)]
  }

  /** Every row holds what record_sync wrote: its key is the hash of its
      own fields and its ids are sorted. */
  predicate Consistent(rows: map<string, Row>, digest: string -> string) {
    forall h :: h in rows ==>
      Ascending(rows[h].togglIds)
      && h == EntryHash(digest, EntryKey(rows[h].togglIds, rows[h].issueKey, rows[h].description,
                                         rows[h].duration, rows[h].startDate))
  }

  /** After record_sync the entry reads as synced, the row under its hash is
      the one first written for it, and at most one row was added. */
  lemma RecordThenSynced(rows: map<string, Row>, digest: string -> string, k: EntryKey,
                         worklogId: Option<string>, timestamp: string, data: Option<Metadata>)
    ensures var after := AfterRecord(rows, digest, k, worklogId, timestamp, data);
      EntryHash(digest, k) in after
      && (EntryHash(digest, k) in rows ==> after == rows)
      && (EntryHash(digest, k) !in rows ==> |after| == |rows| + 1
                                             && after[EntryHash(digest, k)] == NewRow(k, worklogId, timestamp, data))
      && (forall h :: h in rows ==> h in after && after[h] == rows[h])
  {
  }

  /** First write wins: recording the same entry again, at any later time
      and with any other worklog id or metadata, changes nothing. */
  lemma RecordIdempotent(rows: map<string, Row>, digest: string -> string, k: EntryKey,
                         w1: Option<string>, t1: string, d1: Option<Metadata>,
                         w2: Option<string>, t2: string, d2: Option<Metadata>)
    ensures var once := AfterRecord(rows, digest, k, w1, t1, d1);
      AfterRecord(once, digest, k, w2, t2, d2) == once
  {
  }

  /** The ids of one entry, given in any order, are recorded as the same
      row. */
  lemma RecordOrderIndependent(rows: map<string, Row>, digest: string -> string, k1: EntryKey, k2: EntryKey,
                               worklogId: Option<string>, timestamp: string, data: Option<Metadata>)
    requires multiset(k1.togglIds) == multiset(k2.togglIds)
    requires k1.issueKey == k2.issueKey && k1.description == k2.description
    requires k1.duration == k2.duration && k1.startDate == k2.startDate
    ensures AfterRecord(rows, digest, k1, worklogId, timestamp, data)
         == AfterRecord(rows, digest, k2, worklogId, timestamp, data)
  {
    EntryHashOrderIndependent(digest, k1, k2);
    SortIgnoresOrder(k1.togglIds, k2.togglIds);
  }

  /** record_sync keeps every row consistent with its hash. */
  lemma RecordKeepsConsistent(rows: map<string, Row>, digest: string -> string, k: EntryKey,
                              worklogId: Option<string>, timestamp: string, data: Option<Metadata>)
    requires Consistent(rows, digest)
    ensures Consistent(AfterRecord(rows, digest, k, worklogId, timestamp, data), digest)
  {
    var sorted := SortBy(k.togglIds, Identity);
    SortByCorrect(k.togglIds, Identity);
    AscendingByIdentity(sorted);
    SortSorted(sorted);
    var k' := EntryKey(sorted, k.issueKey, k.description, k.duration, k.startDate);
    assert KeyData(k') == KeyData(k);
  }

  /** Deleting a hash removes exactly that row. */
  lemma DeleteEffect(rows: map<string, Row>, h: string)
    ensures h !in rows - {h}
    ensures forall g :: g in rows && g != h ==> g in rows - {h} && (rows - {h})[g] == rows[g]
    ensures |rows - {h}| == if h in rows then |rows| - 1 else |rows|
  {
    if h in rows {
      assert (rows - {h}).Keys == rows.Keys - {h};
    } else {
      assert rows - {h} == rows;
    }
  }

  // ---------------------------------------------------------------------
  // Listing

  /** A bound of list_synced_entries takes part only when it is truthy. */
  predicate Given(b: Option<string>) {
    b.Some? && b.value != ""
  }

  /** WHERE start_date >= ? AND start_date <= ?, for the bounds given;
      SQLite compares TEXT by code points, as LexLe does. */
  predicate InRange(date: string, start: Option<string>, end: Option<string>) {
    (Given(start) ==> LexLe(start.value, date)) && (Given(end) ==> LexLe(date, end.value))
  }

  /** ORDER BY start_date, sync_timestamp. */
  predicate RecordLe(a: SyncRecord, b: SyncRecord) {
    if a.row.startDate != b.row.startDate then LexLe(a.row.startDate, b.row.startDate)
    else LexLe(a.row.syncTimestamp, b.row.syncTimestamp)
  }

  predicate Ordered(s: seq<SyncRecord>) {
    forall i, j :: 0 <= i < j < |s| ==> RecordLe(s[i], s[j])
  }

  lemma RecordLeTotal(a: SyncRecord, b: SyncRecord)
    ensures RecordLe(a, b) || RecordLe(b, a)
  {
    LexLeTotal(a.row.startDate, b.row.startDate);
    LexLeTotal(a.row.syncTimestamp, b.row.syncTimestamp);
  }

  lemma RecordLeTrans(a: SyncRecord, b: SyncRecord, c: SyncRecord)
    requires RecordLe(a, b) && RecordLe(b, c)
    ensures RecordLe(a, c)
  {
    var x, y, z := a.row.startDate, b.row.startDate, c.row.startDate;
    if x != y && y != z {
      LexLeTrans(x, y, z);
      if x == z { LexLeAntisym(x, y); }
    } else if x != y {
      assert y == z;
    } else if y != z {
      assert x == y;
    } else {
      LexLeTrans(a.row.syncTimestamp, b.row.syncTimestamp, c.row.syncTimestamp);
    }
  }

  /** Inserts x into an ordered list of records. */
  function InsertRecord(s: seq<SyncRecord>, x: SyncRecord): (r: seq<SyncRecord>)
    ensures |r| == |s| + 1
    ensures multiset(r) == multiset(s) + multiset{x}
  {
    if s == [] then [x]
    else if RecordLe(s[0], x) then
      assert s == [s[0]] + s[1..];
      [s[0]] + InsertRecord(s[1..], x)
    else [x] + s
  }

  lemma {:induction false} InsertRecordOrdered(s: seq<SyncRecord>, x: SyncRecord)
    requires Ordered(s)
    ensures Ordered(InsertRecord(s, x))
  {
    var r := InsertRecord(s, x);
    if s == [] {
    } else if RecordLe(s[0], x) {
      InsertRecordOrdered(s[1..], x);
      forall j | 0 < j < |r| ensures RecordLe(s[0], r[j]) {
        assert r[j] in multiset(s[1..]) + multiset{x};
        if r[j] != x {
          var i :| 0 <= i < |s[1..]| && s[1..][i] == r[j];
          assert s[i + 1] == r[j];
        }
      }
    } else {
      RecordLeTotal(s[0], x);
      forall j | 0 < j < |r| ensures RecordLe(x, r[j]) {
        if j > 1 { RecordLeTrans(x, s[0], s[j - 1]); }
      }
    }
  }

  /** The dictionary built from a row. */
  function ToRecord(h: string, row: Row): (r: SyncRecord)
    ensures r.entryHash == h && r.row == row
  {
    SyncRecord(h, row)
  }

  /** The hashes among `keys` whose row lies within the bounds. */
  function Selected(rows: map<string, Row>, keys: set<string>, start: Option<string>, end: Option<string>): set<string>
    requires keys <= rows.Keys
  {
    set h | h in keys && InRange(rows[h].startDate, start, end)
  }

  /** The records of r are exactly the rows under `keys` that lie within
      the bounds, as dictionaries. */
  ghost predicate Members(rows: map<string, Row>, r: seq<SyncRecord>, keys: set<string>,
                          start: Option<string>, end: Option<string>)
    requires keys <= rows.Keys
  {
    forall x :: x in r <==>
      x.entryHash in keys && x.row == rows[x.entryHash] && InRange(x.row.startDate, start, end)
  }

  /** r lists the rows under `keys` that lie within the bounds: exactly
      those rows, each once, in ORDER BY order. */
  ghost predicate Listing(rows: map<string, Row>, r: seq<SyncRecord>, keys: set<string>,
                    start: Option<string>, end: Option<string>)
  {
    && keys <= rows.Keys
    && Members(rows, r, keys, start, end)
    && |r| == |Selected(rows, keys, start, end)|
    && Ordered(r)
  }

  /** Without bounds the listing holds one record per row. */
  lemma UnboundedListingAll(rows: map<string, Row>, r: seq<SyncRecord>)
    requires Listing(rows, r, rows.Keys, None, None)
    ensures |r| == |rows|
    ensures r == [] <==> rows == map[]
  {
    assert Selected(rows, rows.Keys, None, None) == rows.Keys;
  }

  lemma MembersStepIn(rows: map<string, Row>, r: seq<SyncRecord>, seen: set<string>, h: string,
                      start: Option<string>, end: Option<string>)
    requires seen <= rows.Keys && h in rows
    requires Members(rows, r, seen, start, end)
    requires InRange(rows[h].startDate, start, end)
    ensures Members(rows, InsertRecord(r, ToRecord(h, rows[h])), seen + {h}, start, end)
  {
    var x := ToRecord(h, rows[h]);
    var r' := InsertRecord(r, x);
    forall y ensures y in r' <==> y in r || y == x {
      assert y in r' <==> y in multiset(r');
    }
  }

  lemma SelectedStep(rows: map<string, Row>, seen: set<string>, h: string,
                     start: Option<string>, end: Option<string>)
    requires seen <= rows.Keys && h in rows && h !in seen
    ensures |Selected(rows, seen + {h}, start, end)| ==
            |Selected(rows, seen, start, end)| + (if InRange(rows[h].startDate, start, end) then 1 else 0)
  {
    if InRange(rows[h].startDate, start, end) {
      SelectedAdd(rows, seen, h, start, end);
    } else {
      SelectedSkip(rows, seen, h, start, end);
    }
  }

  lemma SelectedAdd(rows: map<string, Row>, seen: set<string>, h: string,
                    start: Option<string>, end: Option<string>)
    requires seen <= rows.Keys && h in rows && h !in seen
    requires InRange(rows[h].startDate, start, end)
    ensures Selected(rows, seen + {h}, start, end) == Selected(rows, seen, start, end) + {h}
    ensures h !in Selected(rows, seen, start, end)
  {
    var a := Selected(rows, seen + {h}, start, end);
    var b := Selected(rows, seen, start, end);
    forall x ensures x in a <==> x in b + {h} {
    }
  }

  lemma SelectedSkip(rows: map<string, Row>, seen: set<string>, h: string,
                     start: Option<string>, end: Option<string>)
    requires seen <= rows.Keys && h in rows
    requires !InRange(rows[h].startDate, start, end)
    ensures Selected(rows, seen + {h}, start, end) == Selected(rows, seen, start, end)
  {
    var a := Selected(rows, seen + {h}, start, end);
    var b := Selected(rows, seen, start, end);
    forall x ensures x in a <==> x in b {
    }
  }

  /** One step of building the listing: a row within the bounds is
      inserted in order. */
  lemma ListStepIn(rows: map<string, Row>, r: seq<SyncRecord>, seen: set<string>, h: string,
                   start: Option<string>, end: Option<string>)
    requires Listing(rows, r, seen, start, end) && h in rows && h !in seen
    requires InRange(rows[h].startDate, start, end)
    ensures Listing(rows, InsertRecord(r, ToRecord(h, rows[h])), seen + {h}, start, end)
  {
    SelectedStep(rows, seen, h, start, end);
    InsertRecordOrdered(r, ToRecord(h, rows[h]));
    MembersStepIn(rows, r, seen, h, start, end);
  }

  /** One step of building the listing: a row outside the bounds is
      passed over. */
  lemma ListStepOut(rows: map<string, Row>, r: seq<SyncRecord>, seen: set<string>, h: string,
                    start: Option<string>, end: Option<string>)
    requires Listing(rows, r, seen, start, end) && h in rows && h !in seen
    requires !InRange(rows[h].startDate, start, end)
    ensures Listing(rows, r, seen + {h}, start, end)
  {
    SelectedStep(rows, seen, h, start, end);
  }

  // ---------------------------------------------------------------------
  // The store

  class Tracker {
    /** hashlib.sha256(...).hexdigest() */
    const digest: string -> string
    /** The sync_records table. */
    var rows: map<string, Row>

    /** SyncTracker(db_path): opens the database file, whose table holds
        `stored` (empty for a new file); _init_database creates the table
        and its indexes only if they are missing, so existing rows stay. */
    constructor (digest: string -> string, stored: map<string, Row>)
      ensures this.digest == digest && rows == stored
    {
      this.digest := digest;
      rows := stored;
    }

    /** _init_database run again: CREATE ... IF NOT EXISTS changes nothing. */
    method InitDatabase()
      modifies this
      ensures rows == old(rows)
    {
    }

    /** is_entry_synced: whether a row with the entry's hash exists. */
    method IsEntrySynced(k: EntryKey) returns (synced: bool)
      ensures synced <==> EntryHash(digest, k) in rows
    {
      var h := EntryHash(digest, k);
      synced := h in rows;
    }

    /** record_sync: inserts the entry's row unless its hash is already
        present, and returns the hash either way. `timestamp` stands for
        datetime.now().isoformat(). */
    method RecordSync(k: EntryKey, worklogId: Option<string>, data: Option<Metadata>, timestamp: string)
      returns (h: string)
      modifies this
      ensures h == EntryHash(digest, k)
      ensures rows == AfterRecord(old(rows), digest, k, worklogId, timestamp, data)
    {
      h := EntryHash(digest, k);
      if h !in rows {
        rows := rows[h := NewRow(k, worklogId, timestamp, data)];
      }
    }

    /** get_sync_record: the row under the hash, or None. */
    method GetSyncRecord(h: string) returns (r: Option<SyncRecord>)
      ensures r.Some? <==> h in rows
      ensures r.Some? ==> r.value.entryHash == h && r.value.row == rows[h]
    {
      if h in rows {
        r := Some(ToRecord(h, rows[h]));
      } else {
        r := None;
      }
    }

    /** list_synced_entries: every row whose start_date lies within the
        bounds that are given, each once, ordered by start_date and then by
        sync_timestamp. */
    method ListSyncedEntries(start: Option<string>, end: Option<string>) returns (r: seq<SyncRecord>)
      ensures Listing(rows, r, rows.Keys, start, end)
    {
      var pending := rows.Keys;
      r := [];
      ghost var seen: set<string> := {};
      while pending != {}
        invariant pending + seen == rows.Keys && pending !! seen
        invariant Listing(rows, r, seen, start, end)
        decreases pending
      {
        var h :| h in pending;
        assert h in rows && h !in seen;
        if InRange(rows[h].startDate, start, end) {
          ListStepIn(rows, r, seen, h, start, end);
          r := InsertRecord(r, ToRecord(h, rows[h]));
        } else {
          ListStepOut(rows, r, seen, h, start, end);
        }
        assert (pending - {h}) + (seen + {h}) == rows.Keys;
        pending := pending - {h};
        seen := seen + {h};
      }
      assert seen == rows.Keys;
    }

    /** delete_sync_record: removes the row under the hash and reports
        whether there was one. */
    method DeleteSyncRecord(h: string) returns (deleted: bool)
      modifies this
      ensures deleted <==> h in old(rows)
      ensures rows == old(rows) - {h}
    {
      deleted := h in rows;
      rows := rows - {h};
    }

    /** clear_all_records: empties the table and returns how many rows it
        held. */
    method ClearAllRecords() returns (count: nat)
      modifies this
      ensures count == |old(rows)|
      ensures rows == map[]
    {
      count := |rows|;
      rows := map[];
    }
  }
}
