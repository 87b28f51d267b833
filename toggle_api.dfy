/** The Toggl Track client (toggle_api.py): credentials, request URLs, and
    the pipeline get_time_entries runs over the entries the API returns:
    the request's upper bound, the successive filters, grouping by
    description and day, rounding of durations and the final sort by id.
    The HTTP requests themselves are parameters: `fetch` is the answer of
    GET /me/time_entries for the query parameters it is given, `projects`
    the answer of GET /me/projects. */
module TogglApi {
  import opened Wrappers
  import opened Text
  import opened Decimal
  import opened Calendar
  import opened DateText
  import opened Sorting
  import opened Lists

  const BaseUrl: string := "https://api.track.toggl.com/api"
  const ApiVersion: string := "/v9"
  const EntriesEndpoint: string := "/me/time_entries"
  const ProjectsEndpoint: string := "/me/projects"

  /** One time entry as the API returns it; a missing project_id is None. */
  datatype TimeEntry = TimeEntry(id: int, description: string, duration: int, start: string,
                                 tags: seq<string>, projectId: Option<int>)

  datatype Project = Project(id: int, name: string)

  // ---------------------------------------------------------------------
  // Credentials and URLs

  /** The "user:password" text that is base64-encoded into the Basic
      Authorization header: the username and password when both are given,
      otherwise the API token with the fixed password "api_token"; Err is
      the constructor's ValueError. */
  function Credentials(username: string, password: string, authToken: string): (r: Result<string>)
    ensures r.Err? <==> (username == "" || password == "") && authToken == ""
  {
    if username != "" && password != "" then Ok(username + ":" + password)
    else if authToken != "" then Ok(authToken + ":api_token")
    else Err("Auth credentials are missing.")
  }

  /** The server splits the credentials at their first colon: when the
      user part has no colon it gets back the user and the password. */
  lemma CredentialsSplit(username: string, password: string, authToken: string)
    requires Credentials(username, password, authToken).Ok?
    requires !Contains(username, ":") && !Contains(authToken, ":")
    ensures var c := Credentials(username, password, authToken).value;
      if username != "" && password != "" then
        SplitHead(c, ":") == username && c[|username| + 1..] == password
      else
        SplitHead(c, ":") == authToken && c[|authToken| + 1..] == "api_token"
  {
    if username != "" && password != "" {
      UserPart(username, password);
    } else {
      assert authToken + ":api_token" == authToken + ":" + "api_token";
      UserPart(authToken, "api_token");
    }
  }

  lemma UserPart(user: string, secret: string)
    requires !Contains(user, ":")
    ensures SplitHead(user + ":" + secret, ":") == user
    ensures (user + ":" + secret)[|user| + 1..] == secret
  {
    CharNotInside(user, ':', secret);
    SplitHeadJoin(user, ":", secret);
  }

  /** _make_absolute_url: the API root, the version, then the endpoint. */
  function AbsoluteUrl(endpoint: string): (r: string)
    ensures |r| == 34 + |endpoint|
    ensures r[..34] == "https://api.track.toggl.com/api/v9" && r[34..] == endpoint
  {
    BaseUrl + ApiVersion + endpoint
  }

  /** get_projects: the projects whose name is in filter_names, or all of
      them when filter_names is empty. */
  function GetProjects(projects: seq<Project>, filterNames: seq<string>): (r: seq<Project>)
    ensures filterNames == [] ==> r == projects
    ensures filterNames != [] ==> forall p :: p in r <==> p in projects && p.name in filterNames
  {
    if |filterNames| > 0 then Filter(projects, (p: Project) => p.name in filterNames) else projects
  }

  // ---------------------------------------------------------------------
  // The request window

  /** The upper bound sent to the API for the last day d: midnight after d,
      as "%Y-%m-%dT%H:%M:%S+00:00"; None where d + 1 day overflows. */
  function UpperBound(d: Date): (r: Option<string>)
    requires ValidDate(d)
  {
    match NextDay(d)
    case None => None
    case Some(next) => Some(FormatTimestamp(DateTime(next, 0, 0, 0)))
  }

  /** The bound is the start of the day after d and reads back as such. */
  lemma UpperBoundNextDay(d: Date)
    requires ValidDate(d)
    ensures UpperBound(d).None? <==> d == LastDate
    ensures UpperBound(d).Some? ==>
      && ParseTimestamp(UpperBound(d).value) == Some(DateTime(NextDay(d).value, 0, 0, 0))
      && DayNumber(NextDay(d).value) == DayNumber(d) + 1
  {
    NextDayNumber(d);
    if NextDay(d).Some? {
      ParseFormatTimestamp(DateTime(NextDay(d).value, 0, 0, 0));
    }
  }

  // ---------------------------------------------------------------------
  // Filters

  /** Drops the entries whose description contains `sub`; an empty `sub`
      switches the filter off (it occurs in every description). */
  function SkipBySubstring(entries: seq<TimeEntry>, sub: string): (r: seq<TimeEntry>)
    ensures sub == "" ==> r == entries
    ensures sub != "" ==> forall e :: e in r <==> e in entries && !Contains(e.description, sub)
  {
    if sub != "" then Filter(entries, (e: TimeEntry) => !Contains(e.description, sub)) else entries
  }

  /** Without the guard, the empty substring would drop every entry. */
  lemma EmptySubstringInEveryText(s: string)
    ensures Contains(s, "")
  {
    assert OccursAt(s, "", 0);
  }

  /** any(tag in entry["tags"] for tag in tags) */
  predicate HasAnyTag(e: TimeEntry, tags: seq<string>) {
    exists t :: t in tags && t in e.tags
  }

  function ExcludeTags(entries: seq<TimeEntry>, tags: seq<string>): (r: seq<TimeEntry>)
    ensures forall e :: e in r <==> e in entries && !HasAnyTag(e, tags)
  {
    if tags != [] then Filter(entries, (e: TimeEntry) => !HasAnyTag(e, tags))
    else
      FilterKeepsAll(entries, (e: TimeEntry) => !HasAnyTag(e, tags));
      entries
  }

  /** Whether the entry belongs to one of the projects; an entry without a
      project belongs to none. */
  predicate InProjects(e: TimeEntry, ps: seq<Project>) {
    e.projectId.Some? && exists p :: p in ps && p.id == e.projectId.value
  }

  /** Drops the entries of the projects named in `names` (looked up with
      get_projects); no names switches the filter off. */
  function ExcludeProjects(entries: seq<TimeEntry>, projects: seq<Project>, names: seq<string>): (r: seq<TimeEntry>)
    ensures names == [] ==> r == entries
    ensures names != [] ==> forall e :: e in r <==> e in entries && !InProjects(e, GetProjects(projects, names))
  {
    if names != [] then
      var excluded := GetProjects(projects, names);
      Filter(entries, (e: TimeEntry) => !InProjects(e, excluded))
    else entries
  }

  /** Keeps the entries carrying one of `tags`; no tags switches the filter
      off. */
  function IncludeTags(entries: seq<TimeEntry>, tags: seq<string>): (r: seq<TimeEntry>)
    ensures tags == [] ==> r == entries
    ensures tags != [] ==> forall e :: e in r <==> e in entries && HasAnyTag(e, tags)
  {
    if tags != [] then Filter(entries, (e: TimeEntry) => HasAnyTag(e, tags)) else entries
  }

  /** The entries whose start is on `day`, when only a start date was
      given; Err where an entry's start does not parse with the timestamp
      format (strptime raises). */
  function OnDay(entries: seq<TimeEntry>, day: Date): (r: Result<seq<TimeEntry>>)
    ensures r.Ok? <==> forall e :: e in entries ==> ParseTimestamp(e.start).Some?
    ensures r.Ok? ==> forall e :: e in r.value <==> e in entries && ParseTimestamp(e.start).value.date == day
  {
    if entries == [] then Ok([])
    else
      var e := entries[0];
      assert entries == [e] + entries[1..];
      match ParseTimestamp(e.start)
      case None => Err("time data does not match format '%Y-%m-%dT%H:%M:%S+00:00'")
      case Some(t) =>
        match OnDay(entries[1..], day)
        case Err(m) => Err(m)
        case Ok(rest) => Ok((if t.date == day then [e] else []) + rest)
  }

  // ---------------------------------------------------------------------
  // Grouping by description and day

  /** entry["start"].split("T")[0]: the date part of a start. */
  function EntryDate(start: string): string {
    SplitHead(start, "T")
  }

  /** The grouping key f"{description}--{date}". */
  function GroupKey(description: string, start: string): string {
    description + "--" + EntryDate(start)
  }

  /** The date part of a start written in the timestamp format is the
      date written as "%Y-%m-%d". */
  lemma EntryDateOfTimestamp(t: DateTime)
    requires ValidDateTime(t)
    ensures EntryDate(FormatTimestamp(t)) == FormatDate(t.date)
  {
    var s := FormatTimestamp(t);
    assert OccursAt(s, "T", 10);
    forall i | 0 <= i < 10 ensures !OccursAt(s, "T", i) {
      assert s[i] == FormatDate(t.date)[i];
      DateHasNoT(t.date, i);
    }
    assert s[..10] == FormatDate(t.date);
  }

  lemma DateHasNoT(d: Date, i: nat)
    requires ValidDate(d) && i < 10
    ensures FormatDate(d)[i] != 'T'
  {
    ZeroPadWidth(d.year, 4);
    ZeroPadWidth(d.month, 2);
    ZeroPadWidth(d.day, 2);
    var y, m, dd := ZeroPad(d.year, 4), ZeroPad(d.month, 2), ZeroPad(d.day, 2);
    assert FormatDate(d) == y + "-" + m + "-" + dd;
    if i < 4 {
      assert FormatDate(d)[i] == y[i];
    } else if 4 < i < 7 {
      assert FormatDate(d)[i] == m[i - 5];
    } else if 7 < i {
      assert FormatDate(d)[i] == dd[i - 8];
    }
  }

  /** Keys built from date parts of one length (as the ten-character dates
      of well-formed starts are) are equal only for equal descriptions and
      dates. */
  lemma GroupKeyInjective(d1: string, s1: string, d2: string, s2: string)
    requires |EntryDate(s1)| == |EntryDate(s2)|
    ensures GroupKey(d1, s1) == GroupKey(d2, s2) <==> d1 == d2 && EntryDate(s1) == EntryDate(s2)
  {
    if GroupKey(d1, s1) == GroupKey(d2, s2) {
      var k1, k2 := GroupKey(d1, s1), GroupKey(d2, s2);
      assert |d1| == |d2|;
      assert d1 == k1[..|d1|] == k2[..|d2|] == d2;
      assert EntryDate(s1) == k1[|d1| + 2..] == k2[|d2| + 2..] == EntryDate(s2);
    }
  }

  /** The grouping below is stated for any key computed from the
      description and the start; get_time_entries uses GroupKey. */
  type KeyFn = (string, string) -> string

  function KeyOf(key: KeyFn, e: TimeEntry): string {
    key(e.description, e.start)
  }

  /** The grouped_entries dict in insertion order, as its (key, entry)
      pairs. */
  type Groups = seq<(string, TimeEntry)>

  /** Looking a key up in the dict. */
  function KeyIndex(g: Groups, k: string): (r: Option<nat>)
    ensures r.Some? ==> r.value < |g| && g[r.value].0 == k
    ensures r.None? ==> forall i :: 0 <= i < |g| ==> g[i].0 != k
  {
    if g == [] then None
    else if g[|g| - 1].0 == k then Some(|g| - 1)
    else KeyIndex(g[..|g| - 1], k)
  }

  /** One turn of the grouping loop: add the duration to the entry stored
      under the key, or store the entry under a new key. */
  function AddToGroups(g: Groups, e: TimeEntry, key: KeyFn): Groups {
    var k := KeyOf(key, e);
    match KeyIndex(g, k)
    case Some(i) => g[i := (k, g[i].1.(duration := g[i].1.duration + e.duration))]
    case None => g + [(k, e)]
  }

  function GroupsOf(s: seq<TimeEntry>, key: KeyFn): Groups {
    if s == [] then [] else AddToGroups(GroupsOf(s[..|s| - 1], key), s[|s| - 1], key)
  }

  function Values(g: Groups): (r: seq<TimeEntry>)
    ensures |r| == |g| && forall i :: 0 <= i < |g| ==> r[i] == g[i].1
  {
    seq(|g|, i requires 0 <= i < |g| => g[i].1)
  }

  /** list(grouped_entries.values()) */
  function GroupedBy(s: seq<TimeEntry>, key: KeyFn): seq<TimeEntry> {
    Values(GroupsOf(s, key))
  }

  /** Reference definitions: the first entry with key k, the total duration
      of the entries with key k, and the total duration of all entries. */
  function FirstIndex(s: seq<TimeEntry>, key: KeyFn, k: string): (r: Option<nat>)
    ensures r.Some? ==> r.value < |s| && KeyOf(key, s[r.value]) == k
    ensures r.Some? ==> forall j :: 0 <= j < r.value ==> KeyOf(key, s[j]) != k
    ensures r.None? ==> forall j :: 0 <= j < |s| ==> KeyOf(key, s[j]) != k
  {
    if s == [] then None
    else match FirstIndex(s[..|s| - 1], key, k)
      case Some(i) => Some(i)
      case None => if KeyOf(key, s[|s| - 1]) == k then Some(|s| - 1) else None
  }

  function KeyTotal(s: seq<TimeEntry>, key: KeyFn, k: string): int {
    if s == [] then 0
    else KeyTotal(s[..|s| - 1], key, k) + (if KeyOf(key, s[|s| - 1]) == k then s[|s| - 1].duration else 0)
  }

  function Total(s: seq<TimeEntry>): int {
    if s == [] then 0 else Total(s[..|s| - 1]) + s[|s| - 1].duration
  }

  lemma {:induction false} KeyTotalNone(s: seq<TimeEntry>, key: KeyFn, k: string)
    requires FirstIndex(s, key, k).None?
    ensures KeyTotal(s, key, k) == 0
  {
    if s != [] {
      KeyTotalNone(s[..|s| - 1], key, k);
    }
  }

  /** FirstIndex and KeyTotal one entry further. */
  lemma AppendOne(init: seq<TimeEntry>, e: TimeEntry, key: KeyFn, k: string)
    ensures FirstIndex(init + [e], key, k) ==
      (if FirstIndex(init, key, k).Some? then FirstIndex(init, key, k)
       else if KeyOf(key, e) == k then Some(|init|) else None)
    ensures KeyTotal(init + [e], key, k) == KeyTotal(init, key, k) + (if KeyOf(key, e) == k then e.duration else 0)
  {
    assert (init + [e])[..|init|] == init;
  }

  /** The dict's keys are distinct and each is the key of its entry. */
  predicate WellKeyed(g: Groups, key: KeyFn) {
    && (forall i :: 0 <= i < |g| ==> g[i].0 == KeyOf(key, g[i].1))
    && (forall i, j :: 0 <= i < j < |g| ==> g[i].0 != g[j].0)
  }

  /** The dict has a key exactly when the input has an entry with it. */
  ghost predicate Covers(s: seq<TimeEntry>, key: KeyFn, g: Groups) {
    forall k :: KeyIndex(g, k).Some? <==> FirstIndex(s, key, k).Some?
  }

  /** Each stored entry is the first entry with its key, carrying the
      key's total duration. */
  ghost predicate FirstsWithTotals(s: seq<TimeEntry>, key: KeyFn, g: Groups) {
    forall i :: 0 <= i < |g| ==>
      && FirstIndex(s, key, g[i].0).Some?
      && g[i].1 == s[FirstIndex(s, key, g[i].0).value].(duration := KeyTotal(s, key, g[i].0))
  }

  /** The keys are stored in the order they first occur. */
  ghost predicate InFirstOrder(s: seq<TimeEntry>, key: KeyFn, g: Groups) {
    forall i, j :: 0 <= i < j < |g| ==>
      && FirstIndex(s, key, g[i].0).Some? && FirstIndex(s, key, g[j].0).Some?
      && FirstIndex(s, key, g[i].0).value < FirstIndex(s, key, g[j].0).value
  }

  ghost predicate GroupsFacts(s: seq<TimeEntry>, key: KeyFn, g: Groups) {
    WellKeyed(g, key) && Covers(s, key, g) && FirstsWithTotals(s, key, g) && InFirstOrder(s, key, g)
  }

  lemma {:induction false} GroupsOfFacts(s: seq<TimeEntry>, key: KeyFn)
    ensures GroupsFacts(s, key, GroupsOf(s, key))
  {
    if s != [] {
      var init, e := s[..|s| - 1], s[|s| - 1];
      GroupsOfFacts(init, key);
      assert s == init + [e];
      var g := GroupsOf(init, key);
      match KeyIndex(g, KeyOf(key, e))
      case Some(i) =>
        FoundKeyed(e, key, g, i);
        FoundCovers(init, e, key, g, i);
        FoundTotals(init, e, key, g, i);
        FoundOrder(init, e, key, g, i);
      case None =>
        NewCovers(init, e, key, g);
        NewTotals(init, e, key, g);
        NewOrder(init, e, key, g);
    }
  }

  lemma FoundKeyed(e: TimeEntry, key: KeyFn, g: Groups, i: nat)
    requires WellKeyed(g, key) && KeyIndex(g, KeyOf(key, e)) == Some(i)
    ensures WellKeyed(AddToGroups(g, e, key), key)
  {
  }

  lemma FoundCovers(init: seq<TimeEntry>, e: TimeEntry, key: KeyFn, g: Groups, i: nat)
    requires Covers(init, key, g) && KeyIndex(g, KeyOf(key, e)) == Some(i)
    ensures Covers(init + [e], key, AddToGroups(g, e, key))
  {
    var g' := AddToGroups(g, e, key);
    forall k ensures KeyIndex(g', k).Some? <==> FirstIndex(init + [e], key, k).Some? {
      AppendOne(init, e, key, k);
      if KeyIndex(g, k).Some? {
        assert g'[KeyIndex(g, k).value].0 == k;
      }
    }
  }

  lemma FoundTotals(init: seq<TimeEntry>, e: TimeEntry, key: KeyFn, g: Groups, i: nat)
    requires WellKeyed(g, key) && FirstsWithTotals(init, key, g) && KeyIndex(g, KeyOf(key, e)) == Some(i)
    ensures FirstsWithTotals(init + [e], key, AddToGroups(g, e, key))
  {
    var g' := AddToGroups(g, e, key);
    forall j | 0 <= j < |g'| ensures
      && FirstIndex(init + [e], key, g'[j].0).Some?
      && g'[j].1 == (init + [e])[FirstIndex(init + [e], key, g'[j].0).value].(duration := KeyTotal(init + [e], key, g'[j].0))
    {
      AppendOne(init, e, key, g'[j].0);
    }
  }

  lemma FoundOrder(init: seq<TimeEntry>, e: TimeEntry, key: KeyFn, g: Groups, i: nat)
    requires Covers(init, key, g) && InFirstOrder(init, key, g) && KeyIndex(g, KeyOf(key, e)) == Some(i)
    ensures InFirstOrder(init + [e], key, AddToGroups(g, e, key))
  {
    var g' := AddToGroups(g, e, key);
    forall j | 0 <= j < |g'| ensures FirstIndex(init + [e], key, g'[j].0) == FirstIndex(init, key, g[j].0) {
      assert g'[j].0 == g[j].0;
      assert KeyIndex(g, g[j].0).Some?;
      AppendOne(init, e, key, g'[j].0);
    }
  }

  lemma NewCovers(init: seq<TimeEntry>, e: TimeEntry, key: KeyFn, g: Groups)
    requires Covers(init, key, g) && KeyIndex(g, KeyOf(key, e)).None?
    ensures Covers(init + [e], key, AddToGroups(g, e, key))
  {
    var g' := AddToGroups(g, e, key);
    forall k ensures KeyIndex(g', k).Some? <==> FirstIndex(init + [e], key, k).Some? {
      AppendOne(init, e, key, k);
      if KeyIndex(g, k).Some? {
        assert g'[KeyIndex(g, k).value].0 == k;
      }
    }
  }

  lemma NewTotals(init: seq<TimeEntry>, e: TimeEntry, key: KeyFn, g: Groups)
    requires Covers(init, key, g) && FirstsWithTotals(init, key, g) && KeyIndex(g, KeyOf(key, e)).None?
    ensures FirstsWithTotals(init + [e], key, AddToGroups(g, e, key))
  {
    var g', k := AddToGroups(g, e, key), KeyOf(key, e);
    KeyTotalNone(init, key, k);
    forall j | 0 <= j < |g'| ensures
      && FirstIndex(init + [e], key, g'[j].0).Some?
      && g'[j].1 == (init + [e])[FirstIndex(init + [e], key, g'[j].0).value].(duration := KeyTotal(init + [e], key, g'[j].0))
    {
      AppendOne(init, e, key, g'[j].0);
      if j < |g| {
        assert g'[j] == g[j];
        assert KeyIndex(g, g[j].0).Some?;
      }
    }
  }

  lemma NewOrder(init: seq<TimeEntry>, e: TimeEntry, key: KeyFn, g: Groups)
    requires Covers(init, key, g) && InFirstOrder(init, key, g) && KeyIndex(g, KeyOf(key, e)).None?
    ensures InFirstOrder(init + [e], key, AddToGroups(g, e, key))
  {
    var g', k := AddToGroups(g, e, key), KeyOf(key, e);
    forall j | 0 <= j < |g'| ensures
      && FirstIndex(init + [e], key, g'[j].0).Some?
      && FirstIndex(init + [e], key, g'[j].0).value == (if j < |g| then FirstIndex(init, key, g[j].0).value else |init|)
    {
      AppendOne(init, e, key, g'[j].0);
      if j < |g| {
        assert g'[j] == g[j];
        assert KeyIndex(g, g[j].0).Some?;
      }
    }
  }

  /** The keys of the result are distinct and are exactly the keys of the
      input. */
  lemma GroupedKeys(s: seq<TimeEntry>, key: KeyFn)
    ensures var r := GroupedBy(s, key);
      && (forall i, j :: 0 <= i < j < |r| ==> KeyOf(key, r[i]) != KeyOf(key, r[j]))
      && (forall k :: (exists i :: 0 <= i < |r| && KeyOf(key, r[i]) == k) <==> FirstIndex(s, key, k).Some?)
  {
    GroupsOfFacts(s, key);
    var g, r := GroupsOf(s, key), GroupedBy(s, key);
    forall k ensures (exists i :: 0 <= i < |r| && KeyOf(key, r[i]) == k) <==> FirstIndex(s, key, k).Some? {
      if FirstIndex(s, key, k).Some? {
        var i := KeyIndex(g, k).value;
        assert KeyOf(key, r[i]) == k;
      }
    }
  }

  /** Each group is the first entry with its key, its duration the sum of
      the durations of all entries with that key, and the groups come in
      the order their keys first occur. */
  lemma GroupedEntries(s: seq<TimeEntry>, key: KeyFn)
    ensures var r := GroupedBy(s, key);
      && (forall i :: 0 <= i < |r| ==>
            && FirstIndex(s, key, KeyOf(key, r[i])).Some?
            && r[i] == s[FirstIndex(s, key, KeyOf(key, r[i])).value].(duration := KeyTotal(s, key, KeyOf(key, r[i]))))
      && (forall i, j :: 0 <= i < j < |r| ==>
            && FirstIndex(s, key, KeyOf(key, r[i])).Some? && FirstIndex(s, key, KeyOf(key, r[j])).Some?
            && FirstIndex(s, key, KeyOf(key, r[i])).value < FirstIndex(s, key, KeyOf(key, r[j])).value)
  {
    GroupsOfFacts(s, key);
  }

  /** Grouping keeps the total duration. */
  lemma {:induction false} GroupedTotal(s: seq<TimeEntry>, key: KeyFn)
    ensures Total(GroupedBy(s, key)) == Total(s)
  {
    if s != [] {
      var init, e := s[..|s| - 1], s[|s| - 1];
      GroupedTotal(init, key);
      assert s == init + [e];
      GroupsOfAppend(init, e, key);
      AddToGroupsTotal(GroupsOf(init, key), e, key);
    }
  }

  lemma AddToGroupsTotal(g: Groups, e: TimeEntry, key: KeyFn)
    ensures Total(Values(AddToGroups(g, e, key))) == Total(Values(g)) + e.duration
  {
    var k := KeyOf(key, e);
    match KeyIndex(g, k)
    case Some(i) =>
      var v := g[i].1.(duration := g[i].1.duration + e.duration);
      assert Values(g[i := (k, v)]) == Values(g)[i := v];
      TotalUpdate(Values(g), i, v);
    case None =>
      assert Values(g + [(k, e)]) == Values(g) + [e];
      assert (Values(g) + [e])[..|g|] == Values(g);
  }

  lemma {:induction false} TotalUpdate(s: seq<TimeEntry>, i: nat, v: TimeEntry)
    requires i < |s|
    ensures Total(s[i := v]) == Total(s) - s[i].duration + v.duration
    decreases |s|
  {
    var n := |s| - 1;
    if i < n {
      assert s[i := v][..n] == s[..n][i := v];
      TotalUpdate(s[..n], i, v);
    } else {
      assert s[i := v][..n] == s[..n];
    }
  }

  /** Every group is an input entry with another duration. */
  lemma GroupedFrom(s: seq<TimeEntry>, key: KeyFn, x: TimeEntry)
    requires x in GroupedBy(s, key)
    ensures exists e :: e in s && x == e.(duration := x.duration)
  {
    GroupedEntries(s, key);
    var r := GroupedBy(s, key);
    var i :| 0 <= i < |r| && r[i] == x;
    var e := s[FirstIndex(s, key, KeyOf(key, x)).value];
    assert x == e.(duration := x.duration);
  }

  lemma GroupsOfAppend(s: seq<TimeEntry>, e: TimeEntry, key: KeyFn)
    ensures GroupsOf(s + [e], key) == AddToGroups(GroupsOf(s, key), e, key)
  {
    assert (s + [e])[..|s|] == s;
  }

  lemma AddToFound(g: Groups, e: TimeEntry, key: KeyFn, i: nat)
    requires KeyIndex(g, KeyOf(key, e)) == Some(i)
    ensures i < |g|
    ensures AddToGroups(g, e, key)
            == g[i := (KeyOf(key, e), g[i].1.(duration := g[i].1.duration + e.duration))]
  {
    var k := KeyOf(key, e);
    var v := g[i].1.(duration := g[i].1.duration + e.duration);
    var r := AddToGroups(g, e, key);
    assert |r| == |g|;
    assert r[i].0 == k;
    assert r[i].1.duration == v.duration;
    assert r[i].1 == v;
  }

  lemma AddToNew(g: Groups, e: TimeEntry, key: KeyFn)
    requires KeyIndex(g, KeyOf(key, e)) == None
    ensures AddToGroups(g, e, key) == g + [(KeyOf(key, e), e)]
  {
  }

  lemma GroupStep(s: seq<TimeEntry>, n: nat, before: Groups, after: Groups, key: KeyFn)
    requires n < |s| && before == GroupsOf(s[..n], key)
    requires after == AddToGroups(before, s[n], key)
    ensures after == GroupsOf(s[..n + 1], key)
  {
    assert s[..n + 1] == s[..n] + [s[n]];
    GroupsOfAppend(s[..n], s[n], key);
  }

  /** The for loop of get_time_entries that fills grouped_entries, for the
      key `key` computes from an entry's description and start
      (get_time_entries uses GroupKey). */
  method GroupEntries(entries: seq<TimeEntry>, key: KeyFn) returns (r: seq<TimeEntry>)
    ensures r == GroupedBy(entries, key)
  {
    var groups: Groups := [];
    var n := 0;
    while n < |entries|
      invariant 0 <= n <= |entries|
      invariant groups == GroupsOf(entries[..n], key)
    {
      var entry := entries[n];
      ghost var before := groups;
      var k := KeyOf(key, entry);
      match KeyIndex(groups, k) {
        case Some(i) =>
          AddToFound(groups, entry, key, i);
          groups := groups[i := (k, groups[i].1.(duration := groups[i].1.duration + entry.duration))];
        case None =>
          AddToNew(groups, entry, key);
          groups := groups + [(k, entry)];
      }
      GroupStep(entries, n, before, groups, key);
      n := n + 1;
    }
    assert entries[..n] == entries;
    r := Values(groups);
  }

  // ---------------------------------------------------------------------
  // Rounding

  function Abs(n: int): nat { if n < 0 then -n else n }

  /** round(n / g) for a non-zero g: the integer nearest the quotient, and
      of two equally near the even one (Python rounds half to even). */
  function RoundDiv(n: int, g: int): (q: int)
    requires g != 0
    ensures 2 * Abs(n - q * g) <= Abs(g)
    ensures 2 * Abs(n - q * g) == Abs(g) ==> q % 2 == 0
  {
    if g > 0 then HalfEven(n, g)
    else
      var q := HalfEven(-n, -g);
      NegateBoth(n, g, q);
      q
  }

  /** Half-to-even rounding of n / g for a positive g, from the floor
      quotient and the remainder. */
  function HalfEven(n: int, g: int): (q: int)
    requires g > 0
    ensures 2 * Abs(n - q * g) <= g
    ensures 2 * Abs(n - q * g) == g ==> q % 2 == 0
  {
    var q, r := n / g, n % g;
    FloorStep(n, g);
    if 2 * r < g then q
    else if 2 * r > g then q + 1
    else if q % 2 == 0 then q
    else q + 1
  }

  lemma FloorStep(n: int, g: int)
    requires g > 0
    ensures n - (n / g) * g == n % g
    ensures n - (n / g + 1) * g == n % g - g
  {
  }

  lemma NegateBoth(n: int, g: int, q: int)
    ensures n - q * g == -((-n) - q * (-g))
  {
  }

  /** A non-zero multiple of g is at least |g| away from zero. */
  lemma MultipleAtLeast(d: int, g: int)
    requires g != 0
    ensures d != 0 ==> Abs(d * g) >= Abs(g)
    ensures Abs(d) >= 2 ==> Abs(d * g) >= 2 * Abs(g)
  {
    if d != 0 {
      AbsMul(d, g);
      MulPositive(Abs(d), Abs(g));
    }
  }

  lemma AbsMul(d: int, g: int)
    ensures Abs(d * g) == Abs(d) * Abs(g)
  {
    if d >= 0 && g >= 0 {
    } else if d >= 0 {
      assert d * g == -(d * (-g));
    } else if g >= 0 {
      assert d * g == -((-d) * g);
    } else {
      assert d * g == (-d) * (-g);
    }
  }

  lemma {:induction false} MulPositive(d: int, g: int)
    requires d >= 1 && g >= 1
    ensures d * g >= g
    ensures d >= 2 ==> d * g >= 2 * g
    decreases d
  {
    if d > 1 {
      MulPositive(d - 1, g);
      assert d * g == (d - 1) * g + g;
    }
  }

  lemma Distribute(n: int, q: int, k: int, g: int)
    ensures n - k * g == (n - q * g) - (k - q) * g
  {
  }

  /** The step of the nearest-multiple argument with the products named:
      a = n - q*g is within half of g, m = (k - q)*g a multiple. */
  lemma NearestStep(a: int, m: int, g: int, dq: int)
    requires g != 0 && 2 * Abs(a) <= Abs(g)
    requires dq != 0 ==> Abs(m) >= Abs(g)
    requires Abs(dq) >= 2 ==> Abs(m) >= 2 * Abs(g)
    requires dq == 0 ==> m == 0
    ensures Abs(a) <= Abs(a - m)
    ensures dq != 0 && Abs(a - m) == Abs(a) ==> Abs(dq) == 1 && 2 * Abs(a) == Abs(g)
  {
  }

  /** RoundDiv(n, g) * g is the multiple of g nearest to n: no multiple is
      nearer, and one as near is an odd multiple. */
  lemma RoundDivNearest(n: int, g: int, k: int)
    requires g != 0
    ensures Abs(n - RoundDiv(n, g) * g) <= Abs(n - k * g)
    ensures k != RoundDiv(n, g) && Abs(n - k * g) == Abs(n - RoundDiv(n, g) * g) ==> k % 2 == 1
  {
    var q := RoundDiv(n, g);
    var a, m, dq := n - q * g, (k - q) * g, k - q;
    Distribute(n, q, k, g);
    assert n - k * g == a - m;
    MultipleAtLeast(dq, g);
    assert dq == 0 ==> m == 0;
    NearestStep(a, m, g, dq);
    if dq != 0 && Abs(a - m) == Abs(a) {
      NeighbourParity(q, k);
    }
  }

  lemma NeighbourParity(q: int, k: int)
    requires q % 2 == 0 && (k - q == 1 || k - q == -1)
    ensures k % 2 == 1
  {
  }

  /** round(d / g) * g, or d unchanged when g is 0 (the rounding loop is
      skipped). */
  function RoundTo(d: int, g: int): int {
    if g == 0 then d else RoundDiv(d, g) * g
  }

  /** Rounding moves a duration to the nearest multiple of g. */
  lemma RoundToNearest(d: int, g: int, k: int)
    requires g != 0
    ensures 2 * Abs(d - RoundTo(d, g)) <= Abs(g)
    ensures Abs(d - RoundTo(d, g)) <= Abs(d - k * g)
  {
    RoundDivNearest(d, g, k);
  }

  /** A multiple of g is left as it is, so rounding twice is rounding
      once. */
  lemma RoundToIdempotent(d: int, g: int)
    ensures RoundTo(RoundTo(d, g), g) == RoundTo(d, g)
  {
    if g != 0 {
      var q := RoundDiv(d, g);
      var q' := RoundDiv(q * g, g);
      Distribute(q * g, q', q, g);
      MultipleAtLeast(q - q', g);
    }
  }

  /** The rounding loop of get_time_entries, over the entries in place. */
  method RoundDurations(entries: array<TimeEntry>, g: int)
    modifies entries
    ensures forall i :: 0 <= i < entries.Length ==>
      entries[i] == old(entries[i]).(duration := RoundTo(old(entries[i]).duration, g))
  {
    if g != 0 {
      var n := 0;
      while n < entries.Length
        invariant 0 <= n <= entries.Length
        invariant forall i :: 0 <= i < n ==>
          entries[i] == old(entries[i]).(duration := RoundTo(old(entries[i]).duration, g))
        invariant forall i :: n <= i < entries.Length ==> entries[i] == old(entries[i])
      {
        entries[n] := entries[n].(duration := RoundDiv(entries[n].duration, g) * g);
        n := n + 1;
      }
    }
  }

  // ---------------------------------------------------------------------
  // get_time_entries

  /** The arguments of get_time_entries; an empty end date (or None) means
      that only the start date is wanted. */
  datatype Query = Query(startDate: string, endDate: string, group: bool, roundSecondsTo: int,
                         skipEntrySubstr: string, excludeProjects: seq<string>,
                         excludeTags: seq<string>, includeTags: seq<string>)

  /** The API's answer to GET /me/time_entries for the start_date and
      end_date query parameters. */
  type EntriesSource = (string, string) -> seq<TimeEntry>

  /** The four filters, in the order get_time_entries applies them. */
  function Kept(entries: seq<TimeEntry>, q: Query, projects: seq<Project>): seq<TimeEntry> {
    var e1 := SkipBySubstring(entries, q.skipEntrySubstr);
    var e2 := ExcludeTags(e1, q.excludeTags);
    var e3 := ExcludeProjects(e2, projects, q.excludeProjects);
    IncludeTags(e3, q.includeTags)
  }

  /** What an entry must satisfy to be returned; `day` is the start date
      when only the start date was given. */
  predicate Passes(e: TimeEntry, q: Query, projects: seq<Project>, day: Option<Date>) {
    && (q.skipEntrySubstr != "" ==> !Contains(e.description, q.skipEntrySubstr))
    && !HasAnyTag(e, q.excludeTags)
    && (q.excludeProjects != [] ==> !InProjects(e, GetProjects(projects, q.excludeProjects)))
    && (q.includeTags != [] ==> HasAnyTag(e, q.includeTags))
    && (day.Some? ==> ParseTimestamp(e.start).Some? && ParseTimestamp(e.start).value.date == day.value)
  }

  /** The filters keep exactly the entries that pass all four. */
  lemma KeptIff(entries: seq<TimeEntry>, q: Query, projects: seq<Project>, x: TimeEntry)
    ensures x in Kept(entries, q, projects) <==> x in entries && Passes(x, q, projects, None)
  {
  }

  /** The four filters are one comprehension over the entries, by Passes:
      the kept entries keep the API's order and each entry as often as the
      API returned it. */
  lemma KeptIsFilter(entries: seq<TimeEntry>, q: Query, projects: seq<Project>)
    ensures Kept(entries, q, projects) == Filter(entries, (e: TimeEntry) => Passes(e, q, projects, None))
  {
    var sub, xt, xp, it := q.skipEntrySubstr, q.excludeTags, q.excludeProjects, q.includeTags;
    var excluded := GetProjects(projects, xp);
    var p1 := (e: TimeEntry) => sub != "" ==> !Contains(e.description, sub);
    var p2 := (e: TimeEntry) => !HasAnyTag(e, xt);
    var p3 := (e: TimeEntry) => xp != [] ==> !InProjects(e, excluded);
    var p4 := (e: TimeEntry) => it != [] ==> HasAnyTag(e, it);
    var p12 := (e: TimeEntry) => p1(e) && p2(e);
    var p123 := (e: TimeEntry) => p12(e) && p3(e);
    var p1234 := (e: TimeEntry) => p123(e) && p4(e);
    var e1 := SkipBySubstring(entries, sub);
    if sub != "" {
      FilterSame(entries, (e: TimeEntry) => !Contains(e.description, sub), p1);
    } else {
      FilterKeepsAll(entries, p1);
    }
    var e2 := ExcludeTags(e1, xt);
    if xt != [] {
      FilterSame(e1, (e: TimeEntry) => !HasAnyTag(e, xt), p2);
    } else {
      FilterKeepsAll(e1, p2);
    }
    var e3 := ExcludeProjects(e2, projects, xp);
    if xp != [] {
      FilterSame(e2, (e: TimeEntry) => !InProjects(e, excluded), p3);
    } else {
      FilterKeepsAll(e2, p3);
    }
    if it != [] {
      FilterSame(e3, (e: TimeEntry) => HasAnyTag(e, it), p4);
    } else {
      FilterKeepsAll(e3, p4);
    }
    FilterFilter(entries, p1, p2, p12);
    FilterFilter(entries, p12, p3, p123);
    FilterFilter(entries, p123, p4, p1234);
    FilterSame(entries, p1234, (e: TimeEntry) => Passes(e, q, projects, None));
  }

  /** Filtering the API's answer in parts filters the whole: no entry moves
      past another. */
  lemma KeptAppend(a: seq<TimeEntry>, b: seq<TimeEntry>, q: Query, projects: seq<Project>)
    ensures Kept(a + b, q, projects) == Kept(a, q, projects) + Kept(b, q, projects)
  {
    KeptIsFilter(a + b, q, projects);
    KeptIsFilter(a, q, projects);
    KeptIsFilter(b, q, projects);
    FilterAppend(a, b, (e: TimeEntry) => Passes(e, q, projects, None));
  }

  /** An entry that passes is kept as often as the API returned it; any
      other entry not at all. */
  lemma KeptCount(entries: seq<TimeEntry>, q: Query, projects: seq<Project>, x: TimeEntry)
    ensures multiset(Kept(entries, q, projects))[x] == (if Passes(x, q, projects, None) then multiset(entries)[x] else 0)
  {
    KeptIsFilter(entries, q, projects);
  }

  function EntryId(e: TimeEntry): int { e.id }

  /** The rounding loop's effect on the list. */
  function RoundAll(entries: seq<TimeEntry>, g: int): (r: seq<TimeEntry>)
    ensures |r| == |entries|
  {
    seq(|entries|, i requires 0 <= i < |entries| => entries[i].(duration := RoundTo(entries[i].duration, g)))
  }

  /** What get_time_entries does with the API's answer; `day` is the start
      date when only the start date was given. */
  function Processed(fetched: seq<TimeEntry>, q: Query, projects: seq<Project>, day: Option<Date>): Result<seq<TimeEntry>> {
    var kept := Kept(fetched, q, projects);
    match (if day.Some? then OnDay(kept, day.value) else Ok(kept))
    case Err(m) => Err(m)
    case Ok(sameDay) =>
      var grouped := if q.group then GroupedBy(sameDay, GroupKey) else sameDay;
      Ok(SortBy(RoundAll(grouped, q.roundSecondsTo), EntryId))
  }

  /** get_time_entries as a value: Err where strptime raises ValueError or
      the day after the end date overflows. */
  function TimeEntries(q: Query, fetch: EntriesSource, projects: seq<Project>): Result<seq<TimeEntry>> {
    var onlyStart := q.endDate == "";
    match ParseDate(if onlyStart then q.startDate else q.endDate)
    case None => Err("time data does not match format '%Y-%m-%d'")
    case Some(lastDay) =>
      match UpperBound(lastDay)
      case None => Err("date value out of range")
      case Some(bound) => Processed(fetch(q.startDate, bound), q, projects, if onlyStart then Some(lastDay) else None)
  }

  /** get_time_entries, step by step. */
  method GetTimeEntries(q: Query, fetch: EntriesSource, projects: seq<Project>) returns (r: Result<seq<TimeEntry>>)
    ensures r == TimeEntries(q, fetch, projects)
  {
    var onlyStart := false;
    var endDate := q.endDate;
    if endDate == "" {
      endDate := q.startDate;
      onlyStart := true;
    }
    var lastDay := ParseDate(endDate);
    if lastDay.None? {
      return Err("time data does not match format '%Y-%m-%d'");
    }
    var bound := UpperBound(lastDay.value);
    if bound.None? {
      return Err("date value out of range");
    }
    var entries := fetch(q.startDate, bound.value);
    r := ProcessEntries(entries, q, projects, if onlyStart then Some(lastDay.value) else None);
  }

  /** The filters, grouping, rounding and sorting that follow the request. */
  method ProcessEntries(fetched: seq<TimeEntry>, q: Query, projects: seq<Project>, day: Option<Date>)
    returns (r: Result<seq<TimeEntry>>)
    ensures r == Processed(fetched, q, projects, day)
  {
    var entries := SkipBySubstring(fetched, q.skipEntrySubstr);
    entries := ExcludeTags(entries, q.excludeTags);
    entries := ExcludeProjects(entries, projects, q.excludeProjects);
    entries := IncludeTags(entries, q.includeTags);
    if day.Some? {
      var sameDay := OnDay(entries, day.value);
      if sameDay.Err? {
        return Err(sameDay.error);
      }
      entries := sameDay.value;
    }
    if q.group {
      entries := GroupEntries(entries, GroupKey);
    }
    if q.roundSecondsTo != 0 {
      var a := new TimeEntry[|entries|](i requires 0 <= i < |entries| => entries[i]);
      RoundDurations(a, q.roundSecondsTo);
      assert a[..] == RoundAll(entries, q.roundSecondsTo);
      entries := a[..];
    } else {
      assert entries == RoundAll(entries, 0);
    }
    r := Ok(SortBy(entries, EntryId));
  }

  // ---------------------------------------------------------------------
  // What get_time_entries promises

  /** The entries come back in ascending id order. */
  lemma ProcessedSorted(fetched: seq<TimeEntry>, q: Query, projects: seq<Project>, day: Option<Date>)
    requires Processed(fetched, q, projects, day).Ok?
    ensures SortedBy(Processed(fetched, q, projects, day).value, EntryId)
  {
    SortByCorrect(RoundAll(Grouping(fetched, q, projects, day), q.roundSecondsTo), EntryId);
  }

  /** The list that is rounded and sorted, when there is one. */
  function Grouping(fetched: seq<TimeEntry>, q: Query, projects: seq<Project>, day: Option<Date>): seq<TimeEntry>
    requires Processed(fetched, q, projects, day).Ok?
  {
    var sameDay := SameDay(fetched, q, projects, day);
    if q.group then GroupedBy(sameDay, GroupKey) else sameDay
  }

  lemma ProcessedIsSorted(fetched: seq<TimeEntry>, q: Query, projects: seq<Project>, day: Option<Date>)
    requires Processed(fetched, q, projects, day).Ok?
    ensures Processed(fetched, q, projects, day).value ==
      SortBy(RoundAll(Grouping(fetched, q, projects, day), q.roundSecondsTo), EntryId)
  {
  }

  /** With rounding on, every returned duration is a multiple of the
      rounding step that rounding would leave as it is. */
  lemma ProcessedRounded(fetched: seq<TimeEntry>, q: Query, projects: seq<Project>, day: Option<Date>, x: TimeEntry)
    requires Processed(fetched, q, projects, day).Ok?
    requires x in Processed(fetched, q, projects, day).value
    ensures RoundTo(x.duration, q.roundSecondsTo) == x.duration
  {
    var g := Grouping(fetched, q, projects, day);
    var rounded := RoundAll(g, q.roundSecondsTo);
    ProcessedIsSorted(fetched, q, projects, day);
    SortByCorrect(rounded, EntryId);
    assert x in multiset(SortBy(rounded, EntryId));
    var i :| 0 <= i < |rounded| && rounded[i] == x;
    RoundToIdempotent(g[i].duration, q.roundSecondsTo);
  }

  /** Every returned entry passes the filters (and is on the start date
      when only that was given): grouping keeps each group's first entry and
      rounding changes durations only. */
  lemma ProcessedPasses(fetched: seq<TimeEntry>, q: Query, projects: seq<Project>, day: Option<Date>, x: TimeEntry)
    requires Processed(fetched, q, projects, day).Ok?
    requires x in Processed(fetched, q, projects, day).value
    ensures exists e :: e in fetched && x == e.(duration := x.duration)
    ensures Passes(x, q, projects, day)
  {
    var g := Grouping(fetched, q, projects, day);
    ProcessedIsSorted(fetched, q, projects, day);
    var y := RoundedFrom(g, q.roundSecondsTo, x);
    var e := GroupingFrom(fetched, q, projects, day, y);
    SameDayPasses(fetched, q, projects, day, e);
    assert x == e.(duration := x.duration);
  }

  lemma RoundedFrom(g: seq<TimeEntry>, step: int, x: TimeEntry) returns (y: TimeEntry)
    requires x in SortBy(RoundAll(g, step), EntryId)
    ensures y in g && x == y.(duration := x.duration)
  {
    var rounded := RoundAll(g, step);
    SortByCorrect(rounded, EntryId);
    assert x in multiset(SortBy(rounded, EntryId));
    var i :| 0 <= i < |rounded| && rounded[i] == x;
    y := g[i];
  }

  /** The entries that reach the grouping step. */
  function SameDay(fetched: seq<TimeEntry>, q: Query, projects: seq<Project>, day: Option<Date>): seq<TimeEntry>
    requires Processed(fetched, q, projects, day).Ok?
  {
    var kept := Kept(fetched, q, projects);
    if day.Some? then OnDay(kept, day.value).value else kept
  }

  lemma GroupingFrom(fetched: seq<TimeEntry>, q: Query, projects: seq<Project>, day: Option<Date>, y: TimeEntry)
    returns (e: TimeEntry)
    requires Processed(fetched, q, projects, day).Ok?
    requires y in Grouping(fetched, q, projects, day)
    ensures e in SameDay(fetched, q, projects, day) && y == e.(duration := y.duration)
  {
    var sameDay := SameDay(fetched, q, projects, day);
    if q.group {
      GroupedFrom(sameDay, GroupKey, y);
      e :| e in sameDay && y == e.(duration := y.duration);
    } else {
      e := y;
    }
  }

  lemma SameDayPasses(fetched: seq<TimeEntry>, q: Query, projects: seq<Project>, day: Option<Date>, e: TimeEntry)
    requires Processed(fetched, q, projects, day).Ok?
    requires e in SameDay(fetched, q, projects, day)
    ensures e in fetched && Passes(e, q, projects, day)
  {
    KeptIff(fetched, q, projects, e);
  }

  /** Without grouping or rounding, and with an end date, the result is
      the filtered entries reordered. */
  lemma ProcessedPermutation(fetched: seq<TimeEntry>, q: Query, projects: seq<Project>)
    requires !q.group && q.roundSecondsTo == 0
    ensures Processed(fetched, q, projects, None).Ok?
    ensures multiset(Processed(fetched, q, projects, None).value) == multiset(Kept(fetched, q, projects))
  {
    var kept := Kept(fetched, q, projects);
    assert RoundAll(kept, 0) == kept;
    SortByCorrect(kept, EntryId);
  }

  /** With only a start date, the call fails exactly when some filtered
      entry's start is not in the timestamp format. */
  lemma ProcessedFails(fetched: seq<TimeEntry>, q: Query, projects: seq<Project>, day: Date)
    ensures Processed(fetched, q, projects, Some(day)).Err? <==>
      exists e :: e in Kept(fetched, q, projects) && ParseTimestamp(e.start).None?
  {
  }

  /** With an end date, the call fails exactly when the end date does not
      parse or is the last representable day. */
  lemma TimeEntriesEndDate(q: Query, fetch: EntriesSource, projects: seq<Project>)
    requires q.endDate != ""
    ensures TimeEntries(q, fetch, projects).Err? <==>
      ParseDate(q.endDate).None? || ParseDate(q.endDate) == Some(LastDate)
  {
    if ParseDate(q.endDate).Some? {
      var d := ParseDate(q.endDate).value;
      UpperBoundNextDay(d);
      if d != LastDate {
        var bound := UpperBound(d).value;
        var fetched := fetch(q.startDate, bound);
        assert TimeEntries(q, fetch, projects) == Processed(fetched, q, projects, None);
        ProcessedNoDay(fetched, q, projects);
      }
    }
  }

  lemma ProcessedNoDay(fetched: seq<TimeEntry>, q: Query, projects: seq<Project>)
    ensures Processed(fetched, q, projects, None).Ok?
  {
  }
}
