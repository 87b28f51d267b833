/** issue-logs-summary.py: walks an issue hierarchy breadth first (an epic,
    its child issues, their subtasks) and sums the hours logged on each
    issue, per user and in total, optionally for one user only. The Jira
    and Tempo calls are oracles: the type and title of an issue, the child
    issues of an epic, the subtasks of an issue, and the worklogs of an
    issue. Hours are exact reals. */
module IssueLogs {
  import opened Wrappers
  import opened Text

  // ---------------------------------------------------------------------
  // Hours per user (get_time_entries)

  /** A Tempo worklog: the author's display name and timeSpentSeconds. */
  datatype Worklog = Worklog(author: string, seconds: int)

  /** One item of user_logs. */
  datatype UserHours = UserHours(user: string, hours: real)

  function Hours(seconds: int): real {
    seconds as real / 3600.0
  }

  /** An entry counts unless a user filter is given (a non-empty name) and
      the author's name differs from it ignoring case. */
  predicate Kept(filterUser: Option<string>, author: string) {
    filterUser.None? || filterUser.value == "" || Lower(author) == Lower(filterUser.value)
  }

  /** The hours of the kept entries. */
  function KeptHours(entries: seq<Worklog>, filterUser: Option<string>): real {
    if entries == [] then 0.0
    else
      var e := entries[|entries| - 1];
      KeptHours(entries[..|entries| - 1], filterUser) + (if Kept(filterUser, e.author) then Hours(e.seconds) else 0.0)
  }

  /** user_logs[user] += hours: a new user is added at the end. */
  function AddHours(logs: seq<UserHours>, user: string, h: real): (r: seq<UserHours>)
    ensures |logs| <= |r| <= |logs| + 1
  {
    if logs == [] then [UserHours(user, h)]
    else if logs[0].user == user then [UserHours(user, logs[0].hours + h)] + logs[1..]
    else [logs[0]] + AddHours(logs[1..], user, h)
  }

  /** The user_logs dictionary the loop builds. */
  function UserLogs(entries: seq<Worklog>, filterUser: Option<string>): seq<UserHours> {
    if entries == [] then []
    else
      var e := entries[|entries| - 1];
      var logs := UserLogs(entries[..|entries| - 1], filterUser);
      if Kept(filterUser, e.author) then AddHours(logs, e.author, Hours(e.seconds)) else logs
  }

  function HoursSum(logs: seq<UserHours>): real {
    if logs == [] then 0.0 else logs[0].hours + HoursSum(logs[1..])
  }

  lemma {:induction false} AddHoursSum(logs: seq<UserHours>, user: string, h: real)
    ensures HoursSum(AddHours(logs, user, h)) == HoursSum(logs) + h
  {
    if logs != [] && logs[0].user != user {
      AddHoursSum(logs[1..], user, h);
      assert AddHours(logs, user, h)[1..] == AddHours(logs[1..], user, h);
    } else if logs != [] {
      assert AddHours(logs, user, h)[1..] == logs[1..];
    }
  }

  /** The users in AddHours's result are the old ones and the new one. */
  lemma {:induction false} AddHoursUsers(logs: seq<UserHours>, user: string, h: real)
    ensures forall x :: x in AddHours(logs, user, h) ==> x.user == user || exists y :: y in logs && y.user == x.user
  {
    if logs != [] && logs[0].user != user {
      AddHoursUsers(logs[1..], user, h);
    }
  }

  /** The total is the sum of the per-user values. */
  lemma {:induction false} UserLogsTotal(entries: seq<Worklog>, filterUser: Option<string>)
    ensures HoursSum(UserLogs(entries, filterUser)) == KeptHours(entries, filterUser)
  {
    if entries != [] {
      var e := entries[|entries| - 1];
      UserLogsTotal(entries[..|entries| - 1], filterUser);
      if Kept(filterUser, e.author) {
        AddHoursSum(UserLogs(entries[..|entries| - 1], filterUser), e.author, Hours(e.seconds));
      }
    }
  }

  /** With a user filter every listed user is that user, ignoring case. */
  lemma {:induction false} UserLogsFiltered(entries: seq<Worklog>, filterUser: Option<string>)
    ensures forall x :: x in UserLogs(entries, filterUser) ==> Kept(filterUser, x.user)
  {
    if entries != [] {
      var e := entries[|entries| - 1];
      var logs := UserLogs(entries[..|entries| - 1], filterUser);
      UserLogsFiltered(entries[..|entries| - 1], filterUser);
      if Kept(filterUser, e.author) {
        AddHoursUsers(logs, e.author, Hours(e.seconds));
      }
    }
  }

  /** get_time_entries over the issue's worklogs. */
  method TimeEntries(entries: seq<Worklog>, filterUser: Option<string>) returns (total: real, userLogs: seq<UserHours>)
    ensures total == KeptHours(entries, filterUser)
    ensures userLogs == UserLogs(entries, filterUser)
  {
    total := 0.0;
    userLogs := [];
    var n := 0;
    while n < |entries|
      invariant n <= |entries|
      invariant total == KeptHours(entries[..n], filterUser)
      invariant userLogs == UserLogs(entries[..n], filterUser)
    {
      var entry := entries[n];
      assert entries[..n + 1][..n] == entries[..n];
      if filterUser.Some? && filterUser.value != "" && Lower(entry.author) != Lower(filterUser.value) {
        n := n + 1;
        continue;
      }
      userLogs := AddUserHours(userLogs, entry.author, Hours(entry.seconds));
      total := total + Hours(entry.seconds);
      n := n + 1;
    }
    assert entries[..n] == entries;
  }

  /** user_logs[user_name] += time_spent_hours on the dictionary. */
  method AddUserHours(logs: seq<UserHours>, user: string, h: real) returns (r: seq<UserHours>)
    ensures r == AddHours(logs, user, h)
  {
    var i := 0;
    while i < |logs| && logs[i].user != user
      invariant i <= |logs|
      invariant AddHours(logs, user, h) == logs[..i] + AddHours(logs[i..], user, h)
    {
      assert logs[i..] == [logs[i]] + logs[i + 1..];
      assert logs[..i + 1] == logs[..i] + [logs[i]];
      i := i + 1;
    }
    if i < |logs| {
      assert logs[i..] == [logs[i]] + logs[i + 1..];
      r := logs[..i] + [UserHours(user, logs[i].hours + h)] + logs[i + 1..];
    } else {
      r := logs + [UserHours(user, h)];
    }
  }

  // ---------------------------------------------------------------------
  // The hierarchy walk (collect_issues)

  /** The Jira calls collect_issues makes. */
  datatype Jira = Jira(
    typeAndTitle: string -> (string, string),
    epicChildren: string -> seq<string>,
    subTasks: string -> seq<string>)

  /** A queue item: an issue key and its level. */
  datatype Pending = Pending(key: string, level: nat)

  /** An item of issue_list. */
  datatype IssueAt = IssueAt(key: string, title: string, level: nat)

  /** The issues enqueued after k: an epic's child issues, then the
      subtasks; for other types only the subtasks. */
  function Children(jira: Jira, k: string): seq<string> {
    (if jira.typeAndTitle(k).0 == "Epic" then jira.epicChildren(k) else []) + jira.subTasks(k)
  }

  function Enqueued(keys: seq<string>, level: nat): (r: seq<Pending>)
    ensures |r| == |keys|
  {
    seq(|keys|, i requires 0 <= i < |keys| => Pending(keys[i], level))
  }

  /** The walk has no visited set, so it ends only when the hierarchy is
      acyclic: some height falls strictly from each issue to its children. */
  ghost predicate Ranked(jira: Jira, height: string -> nat) {
    forall k, c :: c in Children(jira, k) ==> height(c) < height(k)
  }

  /** The number of paths down from k, k itself included: how often the
      walk lists the issues below k. */
  ghost function TreeSize(jira: Jira, height: string -> nat, k: string): nat
    requires Ranked(jira, height)
    decreases height(k), 1
  {
    1 + ForestSize(jira, height, Children(jira, k), height(k))
  }

  ghost function ForestSize(jira: Jira, height: string -> nat, ks: seq<string>, h: nat): nat
    requires Ranked(jira, height) && forall c :: c in ks ==> height(c) < h
    decreases h, 0, |ks|
  {
    if ks == [] then 0 else TreeSize(jira, height, ks[0]) + ForestSize(jira, height, ks[1..], h)
  }

  ghost function QueueSize(jira: Jira, height: string -> nat, queue: seq<Pending>): nat
    requires Ranked(jira, height)
  {
    if queue == [] then 0 else TreeSize(jira, height, queue[0].key) + QueueSize(jira, height, queue[1..])
  }

  lemma {:induction false} QueueSizeAppend(jira: Jira, height: string -> nat, a: seq<Pending>, b: seq<Pending>)
    requires Ranked(jira, height)
    ensures QueueSize(jira, height, a + b) == QueueSize(jira, height, a) + QueueSize(jira, height, b)
  {
    if a != [] {
      assert (a + b)[1..] == a[1..] + b;
      QueueSizeAppend(jira, height, a[1..], b);
    } else {
      assert a + b == b;
    }
  }

  lemma {:induction false} ForestQueueSize(jira: Jira, height: string -> nat, ks: seq<string>, h: nat, level: nat)
    requires Ranked(jira, height) && forall c :: c in ks ==> height(c) < h
    ensures QueueSize(jira, height, Enqueued(ks, level)) == ForestSize(jira, height, ks, h)
  {
    if ks != [] {
      ForestQueueSize(jira, height, ks[1..], h, level);
      assert Enqueued(ks, level)[1..] == Enqueued(ks[1..], level);
    }
  }

  /** The queue after taking its head and enqueuing the head's children. */
  function NextQueue(jira: Jira, queue: seq<Pending>): seq<Pending>
    requires queue != []
  {
    queue[1..] + Enqueued(Children(jira, queue[0].key), queue[0].level + 1)
  }

  /** Each step leaves one path fewer to visit. */
  lemma StepShrinks(jira: Jira, height: string -> nat, queue: seq<Pending>)
    requires Ranked(jira, height) && queue != []
    ensures QueueSize(jira, height, NextQueue(jira, queue)) == QueueSize(jira, height, queue) - 1
  {
    var p := queue[0];
    QueueSizeAppend(jira, height, queue[1..], Enqueued(Children(jira, p.key), p.level + 1));
    ForestQueueSize(jira, height, Children(jira, p.key), height(p.key), p.level + 1);
  }

  /** What the loop appends to issue_list from a given queue on. */
  ghost function Walk(jira: Jira, height: string -> nat, queue: seq<Pending>): seq<IssueAt>
    requires Ranked(jira, height)
    decreases QueueSize(jira, height, queue)
  {
    if queue == [] then []
    else
      StepShrinks(jira, height, queue);
      [IssueAt(queue[0].key, jira.typeAndTitle(queue[0].key).1, queue[0].level)] + Walk(jira, height, NextQueue(jira, queue))
  }

  /** The walk lists every path once: an issue reachable along k paths is
      listed k times. */
  lemma {:induction false} WalkLength(jira: Jira, height: string -> nat, queue: seq<Pending>)
    requires Ranked(jira, height)
    ensures |Walk(jira, height, queue)| == QueueSize(jira, height, queue)
    decreases QueueSize(jira, height, queue)
  {
    if queue != [] {
      StepShrinks(jira, height, queue);
      WalkLength(jira, height, NextQueue(jira, queue));
    }
  }

  /** A FIFO queue whose levels never fall and span at most one. */
  predicate LevelOrdered(queue: seq<Pending>) {
    && (forall i, j :: 0 <= i < j < |queue| ==> queue[i].level <= queue[j].level)
    && (queue != [] ==> queue[|queue| - 1].level <= queue[0].level + 1)
  }

  lemma NextLevelOrdered(jira: Jira, queue: seq<Pending>)
    requires queue != [] && LevelOrdered(queue)
    ensures LevelOrdered(NextQueue(jira, queue))
    ensures NextQueue(jira, queue) != [] ==> queue[0].level <= NextQueue(jira, queue)[0].level
  {
    var next := NextQueue(jira, queue);
    var kids := Enqueued(Children(jira, queue[0].key), queue[0].level + 1);
    assert forall i :: 0 <= i < |next| ==> next[i] == if i < |queue| - 1 then queue[i + 1] else kids[i - (|queue| - 1)];
  }

  /** Levels in the output never fall, and none is below the head's. */
  lemma {:induction false} WalkLevels(jira: Jira, height: string -> nat, queue: seq<Pending>)
    requires Ranked(jira, height) && LevelOrdered(queue)
    ensures var w := Walk(jira, height, queue);
      && (forall i, j :: 0 <= i < j < |w| ==> w[i].level <= w[j].level)
      && (forall i :: 0 <= i < |w| ==> queue[0].level <= w[i].level)
    decreases QueueSize(jira, height, queue)
  {
    if queue != [] {
      StepShrinks(jira, height, queue);
      var next := NextQueue(jira, queue);
      NextLevelOrdered(jira, queue);
      WalkLevels(jira, height, next);
      var w := Walk(jira, height, queue);
      assert w[1..] == Walk(jira, height, next);
    }
  }

  lemma EnqueuedSnoc(queue: seq<Pending>, keys: seq<string>, i: nat, level: nat)
    requires i < |keys|
    ensures (queue + Enqueued(keys[..i], level)) + [Pending(keys[i], level)] == queue + Enqueued(keys[..i + 1], level)
  {
  }

  /** One step of the walk: the head is listed, then the walk goes on from
      the next queue. */
  lemma WalkStep(jira: Jira, height: string -> nat, queue: seq<Pending>)
    requires Ranked(jira, height) && queue != []
    ensures Walk(jira, height, queue)
         == [IssueAt(queue[0].key, jira.typeAndTitle(queue[0].key).1, queue[0].level)] + Walk(jira, height, NextQueue(jira, queue))
  {
  }

  /** collect_issues: issue_list is the walk from the root at level 0. */
  method CollectIssues(jira: Jira, root: string, ghost height: string -> nat) returns (issues: seq<IssueAt>)
    requires Ranked(jira, height)
    ensures issues == Walk(jira, height, [Pending(root, 0)])
  {
    issues := [];
    var queue := [Pending(root, 0)];
    while queue != []
      invariant issues + Walk(jira, height, queue) == Walk(jira, height, [Pending(root, 0)])
      decreases QueueSize(jira, height, queue)
    {
      var current := queue[0];
      ghost var before := queue;
      StepShrinks(jira, height, before);
      queue := queue[1..];
      var typeAndTitle := jira.typeAndTitle(current.key);
      var item := IssueAt(current.key, typeAndTitle.1, current.level);
      var subIssues := [];
      if typeAndTitle.0 == "Epic" {
        subIssues := jira.epicChildren(current.key);
      }
      subIssues := subIssues + jira.subTasks(current.key);
      assert subIssues == Children(jira, current.key);
      queue := EnqueueAll(queue, subIssues, current.level + 1);
      assert queue == NextQueue(jira, before);
      WalkAppend(jira, height, issues, before, Walk(jira, height, [Pending(root, 0)]));
      issues := issues + [item];
    }
  }

  /** The invariant of the walk's loop survives one step. */
  lemma WalkAppend(jira: Jira, height: string -> nat, issues: seq<IssueAt>, queue: seq<Pending>, whole: seq<IssueAt>)
    requires Ranked(jira, height) && queue != []
    requires issues + Walk(jira, height, queue) == whole
    ensures (issues + [IssueAt(queue[0].key, jira.typeAndTitle(queue[0].key).1, queue[0].level)])
            + Walk(jira, height, NextQueue(jira, queue)) == whole
  {
    WalkStep(jira, height, queue);
  }

  /** for sub_issue in sub_issues: queue.append((sub_issue[0], level)). */
  method EnqueueAll(queue: seq<Pending>, keys: seq<string>, level: nat) returns (r: seq<Pending>)
    ensures r == queue + Enqueued(keys, level)
  {
    r := queue;
    var i := 0;
    while i < |keys|
      invariant i <= |keys|
      invariant r == queue + Enqueued(keys[..i], level)
    {
      EnqueuedSnoc(queue, keys, i, level);
      r := r + [Pending(keys[i], level)];
      i := i + 1;
    }
    assert keys[..i] == keys;
  }

  /** issue_list starts with the root at level 0, lists one item per path
      down from the root, and its levels never fall. */
  lemma CollectIssuesShape(jira: Jira, height: string -> nat, root: string)
    requires Ranked(jira, height)
    ensures var w := Walk(jira, height, [Pending(root, 0)]);
      && |w| == TreeSize(jira, height, root)
      && w[0] == IssueAt(root, jira.typeAndTitle(root).1, 0)
      && (forall i, j :: 0 <= i < j < |w| ==> w[i].level <= w[j].level)
  {
    WalkLength(jira, height, [Pending(root, 0)]);
    WalkLevels(jira, height, [Pending(root, 0)]);
  }

  // ---------------------------------------------------------------------
  // The report (process_issues)

  /** One printed issue line: indentation of two spaces per level, the key
      padded to the longest key, the title padded to the longest title,
      the issue's hours, then its per-user hours. */
  datatype Line = Line(indent: nat, key: string, keyPadding: nat, title: string, titlePadding: nat,
                       hours: real, users: seq<UserHours>)

  /** max(len(s) for s in strings). */
  function MaxLength(strings: seq<string>): (r: nat)
    requires strings != []
    ensures forall s :: s in strings ==> |s| <= r
    ensures exists s :: s in strings && |s| == r
  {
    if |strings| == 1 then |strings[0]|
    else
      var m := MaxLength(strings[1..]);
      assert forall s :: s in strings[1..] ==> s in strings;
      if |strings[0]| >= m then |strings[0]| else m
  }

  function IssueKeys(issues: seq<IssueAt>): seq<string> {
    seq(|issues|, i requires 0 <= i < |issues| => issues[i].key)
  }

  function IssueTitles(issues: seq<IssueAt>): seq<string> {
    seq(|issues|, i requires 0 <= i < |issues| => issues[i].title)
  }

  /** " " * (width - length): empty when the length already reaches the
      width. */
  function Pad(width: nat, length: nat): nat {
    if length <= width then width - length else 0
  }

  /** The lines printed for the issues whose total is not zero. */
  function Lines(issues: seq<IssueAt>, worklogs: string -> seq<Worklog>, filterUser: Option<string>,
                 maxKey: nat, maxTitle: nat): seq<Line>
  {
    if issues == [] then []
    else
      var x := issues[|issues| - 1];
      var before := Lines(issues[..|issues| - 1], worklogs, filterUser, maxKey, maxTitle);
      var total := KeptHours(worklogs(x.key), filterUser);
      if total == 0.0 then before
      else before + [Line(2 * x.level, x.key, Pad(maxKey, |x.key|), x.title, Pad(maxTitle, |x.title|), total,
                          UserLogs(worklogs(x.key), filterUser))]
  }

  function LinesHours(lines: seq<Line>): real {
    if lines == [] then 0.0 else LinesHours(lines[..|lines| - 1]) + lines[|lines| - 1].hours
  }

  /** Every printed line has a non-zero total whose per-user values sum to
      it, and its key and title padded to the same widths. */
  lemma {:induction false} LinesAligned(issues: seq<IssueAt>, worklogs: string -> seq<Worklog>, filterUser: Option<string>,
                                        maxKey: nat, maxTitle: nat)
    requires forall x :: x in issues ==> |x.key| <= maxKey && |x.title| <= maxTitle
    ensures var lines := Lines(issues, worklogs, filterUser, maxKey, maxTitle);
      && |lines| <= |issues|
      && forall l :: l in lines ==>
           && |l.key| + l.keyPadding == maxKey && |l.title| + l.titlePadding == maxTitle
           && l.hours != 0.0 && HoursSum(l.users) == l.hours
  {
    if issues != [] {
      var x := issues[|issues| - 1];
      assert forall y :: y in issues[..|issues| - 1] ==> y in issues;
      LinesAligned(issues[..|issues| - 1], worklogs, filterUser, maxKey, maxTitle);
      UserLogsTotal(worklogs(x.key), filterUser);
    }
  }

  /** The longest key and the longest title bound every issue's. */
  lemma WidthsBound(issues: seq<IssueAt>)
    requires issues != []
    ensures forall x :: x in issues ==> |x.key| <= MaxLength(IssueKeys(issues)) && |x.title| <= MaxLength(IssueTitles(issues))
  {
    forall x | x in issues ensures |x.key| <= MaxLength(IssueKeys(issues)) && |x.title| <= MaxLength(IssueTitles(issues)) {
      var i :| 0 <= i < |issues| && issues[i] == x;
      assert IssueKeys(issues)[i] == x.key;
      assert IssueTitles(issues)[i] == x.title;
    }
  }

  /** What process_issues prints and returns. */
  datatype Report = Report(lines: seq<Line>, totalHours: real)

  /** process_issues: None where max() of the empty issue list raises. */
  method ProcessIssues(issues: seq<IssueAt>, worklogs: string -> seq<Worklog>, filterUser: Option<string>)
    returns (r: Option<Report>)
    ensures r.None? <==> issues == []
    ensures r.Some? ==>
      && r.value.lines == Lines(issues, worklogs, filterUser, MaxLength(IssueKeys(issues)), MaxLength(IssueTitles(issues)))
      && r.value.totalHours == LinesHours(r.value.lines)
  {
    if issues == [] {
      return None;
    }
    var maxKey := MaxLength(IssueKeys(issues));
    var maxTitle := MaxLength(IssueTitles(issues));
    var lines := [];
    var totalHours := 0.0;
    var n := 0;
    while n < |issues|
      invariant n <= |issues|
      invariant lines == Lines(issues[..n], worklogs, filterUser, maxKey, maxTitle)
      invariant totalHours == LinesHours(lines)
    {
      var x := issues[n];
      var total, userLogs := TimeEntries(worklogs(x.key), filterUser);
      LinesStep(issues, n, worklogs, filterUser, maxKey, maxTitle);
      if total != 0.0 {
        var line := Line(2 * x.level, x.key, Pad(maxKey, |x.key|), x.title, Pad(maxTitle, |x.title|), total, userLogs);
        assert LinesHours(lines + [line]) == LinesHours(lines) + total by {
          assert (lines + [line])[..|lines|] == lines;
        }
        totalHours := totalHours + total;
        lines := lines + [line];
      }
      n := n + 1;
    }
    assert issues[..n] == issues;
    r := Some(Report(lines, totalHours));
  }

  /** One more issue adds its line, unless its total is zero. */
  lemma LinesStep(issues: seq<IssueAt>, n: nat, worklogs: string -> seq<Worklog>, filterUser: Option<string>,
                  maxKey: nat, maxTitle: nat)
    requires n < |issues|
    ensures var x := issues[n];
      var total := KeptHours(worklogs(x.key), filterUser);
      Lines(issues[..n + 1], worklogs, filterUser, maxKey, maxTitle)
      == Lines(issues[..n], worklogs, filterUser, maxKey, maxTitle)
         + (if total == 0.0 then []
            else [Line(2 * x.level, x.key, Pad(maxKey, |x.key|), x.title, Pad(maxTitle, |x.title|), total,
                       UserLogs(worklogs(x.key), filterUser))])
  {
    assert issues[..n + 1][..n] == issues[..n];
  }

  /** The report's lines all line up: every key and every title is padded
      to the longest one. */
  lemma ReportAligned(issues: seq<IssueAt>, worklogs: string -> seq<Worklog>, filterUser: Option<string>)
    requires issues != []
    ensures var lines := Lines(issues, worklogs, filterUser, MaxLength(IssueKeys(issues)), MaxLength(IssueTitles(issues)));
      forall l :: l in lines ==>
        |l.key| + l.keyPadding == MaxLength(IssueKeys(issues)) && |l.title| + l.titlePadding == MaxLength(IssueTitles(issues))
  {
    WidthsBound(issues);
    LinesAligned(issues, worklogs, filterUser, MaxLength(IssueKeys(issues)), MaxLength(IssueTitles(issues)));
  }
}
