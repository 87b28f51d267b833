/** The sync command (sync.py): the issue key, description and date taken
    from each Toggl entry, the operator prompts, the per-entry
    retry / skip / manual entry / exit loop around the Tempo submission,
    the timedelta text shown for a duration, and the default start date. */
module Sync {
  import opened Wrappers
  import opened Text
  import opened Decimal
  import opened DecimalFacts
  import opened Calendar
  import opened DateText
  import opened TogglApi

  // ---------------------------------------------------------------------
  // Fields of an entry

  /** description.split(":")[0]: the text before the first colon, or the
      whole description; it is not trimmed. */
  function IssueKey(description: string): (r: string)
    ensures |r| <= |description| && r == description[..|r|]
    ensures !Contains(description, ":") ==> r == description
  {
    SplitHead(description, ":")
  }

  /** The key of "KEY: text" is KEY whenever KEY has no colon. */
  lemma IssueKeyOf(key: string, rest: string)
    requires !Contains(key, ":")
    ensures IssueKey(key + ":" + rest) == key
  {
    CharNotInside(key, ':', rest);
    SplitHeadJoin(key, ":", rest);
  }

  /** The key never contains a colon: it stops at the first one. */
  lemma IssueKeyHasNoColon(description: string)
    ensures forall i :: 0 <= i < |IssueKey(description)| ==> IssueKey(description)[i] != ':'
  {
    var r := IssueKey(description);
    forall i | 0 <= i < |r| ensures r[i] != ':' {
      if r[i] == ':' {
        assert description[i..i + 1] == ":";
        assert OccursAt(description, ":", i);
      }
    }
  }

  /** ("--" in d and d.split("--")[1] or "").strip(): the text between the
      first and the second "--", stripped, or "" without any "--". */
  function IssueDescription(description: string): (r: string)
    ensures !Contains(description, "--") ==> r == ""
  {
    Strip(if Contains(description, "--") then SplitSecond(description, "--").value else "")
  }

  predicate EndsWithDash(s: string) {
    s != [] && s[|s| - 1] == '-'
  }

  /** "--" starts nowhere in s[lo..hi] when that slice neither holds "--"
      nor ends in a dash, whatever follows it. */
  lemma NoDashesAt(s: string, lo: nat, hi: nat)
    requires lo <= hi <= |s|
    requires !Contains(s[lo..hi], "--") && !EndsWithDash(s[lo..hi])
    ensures forall i :: lo <= i < hi ==> !OccursAt(s, "--", i)
  {
    var b := s[lo..hi];
    forall i | lo <= i < hi ensures !OccursAt(s, "--", i) {
      if OccursAt(s, "--", i) {
        if i == hi - 1 {
          LastDash(s, lo, hi);
        } else {
          OccursInSlice(s, "--", lo, hi, i);
          OccursContains(b, "--", i - lo);
        }
      }
    }
  }

  /** A "--" at the last index of s[lo..hi] makes the slice end in a dash. */
  lemma LastDash(s: string, lo: nat, hi: nat)
    requires lo < hi <= |s| && OccursAt(s, "--", hi - 1)
    ensures EndsWithDash(s[lo..hi])
  {
    assert s[hi - 1..hi + 1][0] == s[hi - 1];
  }

  /** The description of "head -- text" (optionally followed by a further
      "--" and anything) is the stripped text, when neither head nor text
      holds "--", head does not end in a dash that would run into the first
      separator, and text does not end in one that would run into a second. */
  lemma IssueDescriptionOf(head: string, text: string, rest: string)
    requires !Contains(head, "--") && !EndsWithDash(head)
    requires !Contains(text, "--")
    requires rest == [] || (|rest| >= 2 && rest[..2] == "--" && !EndsWithDash(text))
    ensures IssueDescription(head + "--" + text + rest) == Strip(text)
  {
    SecondPieceOf(head, text, rest);
  }

  /** The piece between the first and the second "--". */
  lemma SecondPieceOf(head: string, text: string, rest: string)
    requires !Contains(head, "--") && !EndsWithDash(head)
    requires !Contains(text, "--")
    requires rest == [] || (|rest| >= 2 && rest[..2] == "--" && !EndsWithDash(text))
    ensures Contains(head + "--" + text + rest, "--")
    ensures SplitSecond(head + "--" + text + rest, "--") == Some(text)
  {
    var s := head + "--" + text + rest;
    HeadHasNoDashes(s, head, text, rest);
    TextHasNoDashes(s, head, text, rest);
    SplitSecondJoin(head, "--", text, rest);
    FirstDashes(s, head, text, rest);
  }

  lemma HeadHasNoDashes(s: string, head: string, text: string, rest: string)
    requires s == head + "--" + text + rest
    requires !Contains(head, "--") && !EndsWithDash(head)
    ensures forall i :: 0 <= i < |head| ==> !OccursAt(s, "--", i)
  {
    assert s[0..|head|] == head;
    NoDashesAt(s, 0, |head|);
  }

  lemma TextHasNoDashes(s: string, head: string, text: string, rest: string)
    requires s == head + "--" + text + rest
    requires !Contains(text, "--") && (rest == [] || !EndsWithDash(text))
    ensures forall i :: |head| + 2 <= i < |head| + 2 + |text| ==> !OccursAt(s, "--", i)
  {
    var a := |head| + 2;
    assert s[a..a + |text|] == text;
    if rest == [] {
      // Nothing follows the text, so every "--" in its range lies inside it.
      forall i | a <= i < a + |text| ensures !OccursAt(s, "--", i) {
        if OccursAt(s, "--", i) {
          OccursInSlice(s, "--", a, a + |text|, i);
          OccursContains(text, "--", i - a);
        }
      }
    } else {
      NoDashesAt(s, a, a + |text|);
    }
  }

  lemma FirstDashes(s: string, head: string, text: string, rest: string)
    requires s == head + "--" + text + rest
    ensures Contains(s, "--")
  {
    assert s[|head|..|head| + 2] == "--";
    OccursContains(s, "--", |head|);
  }

  /** datetime.strptime(start, "%Y-%m-%dT%H:%M:%S+00:00").date(); None where
      strptime raises ValueError. */
  function EntryStartDate(start: string): (r: Option<Date>)
    ensures r.Some? ==> ValidDate(r.value)
  {
    match ParseTimestamp(start)
    case None => None
    case Some(t) => Some(t.date)
  }

  /** The date of a timestamp Toggl writes is the timestamp's own date. */
  lemma EntryStartDateOf(t: DateTime)
    requires ValidDateTime(t)
    ensures EntryStartDate(FormatTimestamp(t)) == Some(t.date)
  {
    ParseFormatTimestamp(t);
  }

  // ---------------------------------------------------------------------
  // Prompts. The operator's answers are a sequence read from index `pos`
  // on; running out of answers is where input() raises EOFError.

  /** One line the operator typed, with what int() makes of it. */
  datatype Answer = Answer(text: string, number: Option<int>)

  /** The answers to a sequence of typed lines. */
  function Answers(lines: seq<string>): (r: seq<Answer>)
    ensures |r| == |lines|
    ensures forall i :: 0 <= i < |lines| ==> r[i] == Answer(lines[i], ParseInt(lines[i]))
  {
    seq(|lines|, i requires 0 <= i < |lines| => Answer(lines[i], ParseInt(lines[i])))
  }

  /** input_or_default: the typed value, or the default when nothing was
      typed. */
  function InputOrDefault(value: string, default: string): (r: string)
    ensures r == value || r == default
    ensures r == default <== value == ""
    ensures r == value <== value != ""
  {
    if value != "" then value else default
  }

  /** int(input_or_default(prompt, str(d))) on an answer: the answer's
      number, or d itself when nothing was typed. */
  function IntOrDefault(a: Answer, d: int): Option<int> {
    if a.text != "" then a.number else Some(d)
  }

  /** IntOrDefault is int() of input_or_default with str(d) as the
      default: str(d) reads back as d. */
  lemma IntOrDefaultIsInt(text: string, d: int)
    ensures IntOrDefault(Answer(text, ParseInt(text)), d) == ParseInt(InputOrDefault(text, IntToString(d)))
  {
    if text == "" {
      ParseIntOfIntToString(d);
    }
  }

  /** Typing the default back gives the default. */
  lemma InputOrDefaultIdempotent(value: string, default: string)
    ensures InputOrDefault(InputOrDefault(value, default), default) == InputOrDefault(value, default)
  {
  }

  /** choices[k - 1] with Python's indexing: an index in -n..n-1 is valid,
      and a negative one counts from the end. */
  function PythonIndex(n: nat, k: int): (r: Option<nat>)
    ensures r.Some? <==> -(n as int) <= k - 1 < n
    ensures r.Some? ==> r.value < n && (r.value == k - 1 || r.value == k - 1 + n)
  {
    if 0 <= k - 1 < n then Some(k - 1)
    else if -(n as int) <= k - 1 < 0 then Some(k - 1 + n)
    else None
  }

  /** input_choice as written: an answer that int() accepts picks
      choices[int(answer) - 1], negative indices included; any other answer
      prints an error and asks again. */
  function InputChoiceAsWritten<T>(choices: seq<T>, answers: seq<Answer>, pos: nat): (r: Option<(T, nat)>)
    decreases |answers| - pos
    ensures r.Some? ==> r.value.0 in choices && pos < r.value.1 <= |answers|
  {
    if pos >= |answers| then None
    else
      match answers[pos].number
      case Some(k) =>
        (match PythonIndex(|choices|, k)
         case Some(i) => Some((choices[i], pos + 1))
         case None => InputChoiceAsWritten(choices, answers, pos + 1))
      case None => InputChoiceAsWritten(choices, answers, pos + 1)
  }

  /** input_choice as its prompt "[1-n]" intends: only an answer k with
      1 <= k <= n picks choices[k - 1]; every other answer asks again. */
  function InputChoice<T>(choices: seq<T>, answers: seq<Answer>, pos: nat): (r: Option<(T, nat)>)
    decreases |answers| - pos
    ensures r.Some? ==> r.value.0 in choices && pos < r.value.1 <= |answers|
  {
    if pos >= |answers| then None
    else
      match answers[pos].number
      case Some(k) =>
        if 1 <= k <= |choices| then Some((choices[k - 1], pos + 1))
        else InputChoice(choices, answers, pos + 1)
      case None => InputChoice(choices, answers, pos + 1)
  }

  /** Answering k in 1..n picks the k-th choice at once, in both versions. */
  lemma ChoicePicks<T>(choices: seq<T>, answers: seq<Answer>, pos: nat, k: int)
    requires pos < |answers| && answers[pos].number == Some(k) && 1 <= k <= |choices|
    ensures InputChoice(choices, answers, pos) == Some((choices[k - 1], pos + 1))
    ensures InputChoiceAsWritten(choices, answers, pos) == Some((choices[k - 1], pos + 1))
  {
  }

  /** An answer int() rejects is dropped and the prompt repeats, in both
      versions. */
  lemma ChoiceRepeats<T>(choices: seq<T>, answers: seq<Answer>, pos: nat)
    requires pos < |answers| && answers[pos].number.None?
    ensures InputChoice(choices, answers, pos) == InputChoice(choices, answers, pos + 1)
    ensures InputChoiceAsWritten(choices, answers, pos) == InputChoiceAsWritten(choices, answers, pos + 1)
  {
  }

  /** The intended version never picks on an out-of-range number. */
  lemma ChoiceOutOfRangeRepeats<T>(choices: seq<T>, answers: seq<Answer>, pos: nat, k: int)
    requires pos < |answers| && answers[pos].number == Some(k) && !(1 <= k <= |choices|)
    ensures InputChoice(choices, answers, pos) == InputChoice(choices, answers, pos + 1)
  {
  }

  /** The choices offered after a failed submission. sync.py compares the
      returned text with each label; the labels are distinct, so a choice
      is identified by its position. */
  datatype Choice = Retry | Skip | ManualEntry | OpenIssue | Exit

  function Label(c: Choice): string {
    match c
    case Retry => "Retry"
    case Skip => "Skip"
    case ManualEntry => "Manual Entry"
    case OpenIssue => "Open JIRA Issue"
    case Exit => "Exit"
  }

  const Options: seq<Choice> := [Retry, Skip, ManualEntry, OpenIssue, Exit]

  /** Each label names one choice only. */
  lemma LabelsDistinct(a: Choice, b: Choice)
    ensures Label(a) == Label(b) <==> a == b
  {
    if a != b {
      assert Label(a)[0] != Label(b)[0] || |Label(a)| != |Label(b)|;
    }
  }

  /** As written, answering "0" at the failure prompt picks "Exit" (index
      -1), where the intended prompt asks again. */
  lemma ZeroAnswerExits()
    ensures InputChoiceAsWritten(Options, Answers(["0"]), 0) == Some((Exit, 1))
    ensures InputChoice(Options, Answers(["0", "2"]), 0) == Some((Skip, 2))
  {
    ParseNonNegative(0);
    ParseNonNegative(2);
    assert NatToString(0) == "0";
    assert NatToString(2) == "2";
  }

  // ---------------------------------------------------------------------
  // seconds_to_human_readable: str(timedelta(seconds=s))

  /** timedelta's limit on the day count; beyond it the constructor raises
      OverflowError. */
  const MaxDays := 999999999

  /** "D day, " / "D days, " in front of the clock, left out when the day
      count is zero; "day" only for 1 and -1. */
  function DayPrefix(days: int): string {
    if days == 0 then "" else DayHead(days) + ", "
  }

  /** The day count and its word. */
  function DayHead(days: int): string {
    IntToString(days) + " " + (if days == 1 || days == -1 then "day" else "days")
  }

  /** "%d:%02d:%02d" of the seconds within one day, split as timedelta
      splits them: minutes and seconds by divmod 60, hours and minutes by
      divmod 60. */
  function ClockOf(rem: nat): string
    requires rem < 86400
  {
    NatToString(rem / 60 / 60) + ":" + ZeroPad(rem / 60 % 60, 2) + ":" + ZeroPad(rem % 60, 2)
  }

  /** Whether timedelta(seconds=s) exists: its day count is limited. */
  predicate Representable(s: int) {
    -MaxDays <= s / 86400 <= MaxDays
  }

  /** str(timedelta(seconds=s)); None where timedelta raises OverflowError.
      The day count is floored, so the clock part is never negative. */
  function SecondsToHumanReadable(s: int): (r: Option<string>)
    ensures r.Some? <==> Representable(s)
  {
    if Representable(s) then Some(DayPrefix(s / 86400) + ClockOf(s % 86400))
    else None
  }

  /** Reads "H:MM:SS" back into seconds. */
  function ReadClock(t: string): (r: Option<int>)
    ensures r.Some? ==> r.value >= 0
  {
    if |t| < 7 || t[|t| - 3] != ':' || t[|t| - 6] != ':' then None
    else ReadFields(t[..|t| - 6], t[|t| - 5..|t| - 3], t[|t| - 2..])
  }

  /** Hours, minutes and seconds as digit strings, minutes and seconds
      below 60. */
  function ReadFields(h: string, m: string, sec: string): (r: Option<int>)
    ensures r.Some? ==> r.value >= 0
  {
    if AllDigits(h) && AllDigits(m) && AllDigits(sec) && DigitsValue(m) < 60 && DigitsValue(sec) < 60
    then Some(DigitsValue(h) * 3600 + DigitsValue(m) * 60 + DigitsValue(sec))
    else None
  }

  /** Reads timedelta's text back into seconds: an optional "D day[s], "
      and then "H:MM:SS". */
  function ReadHuman(t: string): Option<int> {
    if Contains(t, ", ") then
      var head := SplitHead(t, ", ");
      ReadDayAndClock(head, t[|head| + 2..])
    else ReadClock(t)
  }

  /** The day count before the first space of head, and the clock. */
  function ReadDayAndClock(head: string, clock: string): Option<int> {
    var days := ParseInt(SplitHead(head, " "));
    var c := ReadClock(clock);
    if days.Some? && c.Some? then Some(days.value * 86400 + c.value) else None
  }

  /** No ", " starts before index k when no comma stands there. */
  lemma NoCommaBefore(t: string, k: nat)
    requires k <= |t| && forall i :: 0 <= i < k ==> t[i] != ','
    ensures forall i :: 0 <= i < k ==> !OccursAt(t, ", ", i)
  {
    forall i | 0 <= i < k ensures !OccursAt(t, ", ", i) {
      if i + 2 <= |t| {
        assert t[i..i + 2][0] == t[i];
      }
    }
  }

  /** A text none of whose characters is c does not contain [c]. */
  lemma LacksChar(t: string, c: char)
    requires forall i :: 0 <= i < |t| ==> t[i] != c
    ensures !Contains(t, [c])
  {
    forall i | 0 <= i < |t| ensures !OccursAt(t, [c], i) {
      assert t[i..i + 1][0] == t[i];
    }
    ContainsIff(t, [c]);
  }

  /** The hours, minutes and seconds of a time of day. */
  lemma ClockFields(rem: nat)
    requires rem < 86400
    ensures rem / 60 % 60 < 60 && rem % 60 < 60
    ensures rem == rem / 60 / 60 * 3600 + rem / 60 % 60 * 60 + rem % 60
  {
    var a := rem / 60;
    assert rem == 60 * a + rem % 60;
    assert a == 60 * (a / 60) + a % 60;
  }

  /** "H:MM:SS" splits at its two colons. */
  lemma ReadClockSplits(ht: string, mt: string, st: string)
    requires |ht| >= 1 && |mt| == 2 && |st| == 2
    ensures ReadClock(ht + ":" + mt + ":" + st) == ReadFields(ht, mt, st)
  {
    var t := ht + ":" + mt + ":" + st;
    assert |t| == |ht| + 6;
    assert t[|ht|] == ':' && t[|ht| + 3] == ':';
    assert t[..|ht|] == ht;
    assert t[|ht| + 1..|ht| + 3] == mt;
    assert t[|ht| + 4..] == st;
  }

  /** Digit fields in range read as their values. */
  lemma ReadFieldsValue(ht: string, mt: string, st: string)
    requires AllDigits(ht) && AllDigits(mt) && AllDigits(st)
    requires DigitsValue(mt) < 60 && DigitsValue(st) < 60
    ensures ReadFields(ht, mt, st) == Some(DigitsValue(ht) * 3600 + DigitsValue(mt) * 60 + DigitsValue(st))
  {
  }

  /** "H:MM:SS" with digit fields holds no comma. */
  lemma ClockFieldsNoComma(ht: string, mt: string, st: string)
    requires AllDigits(ht) && AllDigits(mt) && AllDigits(st)
    ensures var t := ht + ":" + mt + ":" + st;
      forall i :: 0 <= i < |t| ==> t[i] != ','
  {
    var t := ht + ":" + mt + ":" + st;
    forall i | 0 <= i < |t| ensures t[i] != ',' {
      if i < |ht| {
        assert t[i] == ht[i];
      } else if |ht| < i < |ht| + 1 + |mt| {
        assert t[i] == mt[i - |ht| - 1];
      } else if |ht| + 1 + |mt| < i {
        assert t[i] == st[i - |ht| - |mt| - 2];
      }
    }
  }

  /** The clock text reads back as the seconds it shows, and holds no
      comma. */
  lemma ClockRoundTrip(rem: nat)
    requires rem < 86400
    ensures forall i :: 0 <= i < |ClockOf(rem)| ==> ClockOf(rem)[i] != ','
    ensures ReadClock(ClockOf(rem)) == Some(rem)
  {
    var h, m, sec := rem / 60 / 60, rem / 60 % 60, rem % 60;
    ClockFields(rem);
    ZeroPadWidth(m, 2);
    ZeroPadWidth(sec, 2);
    NatToStringValue(h);
    ZeroPadValue(m, 2);
    ZeroPadValue(sec, 2);
    ReadClockSplits(NatToString(h), ZeroPad(m, 2), ZeroPad(sec, 2));
    ReadFieldsValue(NatToString(h), ZeroPad(m, 2), ZeroPad(sec, 2));
    ClockFieldsNoComma(NatToString(h), ZeroPad(m, 2), ZeroPad(sec, 2));
  }

  /** A clock text has no ", ", so reading it skips the day part. */
  lemma ClockHasNoDays(rem: nat)
    requires rem < 86400
    ensures ReadHuman(ClockOf(rem)) == Some(rem)
  {
    var clock := ClockOf(rem);
    ClockRoundTrip(rem);
    NoCommaBefore(clock, |clock|);
    ContainsIff(clock, ", ");
  }

  /** Under a day the text is just the clock, with unpadded hours, and
      it reads back as s. */
  lemma UnderADay(s: int)
    requires 0 <= s < 86400
    ensures SecondsToHumanReadable(s) == Some(ClockOf(s))
    ensures ReadHuman(SecondsToHumanReadable(s).value) == Some(s)
  {
    assert s / 86400 == 0 && s % 86400 == s;
    assert DayPrefix(0) + ClockOf(s) == ClockOf(s);
    ClockHasNoDays(s);
  }

  /** head + ", " + clock splits at the ", " after head when head has no
      comma. */
  lemma SplitAtComma(head: string, clock: string)
    requires forall i :: 0 <= i < |head| ==> head[i] != ','
    ensures Contains(head + ", " + clock, ", ")
    ensures SplitHead(head + ", " + clock, ", ") == head
    ensures (head + ", " + clock)[|head| + 2..] == clock
  {
    var t := head + ", " + clock;
    forall i | 0 <= i < |head| ensures t[i] != ',' {
      assert t[i] == head[i];
    }
    NoCommaBefore(t, |head|);
    SplitHeadJoin(head, ", ", clock);
    assert OccursAt(t, ", ", |head|);
    ContainsIff(t, ", ");
  }

  /** ReadHuman of a text already split at its first ", ". */
  lemma ReadHumanSplit(t: string, head: string, clock: string)
    requires Contains(t, ", ") && SplitHead(t, ", ") == head && t[|head| + 2..] == clock
    ensures ReadHuman(t) == ReadDayAndClock(head, clock)
  {
  }

  /** The day head holds no comma. */
  lemma DayHeadNoComma(days: int)
    ensures forall i :: 0 <= i < |DayHead(days)| ==> DayHead(days)[i] != ','
  {
    var n := IntToString(days);
    var word := if days == 1 || days == -1 then "day" else "days";
    var h := n + " " + word;
    forall i | 0 <= i < |h| ensures h[i] != ',' {
      if i < |n| {
        DigitsOrSign(days, i);
        assert h[i] == n[i];
      } else if i > |n| {
        assert h[i] == word[i - |n| - 1];
      }
    }
  }

  /** str(d) is a minus sign and digits, or digits. */
  lemma DigitsOrSign(d: int, i: nat)
    requires i < |IntToString(d)|
    ensures IntToString(d)[i] == '-' || IsDigit(IntToString(d)[i])
  {
    if d < 0 && i > 0 {
      assert IntToString(d)[i] == NatToString(-d)[i - 1];
    }
  }

  /** The text before the first space of the day head is str(days). */
  lemma DayHeadSplits(days: int)
    ensures SplitHead(DayHead(days), " ") == IntToString(days)
  {
    var n := IntToString(days);
    var word := if days == 1 || days == -1 then "day" else "days";
    forall i | 0 <= i < |n| ensures n[i] != ' ' {
      DigitsOrSign(days, i);
    }
    LacksChar(n, ' ');
    CharNotInside(n, ' ', word);
    SplitHeadJoin(n, " ", word);
  }

  /** The day head reads back as the day count. */
  lemma DayHeadReads(days: int)
    ensures ParseInt(SplitHead(DayHead(days), " ")) == Some(days)
  {
    DayHeadSplits(days);
    ParseIntOfIntToString(days);
  }

  /** A readable day count and clock give days * 86400 + clock seconds. */
  lemma ReadDayAndClockValue(head: string, clock: string, d: int, c: int, s: int)
    requires ParseInt(SplitHead(head, " ")) == Some(d) && ReadClock(clock) == Some(c)
    requires s == d * 86400 + c
    ensures ReadDayAndClock(head, clock) == Some(s)
  {
  }

  /** A day head and a clock read back as the seconds they show. */
  lemma ReadDayAndClockOf(days: int, rem: nat, s: int)
    requires rem < 86400 && s == days * 86400 + rem
    ensures ReadDayAndClock(DayHead(days), ClockOf(rem)) == Some(s)
  {
    DayHeadReads(days);
    ClockRoundTrip(rem);
    ReadDayAndClockValue(DayHead(days), ClockOf(rem), days, rem, s);
  }

  /** A text with a day part reads back as the days and the clock. */
  lemma ReadWithDays(days: int, rem: nat, s: int)
    requires days != 0 && rem < 86400 && s == days * 86400 + rem
    ensures ReadHuman(DayPrefix(days) + ClockOf(rem)) == Some(s)
  {
    var head, clock := DayHead(days), ClockOf(rem);
    assert DayPrefix(days) + clock == head + ", " + clock;
    DayHeadNoComma(days);
    SplitAtComma(head, clock);
    ReadHumanSplit(head + ", " + clock, head, clock);
    ReadDayAndClockOf(days, rem, s);
  }

  /** Reading the text back gives the seconds: the day count and the clock
      together determine s. */
  lemma HumanReadableRoundTrip(s: int)
    requires SecondsToHumanReadable(s).Some?
    ensures ReadHuman(SecondsToHumanReadable(s).value) == Some(s)
  {
    var days, rem := s / 86400, s % 86400;
    var t := DayPrefix(days) + ClockOf(rem);
    assert SecondsToHumanReadable(s) == Some(t);
    if days == 0 {
      UnderADay(s);
    } else {
      ReadWithDays(days, rem, s);
    }
  }

  // ---------------------------------------------------------------------
  // The per-entry loop (sync.py:66-114)

  /** What one add_worklog call is given. */
  datatype Worklog = Worklog(issueKey: string, seconds: int, startDate: string, description: string)

  /** Whether the Tempo call of the n-th attempt of the run (counting from
      0) returns without raising; the API itself is not part of this model. */
  type Acceptance = (nat, Worklog) -> bool

  /** An attempt succeeds when its progress line can be formatted (an
      out-of-range duration raises OverflowError inside the try) and the
      Tempo call succeeds. */
  predicate Sent(accepts: Acceptance, n: nat, w: Worklog) {
    Representable(w.seconds) && accepts(n, w)
  }

  /** How handling one entry ends: exit(1) and the two uncaught errors
      (int() of a bad duration, input() at the end of input) end the whole
      command. */
  datatype EntryEnd = Submitted | Skipped | Exited(status: int) | Crashed | OutOfInput

  /** After a failed attempt: submit again with these values, or stop. */
  datatype Reaction = Resubmit(w: Worklog, pos: nat) | Stop(end: EntryEnd, pos: nat)

  /** The four manual-entry prompts; each empty answer keeps the current
      value. The duration answer goes through int() before the date is
      asked for. */
  function ManualAnswers(w: Worklog, answers: seq<Answer>, pos: nat): (r: Reaction)
    requires pos <= |answers|
    ensures r.Resubmit? ==> r.pos == pos + 4 <= |answers|
    ensures r.Stop? ==> pos <= r.pos <= |answers| && (r.end == Crashed || r.end == OutOfInput)
  {
    if pos + 2 > |answers| then Stop(OutOfInput, |answers|)
    else
      var key := InputOrDefault(answers[pos].text, w.issueKey);
      match IntOrDefault(answers[pos + 1], w.seconds)
      case None => Stop(Crashed, pos + 2)
      case Some(seconds) =>
        if pos + 4 > |answers| then Stop(OutOfInput, |answers|)
        else Resubmit(Worklog(key, seconds, InputOrDefault(answers[pos + 2].text, w.startDate),
                              InputOrDefault(answers[pos + 3].text, w.description)), pos + 4)
  }

  /** The branch the operator's answer selects. */
  function AfterChoice(w: Worklog, choice: Choice, p: nat, answers: seq<Answer>): (r: Reaction)
    requires p <= |answers|
    ensures r.Resubmit? ==> p <= r.pos <= |answers|
    ensures r.Stop? ==> p <= r.pos <= |answers| && r.end != Submitted
  {
    match choice
    case Retry => Resubmit(w, p)
    case Skip => Stop(Skipped, p)
    case Exit => Stop(Exited(1), p)
    case ManualEntry => ManualAnswers(w, answers, p)
    case OpenIssue => if p < |answers| then Resubmit(w, p + 1) else Stop(OutOfInput, |answers|)
  }

  /** The failure prompt and the branch the answer selects. */
  function AfterFailure(w: Worklog, answers: seq<Answer>, pos: nat): (r: Reaction)
    requires pos <= |answers|
    ensures r.Resubmit? ==> pos < r.pos <= |answers|
    ensures r.Stop? ==> pos <= r.pos <= |answers| && r.end != Submitted
  {
    match InputChoice(Options, answers, pos)
    case None => Stop(OutOfInput, |answers|)
    case Some(answer) => AfterChoice(w, answer.0, answer.1, answers)
  }

  /** What the operator's answers make of a failed attempt at a worklog,
      with the input read up to a position. */
  type Reactor = (Worklog, nat) -> Reaction

  /** A reaction either moves the input forward or stops within it. */
  predicate Moves(r: Reaction, p: nat, limit: nat) {
    if r.Resubmit? then p < r.pos <= limit else p <= r.pos <= limit && r.end != Submitted
  }

  ghost predicate Advances(react: Reactor, limit: nat) {
    forall w: Worklog, p: nat :: p <= limit ==> Moves(react(w, p), p, limit)
  }

  /** react is the failure prompt over these answers: it agrees with
      AfterFailure wherever the input has not been read past its end. */
  ghost predicate Answering(react: Reactor, answers: seq<Answer>) {
    forall w: Worklog, p: nat {:trigger AfterFailure(w, answers, p)} ::
      p <= |answers| ==> react(w, p) == AfterFailure(w, answers, p)
  }

  /** The prompt moves the input forward or stops within it. */
  lemma AnsweringAdvances(react: Reactor, answers: seq<Answer>)
    requires Answering(react, answers)
    ensures Advances(react, |answers|)
  {
    forall w: Worklog, p: nat | p <= |answers|
      ensures Moves(react(w, p), p, |answers|)
    {
      assert react(w, p) == AfterFailure(w, answers, p);
    }
  }

  /** The failure prompt over the operator's answers, as a function value. */
  function Prompted(answers: seq<Answer>): Reactor {
    (w: Worklog, p: nat) => if p <= |answers| then AfterFailure(w, answers, p) else Stop(OutOfInput, p)
  }

  /** Such a function exists. */
  lemma PromptedAnswers(answers: seq<Answer>)
    ensures Answering(Prompted(answers), answers) && Advances(Prompted(answers), |answers|)
  {
    AnsweringAdvances(Prompted(answers), answers);
  }

  /** The attempts made for one entry, in order, how it ended, and where
      the operator's input stands afterwards. */
  datatype EntryRun = EntryRun(attempts: seq<Worklog>, end: EntryEnd, pos: nat)

  /** The while True loop for one entry, as a value: `done` holds the
      attempts already made for the entry, w is the one about to be made,
      and n counts the attempts made before w in the whole run. */
  function RunEntry(done: seq<Worklog>, w: Worklog, accepts: Acceptance, react: Reactor, limit: nat, pos: nat, n: nat): (r: EntryRun)
    requires pos <= limit && Advances(react, limit)
    decreases limit - pos
    ensures pos <= r.pos <= limit
  {
    if Sent(accepts, n, w) then EntryRun(done + [w], Submitted, pos)
    else
      var next := react(w, pos);
      assert Moves(next, pos, limit);
      if next.Stop? then EntryRun(done + [w], next.end, next.pos)
      else RunEntry(done + [w], next.w, accepts, react, limit, next.pos, n + 1)
  }

  /** One failed attempt: the reaction moves the input forward and either
      ends the entry or leads to the next attempt. */
  lemma RunEntryStep(done: seq<Worklog>, w: Worklog, accepts: Acceptance, react: Reactor, limit: nat, pos: nat, n: nat)
    requires pos <= limit && Advances(react, limit) && !Sent(accepts, n, w)
    ensures var next := react(w, pos);
      && Moves(next, pos, limit)
      && (next.Stop? ==> RunEntry(done, w, accepts, react, limit, pos, n) == EntryRun(done + [w], next.end, next.pos))
      && (next.Resubmit? ==> RunEntry(done, w, accepts, react, limit, pos, n)
                             == RunEntry(done + [w], next.w, accepts, react, limit, next.pos, n + 1))
  {
    assert Moves(react(w, pos), pos, limit);
  }

  /** The attempts of an entry extend the ones already made; it ends
      Submitted exactly when its last attempt went through, and every
      attempt before that failed. */
  lemma {:induction false} RunEntryAttempts(done: seq<Worklog>, w: Worklog, accepts: Acceptance, react: Reactor, limit: nat, pos: nat, n: nat)
    requires pos <= limit && Advances(react, limit)
    decreases limit - pos
    ensures var r := RunEntry(done, w, accepts, react, limit, pos, n);
      var d := |done|;
      && |r.attempts| > d && r.attempts[..d] == done && r.attempts[d] == w
      && (r.end == Submitted <==> Sent(accepts, n + |r.attempts| - 1 - d, r.attempts[|r.attempts| - 1]))
      && forall j :: d <= j < |r.attempts| - 1 ==> !Sent(accepts, n + j - d, r.attempts[j])
  {
    if !Sent(accepts, n, w) {
      var next := react(w, pos);
      assert Moves(next, pos, limit);
      if next.Resubmit? {
        var done' := done + [w];
        RunEntryAttempts(done', next.w, accepts, react, limit, next.pos, n + 1);
        var a := RunEntry(done', next.w, accepts, react, limit, next.pos, n + 1).attempts;
        assert a[..|done'|][..|done|] == a[..|done|];
        assert a[|done|] == a[..|done'|][|done|];
      }
    }
  }

  /** After a failed attempt, the answer's branch gives the reaction. */
  lemma Reacts(react: Reactor, answers: seq<Answer>, w: Worklog, pos: nat, c: Choice, p: nat)
    requires Answering(react, answers) && pos <= |answers|
    requires InputChoice(Options, answers, pos) == Some((c, p))
    ensures react(w, pos) == AfterChoice(w, c, p, answers)
  {
    assert react(w, pos) == AfterFailure(w, answers, pos);
  }

  /** A failed attempt followed by a stop is the only attempt. */
  lemma EntryStops(w: Worklog, accepts: Acceptance, react: Reactor, answers: seq<Answer>, pos: nat, n: nat, c: Choice, p: nat)
    requires Answering(react, answers) && Advances(react, |answers|)
    requires pos <= |answers| && !Sent(accepts, n, w)
    requires InputChoice(Options, answers, pos) == Some((c, p))
    requires AfterChoice(w, c, p, answers).Stop?
    ensures RunEntry([], w, accepts, react, |answers|, pos, n)
      == EntryRun([w], AfterChoice(w, c, p, answers).end, AfterChoice(w, c, p, answers).pos)
  {
    Reacts(react, answers, w, pos, c, p);
    RunEntryStep([], w, accepts, react, |answers|, pos, n);
    assert [] + [w] == [w];
  }

  /** A failed attempt followed by a resubmission is the first of at least
      two attempts, the second of which is the resubmitted worklog. */
  lemma EntryGoesOn(w: Worklog, accepts: Acceptance, react: Reactor, answers: seq<Answer>, pos: nat, n: nat, c: Choice, p: nat)
    requires Answering(react, answers) && Advances(react, |answers|)
    requires pos <= |answers| && !Sent(accepts, n, w)
    requires InputChoice(Options, answers, pos) == Some((c, p))
    requires AfterChoice(w, c, p, answers).Resubmit?
    ensures var r := RunEntry([], w, accepts, react, |answers|, pos, n);
      |r.attempts| >= 2 && r.attempts[0] == w && r.attempts[1] == AfterChoice(w, c, p, answers).w
  {
    var next := AfterChoice(w, c, p, answers);
    Reacts(react, answers, w, pos, c, p);
    RunEntryStep([], w, accepts, react, |answers|, pos, n);
    assert [] + [w] == [w];
    RunEntryAttempts([w], next.w, accepts, react, |answers|, next.pos, n + 1);
    var r := RunEntry([w], next.w, accepts, react, |answers|, next.pos, n + 1);
    assert r.attempts[0] == r.attempts[..1][0] == w;
  }

  /** Retry submits the same values again. */
  lemma RetryResubmits(w: Worklog, accepts: Acceptance, react: Reactor, answers: seq<Answer>, pos: nat, n: nat, p: nat)
    requires Answering(react, answers) && Advances(react, |answers|)
    requires pos <= |answers| && !Sent(accepts, n, w)
    requires InputChoice(Options, answers, pos) == Some((Retry, p))
    ensures var r := RunEntry([], w, accepts, react, |answers|, pos, n);
      |r.attempts| >= 2 && r.attempts[0] == w && r.attempts[1] == w
  {
    EntryGoesOn(w, accepts, react, answers, pos, n, Retry, p);
  }

  /** Opening the issue waits for one line (the Enter after the browser
      opened) and then submits the same values again. */
  lemma OpenIssueResubmits(w: Worklog, accepts: Acceptance, react: Reactor, answers: seq<Answer>, pos: nat, n: nat, p: nat)
    requires Answering(react, answers) && Advances(react, |answers|)
    requires pos <= |answers| && !Sent(accepts, n, w)
    requires InputChoice(Options, answers, pos) == Some((OpenIssue, p)) && p < |answers|
    ensures var r := RunEntry([], w, accepts, react, |answers|, pos, n);
      |r.attempts| >= 2 && r.attempts[0] == w && r.attempts[1] == w
    ensures react(w, pos) == Resubmit(w, p + 1)
  {
    EntryGoesOn(w, accepts, react, answers, pos, n, OpenIssue, p);
    Reacts(react, answers, w, pos, OpenIssue, p);
  }

  /** Open JIRA Issue at the end of the input ends the command: the wait
      for Enter has nothing to read. */
  lemma OpenIssueOutOfInput(w: Worklog, accepts: Acceptance, react: Reactor, answers: seq<Answer>, pos: nat, n: nat)
    requires Answering(react, answers) && Advances(react, |answers|)
    requires pos <= |answers| && !Sent(accepts, n, w)
    requires InputChoice(Options, answers, pos) == Some((OpenIssue, |answers|))
    ensures RunEntry([], w, accepts, react, |answers|, pos, n) == EntryRun([w], OutOfInput, |answers|)
  {
    EntryStops(w, accepts, react, answers, pos, n, OpenIssue, |answers|);
  }

  /** Skip ends the entry after the one failed attempt. */
  lemma SkipEndsEntry(w: Worklog, accepts: Acceptance, react: Reactor, answers: seq<Answer>, pos: nat, n: nat, p: nat)
    requires Answering(react, answers) && Advances(react, |answers|)
    requires pos <= |answers| && !Sent(accepts, n, w)
    requires InputChoice(Options, answers, pos) == Some((Skip, p))
    ensures RunEntry([], w, accepts, react, |answers|, pos, n) == EntryRun([w], Skipped, p)
  {
    EntryStops(w, accepts, react, answers, pos, n, Skip, p);
  }

  /** Exit ends the command with status 1 after the one failed attempt. */
  lemma ExitEndsRun(w: Worklog, accepts: Acceptance, react: Reactor, answers: seq<Answer>, pos: nat, n: nat, p: nat)
    requires Answering(react, answers) && Advances(react, |answers|)
    requires pos <= |answers| && !Sent(accepts, n, w)
    requires InputChoice(Options, answers, pos) == Some((Exit, p))
    ensures RunEntry([], w, accepts, react, |answers|, pos, n) == EntryRun([w], Exited(1), p)
  {
    EntryStops(w, accepts, react, answers, pos, n, Exit, p);
  }

  /** Manual entry submits the typed values next, each empty answer keeping
      the value it replaces. */
  lemma ManualEntryReplaces(w: Worklog, accepts: Acceptance, react: Reactor, answers: seq<Answer>, pos: nat, n: nat, p: nat, seconds: int)
    requires Answering(react, answers) && Advances(react, |answers|)
    requires pos <= |answers| && !Sent(accepts, n, w)
    requires InputChoice(Options, answers, pos) == Some((ManualEntry, p))
    requires p + 4 <= |answers| && IntOrDefault(answers[p + 1], w.seconds) == Some(seconds)
    ensures var r := RunEntry([], w, accepts, react, |answers|, pos, n);
      && |r.attempts| >= 2 && r.attempts[0] == w
      && r.attempts[1] == Worklog(InputOrDefault(answers[p].text, w.issueKey), seconds,
                                  InputOrDefault(answers[p + 2].text, w.startDate),
                                  InputOrDefault(answers[p + 3].text, w.description))
  {
    EntryGoesOn(w, accepts, react, answers, pos, n, ManualEntry, p);
  }

  /** Four empty answers at the manual-entry prompts submit the same values
      again. */
  lemma ManualEntryKeepsDefaults(w: Worklog, accepts: Acceptance, react: Reactor, answers: seq<Answer>, pos: nat, n: nat, p: nat)
    requires Answering(react, answers) && Advances(react, |answers|)
    requires pos <= |answers| && !Sent(accepts, n, w)
    requires InputChoice(Options, answers, pos) == Some((ManualEntry, p))
    requires p + 4 <= |answers|
    requires answers[p].text == answers[p + 1].text == answers[p + 2].text == answers[p + 3].text == ""
    ensures var r := RunEntry([], w, accepts, react, |answers|, pos, n);
      |r.attempts| >= 2 && r.attempts[1] == w
  {
    ManualEntryReplaces(w, accepts, react, answers, pos, n, p, w.seconds);
  }

  /** A typed duration int() rejects ends the command, since nothing
      catches that ValueError. */
  lemma ManualEntryBadDuration(w: Worklog, accepts: Acceptance, react: Reactor, answers: seq<Answer>, pos: nat, n: nat, p: nat)
    requires Answering(react, answers) && Advances(react, |answers|)
    requires pos <= |answers| && !Sent(accepts, n, w)
    requires InputChoice(Options, answers, pos) == Some((ManualEntry, p))
    requires p + 2 <= |answers| && IntOrDefault(answers[p + 1], w.seconds).None?
    ensures RunEntry([], w, accepts, react, |answers|, pos, n) == EntryRun([w], Crashed, p + 2)
  {
    EntryStops(w, accepts, react, answers, pos, n, ManualEntry, p);
  }

  /** The except branch of the entry loop (sync.py:79-114): ask what to do
      and carry it out. */
  method Prompt(w: Worklog, answers: seq<Answer>, pos: nat, ghost react: Reactor) returns (r: Reaction)
    requires pos <= |answers| && Answering(react, answers)
    ensures r == react(w, pos)
  {
    var answer := InputChoice(Options, answers, pos);
    if answer.None? {
      r := Stop(OutOfInput, |answers|);
    } else {
      var choice, p := answer.value.0, answer.value.1;
      if choice == Retry {
        r := Resubmit(w, p);
      } else if choice == Skip {
        r := Stop(Skipped, p);
      } else if choice == Exit {
        r := Stop(Exited(1), p);
      } else if choice == ManualEntry {
        if p + 2 > |answers| {
          r := Stop(OutOfInput, |answers|);
        } else {
          var key := InputOrDefault(answers[p].text, w.issueKey);
          var seconds := IntOrDefault(answers[p + 1], w.seconds);
          if seconds.None? {
            r := Stop(Crashed, p + 2);
          } else if p + 4 > |answers| {
            r := Stop(OutOfInput, |answers|);
          } else {
            var date := InputOrDefault(answers[p + 2].text, w.startDate);
            var description := InputOrDefault(answers[p + 3].text, w.description);
            r := Resubmit(Worklog(key, seconds.value, date, description), p + 4);
          }
        }
      } else {
        if p >= |answers| {
          r := Stop(OutOfInput, |answers|);
        } else {
          r := Resubmit(w, p + 1);
        }
      }
    }
    assert r == AfterFailure(w, answers, pos);
  }

  /** The try block of the entry loop (sync.py:68-77): the progress line
      is formatted first, so a duration timedelta cannot hold fails the
      attempt before the Tempo call. */
  method TrySubmit(accepts: Acceptance, n: nat, w: Worklog) returns (sent: bool)
    ensures sent == Sent(accepts, n, w)
  {
    var shown := SecondsToHumanReadable(w.seconds);
    sent := shown.Some? && accepts(n, w);
  }

  /** The entry loop (sync.py:66-114): try to submit, and on failure ask
      what to do. */
  method SyncEntry(w0: Worklog, accepts: Acceptance, answers: seq<Answer>, pos0: nat, n0: nat, ghost react: Reactor)
      returns (attempts: seq<Worklog>, end: EntryEnd, pos: nat)
    requires pos0 <= |answers| && Answering(react, answers) && Advances(react, |answers|)
    ensures EntryRun(attempts, end, pos) == RunEntry([], w0, accepts, react, |answers|, pos0, n0)
  {
    ghost var goal := RunEntry([], w0, accepts, react, |answers|, pos0, n0);
    var w := w0;
    var n := n0;
    pos := pos0;
    attempts := [];
    while true
      invariant pos <= |answers|
      invariant RunEntry(attempts, w, accepts, react, |answers|, pos, n) == goal
      decreases |answers| - pos
    {
      var sent := TrySubmit(accepts, n, w);
      if sent {
        attempts := attempts + [w];
        end := Submitted;
        return;
      }
      var next := Prompt(w, answers, pos, react);
      RunEntryStep(attempts, w, accepts, react, |answers|, pos, n);
      attempts := attempts + [w];
      n := n + 1;
      if next.Stop? {
        end, pos := next.end, next.pos;
        return;
      }
      w, pos := next.w, next.pos;
    }
  }

  /** For one entry on its own: it ends Submitted exactly when the last
      attempt went through, and the attempts before it all failed. */
  lemma EntryAttempts(w: Worklog, accepts: Acceptance, react: Reactor, limit: nat, pos: nat, n: nat)
    requires pos <= limit && Advances(react, limit)
    ensures var r := RunEntry([], w, accepts, react, limit, pos, n);
      && |r.attempts| >= 1 && r.attempts[0] == w
      && (r.end == Submitted <==> Sent(accepts, n + |r.attempts| - 1, r.attempts[|r.attempts| - 1]))
      && forall j :: 0 <= j < |r.attempts| - 1 ==> !Sent(accepts, n + j, r.attempts[j])
  {
    RunEntryAttempts([], w, accepts, react, limit, pos, n);
  }

  // ---------------------------------------------------------------------
  // The loop over the entries (sync.py:48-64)

  /** The arguments sync passes to get_time_entries; a missing end date
      is "". */
  function SyncQuery(startDate: string, endDate: string): Query {
    Query(startDate, endDate, true, 60, "SKIP", ["Hours Bank"], ["banked_hours"], [])
  }

  /** Every entry sync is handed is a whole number of minutes, has no
      "SKIP" in its description, no banked_hours tag and no Hours Bank
      project, and is one of the fetched entries with its duration
      changed. */
  lemma SyncQueryKeeps(fetched: seq<TimeEntry>, startDate: string, endDate: string, projects: seq<Project>,
                       day: Option<Date>, x: TimeEntry)
    requires Processed(fetched, SyncQuery(startDate, endDate), projects, day).Ok?
    requires x in Processed(fetched, SyncQuery(startDate, endDate), projects, day).value
    ensures x.duration % 60 == 0
    ensures !Contains(x.description, "SKIP")
    ensures !HasAnyTag(x, ["banked_hours"])
    ensures !InProjects(x, GetProjects(projects, ["Hours Bank"]))
    ensures exists e :: e in fetched && x == e.(duration := x.duration)
  {
    var q := SyncQuery(startDate, endDate);
    ProcessedRounded(fetched, q, projects, day, x);
    ProcessedPasses(fetched, q, projects, day, x);
    WholeMinutes(x.duration);
    SyncQueryPasses(x, startDate, endDate, projects, day);
  }

  lemma WholeMinutes(d: int)
    requires RoundTo(d, 60) == d
    ensures d % 60 == 0
  {
    assert d == RoundDiv(d, 60) * 60;
  }

  lemma SyncQueryPasses(x: TimeEntry, startDate: string, endDate: string, projects: seq<Project>, day: Option<Date>)
    requires Passes(x, SyncQuery(startDate, endDate), projects, day)
    ensures !Contains(x.description, "SKIP")
    ensures !HasAnyTag(x, ["banked_hours"])
    ensures !InProjects(x, GetProjects(projects, ["Hours Bank"]))
  {
  }

  /** The worklog first submitted for an entry; None where strptime
      raises ValueError. str() of the parsed date is its ISO text. */
  function EntryWorklog(e: TimeEntry): Option<Worklog> {
    match EntryStartDate(e.start)
    case None => None
    case Some(d) => Some(Worklog(IssueKey(e.description), e.duration, FormatDate(d), IssueDescription(e.description)))
  }

  /** For an entry whose start Toggl wrote, the worklog carries the issue
      key, the duration, the start's own date and the description. */
  lemma EntryWorklogOf(e: TimeEntry, t: DateTime)
    requires ValidDateTime(t) && e.start == FormatTimestamp(t)
    ensures EntryWorklog(e) == Some(Worklog(IssueKey(e.description), e.duration, FormatDate(t.date),
                                            IssueDescription(e.description)))
  {
    EntryStartDateOf(t);
  }

  /** The worklog of each entry, in order. */
  function Worklogs(entries: seq<TimeEntry>): (r: seq<Option<Worklog>>)
    ensures |r| == |entries|
  {
    seq(|entries|, i requires 0 <= i < |entries| => EntryWorklog(entries[i]))
  }

  /** Whether the loop goes on to the next entry after one ends this way. */
  predicate GoesOn(e: EntryEnd) {
    e == Submitted || e == Skipped
  }

  /** The runs of the entries handled, in order; stop is None when every
      entry was handled, or how the command ended early. */
  datatype SyncRun = SyncRun(runs: seq<EntryRun>, stop: Option<EntryEnd>, pos: nat)

  /** The for loop from entry k on, over the entries' worklogs, as a value:
      `done` holds the runs of the entries before k, and n counts the
      attempts made so far. */
  function RunAll(done: seq<EntryRun>, ws: seq<Option<Worklog>>, k: nat, accepts: Acceptance, react: Reactor,
                  limit: nat, pos: nat, n: nat): (r: SyncRun)
    requires k <= |ws| && pos <= limit && Advances(react, limit)
    decreases |ws| - k
    ensures pos <= r.pos <= limit
  {
    if k == |ws| then SyncRun(done, None, pos)
    else match ws[k]
      case None => SyncRun(done, Some(Crashed), pos)
      case Some(w) =>
        var e := RunEntry([], w, accepts, react, limit, pos, n);
        if GoesOn(e.end) then RunAll(done + [e], ws, k + 1, accepts, react, limit, e.pos, n + |e.attempts|)
        else SyncRun(done + [e], Some(e.end), e.pos)
  }

  /** The runs extend the ones already made, at most one per entry. */
  lemma {:induction false} RunAllPrefix(done: seq<EntryRun>, ws: seq<Option<Worklog>>, k: nat, accepts: Acceptance,
                                        react: Reactor, limit: nat, pos: nat, n: nat)
    requires k <= |ws| && pos <= limit && Advances(react, limit)
    decreases |ws| - k
    ensures var r := RunAll(done, ws, k, accepts, react, limit, pos, n);
      |done| <= |r.runs| <= |done| + |ws| - k && r.runs[..|done|] == done
  {
    if k < |ws| && ws[k].Some? {
      var e := RunEntry([], ws[k].value, accepts, react, limit, pos, n);
      if GoesOn(e.end) {
        var done' := done + [e];
        RunAllPrefix(done', ws, k + 1, accepts, react, limit, e.pos, n + |e.attempts|);
        var runs := RunAll(done', ws, k + 1, accepts, react, limit, e.pos, n + |e.attempts|).runs;
        assert runs[..|done'|][..|done|] == runs[..|done|];
      }
    }
  }

  /** The run of each entry handled starts with that entry's worklog. */
  lemma {:induction false} RunAllRuns(done: seq<EntryRun>, ws: seq<Option<Worklog>>, k: nat, accepts: Acceptance,
                                      react: Reactor, limit: nat, pos: nat, n: nat)
    requires k <= |ws| && pos <= limit && Advances(react, limit)
    decreases |ws| - k
    ensures var r := RunAll(done, ws, k, accepts, react, limit, pos, n);
      forall j :: |done| <= j < |r.runs| ==>
        j - |done| + k < |ws| && ws[k + j - |done|].Some?
        && |r.runs[j].attempts| >= 1 && r.runs[j].attempts[0] == ws[k + j - |done|].value
  {
    RunAllPrefix(done, ws, k, accepts, react, limit, pos, n);
    if k < |ws| && ws[k].Some? {
      var w := ws[k].value;
      var e := RunEntry([], w, accepts, react, limit, pos, n);
      RunEntryStarts(w, accepts, react, limit, pos, n);
      var r := RunAll(done, ws, k, accepts, react, limit, pos, n);
      var done' := done + [e];
      if GoesOn(e.end) {
        var n' := n + |e.attempts|;
        assert r == RunAll(done', ws, k + 1, accepts, react, limit, e.pos, n');
        RunAllRuns(done', ws, k + 1, accepts, react, limit, e.pos, n');
        RunAllPrefix(done', ws, k + 1, accepts, react, limit, e.pos, n');
        assert r.runs[|done|] == e by {
          assert r.runs[|done|] == r.runs[..|done'|][|done|];
        }
      } else {
        assert r.runs == done';
      }
    }
  }

  lemma RunEntryStarts(w: Worklog, accepts: Acceptance, react: Reactor, limit: nat, pos: nat, n: nat)
    requires pos <= limit && Advances(react, limit)
    ensures var r := RunEntry([], w, accepts, react, limit, pos, n);
      |r.attempts| >= 1 && r.attempts[0] == w
  {
    RunEntryAttempts([], w, accepts, react, limit, pos, n);
  }

  /** Every run but the last went on to the next entry. */
  lemma {:induction false} RunAllGoOn(done: seq<EntryRun>, ws: seq<Option<Worklog>>, k: nat, accepts: Acceptance,
                                      react: Reactor, limit: nat, pos: nat, n: nat)
    requires k <= |ws| && pos <= limit && Advances(react, limit)
    decreases |ws| - k
    ensures var r := RunAll(done, ws, k, accepts, react, limit, pos, n);
      forall j :: |done| <= j < |r.runs| - 1 ==> GoesOn(r.runs[j].end)
  {
    if k < |ws| && ws[k].Some? {
      var e := RunEntry([], ws[k].value, accepts, react, limit, pos, n);
      if GoesOn(e.end) {
        var done' := done + [e];
        RunAllGoOn(done', ws, k + 1, accepts, react, limit, e.pos, n + |e.attempts|);
        RunAllPrefix(done', ws, k + 1, accepts, react, limit, e.pos, n + |e.attempts|);
        var runs := RunAll(done', ws, k + 1, accepts, react, limit, e.pos, n + |e.attempts|).runs;
        assert runs[|done|] == runs[..|done'|][|done|] == e;
      }
    }
  }

  /** The command goes through every entry, the last run included, unless
      it stops; it stops only when a run ends with Exit, a crash or the end
      of input, or when the next entry's start does not parse. */
  lemma {:induction false} RunAllStops(done: seq<EntryRun>, ws: seq<Option<Worklog>>, k: nat, accepts: Acceptance,
                                       react: Reactor, limit: nat, pos: nat, n: nat)
    requires k <= |ws| && pos <= limit && Advances(react, limit)
    decreases |ws| - k
    ensures var r := RunAll(done, ws, k, accepts, react, limit, pos, n);
      var d := |done|;
      && |r.runs| >= d
      && (r.stop.None? ==> |r.runs| == d + |ws| - k && (|r.runs| > d ==> GoesOn(r.runs[|r.runs| - 1].end)))
      && (r.stop.Some? ==>
            && !GoesOn(r.stop.value)
            && ((|r.runs| > d && r.runs[|r.runs| - 1].end == r.stop.value)
                || (|r.runs| < d + |ws| - k && ws[k + |r.runs| - d].None?)))
  {
    if k < |ws| && ws[k].Some? {
      var e := RunEntry([], ws[k].value, accepts, react, limit, pos, n);
      if GoesOn(e.end) {
        RunAllStops(done + [e], ws, k + 1, accepts, react, limit, e.pos, n + |e.attempts|);
      }
    }
  }

  /** The for loop over the entries. */
  method SyncEntries(entries: seq<TimeEntry>, accepts: Acceptance, answers: seq<Answer>, ghost react: Reactor)
    returns (runs: seq<EntryRun>, stop: Option<EntryEnd>, pos: nat)
    requires Answering(react, answers) && Advances(react, |answers|)
    ensures SyncRun(runs, stop, pos) == RunAll([], Worklogs(entries), 0, accepts, react, |answers|, 0, 0)
  {
    ghost var ws := Worklogs(entries);
    ghost var goal := RunAll([], ws, 0, accepts, react, |answers|, 0, 0);
    runs, stop, pos := [], None, 0;
    var n: nat := 0;
    var k := 0;
    while k < |entries|
      invariant k <= |entries| && pos <= |answers|
      invariant RunAll(runs, ws, k, accepts, react, |answers|, pos, n) == goal
      decreases |entries| - k
    {
      var w := EntryWorklog(entries[k]);
      assert w == ws[k];
      if w.None? {
        stop := Some(Crashed);
        return;
      }
      var attempts, end, p := SyncEntry(w.value, accepts, answers, pos, n, react);
      runs := runs + [EntryRun(attempts, end, p)];
      n, pos := n + |attempts|, p;
      if !GoesOn(end) {
        stop := Some(end);
        return;
      }
      k := k + 1;
    }
  }

  /** sync(start_date, end_date) as a value: None where get_time_entries
      raises. */
  function SyncOf(startDate: string, endDate: string, fetch: EntriesSource, projects: seq<Project>,
                  accepts: Acceptance, react: Reactor, limit: nat): Option<SyncRun>
    requires Advances(react, limit)
  {
    match TimeEntries(SyncQuery(startDate, endDate), fetch, projects)
    case Err(_) => None
    case Ok(entries) => Some(RunAll([], Worklogs(entries), 0, accepts, react, limit, 0, 0))
  }

  /** sync(start_date, end_date), with the Toggl and Tempo calls and the
      operator's answers as inputs. */
  method SyncCommand(startDate: string, endDate: string, fetch: EntriesSource, projects: seq<Project>,
                     accepts: Acceptance, answers: seq<Answer>, ghost react: Reactor) returns (r: Option<SyncRun>)
    requires Answering(react, answers) && Advances(react, |answers|)
    ensures r == SyncOf(startDate, endDate, fetch, projects, accepts, react, |answers|)
  {
    var entries := GetTimeEntries(SyncQuery(startDate, endDate), fetch, projects);
    if entries.Err? {
      return None;
    }
    var runs, stop, pos := SyncEntries(entries.value, accepts, answers, react);
    r := Some(SyncRun(runs, stop, pos));
  }

  // ---------------------------------------------------------------------
  // get_past_working_day (sync.py:118-125)

  /** Whether the day with this day number falls on a Saturday or Sunday. */
  predicate WeekendNumber(k: int) {
    k % 7 >= 5
  }

  /** d is the latest Monday-to-Friday date strictly before today: every
      day after it and before today is a Saturday or a Sunday. */
  predicate LatestWorkdayBefore(d: Date, today: Date)
    requires ValidDate(today)
  {
    && ValidDate(d) && IsWorkday(d) && DayNumber(d) < DayNumber(today)
    && forall k :: DayNumber(d) < k < DayNumber(today) ==> WeekendNumber(k)
  }

  /** get_past_working_day with today's date as a parameter; None where
      today - timedelta(days=1) overflows. */
  method PastWorkingDay(today: Date) returns (r: Option<string>)
    requires ValidDate(today)
    ensures r.None? <==> today == FirstDate
    ensures r.Some? ==> exists d :: LatestWorkdayBefore(d, today) && r.value == FormatDate(d)
  {
    PrevDayNumber(today);
    var yesterday := PrevDay(today);
    if yesterday.None? {
      return None;
    }
    DayNumberNonNegative(yesterday.value);
    var day := yesterday.value;
    while Weekday(day) == 5 || Weekday(day) == 6
      invariant ValidDate(day) && 0 <= DayNumber(day) < DayNumber(today)
      invariant forall k :: DayNumber(day) < k < DayNumber(today) ==> WeekendNumber(k)
      decreases DayNumber(day)
    {
      StepBack(day, today);
      day := PrevDay(day).value;
    }
    assert LatestWorkdayBefore(day, today);
    r := Some(FormatDate(day));
  }

  /** A Saturday or Sunday is never 0001-01-01, a Monday, so the loop can
      always step back a day, and the day it leaves joins the weekend days
      before today. */
  lemma StepBack(day: Date, today: Date)
    requires ValidDate(day) && ValidDate(today) && DayNumber(day) < DayNumber(today)
    requires Weekday(day) == 5 || Weekday(day) == 6
    requires forall k :: DayNumber(day) < k < DayNumber(today) ==> WeekendNumber(k)
    ensures PrevDay(day).Some?
    ensures DayNumber(PrevDay(day).value) == DayNumber(day) - 1 >= 0
    ensures forall k :: DayNumber(PrevDay(day).value) < k < DayNumber(today) ==> WeekendNumber(k)
  {
    FirstDateNumber();
    PrevDayNumber(day);
    DayNumberNonNegative(PrevDay(day).value);
  }

  /** There is only one such date. */
  lemma LatestWorkdayUnique(d1: Date, d2: Date, today: Date)
    requires ValidDate(today) && LatestWorkdayBefore(d1, today) && LatestWorkdayBefore(d2, today)
    ensures d1 == d2
  {
    DayNumberOrder(d1, d2);
    assert DayNumber(d1) < DayNumber(d2) ==> WeekendNumber(DayNumber(d2));
    assert DayNumber(d2) < DayNumber(d1) ==> WeekendNumber(DayNumber(d1));
  }

  /** It is one to three days back: at most two weekend days follow each
      other. */
  lemma LatestWorkdayNear(d: Date, today: Date)
    requires ValidDate(today) && LatestWorkdayBefore(d, today)
    ensures 1 <= DayNumber(today) - DayNumber(d) <= 3
  {
    var a := DayNumber(d);
    NoThreeWeekendDays(a);
    assert DayNumber(today) - a > 3 ==> WeekendNumber(a + 1) && WeekendNumber(a + 3);
  }

  /** A workday is followed by a workday, or by a weekend and then a
      Monday. */
  lemma NoThreeWeekendDays(a: int)
    requires a % 7 < 5
    ensures !WeekendNumber(a + 1) || !WeekendNumber(a + 3)
  {
    ModSucc(a);
    ModSucc(a + 1);
    ModSucc(a + 2);
  }
}
