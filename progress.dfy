// Progress display of a sync run: the counters kept while the entries are
// processed, the end-of-run summary with its success-rate colour, and the
// choice of spinner for an API call.  Terminal output and ANSI colouring are
// not modelled; the methods return the text they would print, uncoloured.

module Progress {
  import opened Wrappers
  import opened Text
  import opened Decimal

  /** The logger colour a success rate is printed in. */
  datatype RateColour = SuccessColour | WarningColour | ErrorColour

  /** What the end-of-run summary shows. `failed` is present only when the
      "Failed" line is printed, `rate` only when a rate is printed. */
  datatype RunSummary = RunSummary(
    synced: nat,
    skipped: nat,
    failed: Option<nat>,
    totalProcessed: nat,
    totalEntries: int,
    rate: Option<(real, RateColour)>,
    allSucceeded: bool)

  /** Percentage of processed entries that were synced or skipped, computed
      exactly (the source computes it in floating point). */
  function SuccessRate(succeeded: nat, processed: nat): (r: real)
    requires 0 < processed
    ensures 0.0 <= r
    ensures succeeded <= processed ==> r <= 100.0
  {
    var q := succeeded as real / processed as real;
    assert q * processed as real == succeeded as real;
    q * 100.0
  }

  function ColourOf(rate: real): RateColour
  {
    if rate >= 90.0 then SuccessColour
    else if rate >= 70.0 then WarningColour
    else ErrorColour
  }

  /** The colour of a run depends only on integer comparisons: at least 90%
      of the processed entries succeeded, at least 70%, or fewer. */
  lemma ColourThresholds(succeeded: nat, processed: nat)
    requires 0 < processed
    ensures (ColourOf(SuccessRate(succeeded, processed)) == SuccessColour)
              <==> (100 * succeeded >= 90 * processed)
    ensures (ColourOf(SuccessRate(succeeded, processed)) == WarningColour)
              <==> (70 * processed <= 100 * succeeded < 90 * processed)
    ensures (ColourOf(SuccessRate(succeeded, processed)) == ErrorColour)
              <==> (100 * succeeded < 70 * processed)
  {
    var p := processed as real;
    var q := succeeded as real / p;
    assert q * p == succeeded as real;
    var r := SuccessRate(succeeded, processed);
    assert r * p == 100.0 * succeeded as real;
    RateAtLeast(r, p, 100.0 * succeeded as real, 90.0);
    RateAtLeast(r, p, 100.0 * succeeded as real, 70.0);
  }

  /** Comparing a quotient with a bound is comparing the dividend with the
      bound times the (positive) divisor. */
  lemma RateAtLeast(r: real, p: real, s: real, bound: real)
    requires 0.0 < p && r * p == s
    ensures r >= bound <==> s >= bound * p
  {
    if r >= bound {
      assert r * p >= bound * p;
    } else {
      assert r * p < bound * p;
    }
  }

  function ColourRank(c: RateColour): nat
  {
    match c
    case ErrorColour => 0
    case WarningColour => 1
    case SuccessColour => 2
  }

  /** Out of the same number of processed entries, more successes never give
      a worse colour. */
  lemma ColourMonotone(s1: nat, s2: nat, processed: nat)
    requires 0 < processed && s1 <= s2
    ensures ColourRank(ColourOf(SuccessRate(s1, processed)))
              <= ColourRank(ColourOf(SuccessRate(s2, processed)))
  {
    ColourThresholds(s1, processed);
    ColourThresholds(s2, processed);
  }

  /** The summary printed for the given counters. */
  function SummaryOf(synced: nat, skipped: nat, failed: nat, totalEntries: int): (s: RunSummary)
    ensures s.synced == synced && s.skipped == skipped && s.totalEntries == totalEntries
    ensures s.totalProcessed == synced + skipped + failed
    ensures s.failed.Some? <==> failed > 0
    ensures s.failed.Some? ==> s.failed.value == failed
    ensures s.rate.Some? <==> s.totalProcessed > 0
    ensures s.rate.Some? ==> 0.0 <= s.rate.value.0 <= 100.0
    ensures s.allSucceeded <==> failed == 0
  {
    var processed := synced + skipped + failed;
    RunSummary(
      synced, skipped,
      if failed > 0 then Some(failed) else None,
      processed, totalEntries,
      if processed > 0 then
        var rate := SuccessRate(synced + skipped, processed);
        Some((rate, ColourOf(rate)))
      else None,
      failed == 0)
  }

  /** A run without failures that processed anything is shown in the success
      colour at 100%; a run where nothing succeeded is shown in the error
      colour at 0%. */
  lemma SummaryExtremes(synced: nat, skipped: nat, failed: nat, totalEntries: int)
    ensures var s := SummaryOf(synced, skipped, failed, totalEntries);
            failed == 0 && synced + skipped > 0 ==>
              s.rate == Some((100.0, SuccessColour)) && s.allSucceeded
    ensures var s := SummaryOf(synced, skipped, failed, totalEntries);
            synced + skipped == 0 && failed > 0 ==>
              s.rate == Some((0.0, ErrorColour)) && !s.allSucceeded
  {
    var p := synced + skipped + failed;
    if failed == 0 && synced + skipped > 0 {
      assert p == synced + skipped;
      var x := p as real;
      assert x / x == 1.0;
    }
  }

  /** The summary's colour, stated on integers. */
  lemma SummaryColour(synced: nat, skipped: nat, failed: nat, totalEntries: int)
    requires synced + skipped + failed > 0
    ensures var s := SummaryOf(synced, skipped, failed, totalEntries);
            s.rate.Some? &&
            (s.rate.value.1 == SuccessColour <==> 10 * (synced + skipped) >= 9 * s.totalProcessed) &&
            (s.rate.value.1 == ErrorColour <==> 10 * (synced + skipped) < 7 * s.totalProcessed)
  {
    ColourThresholds(synced + skipped, synced + skipped + failed);
  }

  /** The text after the symbol on a skipped-entry line. */
  function SkipLine(reason: string): (line: string)
    ensures |line| > |reason|
    ensures line[|line| - |reason|..] == reason
  {
    "   ⏭️ SKIPPED: " + reason
  }

  /** Counters of a sync run, updated as each entry is handled. */
  class SyncProgressDisplay {
    const totalEntries: int
    var currentEntry: nat
    var syncedCount: nat
    var skippedCount: nat
    var failedCount: nat

    constructor(totalEntries: int)
      ensures this.totalEntries == totalEntries
      ensures currentEntry == 0 && syncedCount == 0 && skippedCount == 0 && failedCount == 0
    {
      this.totalEntries := totalEntries;
      currentEntry := 0;
      syncedCount := 0;
      skippedCount := 0;
      failedCount := 0;
    }

    function Processed(): nat
      reads this
    {
      syncedCount + skippedCount + failedCount
    }

    /** Moves on to the next entry and returns its "[n/total]" label. */
    method StartEntryProcessing(issueKey: string, durationStr: string, dateStr: string)
      returns (entryNum: string)
      modifies this
      ensures currentEntry == old(currentEntry) + 1
      ensures syncedCount == old(syncedCount) && skippedCount == old(skippedCount)
      ensures failedCount == old(failedCount)
      ensures entryNum == "[" + IntToString(currentEntry) + "/" + IntToString(totalEntries) + "]"
    {
      currentEntry := currentEntry + 1;
      entryNum := "[" + IntToString(currentEntry) + "/" + IntToString(totalEntries) + "]";
    }

    method ShowEntrySkipped(issueKey: string, reason: string) returns (line: string)
      modifies this
      ensures skippedCount == old(skippedCount) + 1
      ensures currentEntry == old(currentEntry) && syncedCount == old(syncedCount)
      ensures failedCount == old(failedCount)
      ensures line == SkipLine(reason)
    {
      skippedCount := skippedCount + 1;
      line := SkipLine(reason);
    }

    method ShowEntrySuccess(message: string) returns (line: string)
      modifies this
      ensures syncedCount == old(syncedCount) + 1
      ensures currentEntry == old(currentEntry) && skippedCount == old(skippedCount)
      ensures failedCount == old(failedCount)
      ensures line == "   ✅ " + message
    {
      syncedCount := syncedCount + 1;
      line := "   ✅ " + message;
    }

    method ShowEntryFailed(error: string) returns (line: string)
      modifies this
      ensures failedCount == old(failedCount) + 1
      ensures currentEntry == old(currentEntry) && syncedCount == old(syncedCount)
      ensures skippedCount == old(skippedCount)
      ensures line == "   ❌ FAILED: " + error
    {
      failedCount := failedCount + 1;
      line := "   ❌ FAILED: " + error;
    }

    /** An entry the user chose to skip prints the same line as an already
        synced one but is not counted: the method may change nothing. */
    method ShowEntryUserSkipped(reason: string) returns (line: string)
      ensures line == SkipLine(reason)
    {
      line := SkipLine(reason);
    }

    method PrintSummary() returns (s: RunSummary)
      ensures s == SummaryOf(syncedCount, skippedCount, failedCount, totalEntries)
      ensures s.totalProcessed == Processed()
    {
      s := SummaryOf(syncedCount, skippedCount, failedCount, totalEntries);
    }
  }

  /** One thing that can happen to an entry during a run. */
  datatype Event = Start | Skipped | Synced | Failed | UserSkipped

  function CountOf(events: seq<Event>, e: Event): (n: nat)
    ensures n <= |events|
  {
    if events == [] then 0
    else CountOf(events[..|events| - 1], e) + (if events[|events| - 1] == e then 1 else 0)
  }

  /** Every event is of exactly one kind. */
  lemma {:induction false} CountsTotal(events: seq<Event>)
    ensures CountOf(events, Start) + CountOf(events, Synced) + CountOf(events, Skipped)
            + CountOf(events, Failed) + CountOf(events, UserSkipped) == |events|
  {
    if events != [] {
      CountsTotal(events[..|events| - 1]);
    }
  }

  lemma CountStep(events: seq<Event>, i: nat)
    requires i < |events|
    ensures forall e :: CountOf(events[..i + 1], e)
                        == CountOf(events[..i], e) + (if events[i] == e then 1 else 0)
  {
    assert events[..i + 1][..i] == events[..i];
  }

  /** Replays a run's events on a fresh display: each counter ends up equal to
      the number of its own events, and user skips are counted nowhere. */
  method Replay(totalEntries: int, events: seq<Event>) returns (d: SyncProgressDisplay)
    ensures d.totalEntries == totalEntries
    ensures d.currentEntry == CountOf(events, Start)
    ensures d.syncedCount == CountOf(events, Synced)
    ensures d.skippedCount == CountOf(events, Skipped)
    ensures d.failedCount == CountOf(events, Failed)
    ensures d.currentEntry + d.Processed() + CountOf(events, UserSkipped) == |events|
  {
    d := new SyncProgressDisplay(totalEntries);
    var i := 0;
    while i < |events|
      invariant 0 <= i <= |events|
      invariant d.totalEntries == totalEntries
      invariant d.currentEntry == CountOf(events[..i], Start)
      invariant d.syncedCount == CountOf(events[..i], Synced)
      invariant d.skippedCount == CountOf(events[..i], Skipped)
      invariant d.failedCount == CountOf(events[..i], Failed)
    {
      CountStep(events, i);
      var line;
      match events[i] {
        case Start => line := d.StartEntryProcessing("", "", "");
        case Skipped => line := d.ShowEntrySkipped("", "already synced");
        case Synced => line := d.ShowEntrySuccess("Successfully synced");
        case Failed => line := d.ShowEntryFailed("");
        case UserSkipped => line := d.ShowEntryUserSkipped("user choice");
      }
      i := i + 1;
    }
    assert events[..i] == events;
    CountsTotal(events);
  }

  /** The spinners an API loader can use, by operation name. */
  const Spinners: map<string, string> := map[
    "fetching" := "⠋⠙⠹⠸⠼⠴⠦⠧⠇⠏",
    "syncing" := "\U{1F504}⚡\U{1F504}⚡",
    "validating" := "\U{1F50D}\U{1F50E}\U{1F50D}\U{1F50E}",
    "default" := "⠋⠙⠹⠸⠼⠴⠦⠧⠇⠏"
  ]

  datatype Loader = Loader(message: string, spinnerChars: string)

  /** A loader showing the operation as its message, with the spinner named
      by the lower-cased operation, or the default spinner. */
  function CreateApiLoader(operation: string): (r: Loader)
    ensures r.message == operation
    ensures r.spinnerChars in Spinners.Values
  {
    var key := Lower(operation);
    Loader(operation, if key in Spinners then Spinners[key] else Spinners["default"])
  }

  /** Which spinner an operation gets: the syncing and validating spinners
      exactly for those names in any letter case, and the shared
      fetching/default spinner for every other operation. */
  lemma LoaderSpinner(operation: string)
    ensures (CreateApiLoader(operation).spinnerChars == Spinners["syncing"])
              <==> (Lower(operation) == "syncing")
    ensures (CreateApiLoader(operation).spinnerChars == Spinners["validating"])
              <==> (Lower(operation) == "validating")
    ensures (CreateApiLoader(operation).spinnerChars == Spinners["default"])
              <==> (Lower(operation) != "syncing" && Lower(operation) != "validating")
  {
    assert Spinners["syncing"][0] != Spinners["default"][0];
    assert Spinners["validating"][0] != Spinners["default"][0];
    assert Spinners["syncing"][1] != Spinners["validating"][1];
  }

  /** Lower-casing is idempotent, so an operation and its lower-cased form get
      the same spinner. */
  lemma LoaderIgnoresCase(operation: string)
    ensures CreateApiLoader(Lower(operation)).spinnerChars
              == CreateApiLoader(operation).spinnerChars
  {
    var l := Lower(operation);
    assert Lower(l) == l by {
      forall i | 0 <= i < |l|
        ensures Lower(l)[i] == l[i]
      {
        assert l[i] == LowerChar(operation[i]);
      }
    }
  }
}
