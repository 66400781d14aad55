/**
 The polling loop `start_tracking` (utils.py).

 The web driver is a `Driver` object over a fixed `Browser`: what it
 shows after `n` page loads, and whether the reload that follows raises.
 A read returns the current page (or the exception the read raises), and
 `Refresh` loads the page once more (or raises). The
 stop event is observed as the sequence of values `is_set()` returns at
 the loop head, one per cycle; the model follows the loop for as many
 cycles as that sequence has entries. Detected changes are recorded in a
 `ReportLog`, one report per detection.
 */
module Tracker {
  import opened Wrappers
  import opened DiffEngine

  /** What one read of the driver yields: the page markup and the stripped
      body text, or the message of the exception the read raised. */
  datatype Page = Loaded(html: string, text: string) | Failed(error: string)

  /** The behaviour of the browser session: `page(n)` is what a read yields
      after `n` loads, and `reloadFault(n)` is the message of the exception
      the next `refresh()` raises at that point, if it raises. */
  datatype Browser = Browser(page: nat -> Page, reloadFault: nat -> Option<string>)

  /** How a run of the loop ends, with the number of cycles that found no
      change before it. */
  datatype Outcome =
    | ChangesDetected(quietCycles: nat, changes: seq<ChangePair>, currentHtml: string)
    | Stopped(quietCycles: nat)
    | Raised(quietCycles: nat, error: string)
    | RefreshRaised(quietCycles: nat, error: string)
    | StillTracking(quietCycles: nat)
  {
    /** Reads of the driver a run with this outcome performs: one per quiet
        cycle, plus the read of the final cycle when it got that far. */
    function Fetches(): nat
    {
      if Stopped? || StillTracking? then quietCycles else quietCycles + 1
    }

    /** Calls of `refresh()` a run with this outcome performs: one per quiet
        cycle, plus the call that raised. */
    function Refreshes(): nat
    {
      if RefreshRaised? then quietCycles + 1 else quietCycles
    }
  }

  /** What is written when changes are detected: the change-set for the
      report template and the current markup for `new.html`. */
  datatype Report = Report(changes: seq<ChangePair>, currentHtml: string)

  /** The browser session, with counters of the `refresh()` calls and the
      reads performed so far. */
  class Driver {
    const browser: Browser
    var reloads: nat
    var fetches: nat

    constructor (browser: Browser)
      ensures this.browser == browser && reloads == 0 && fetches == 0
    {
      this.browser := browser;
      reloads := 0;
      fetches := 0;
    }

    /** `page_source` and `find_element(By.TAG_NAME, "body").text.strip()`
        on the currently loaded page. */
    method Read() returns (page: Page)
      modifies this`fetches
      ensures page == browser.page(reloads)
      ensures fetches == old(fetches) + 1
    {
      page := browser.page(reloads);
      fetches := fetches + 1;
    }

    /** `driver.refresh()`: load the page again, or raise. */
    method Refresh() returns (fault: Option<string>)
      modifies this`reloads
      ensures fault == browser.reloadFault(old(reloads))
      ensures reloads == old(reloads) + 1
    {
      fault := browser.reloadFault(reloads);
      reloads := reloads + 1;
    }
  }

  /** The reports written so far, oldest first. */
  class ReportLog {
    var reports: seq<Report>

    constructor ()
      ensures reports == []
    {
      reports := [];
    }

    method Write(report: Report)
      modifies this
      ensures reports == old(reports) + [report]
    {
      reports := reports + [report];
    }
  }

  /** Cycle `j` of a run that started after `start` loads reads a page and
      finds no change against the baseline. */
  predicate QuietCycle(browser: Browser, start: nat, baseline: string, diff: Differ, j: nat)
  {
    browser.page(start + j).Loaded? && GetChanges(diff, baseline, browser.page(start + j).text).None?
  }

  /** Cycle `j` is quiet and its `refresh()` does not raise, so the loop
      goes on to the next stop-flag test. */
  predicate CompletedCycle(browser: Browser, start: nat, baseline: string, diff: Differ, j: nat)
  {
    QuietCycle(browser, start, baseline, diff, j) && browser.reloadFault(start + j).None?
  }

  /** The declarative description of a run: every cycle before the last
      one saw the stop flag clear and no change and refreshed the page
      without error, and the last one ends the
      loop for the reason the outcome names. Each comparison is between the
      fixed baseline and the page read in that cycle. */
  predicate Tracked(browser: Browser, start: nat, baseline: string, stopFlags: seq<bool>,
                    diff: Differ, outcome: Outcome)
  {
    var k := outcome.quietCycles;
    && k <= |stopFlags|
    && (forall j :: 0 <= j < k ==> !stopFlags[j] && CompletedCycle(browser, start, baseline, diff, j))
    && match outcome
       case Stopped(_) => k < |stopFlags| && stopFlags[k]
       case Raised(_, error) => k < |stopFlags| && !stopFlags[k] && browser.page(start + k) == Failed(error)
       case ChangesDetected(_, changes, html) =>
         && k < |stopFlags| && !stopFlags[k]
         && browser.page(start + k).Loaded? && browser.page(start + k).html == html
         && GetChanges(diff, baseline, browser.page(start + k).text) == Some(changes)
       case RefreshRaised(_, error) =>
         && k < |stopFlags| && !stopFlags[k]
         && QuietCycle(browser, start, baseline, diff, k)
         && browser.reloadFault(start + k) == Some(error)
       case StillTracking(_) => k == |stopFlags|
  }

  /** `start_tracking(driver, original_text, stop_event)`. */
  method StartTracking(driver: Driver, log: ReportLog, originalText: string,
                       stopFlags: seq<bool>, diff: Differ) returns (outcome: Outcome)
    modifies driver, log
    ensures Tracked(driver.browser, old(driver.reloads), originalText, stopFlags, diff, outcome)
    ensures driver.reloads == old(driver.reloads) + outcome.Refreshes()
    ensures driver.fetches == old(driver.fetches) + outcome.Fetches()
    ensures log.reports == old(log.reports) +
      if outcome.ChangesDetected? then [Report(outcome.changes, outcome.currentHtml)] else []
  {
    var cycle := 0;
    while cycle < |stopFlags| && !stopFlags[cycle]
      invariant cycle <= |stopFlags|
      invariant driver.reloads == old(driver.reloads) + cycle
      invariant driver.fetches == old(driver.fetches) + cycle
      invariant log.reports == old(log.reports)
      invariant forall j :: 0 <= j < cycle ==>
        !stopFlags[j] && CompletedCycle(driver.browser, old(driver.reloads), originalText, diff, j)
      decreases |stopFlags| - cycle
    {
      // the five-second sleep is not modelled
      var page := driver.Read();
      if page.Failed? {
        return Raised(cycle, page.error);
      }
      var changes := GetChanges(diff, originalText, page.text);
      if changes.Some? {
        log.Write(Report(changes.value, page.html));
        return ChangesDetected(cycle, changes.value, page.html);
      }
      var fault := driver.Refresh();
      if fault.Some? {
        return RefreshRaised(cycle, fault.value);
      }
      cycle := cycle + 1;
    }
    if cycle < |stopFlags| {
      outcome := Stopped(cycle);
    } else {
      outcome := StillTracking(cycle);
    }
  }

  // ---------------------------------------------------------------------
  // A reference definition of the run, cycle by cycle

  /** The run from cycle `cycle` on, one cycle per recursive step. */
  function Run(browser: Browser, start: nat, baseline: string, stopFlags: seq<bool>,
               diff: Differ, cycle: nat): (r: Outcome)
    ensures cycle <= r.quietCycles
    ensures cycle <= |stopFlags| ==> r.quietCycles <= |stopFlags|
    ensures r.StillTracking? ==> cycle >= |stopFlags| || r.quietCycles == |stopFlags|
    decreases |stopFlags| - cycle
  {
    if cycle >= |stopFlags| then StillTracking(cycle)
    else if stopFlags[cycle] then Stopped(cycle)
    else match browser.page(start + cycle)
      case Failed(error) => Raised(cycle, error)
      case Loaded(html, text) =>
        match GetChanges(diff, baseline, text)
        case Some(changes) => ChangesDetected(cycle, changes, html)
        case None =>
          match browser.reloadFault(start + cycle)
          case Some(error) => RefreshRaised(cycle, error)
          case None => Run(browser, start, baseline, stopFlags, diff, cycle + 1)
  }

  /** The cycle-by-cycle run satisfies the declarative description, given
      that the cycles before `cycle` were quiet. */
  lemma {:induction false} RunIsTracked(browser: Browser, start: nat, baseline: string,
                                        stopFlags: seq<bool>, diff: Differ, cycle: nat)
    requires cycle <= |stopFlags|
    requires forall j :: 0 <= j < cycle ==> !stopFlags[j] && CompletedCycle(browser, start, baseline, diff, j)
    ensures Tracked(browser, start, baseline, stopFlags, diff, Run(browser, start, baseline, stopFlags, diff, cycle))
    decreases |stopFlags| - cycle
  {
    if cycle < |stopFlags| && !stopFlags[cycle] && CompletedCycle(browser, start, baseline, diff, cycle) {
      RunIsTracked(browser, start, baseline, stopFlags, diff, cycle + 1);
    }
  }

  /** The description determines the outcome: two outcomes that both fit
      it are the same. */
  lemma TrackedIsUnique(browser: Browser, start: nat, baseline: string, stopFlags: seq<bool>,
                        diff: Differ, o1: Outcome, o2: Outcome)
    requires Tracked(browser, start, baseline, stopFlags, diff, o1)
    requires Tracked(browser, start, baseline, stopFlags, diff, o2)
    ensures o1 == o2
  {
  }

  /** Hence every run the loop performs is the cycle-by-cycle run. */
  lemma TrackedIsRun(browser: Browser, start: nat, baseline: string, stopFlags: seq<bool>,
                     diff: Differ, outcome: Outcome)
    requires Tracked(browser, start, baseline, stopFlags, diff, outcome)
    ensures outcome == Run(browser, start, baseline, stopFlags, diff, 0)
  {
    RunIsTracked(browser, start, baseline, stopFlags, diff, 0);
    TrackedIsUnique(browser, start, baseline, stopFlags, diff, outcome,
                    Run(browser, start, baseline, stopFlags, diff, 0));
  }

  // ---------------------------------------------------------------------
  // Scenarios

  /** A stop flag already set at the first loop-head test ends the run
      before any read or refresh. */
  lemma StopOnEntry(browser: Browser, start: nat, baseline: string, stopFlags: seq<bool>,
                    diff: Differ, outcome: Outcome)
    requires |stopFlags| > 0 && stopFlags[0]
    requires Tracked(browser, start, baseline, stopFlags, diff, outcome)
    ensures outcome == Stopped(0)
    ensures outcome.Fetches() == 0
  {
  }

  /** Three unchanged pages, then a changed one: three quiet cycles (so
      three refreshes), detection in the fourth cycle, after four reads. */
  lemma ThreeQuietThenChange(browser: Browser, start: nat, baseline: string, stopFlags: seq<bool>,
                             diff: Differ, outcome: Outcome)
    requires |stopFlags| >= 4 && !stopFlags[0] && !stopFlags[1] && !stopFlags[2] && !stopFlags[3]
    requires CompletedCycle(browser, start, baseline, diff, 0)
    requires CompletedCycle(browser, start, baseline, diff, 1)
    requires CompletedCycle(browser, start, baseline, diff, 2)
    requires browser.page(start + 3).Loaded? && GetChanges(diff, baseline, browser.page(start + 3).text).Some?
    requires Tracked(browser, start, baseline, stopFlags, diff, outcome)
    ensures outcome.ChangesDetected? && outcome.quietCycles == 3
    ensures outcome.Fetches() == 4 && outcome.Refreshes() == 3
  {
    assert !CompletedCycle(browser, start, baseline, diff, 3);
  }

  /** A read that raises in the second cycle ends the run with that error
      after one quiet cycle (one refresh) and two reads. */
  lemma FaultInSecondCycle(browser: Browser, start: nat, baseline: string, stopFlags: seq<bool>,
                           diff: Differ, outcome: Outcome)
    requires |stopFlags| >= 2 && !stopFlags[0] && !stopFlags[1]
    requires CompletedCycle(browser, start, baseline, diff, 0)
    requires browser.page(start + 1).Failed?
    requires Tracked(browser, start, baseline, stopFlags, diff, outcome)
    ensures outcome == Raised(1, browser.page(start + 1).error)
    ensures outcome.Fetches() == 2 && outcome.Refreshes() == 1
  {
    assert !CompletedCycle(browser, start, baseline, diff, 1);
  }

  /** A `refresh()` that raises after an unchanged first page ends the run
      with that error after one read and one refresh call, before the stop
      flag is tested again. */
  lemma RefreshFaultInFirstCycle(browser: Browser, start: nat, baseline: string, stopFlags: seq<bool>,
                                 diff: Differ, outcome: Outcome)
    requires |stopFlags| >= 1 && !stopFlags[0]
    requires QuietCycle(browser, start, baseline, diff, 0)
    requires browser.reloadFault(start).Some?
    requires Tracked(browser, start, baseline, stopFlags, diff, outcome)
    ensures outcome == RefreshRaised(0, browser.reloadFault(start).value)
    ensures outcome.Fetches() == 1 && outcome.Refreshes() == 1
  {
    assert !CompletedCycle(browser, start, baseline, diff, 0);
  }
}
