# Article change tracker: change detection

A model, in Dafny, of the change-detection logic of the article tracker
(`utils.py`): the post-processing that `get_changes` applies to the edit
script of the diff-match-patch library, and the polling loop
`start_tracking` that re-reads the page, compares it with the text captured
when tracking started, and either refreshes the page and polls again or
reports the changes and returns.

Files:

- `wrappers.dfy`: `Option`, standing for Python's `None` or a value.
- `diff_engine.dfy` (module `DiffEngine`, pure functions and lemmas): an edit
  script is a `seq<(int, string)>` with the library's codes `-1` (delete),
  `0` (equal) and `1` (insert). The library's `diff_main` plus
  `diff_cleanupSemantic` is an uninterpreted function `diff` (type
  `Differ`) passed in by the caller. `PairChanges` removes the `Equal`
  operations, takes the removals and the additions in script order, zips
  them positionally and returns `None` for an empty list. `GetChanges` is
  `PairChanges` applied to `diff(oldText, newText)`.
- `tracker.dfy` (module `Tracker`, imperative): `Driver` is the web driver.
  Its constant `browser` gives, for each number `n` of loads, the page a read
  yields (the markup and stripped body text, or the message of the exception
  the read raises) and whether the next `refresh()` raises, with which
  message. `Read` reads the current page and `Refresh` reloads it. `ReportLog` holds
  the reports written. `StartTracking` is the loop. The stop event is the
  sequence of values `is_set()` returns at successive loop-head tests.
  The method's contract ties its outcome, the driver's counters and the log
  to the predicate `Tracked`. `Run` is a cycle-by-cycle reference definition
  of the same run, and lemmas prove that the two agree.

Facts about the code that the model keeps:

- `None` comes back as soon as either the removals or the additions are
  empty, because `zip` with an empty list is empty. A delete-only or an
  insert-only script therefore gives `None` too (`DeletesOnlyGiveNone`), and
  surplus deletes or inserts are dropped (`SurplusDeleteDropped`).
- Nothing in the code checks that the fragments of a change pair are
  non-empty. They are non-empty when the library's fragments are
  (`PairFragmentsNonEmpty`).
- `start_tracking` catches no exception. An exception raised by a read
  leaves the function, recorded as the outcome `Raised`; one raised by
  `driver.refresh()` leaves it after that cycle's read and before the next
  stop-flag test, recorded as `RefreshRaised`.

## Model

| member | source | states |
|---|---|---|
| `DiffEngine.RemoveUnchanged` | utils.py:37-43 | no remaining operation has code 0; every one comes from the script; exactly the non-`Equal` operations are kept (length is the script's minus its `Equal` count) |
| `DiffEngine.OpsWithCode` | utils.py:45-47 | every element carries the requested code and comes from the script; there are as many as the script has operations with that code |
| `DiffEngine.Zip` | utils.py:49-50 | length is the minimum of the two lengths, and the k-th pair is the k-th element of each list |
| `DiffEngine.PairChanges` | utils.py:29-52 | `None` exactly when the script has no delete or no insert; otherwise min(#deletes, #inserts) pairs, each a delete then an insert, both from the script; pair k is (k-th delete, k-th insert) of the raw script |
| `DiffEngine.GetChanges` | utils.py:29-52 | the result is `None` or a non-empty list, never an empty list (`changes or None`) |
| `DiffEngine.CountAbsent` | utils.py:46-47 | a script with no operation of a code has a count of zero for it |
| `DiffEngine.SignalSurvivesCleanup` | utils.py:37-47 | dropping `Equal` operations leaves the removals, the additions and their counts unchanged |
| `DiffEngine.CleanupPartitions` | utils.py:38-47 | on a script with codes in {-1, 0, 1}, every cleaned operation has code -1 or 1, and the cleaned list is as long as #deletes + #inserts |
| `DiffEngine.OpsWithCodeAt` | utils.py:46-47 | an operation with the code at position i is element number (count of that code before i) of the filtered list |
| `DiffEngine.KthOpWithCode` | utils.py:46-47 | the k-th filtered element sits at a script position with exactly k operations of that code before it |
| `DiffEngine.PairIsKthDeleteAndInsert` | utils.py:46-50 | pair k is made of the delete and the insert of the script that each have exactly k of their kind before them |
| `DiffEngine.DeleteIsPaired` | utils.py:46-50 | a delete whose rank is below the number of inserts is the removal of the pair of that rank |
| `DiffEngine.InsertIsPaired` | utils.py:46-50 | an insert whose rank is below the number of deletes is the addition of the pair of that rank |
| `DiffEngine.OnlyEqualGivesNone` | utils.py:34-52 | a script of only `Equal` operations yields `None` |
| `DiffEngine.IdenticalTextsGiveNone` | utils.py:29-52 | for identical texts whose edit script is all `Equal`, `get_changes` returns `None` |
| `DiffEngine.PairFragmentsNonEmpty` | utils.py:46-50 | when the script's fragments are non-empty, so are both fragments of every pair |
| `DiffEngine.SurplusDeleteDropped` | utils.py:46-52 | two deletes and one insert give exactly one pair, (first delete, the insert) |
| `DiffEngine.DeletesOnlyGiveNone` | utils.py:46-52 | a script of only deletes yields `None` |
| `Tracker.Driver.Read` | utils.py:62-63 | returns the page after the current number of loads and counts one read |
| `Tracker.Driver.Refresh` | utils.py:100 | counts one more refresh call and returns the exception it raises at the current load count, if any |
| `Tracker.ReportLog.Write` | utils.py:84-95 | appends one report to those already written |
| `Tracker.StartTracking` | utils.py:55-101 | the outcome satisfies `Tracked`: each quiet cycle compares the fixed baseline with that cycle's page, and the run ends at the first set flag, raising read, raising refresh or detected change. Refresh calls grow by one per quiet cycle plus a raising one, never on the detecting cycle, reads by the cycles that read, and exactly one report is written on detection |
| `Tracker.Run` | utils.py:57-101 | the cycle-by-cycle run ends at a cycle no earlier than the one it starts from and within the stop-flag horizon, and is still tracking only when the horizon is reached |
| `Tracker.RunIsTracked` | utils.py:57-101 | the cycle-by-cycle run satisfies the declarative description |
| `Tracker.TrackedIsUnique` | utils.py:57-101 | at most one outcome satisfies the description for given inputs |
| `Tracker.TrackedIsRun` | utils.py:57-101 | every outcome satisfying the description is the cycle-by-cycle run |
| `Tracker.StopOnEntry` | utils.py:57 | a stop flag set at the first test gives `Stopped(0)` with no read, hence no refresh |
| `Tracker.ThreeQuietThenChange` | utils.py:57-101 | three unchanged pages and then a changed one give detection after three quiet cycles (three refreshes) and four reads |
| `Tracker.FaultInSecondCycle` | utils.py:62-63 | a read raising in the second cycle ends the run with that error after one quiet cycle, two reads and one refresh |
| `Tracker.RefreshFaultInFirstCycle` | utils.py:100 | a refresh raising after an unchanged first page ends the run with that error after one read and one refresh call |

## Left out

- `diff_main` and `diff_cleanupSemantic`: a foreign library whose algorithm is not part of this model; its output is the uninterpreted `diff` parameter. The model does not state its minimality or its semantic cleanup.
- `open_chrome_window` and the Selenium calls: the browser is the abstract `Driver`. Reading `page_source` and the stripped body text is one `Read` of one page value, and `quit` belongs to the caller.
- StartTracking: the Python loop polls with no bound. The model follows it for as many loop-head tests as the stop-flag sequence holds and returns `StillTracking` when they run out with the loop still running.
- Tracker.ReportLog.Write: the template lookup and the file writes are taken never to raise; an exception there, which in the source leaves `start_tracking` before its `return`, is not modelled.
- `sleep(5)`, the `datetime.now()` timestamp, creation of the `Changes` directory, Jinja2 rendering and the file writes: timing, clock and file I/O. The report keeps only its content: the change-set and the current markup for `new.html`.
- `print` calls: console output only.
- `app.py`: the Tkinter window, the thread and event that signal stopping, the handling of Selenium exceptions and the writing of `original.html` are not part of this model; the stop event enters only as the sequence of flag values.
