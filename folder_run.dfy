/** The run over all input folders (process_paper.py, `process_folder_structure`):
    folders in priority order, already-parsed PDFs filtered out, one `parse_doc`
    call per folder with work left, run-wide counters, and a pause between folders. */
module FolderRun {
  import opened PyOps
  import opened FolderOrder
  import opened Resume

  /** `time.sleep(3)` between folders. */
  const FolderPauseSeconds: nat := 3

  /** The four run-wide counters. */
  datatype Stats = Stats(totalPdfs: nat, totalSkipped: nat, totalProcessed: nat, skippedFolders: nat)

  /** What the run observes of the outside world: the PDFs `glob('*.pdf')` lists in
      each input folder, the output folder of each input folder (by name) before the
      run, and whether the statement calling `parse_doc` for a folder raised. */
  datatype Env = Env(
    pdfsIn: Path -> seq<Path>,
    outputOf: string -> OutputTree,
    parseDocRaises: Path -> bool)

  /** A call of `parse_doc` for the folder at `position` of the sorted order with
      the PDFs still to convert, or a pause. */
  datatype RunEvent = ParseDocCalled(position: nat, folder: Path, files: seq<Path>) | Paused(seconds: nat)

  /** The two early returns, or a completed pass with its final counters. */
  datatype RunOutcome =
    | InputMissing
    | NoSubfolders
    | Finished(order: seq<Path>, stats: Stats, events: seq<RunEvent>)

  function FolderPending(env: Env, f: Path): seq<Path>
  {
    Pending(env.outputOf(f.name), env.pdfsIn(f))
  }

  /** How one folder changes the counters. */
  function FolderDelta(env: Env, f: Path): Stats
  {
    var pdfs := env.pdfsIn(f);
    var pending := FolderPending(env, f);
    if pdfs == [] then Stats(0, 0, 0, 0)
    else Stats(|pdfs|, ParsedCount(env.outputOf(f.name), pdfs),
               if pending != [] && !env.parseDocRaises(f) then |pending| else 0,
               if pending == [] then 1 else 0)
  }

  function Add(a: Stats, b: Stats): Stats
  {
    Stats(a.totalPdfs + b.totalPdfs, a.totalSkipped + b.totalSkipped,
          a.totalProcessed + b.totalProcessed, a.skippedFolders + b.skippedFolders)
  }

  /** The counters after visiting the folders `fs` in order. */
  function Tally(env: Env, fs: seq<Path>): Stats
  {
    if fs == [] then Stats(0, 0, 0, 0)
    else Add(Tally(env, fs[..|fs| - 1]), FolderDelta(env, fs[|fs| - 1]))
  }

  /** PDFs that were discovered, not skipped and never counted as processed because
      the `parse_doc` call of their folder raised. */
  function LostPdfs(env: Env, fs: seq<Path>): nat
  {
    if fs == [] then 0
    else
      var f := fs[|fs| - 1];
      LostPdfs(env, fs[..|fs| - 1]) + (if env.parseDocRaises(f) then |FolderPending(env, f)| else 0)
  }

  /** What decides a folder's events: the folder, its unparsed PDFs and whether
      its `parse_doc` call raised. */
  datatype FolderPlan = FolderPlan(folder: Path, pending: seq<Path>, raises: bool)

  function Plan(env: Env, order: seq<Path>): (plan: seq<FolderPlan>)
    ensures |plan| == |order|
  {
    seq(|order|, i requires 0 <= i < |order| =>
      FolderPlan(order[i], FolderPending(env, order[i]), env.parseDocRaises(order[i])))
  }

  /** The events of the folder at position `i`. */
  function FolderEvents(plan: seq<FolderPlan>, i: nat): seq<RunEvent>
    requires i < |plan|
  {
    var p := plan[i];
    if p.pending == [] then []
    else [ParseDocCalled(i, p.folder, p.pending)]
         + (if !p.raises && i < |plan| - 1 then [Paused(FolderPauseSeconds)] else [])
  }

  /** The events of the first `k` folders. */
  function RunEvents(plan: seq<FolderPlan>, k: nat): seq<RunEvent>
    requires k <= |plan|
  {
    if k == 0 then [] else RunEvents(plan, k - 1) + FolderEvents(plan, k - 1)
  }

  /** Counter effects by kind of folder: a folder without PDFs changes nothing; a
      folder whose PDFs are all parsed counts them as skipped, counts itself as a
      skipped folder and adds nothing processed; otherwise the unparsed PDFs are
      counted as processed exactly when the `parse_doc` call returned. */
  lemma FolderDeltaCases(env: Env, f: Path)
    ensures env.pdfsIn(f) == [] ==> FolderDelta(env, f) == Stats(0, 0, 0, 0)
    ensures env.pdfsIn(f) != [] && FolderPending(env, f) == []
        ==> FolderDelta(env, f) == Stats(|env.pdfsIn(f)|, |env.pdfsIn(f)|, 0, 1)
    ensures FolderPending(env, f) != [] ==>
              (&& FolderDelta(env, f).skippedFolders == 0
               && FolderDelta(env, f).totalSkipped == |env.pdfsIn(f)| - |FolderPending(env, f)|
               && FolderDelta(env, f).totalProcessed
                  == (if env.parseDocRaises(f) then 0 else |FolderPending(env, f)|))
  {
    PendingCount(env.outputOf(f.name), env.pdfsIn(f));
  }

  /** At the end of a run every discovered PDF is skipped, processed, or lost with
      a folder whose `parse_doc` call raised. */
  lemma {:induction false} Conservation(env: Env, fs: seq<Path>)
    ensures Tally(env, fs).totalPdfs
         == Tally(env, fs).totalSkipped + Tally(env, fs).totalProcessed + LostPdfs(env, fs)
  {
    if fs != [] {
      var f := fs[|fs| - 1];
      Conservation(env, fs[..|fs| - 1]);
      PendingCount(env.outputOf(f.name), env.pdfsIn(f));
    }
  }

  /** Each call names the folder at its position and that folder's unparsed PDFs. */
  ghost predicate CallsMatchFolders(plan: seq<FolderPlan>, events: seq<RunEvent>)
  {
    forall j :: 0 <= j < |events| && events[j].ParseDocCalled? ==>
      && events[j].position < |plan|
      && events[j].folder == plan[events[j].position].folder
      && events[j].files == plan[events[j].position].pending
      && events[j].files != []
  }

  /** Calls appear in increasing folder position, so each folder at most once. */
  ghost predicate CallsInOrder(events: seq<RunEvent>)
  {
    forall j, j' :: 0 <= j < j' < |events| && events[j].ParseDocCalled? && events[j'].ParseDocCalled?
      ==> events[j].position < events[j'].position
  }

  /** A pause only comes right after a call that returned for a folder that is not
      the last one. */
  ghost predicate PausesAfterReturnedCalls(plan: seq<FolderPlan>, events: seq<RunEvent>)
  {
    forall j :: 0 <= j < |events| && events[j].Paused? ==>
      && 0 < j && events[j - 1].ParseDocCalled?
      && events[j - 1].position < |plan| - 1
      && !plan[events[j - 1].position].raises
      && events[j] == Paused(FolderPauseSeconds)
  }

  /** Every call that returned for a folder other than the last is followed by a pause. */
  ghost predicate ReturnedCallsPaused(plan: seq<FolderPlan>, events: seq<RunEvent>)
  {
    forall j :: 0 <= j < |events| && events[j].ParseDocCalled?
      && events[j].position < |plan| - 1 && !plan[events[j].position].raises
      ==> j + 1 < |events| && events[j + 1] == Paused(FolderPauseSeconds)
  }

  /** Every folder among the first `k` with unparsed PDFs gets its call, whatever
      the calls for the folders before it did. */
  ghost predicate PendingFoldersCalled(plan: seq<FolderPlan>, events: seq<RunEvent>, k: nat)
  {
    forall i :: 0 <= i < k && i < |plan| && plan[i].pending != [] ==>
      ParseDocCalled(i, plan[i].folder, plan[i].pending) in events
  }

  ghost predicate WellPaced(plan: seq<FolderPlan>, events: seq<RunEvent>)
  {
    CallsMatchFolders(plan, events) && PendingFoldersCalled(plan, events, |plan|) && CallsInOrder(events)
    && PausesAfterReturnedCalls(plan, events) && ReturnedCallsPaused(plan, events)
  }

  /** Every call is for a folder before position `m`. */
  ghost predicate CallsBelow(events: seq<RunEvent>, m: nat)
  {
    forall j :: 0 <= j < |events| && events[j].ParseDocCalled? ==> events[j].position < m
  }

  /** The calls among the events of the first `k` folders are for those folders. */
  lemma {:induction false} RunEventsPositions(plan: seq<FolderPlan>, k: nat)
    requires k <= |plan|
    ensures CallsBelow(RunEvents(plan, k), k)
  {
    var j := 0;
    while j < k
      invariant j <= k
      invariant CallsBelow(RunEvents(plan, j), j)
    {
      RunEventsPositionsStep(plan, j);
      j := j + 1;
    }
  }

  lemma {:induction false} RunEventsPositionsStep(plan: seq<FolderPlan>, j: nat)
    requires j < |plan| && CallsBelow(RunEvents(plan, j), j)
    ensures CallsBelow(RunEvents(plan, j + 1), j + 1)
  {
    var prev, added := RunEvents(plan, j), FolderEvents(plan, j);
    FolderEventsCases(plan, j);
    var all := prev + added;
    forall i | 0 <= i < |all| && all[i].ParseDocCalled? ensures all[i].position < j + 1 {
      if i < |prev| {
        assert all[i] == prev[i];
      } else {
        assert all[i] == added[i - |prev|];
      }
    }
  }

  /** Calls that match their folders in each list still do in the concatenation. */
  lemma CallsMatchAppend(plan: seq<FolderPlan>, a: seq<RunEvent>, b: seq<RunEvent>)
    requires CallsMatchFolders(plan, a) && CallsMatchFolders(plan, b)
    ensures CallsMatchFolders(plan, a + b)
  {
    var all := a + b;
    forall j | 0 <= j < |all| && all[j].ParseDocCalled?
      ensures all[j].position < |plan| && all[j].folder == plan[all[j].position].folder
           && all[j].files == plan[all[j].position].pending && all[j].files != []
    {
      if j < |a| {
        assert all[j] == a[j];
      } else {
        assert all[j] == b[j - |a|];
      }
    }
  }

  lemma {:induction false} RunEventsMatchFolders(plan: seq<FolderPlan>, k: nat)
    requires k <= |plan|
    ensures CallsMatchFolders(plan, RunEvents(plan, k))
  {
    assert RunEvents(plan, 0) == [];
    var j := 0;
    while j < k
      invariant j <= k
      invariant CallsMatchFolders(plan, RunEvents(plan, j))
    {
      assert CallsMatchFolders(plan, RunEvents(plan, j + 1)) by {
        assert RunEvents(plan, j + 1) == RunEvents(plan, j) + FolderEvents(plan, j);
        FolderEventsCases(plan, j);
        CallsMatchAppend(plan, RunEvents(plan, j), FolderEvents(plan, j));
      }
      j := j + 1;
    }
  }

  lemma {:induction false} RunEventsCallsEveryPendingFolder(plan: seq<FolderPlan>, k: nat)
    requires k <= |plan|
    ensures PendingFoldersCalled(plan, RunEvents(plan, k), k)
  {
    assert RunEvents(plan, 0) == [];
    var j := 0;
    while j < k
      invariant j <= k
      invariant PendingFoldersCalled(plan, RunEvents(plan, j), j)
    {
      PendingFoldersCalledStep(plan, j);
      j := j + 1;
    }
  }

  lemma PendingFoldersCalledStep(plan: seq<FolderPlan>, j: nat)
    requires j < |plan| && PendingFoldersCalled(plan, RunEvents(plan, j), j)
    ensures PendingFoldersCalled(plan, RunEvents(plan, j + 1), j + 1)
  {
    var prev, added := RunEvents(plan, j), FolderEvents(plan, j);
    assert RunEvents(plan, j + 1) == prev + added;
    if plan[j].pending != [] {
      assert added[0] == ParseDocCalled(j, plan[j].folder, plan[j].pending);
    }
  }

  /** Events whose calls are in order stay so when the calls appended after
      them are for a later position than all of theirs, and are at most one. */
  lemma InOrderAppend(prev: seq<RunEvent>, added: seq<RunEvent>, m: nat)
    requires CallsInOrder(prev) && CallsBelow(prev, m)
    requires forall j :: 0 <= j < |added| && added[j].ParseDocCalled? ==> j == 0 && added[j].position == m
    ensures CallsInOrder(prev + added)
  {
    var all := prev + added;
    forall j | |prev| <= j < |all| && all[j].ParseDocCalled?
      ensures j == |prev| && all[j].position == m
    {
      assert all[j] == added[j - |prev|];
    }
    assert forall j :: 0 <= j < |prev| ==> all[j] == prev[j];
  }

  lemma {:induction false} RunEventsInOrder(plan: seq<FolderPlan>, k: nat)
    requires k <= |plan|
    ensures CallsInOrder(RunEvents(plan, k))
  {
    var j := 0;
    while j < k
      invariant j <= k
      invariant CallsInOrder(RunEvents(plan, j))
    {
      assert CallsInOrder(RunEvents(plan, j + 1)) by {
        RunEventsPositions(plan, j);
        InOrderAppend(RunEvents(plan, j), FolderEvents(plan, j), j);
      }
      j := j + 1;
    }
  }

  /** The events one folder adds, by case. */
  lemma FolderEventsCases(plan: seq<FolderPlan>, i: nat)
    requires i < |plan|
    ensures plan[i].pending == [] ==> FolderEvents(plan, i) == []
    ensures plan[i].pending != [] && !plan[i].raises && i < |plan| - 1
        ==> FolderEvents(plan, i)
            == [ParseDocCalled(i, plan[i].folder, plan[i].pending), Paused(FolderPauseSeconds)]
    ensures plan[i].pending != [] && !(!plan[i].raises && i < |plan| - 1)
        ==> FolderEvents(plan, i) == [ParseDocCalled(i, plan[i].folder, plan[i].pending)]
  {
  }

  /** A folder's own events are paced: its pause follows its call, and its call
      is followed by the pause unless it raised or the folder is the last. */
  lemma FolderEventsPaced(plan: seq<FolderPlan>, i: nat)
    requires i < |plan|
    ensures PausesAfterReturnedCalls(plan, FolderEvents(plan, i))
    ensures ReturnedCallsPaused(plan, FolderEvents(plan, i))
  {
    var e := FolderEvents(plan, i);
    FolderEventsCases(plan, i);
    if plan[i].pending != [] {
      assert e[0].ParseDocCalled? && !e[0].Paused?;
      if |e| == 2 {
        assert e[1] == Paused(FolderPauseSeconds) && e[0].position == i;
      }
    }
  }

  /** Pauses that each follow a call of their own list still do so in the
      concatenation. */
  lemma PausesAfterCallsAppend(plan: seq<FolderPlan>, a: seq<RunEvent>, b: seq<RunEvent>)
    requires PausesAfterReturnedCalls(plan, a) && PausesAfterReturnedCalls(plan, b)
    ensures PausesAfterReturnedCalls(plan, a + b)
  {
    var all := a + b;
    forall j | 0 <= j < |all| && all[j].Paused?
      ensures 0 < j && all[j - 1].ParseDocCalled?
           && all[j - 1].position < |plan| - 1
           && !plan[all[j - 1].position].raises
           && all[j] == Paused(FolderPauseSeconds)
    {
      if j < |a| {
        assert all[j] == a[j] && all[j - 1] == a[j - 1];
      } else {
        assert all[j] == b[j - |a|] && all[j - 1] == b[j - 1 - |a|];
      }
    }
  }

  /** Calls that are each followed by a pause in their own list still are in the
      concatenation. */
  lemma ReturnedCallsPausedAppend(plan: seq<FolderPlan>, a: seq<RunEvent>, b: seq<RunEvent>)
    requires ReturnedCallsPaused(plan, a) && ReturnedCallsPaused(plan, b)
    ensures ReturnedCallsPaused(plan, a + b)
  {
    var all := a + b;
    forall j | 0 <= j < |all| && all[j].ParseDocCalled?
        && all[j].position < |plan| - 1 && !plan[all[j].position].raises
      ensures j + 1 < |all| && all[j + 1] == Paused(FolderPauseSeconds)
    {
      if j < |a| {
        assert all[j] == a[j] && all[j + 1] == a[j + 1];
      } else {
        assert all[j] == b[j - |a|] && all[j + 1] == b[j + 1 - |a|];
      }
    }
  }

  lemma {:induction false} RunEventsPausesFollowCalls(plan: seq<FolderPlan>, k: nat)
    requires k <= |plan|
    ensures PausesAfterReturnedCalls(plan, RunEvents(plan, k))
  {
    var j := 0;
    while j < k
      invariant j <= k
      invariant PausesAfterReturnedCalls(plan, RunEvents(plan, j))
    {
      assert PausesAfterReturnedCalls(plan, RunEvents(plan, j + 1)) by {
        FolderEventsPaced(plan, j);
        PausesAfterCallsAppend(plan, RunEvents(plan, j), FolderEvents(plan, j));
      }
      j := j + 1;
    }
  }

  lemma {:induction false} RunEventsCallsPaused(plan: seq<FolderPlan>, k: nat)
    requires k <= |plan|
    ensures ReturnedCallsPaused(plan, RunEvents(plan, k))
  {
    var j := 0;
    while j < k
      invariant j <= k
      invariant ReturnedCallsPaused(plan, RunEvents(plan, j))
    {
      assert ReturnedCallsPaused(plan, RunEvents(plan, j + 1)) by {
        FolderEventsPaced(plan, j);
        ReturnedCallsPausedAppend(plan, RunEvents(plan, j), FolderEvents(plan, j));
      }
      j := j + 1;
    }
  }

  /** The event list of a whole run is well paced. */
  lemma RunEventsWellPaced(plan: seq<FolderPlan>)
    ensures WellPaced(plan, RunEvents(plan, |plan|))
  {
    RunEventsMatchFolders(plan, |plan|);
    RunEventsCallsEveryPendingFolder(plan, |plan|);
    RunEventsInOrder(plan, |plan|);
    RunEventsPausesFollowCalls(plan, |plan|);
    RunEventsCallsPaused(plan, |plan|);
  }

  /** Visiting folder `i` of `order` adds its delta to the counters and its events
      to the event list. */
  lemma VisitStep(env: Env, order: seq<Path>, i: nat)
    requires i < |order|
    ensures Tally(env, order[..i + 1]) == Add(Tally(env, order[..i]), FolderDelta(env, order[i]))
    ensures RunEvents(Plan(env, order), i + 1)
         == RunEvents(Plan(env, order), i) + FolderEvents(Plan(env, order), i)
  {
    TallyStep(env, order, i);
    EventsStep(Plan(env, order), i);
  }

  lemma TallyStep(env: Env, order: seq<Path>, i: nat)
    requires i < |order|
    ensures Tally(env, order[..i + 1]) == Add(Tally(env, order[..i]), FolderDelta(env, order[i]))
  {
    assert order[..i + 1][..i] == order[..i];
  }

  lemma EventsStep(plan: seq<FolderPlan>, i: nat)
    requires i < |plan|
    ensures RunEvents(plan, i + 1) == RunEvents(plan, i) + FolderEvents(plan, i)
  {
  }

  /** The counters a folder with PDFs adds, in terms of what the filtering loop
      returns for it. */
  lemma FolderDeltaOf(env: Env, f: Path, filtered: seq<Path>, skippedCount: nat)
    requires env.pdfsIn(f) != []
    requires filtered == FolderPending(env, f)
    requires skippedCount == ParsedCount(env.outputOf(f.name), env.pdfsIn(f))
    ensures FolderDelta(env, f)
         == Stats(|env.pdfsIn(f)|, skippedCount,
                  if filtered != [] && !env.parseDocRaises(f) then |filtered| else 0,
                  if filtered == [] then 1 else 0)
  {
  }

  /** The events of the folder at position `i` of `order`, in terms of the folder
      and its unparsed PDFs. */
  lemma FolderEventsOf(env: Env, order: seq<Path>, i: nat, pending: seq<Path>)
    requires i < |order| && pending == FolderPending(env, order[i])
    ensures FolderEvents(Plan(env, order), i)
      == if pending == [] then []
         else [ParseDocCalled(i, order[i], pending)]
              + (if !env.parseDocRaises(order[i]) && i < |order| - 1 then [Paused(FolderPauseSeconds)] else [])
  {
    var plan := Plan(env, order);
    assert plan[i] == FolderPlan(order[i], FolderPending(env, order[i]), env.parseDocRaises(order[i]));
  }

  /** One pass of the folder loop: the counters after folder `folderIdx` of `order`
      and the events it adds. */
  method VisitFolder(env: Env, order: seq<Path>, folderIdx: nat, totals: Stats)
    returns (next: Stats, added: seq<RunEvent>)
    requires folderIdx < |order|
    ensures next == Add(totals, FolderDelta(env, order[folderIdx]))
    ensures added == FolderEvents(Plan(env, order), folderIdx)
  {
    var subfolder := order[folderIdx];
    var totalPdfs, totalSkipped, totalProcessed, skippedFolders :=
      totals.totalPdfs, totals.totalSkipped, totals.totalProcessed, totals.skippedFolders;
    added := [];
    var pdfFiles := env.pdfsIn(subfolder);
    if pdfFiles == [] {
      assert totals == Add(totals, FolderDelta(env, subfolder))
          && added == FolderEvents(Plan(env, order), folderIdx) by {
        assert Pending(env.outputOf(subfolder.name), pdfFiles) == [];
        FolderEventsOf(env, order, folderIdx, []);
      }
      return totals, added;
    }
    totalPdfs := totalPdfs + |pdfFiles|;
    var filtered, skippedCount := FilterPdfs(env.outputOf(subfolder.name), pdfFiles);
    ghost var raises := env.parseDocRaises(subfolder);
    ghost var delta := Stats(|pdfFiles|, skippedCount,
                             if filtered != [] && !raises then |filtered| else 0,
                             if filtered == [] then 1 else 0);
    ghost var events: seq<RunEvent> :=
      if filtered == [] then []
      else [ParseDocCalled(folderIdx, subfolder, filtered)]
           + (if !raises && folderIdx < |order| - 1 then [Paused(FolderPauseSeconds)] else []);
    assert FolderDelta(env, subfolder) == delta && FolderEvents(Plan(env, order), folderIdx) == events by {
      FolderDeltaOf(env, subfolder, filtered, skippedCount);
      FolderEventsOf(env, order, folderIdx, filtered);
    }
    if skippedCount > 0 {
      totalSkipped := totalSkipped + skippedCount;
    }
    if filtered == [] {
      skippedFolders := skippedFolders + 1;
      return Stats(totalPdfs, totalSkipped, totalProcessed, skippedFolders), added;
    }
    added := added + [ParseDocCalled(folderIdx, subfolder, filtered)];
    if env.parseDocRaises(subfolder) {
      return Stats(totalPdfs, totalSkipped, totalProcessed, skippedFolders), added;
    }
    totalProcessed := totalProcessed + |filtered|;
    if folderIdx < |order| - 1 {
      added := added + [Paused(FolderPauseSeconds)];
    }
    next := Stats(totalPdfs, totalSkipped, totalProcessed, skippedFolders);
  }

  /** `process_folder_structure`: the input root's subfolders, given in discovery
      order, are sorted newest first and visited in that order. */
  method ProcessFolderStructure(inputExists: bool, subfolders: seq<Path>, env: Env)
    returns (outcome: RunOutcome)
    ensures !inputExists ==> outcome == InputMissing
    ensures inputExists && subfolders == [] ==> outcome == NoSubfolders
    ensures inputExists && subfolders != [] ==>
      && outcome.Finished?
      && multiset(outcome.order) == multiset(subfolders)
      && NonIncreasing(outcome.order, FolderKey)
      && (forall k :: WithKey(outcome.order, FolderKey, k) == WithKey(subfolders, FolderKey, k))
      && outcome.stats == Tally(env, outcome.order)
      && outcome.events == RunEvents(Plan(env, outcome.order), |outcome.order|)
      && WellPaced(Plan(env, outcome.order), outcome.events)
      && outcome.stats.totalPdfs
         == outcome.stats.totalSkipped + outcome.stats.totalProcessed + LostPdfs(env, outcome.order)
  {
    if !inputExists {
      return InputMissing;
    }
    if subfolders == [] {
      return NoSubfolders;
    }
    var sorted := SortFoldersByDateDesc(subfolders);
    var stats := Stats(0, 0, 0, 0);
    var events: seq<RunEvent> := [];
    var folderIdx := 0;
    while folderIdx < |sorted|
      invariant 0 <= folderIdx <= |sorted|
      invariant stats == Tally(env, sorted[..folderIdx])
      invariant events == RunEvents(Plan(env, sorted), folderIdx)
    {
      VisitStep(env, sorted, folderIdx);
      var added;
      stats, added := VisitFolder(env, sorted, folderIdx, stats);
      events := events + added;
      folderIdx := folderIdx + 1;
    }
    assert sorted[..folderIdx] == sorted;
    Conservation(env, sorted);
    RunEventsWellPaced(Plan(env, sorted));
    outcome := Finished(sorted, stats, events);
  }
}
