/** Whole lives of the diagnostics store: requests that start runs and the detached goroutines that
    work through the panels, in every interleaving
    (upstream/pkg/api/ds_query_dashboard_diagnostics.go).

    Each store call is one step. HAR capture, query execution and archive building are outcomes the
    steps receive. The clock never goes back, and a generated uid is never one issued before. */
module DiagnosticsRuns {
  import opened Common
  import opened DiagnosticsJobs

  // ---- one run's panels -------------------------------------------------------------------------

  /** A posted panel: all that decides its path is whether it has queries. */
  datatype Panel = Panel(hasQueries: bool)

  /** How running one panel's queries came out. */
  datatype PanelResult = PanelResult(queryFailed: bool, captured: bool)

  /** The counters of dashboardDiagnosticsOutcome, and how many panels are behind the loop. */
  datatype Tally = Tally(done: nat, skipped: nat, failed: nat, captured: nat)

  function AfterPanel(t: Tally, p: Panel, r: PanelResult): Tally {
    if !p.hasQueries then t.(done := t.done + 1, skipped := t.skipped + 1)
    else Tally(t.done + 1, t.skipped, t.failed + Bit(r.queryFailed), t.captured + Bit(r.captured))
  }

  /** The counters after the first n panels. */
  function Tallied(panels: seq<Panel>, results: seq<PanelResult>, n: nat): Tally
    requires n <= |panels| && n <= |results|
  {
    if n == 0 then Tally(0, 0, 0, 0)
    else AfterPanel(Tallied(panels, results, n - 1), panels[n - 1], results[n - 1])
  }

  function SkippedAt(panels: seq<Panel>, n: nat): set<int>
    requires n <= |panels|
  {
    set i | 0 <= i < n && !panels[i].hasQueries
  }

  function FailedAt(panels: seq<Panel>, results: seq<PanelResult>, n: nat): set<int>
    requires n <= |panels| && n <= |results|
  {
    set i | 0 <= i < n && panels[i].hasQueries && results[i].queryFailed
  }

  function CapturedAt(panels: seq<Panel>, results: seq<PanelResult>, n: nat): set<int>
    requires n <= |panels| && n <= |results|
  {
    set i | 0 <= i < n && panels[i].hasQueries && results[i].captured
  }

  function RanAt(panels: seq<Panel>, n: nat): set<int>
    requires n <= |panels|
  {
    set i | 0 <= i < n && panels[i].hasQueries
  }

  lemma {:induction false} OneMore<T(!new)>(before: set<T>, after: set<T>, i: T, added: bool)
    requires i !in before
    requires forall k :: k in after <==> k in before || (added && k == i)
    ensures |after| == |before| + Bit(added)
  {
    if added {
      assert after == before + {i};
    } else {
      assert after == before;
    }
  }

  /** The counters count panels: skipped the ones without queries, failed and captured among the
      others. */
  lemma {:induction false} TalliedCounts(panels: seq<Panel>, results: seq<PanelResult>, n: nat)
    requires n <= |panels| && n <= |results|
    ensures Tallied(panels, results, n) == Tally(
              n,
              |SkippedAt(panels, n)|,
              |FailedAt(panels, results, n)|,
              |CapturedAt(panels, results, n)|)
    ensures |SkippedAt(panels, n)| + |RanAt(panels, n)| == n
    ensures |FailedAt(panels, results, n)| <= |RanAt(panels, n)|
    ensures |CapturedAt(panels, results, n)| <= |RanAt(panels, n)|
  {
    if n > 0 {
      TalliedCounts(panels, results, n - 1);
      OneMore(SkippedAt(panels, n - 1), SkippedAt(panels, n), n - 1, !panels[n - 1].hasQueries);
      OneMore(RanAt(panels, n - 1), RanAt(panels, n), n - 1, panels[n - 1].hasQueries);
      OneMore(FailedAt(panels, results, n - 1), FailedAt(panels, results, n), n - 1,
              panels[n - 1].hasQueries && results[n - 1].queryFailed);
      OneMore(CapturedAt(panels, results, n - 1), CapturedAt(panels, results, n), n - 1,
              panels[n - 1].hasQueries && results[n - 1].captured);
    }
    SubsetSize(FailedAt(panels, results, n), RanAt(panels, n));
    SubsetSize(CapturedAt(panels, results, n), RanAt(panels, n));
  }

  lemma {:induction false} ProgressedAgain(s: Store, uid: Uid, i: int, j: int)
    ensures Progressed(Progressed(s, uid, i), uid, j) == Progressed(s, uid, j)
  {
    if uid in s {
      assert s[uid].(panelsDone := i).(panelsDone := j) == s[uid].(panelsDone := j);
    }
  }

  /** The panel loop of buildDashboardDiagnosticsArchive, undisturbed: results[i] is what running
      panel i would give. */
  method RunPanels(store: JobStore, uid: Uid, panels: seq<Panel>, results: seq<PanelResult>)
    returns (outcome: Tally)
    requires store.Valid() && |results| == |panels|
    modifies if uid in store.jobs then {store.jobs[uid]} else {}
    ensures store.Valid() && store.jobs == old(store.jobs)
    ensures outcome == Tallied(panels, results, |panels|)
    ensures store.Contents() ==
            if panels == [] then old(store.Contents())
            else Progressed(old(store.Contents()), uid, |panels|)
  {
    outcome := Tally(0, 0, 0, 0);
    for i := 0 to |panels|
      invariant store.Valid() && store.jobs == old(store.jobs)
      invariant outcome == Tallied(panels, results, i) && outcome.done == i
      invariant store.Contents() ==
                if i == 0 then old(store.Contents()) else Progressed(old(store.Contents()), uid, i)
    {
      ProgressedAgain(old(store.Contents()), uid, i, i + 1);
      if !panels[i].hasQueries {
        outcome := outcome.(done := i + 1, skipped := outcome.skipped + 1);
        store.SetProgress(uid, i + 1);
        continue;
      }
      if results[i].queryFailed {
        outcome := outcome.(failed := outcome.failed + 1);
      }
      if results[i].captured {
        outcome := outcome.(captured := outcome.captured + 1);
      }
      outcome := outcome.(done := i + 1);
      store.SetProgress(uid, i + 1);
    }
  }

  /** The first query naming the datasource. */
  function FirstAt(queries: seq<Option<string>>, uid: string): (i: nat)
    requires Some(uid) in queries
    ensures i < |queries| && queries[i] == Some(uid)
    ensures forall k | 0 <= k < i :: queries[k] != Some(uid)
  {
    if queries[0] == Some(uid) then 0 else 1 + FirstAt(queries[1..], uid)
  }

  /** panelDatasourceUIDs, of the queries' datasource uids, None for a nil query: each non-empty uid
      once, in the order of first mention. */
  method PanelDatasourceUIDs(queries: seq<Option<string>>) returns (uids: seq<string>)
    ensures forall u :: u in uids <==> u != "" && Some(u) in queries
    ensures forall a, b | 0 <= a < b < |uids| ::
              uids[a] in uids && uids[b] in uids && FirstAt(queries, uids[a]) < FirstAt(queries, uids[b])
  {
    var seen: set<string> := {};
    uids := [];
    for k := 0 to |queries|
      invariant forall u :: u in uids <==> u in seen
      invariant forall u :: u in seen <==> u != "" && Some(u) in queries && FirstAt(queries, u) < k
      invariant forall a, b | 0 <= a < b < |uids| ::
                  uids[a] in seen && uids[b] in seen
                  && FirstAt(queries, uids[a]) < FirstAt(queries, uids[b])
    {
      if queries[k] == None {
        continue;
      }
      var uid := queries[k].value;
      if uid != "" && uid !in seen {
        seen := seen + {uid};
        uids := uids + [uid];
      }
    }
  }

  // ---- the system -------------------------------------------------------------------------------

  /** How far a run is: its handler between create and the go statement, its goroutine in the panel
      loop, its handler dead before the go statement, its goroutine past a fail call but still
      recording and logging, or gone. */
  datatype Phase = Launching | Running(tally: Tally) | Orphaned | Reporting | Exited

  /** One run; results are the outcomes its loop has met so far. */
  datatype Run = Run(
    creator: Requester, panels: seq<Panel>, startedAt: Time, results: seq<PanelResult>, phase: Phase)

  /** What the last terminal call of a run wrote, and when. */
  datatype Ending = Ending(at: Time, state: JobState, archive: Bytes, err: string)

  /** The store, the goroutine of every uid ever issued, and the history of endings. */
  datatype System = System(store: Store, runs: map<Uid, Run>, endings: map<Uid, Ending>, clock: Time)

  const START := System(map[], map[], map[], ZERO_TIME)

  datatype Event =
    | Start(uid: Uid, creator: Requester, panels: seq<Panel>, now: Time)
    | Launch(uid: Uid)
    | Die(uid: Uid)
    | PanelDone(uid: Uid, result: PanelResult)
    | Complete(uid: Uid, archive: Bytes, now: Time)
    | Fail(uid: Uid, err: string, now: Time)
    | Panic(uid: Uid, err: string, now: Time)
    | Exit(uid: Uid)

  /** A run that occupies one of the MAX_IN_FLIGHT slots. */
  predicate Holds(phase: Phase) {
    phase.Launching? || phase.Running? || phase.Orphaned?
  }

  /** One event takes s to t. Between create and the go statement the handler writes a usage counter
      to the database; what panics there is recovered by the web server's middleware, not by the run.
      The goroutine recovers a panic in its loop, and one in the counter write that follows a fail
      call. After a complete call it only increments a counter in memory, which does not panic. */
  ghost predicate Step(s: System, e: Event, t: System) {
    match e
    case Start(uid, creator, panels, now) =>
      && s.clock <= now && uid !in s.runs && panels != []
      && CreateRel(s.store, uid, |panels|, creator, now, uid in t.runs, t.store)
      && t.runs == (if uid in t.runs
                    then s.runs[uid := Run(creator, panels, now, [], Launching)] else s.runs)
      && t.endings == s.endings && t.clock == now
    case Launch(uid) =>
      && uid in s.runs && s.runs[uid].phase.Launching?
      && t == s.(runs := s.runs[uid := s.runs[uid].(phase := Running(Tally(0, 0, 0, 0)))])
    case Die(uid) =>
      && uid in s.runs && s.runs[uid].phase.Launching?
      && t == s.(runs := s.runs[uid := s.runs[uid].(phase := Orphaned)])
    case PanelDone(uid, result) =>
      && InLoop(s, uid) && s.runs[uid].phase.tally.done < |s.runs[uid].panels|
      && var run := s.runs[uid];
         var tally := AfterPanel(run.phase.tally, run.panels[run.phase.tally.done], result);
         t == s.(store := Progressed(s.store, uid, tally.done),
                 runs := s.runs[uid := run.(results := run.results + [result], phase := Running(tally))])
    case Complete(uid, archive, now) =>
      && s.clock <= now
      && InLoop(s, uid) && s.runs[uid].phase.tally.done == |s.runs[uid].panels|
      && CompleteRel(s.store, uid, archive, now, t.store)
      && t.runs == s.runs[uid := s.runs[uid].(phase := Exited)]
      && t.endings == Ended(s, uid, Ending(now, JobState.Complete, archive, "")) && t.clock == now
    case Fail(uid, err, now) =>
      && s.clock <= now && InLoop(s, uid)
      && FailRel(s.store, uid, err, now, t.store)
      && t.runs == s.runs[uid := s.runs[uid].(phase := Reporting)]
      && t.endings == Ended(s, uid, Ending(now, Error, [], err)) && t.clock == now
    case Panic(uid, err, now) =>
      && s.clock <= now
      && uid in s.runs && (s.runs[uid].phase.Running? || s.runs[uid].phase.Reporting?)
      && FailRel(s.store, uid, err, now, t.store)
      && t.runs == s.runs[uid := s.runs[uid].(phase := Exited)]
      && t.endings == Ended(s, uid, Ending(now, Error, [], err)) && t.clock == now
    case Exit(uid) =>
      && uid in s.runs && s.runs[uid].phase.Reporting?
      && t == s.(runs := s.runs[uid := s.runs[uid].(phase := Exited)])
  }

  predicate InLoop(s: System, uid: Uid) {
    uid in s.runs && s.runs[uid].phase.Running?
  }

  /** A terminal call on a uid the store no longer has writes nothing. */
  function Ended(s: System, uid: Uid, e: Ending): map<Uid, Ending> {
    if uid in s.store then s.endings[uid := e] else s.endings
  }

  // ---- what every reachable state satisfies -----------------------------------------------------

  /** A run that holds a slot has its job pending in the store, showing how far it is. */
  ghost predicate RunShown(s: System, u: Uid)
    requires u in s.runs
  {
    var run := s.runs[u];
    Holds(run.phase) ==>
      && u in s.store && s.store[u].state == Pending
      && s.store[u].panelsDone == |run.results| <= |run.panels|
      && (run.phase.Running? ==> run.phase.tally == Tallied(run.panels, run.results, |run.results|))
      && (!run.phase.Running? ==> run.results == [])
  }

  /** A stored job belongs to a run, is pending only while that run holds its slot, and complete
      only with every panel done. */
  ghost predicate JobShown(s: System, u: Uid)
    requires u in s.store
  {
    var j := s.store[u];
    && u in s.runs
    && j.uid == u && j.creator == s.runs[u].creator && j.createdAt == s.runs[u].startedAt
    && j.panelsTotal == |s.runs[u].panels|
    && 0 <= j.panelsDone <= j.panelsTotal
    && (j.state == Pending ==> Holds(s.runs[u].phase))
    && (j.state != JobState.Complete ==> j.archive == []) && (j.state != Error ==> j.err == "")
    && (j.state == JobState.Complete ==> j.panelsDone == j.panelsTotal)
  }

  /** A stored terminal job is exactly what its run's last terminal call wrote. */
  ghost predicate ResultShown(s: System, u: Uid)
    requires u in s.store
  {
    var j := s.store[u];
    j.state != Pending ==>
      && u in s.endings
      && j.state == s.endings[u].state
      && j.finishedAt == s.endings[u].at
      && j.archive == s.endings[u].archive && j.err == s.endings[u].err
  }

  ghost predicate RunsShown(s: System) {
    && (forall u | u in s.runs :: RunShown(s, u))
    && (forall u | u in s.store :: JobShown(s, u))
  }

  /** An ending is in the past, and complete only if the run is gone. */
  ghost predicate EndingShown(s: System, u: Uid)
    requires u in s.endings
  {
    && s.endings[u].at <= s.clock && s.endings[u].state != Pending && u in s.runs
    && (s.endings[u].state == JobState.Complete ==> s.runs[u].phase.Exited?)
  }

  /** Every run that gave up its slot has an ending, and none that has not. */
  ghost predicate EndingsShown(s: System) {
    && s.endings.Keys == (set u | u in s.runs && !Holds(s.runs[u].phase))
    && (forall u | u in s.endings :: EndingShown(s, u))
    && (forall u | u in s.store :: ResultShown(s, u))
  }

  ghost predicate Bounded(s: System) {
    |PendingIds(s.store)| <= MAX_IN_FLIGHT && |TerminalIds(s.store)| <= MAX_ENTRIES
  }

  /** The other runs that ended no earlier than u did. */
  function EndedSince(s: System, u: Uid): set<Uid>
    requires u in s.endings
  {
    set v | v in s.endings && v != u && s.endings[v].at >= s.endings[u].at
  }

  /** u's result may be gone: an hour has passed, or a hundred others ended since. */
  predicate MayBeLost(s: System, u: Uid)
    requires u in s.endings
  {
    s.clock - s.endings[u].at > RETENTION || |EndedSince(s, u)| >= MAX_ENTRIES
  }

  ghost predicate LossesExcused(s: System) {
    forall u | u in s.endings && u !in s.store :: MayBeLost(s, u)
  }

  ghost predicate Inv(s: System) {
    RunsShown(s) && EndingsShown(s) && Bounded(s) && LossesExcused(s)
  }

  // ---- the invariant is kept --------------------------------------------------------------------

  lemma {:induction false} PruneShape(mid: Store, now: Time, after: Store)
    requires PruneRel(mid, now, after)
    ensures PendingIds(after) == PendingIds(mid)
    ensures |TerminalIds(after)| <= MAX_ENTRIES
    ensures forall u | u in after :: u in mid && after[u] == mid[u]
  {
  }

  /** A prune at the end of a step loses nothing before its time. */
  lemma {:induction false} PruneExcusesLosses(s: System, mid: Store, now: Time, t: System)
    requires PruneRel(mid, now, t.store) && s.clock <= now == t.clock
    requires s.endings.Keys <= t.endings.Keys
    requires forall u | u in s.endings :: s.endings[u].at <= t.endings[u].at
    requires forall u | u in TerminalIds(mid) :: u in t.endings && mid[u].finishedAt == t.endings[u].at
    requires forall u | u in t.endings && u in mid :: mid[u].state != Pending
    requires forall u | u in t.endings && u !in mid ::
               u in s.endings && s.endings[u] == t.endings[u] && MayBeLost(s, u)
    ensures LossesExcused(t)
  {
    forall u | u in t.endings && u !in t.store ensures MayBeLost(t, u) {
      if u !in mid {
        SubsetSize(EndedSince(s, u), EndedSince(t, u));
      } else if !Expired(mid[u], now) {
        EvictedForSpace(mid, now, t.store, u);
        assert TerminalIds(t.store) <= EndedSince(t, u);
        SubsetSize(TerminalIds(t.store), EndedSince(t, u));
      }
    }
  }

  lemma {:induction false} StartKeepsInv(s: System, e: Event, t: System)
    requires Inv(s) && Step(s, e, t) && e.Start?
    ensures Inv(t)
  {
    if e.uid in t.runs {
      StartShowsRuns(s, e, t);
      StartShowsEndings(s, e, t);
      StartKeepsBounds(s, e, t);
      StartExcusesLosses(s, e, t);
    } else {
      assert RunsShown(t) by {
        forall u | u in t.runs ensures RunShown(t, u) {
          assert RunShown(s, u);
        }
        forall u | u in t.store ensures JobShown(t, u) {
          assert JobShown(s, u);
        }
      }
      forall u | u in t.store ensures ResultShown(t, u) {
        assert ResultShown(s, u);
      }
      LaterExcusesLosses(s, t);
    }
  }

  lemma {:induction false} StartKeepsBounds(s: System, e: Event, t: System)
    requires Bounded(s) && Step(s, e, t) && e.Start? && e.uid in t.runs
    ensures Bounded(t)
  {
    var j := NewJob(e.uid, |e.panels|, e.creator, e.now);
    PruneShape(s.store[e.uid := j], e.now, t.store);
    OneMorePending(s.store, e.uid, j);
  }

  lemma {:induction false} OneMorePending(s: Store, uid: Uid, j: JobVal)
    requires |PendingIds(s)| < MAX_IN_FLIGHT && j.state == Pending
    ensures |PendingIds(s[uid := j])| <= MAX_IN_FLIGHT
  {
    var others := PendingIds(s) - {uid};
    SubsetSize(others, PendingIds(s));
    assert PendingIds(s[uid := j]) == others + {uid};
  }

  lemma {:induction false} StartExcusesLosses(s: System, e: Event, t: System)
    requires Inv(s) && Step(s, e, t) && e.Start? && e.uid in t.runs
    ensures LossesExcused(t)
  {
    var mid := s.store[e.uid := NewJob(e.uid, |e.panels|, e.creator, e.now)];
    forall u | u in TerminalIds(mid)
      ensures u in t.endings && mid[u].finishedAt == t.endings[u].at
    {
      assert ResultShown(s, u);
    }
    forall u | u in t.endings && u in mid ensures mid[u].state != Pending {
      assert JobShown(s, u);
    }
    PruneExcusesLosses(s, mid, e.now, t);
  }

  lemma {:induction false} StartShowsRuns(s: System, e: Event, t: System)
    requires RunsShown(s) && Step(s, e, t) && e.Start? && e.uid in t.runs
    ensures RunsShown(t)
  {
    var mid := s.store[e.uid := NewJob(e.uid, |e.panels|, e.creator, e.now)];
    PruneShape(mid, e.now, t.store);
    forall u | u in t.runs ensures RunShown(t, u) {
      if u != e.uid {
        assert RunShown(s, u);
        assert Holds(t.runs[u].phase) ==> u in PendingIds(mid);
      } else {
        assert u in PendingIds(mid);
      }
    }
    forall u | u in t.store ensures JobShown(t, u) {
      assert u != e.uid ==> JobShown(s, u);
    }
  }

  lemma {:induction false} StartShowsEndings(s: System, e: Event, t: System)
    requires Inv(s) && Step(s, e, t) && e.Start? && e.uid in t.runs
    ensures EndingsShown(t)
  {
    var mid := s.store[e.uid := NewJob(e.uid, |e.panels|, e.creator, e.now)];
    PruneShape(mid, e.now, t.store);
    forall u | u in t.store ensures ResultShown(t, u) {
      assert u != e.uid ==> ResultShown(s, u);
    }
  }

  lemma {:induction false} LaterExcusesLosses(s: System, t: System)
    requires LossesExcused(s) && t.endings == s.endings && s.clock <= t.clock
    requires s.store.Keys <= t.store.Keys
    ensures LossesExcused(t)
  {
    forall u | u in t.endings && u !in t.store ensures MayBeLost(t, u) {
      assert EndedSince(s, u) == EndedSince(t, u);
    }
  }

  /** What Complete, Fail and Panic have in common when the store still has the job: it becomes the
      terminal j, its run gives up its slot for phase, and the store is pruned. */
  ghost predicate Terminates(s: System, uid: Uid, j: JobVal, phase: Phase, now: Time, t: System) {
    && uid in s.store && uid in s.runs && !Holds(phase)
    && j.state != Pending && j.finishedAt == now
    && j.creator == s.store[uid].creator && j.uid == s.store[uid].uid
    && j.createdAt == s.store[uid].createdAt && (j.state == JobState.Complete ==> j.err == "")
    && j.panelsTotal == s.store[uid].panelsTotal && j.panelsDone == s.store[uid].panelsDone
    && (j.state == JobState.Complete ==> j.panelsDone == j.panelsTotal)
    && (if j.state == JobState.Complete then phase.Exited? else j.archive == [])
    && s.clock <= now == t.clock
    && PruneRel(s.store[uid := j], now, t.store)
    && t.runs == s.runs[uid := s.runs[uid].(phase := phase)]
    && t.endings == s.endings[uid := Ending(now, j.state, j.archive, j.err)]
  }

  lemma {:induction false} TerminatingKeepsRuns(s: System, uid: Uid, j: JobVal, phase: Phase, now: Time, t: System)
    requires Inv(s) && Terminates(s, uid, j, phase, now, t)
    ensures RunsShown(t)
  {
    forall u | u in t.runs ensures RunShown(t, u) {
      TerminatingShowsRun(s, uid, j, phase, now, t, u);
    }
    PruneShape(s.store[uid := j], now, t.store);
    forall u | u in t.store ensures JobShown(t, u) {
      assert JobShown(s, u);
    }
  }

  lemma {:induction false} TerminatingShowsRun(
    s: System, uid: Uid, j: JobVal, phase: Phase, now: Time, t: System, u: Uid)
    requires Inv(s) && Terminates(s, uid, j, phase, now, t) && u in t.runs
    ensures RunShown(t, u)
  {
    var mid := s.store[uid := j];
    PruneShape(mid, now, t.store);
    assert RunShown(s, u);
    assert Holds(t.runs[u].phase) ==> u in PendingIds(mid);
  }

  lemma {:induction false} TerminatingKeepsEndings(s: System, uid: Uid, j: JobVal, phase: Phase, now: Time, t: System)
    requires Inv(s) && Terminates(s, uid, j, phase, now, t)
    ensures EndingsShown(t)
  {
    var mid := s.store[uid := j];
    PruneShape(mid, now, t.store);
    forall u | u in t.store ensures ResultShown(t, u) {
      assert ResultShown(s, u);
    }
    forall u | u in t.endings ensures EndingShown(t, u) {
      assert u != uid ==> EndingShown(s, u);
    }
  }

  lemma {:induction false} TerminatingKeepsBounds(s: System, uid: Uid, j: JobVal, phase: Phase, now: Time, t: System)
    requires Bounded(s) && Terminates(s, uid, j, phase, now, t)
    ensures Bounded(t)
  {
    var mid := s.store[uid := j];
    PruneShape(mid, now, t.store);
    assert PendingIds(mid) == PendingIds(s.store) - {uid};
    SubsetSize(PendingIds(mid), PendingIds(s.store));
  }

  lemma {:induction false} TerminatingExcusesLosses(s: System, uid: Uid, j: JobVal, phase: Phase, now: Time, t: System)
    requires Inv(s) && Terminates(s, uid, j, phase, now, t)
    ensures LossesExcused(t)
  {
    var mid := s.store[uid := j];
    PruneExcusesLosses(s, mid, now, t);
  }

  lemma {:induction false} TerminatingKeepsInv(s: System, uid: Uid, j: JobVal, phase: Phase, now: Time, t: System)
    requires Inv(s) && Terminates(s, uid, j, phase, now, t)
    ensures Inv(t)
  {
    TerminatingKeepsRuns(s, uid, j, phase, now, t);
    TerminatingKeepsEndings(s, uid, j, phase, now, t);
    TerminatingKeepsBounds(s, uid, j, phase, now, t);
    TerminatingExcusesLosses(s, uid, j, phase, now, t);
  }

  lemma {:induction false} PanelShowsRuns(s: System, e: Event, t: System)
    requires RunsShown(s) && Step(s, e, t) && e.PanelDone?
    ensures RunsShown(t)
  {
    forall u | u in t.runs ensures RunShown(t, u) {
      PanelShowsRun(s, e, t, u);
    }
    assert RunShown(s, e.uid) && JobShown(s, e.uid);
    var run := s.runs[e.uid];
    TalliedCounts(run.panels, run.results, |run.results|);
    forall u | u in t.store ensures JobShown(t, u) {
      assert JobShown(s, u);
    }
  }

  lemma {:induction false} PanelShowsRun(s: System, e: Event, t: System, u: Uid)
    requires RunsShown(s) && Step(s, e, t) && e.PanelDone? && u in t.runs
    ensures RunShown(t, u)
  {
    assert RunShown(s, u);
    if u == e.uid {
      var run := s.runs[u];
      TalliedPrefix(run.panels, run.results, e.result, |run.results|);
      TalliedCounts(run.panels, run.results, |run.results|);
    }
  }

  lemma {:induction false} PanelKeepsStore(s: System, e: Event, t: System)
    requires Step(s, e, t) && e.PanelDone?
    ensures t.store.Keys == s.store.Keys
    ensures PendingIds(t.store) == PendingIds(s.store) && TerminalIds(t.store) == TerminalIds(s.store)
  {
  }

  lemma {:induction false} PanelShowsEndings(s: System, e: Event, t: System)
    requires EndingsShown(s) && Step(s, e, t) && e.PanelDone?
    ensures EndingsShown(t)
  {
    forall u | u in t.store ensures ResultShown(t, u) {
      assert ResultShown(s, u);
    }
  }

  lemma {:induction false} PanelKeepsInv(s: System, e: Event, t: System)
    requires Inv(s) && Step(s, e, t) && e.PanelDone?
    ensures Inv(t)
  {
    PanelShowsRuns(s, e, t);
    PanelShowsEndings(s, e, t);
    PanelKeepsStore(s, e, t);
    LaterExcusesLosses(s, t);
  }

  lemma {:induction false} TalliedPrefix(
    panels: seq<Panel>, results: seq<PanelResult>, more: PanelResult, n: nat)
    requires n <= |panels| && n <= |results|
    ensures Tallied(panels, results + [more], n) == Tallied(panels, results, n)
  {
    if n > 0 {
      TalliedPrefix(panels, results, more, n - 1);
    }
  }

  lemma {:induction false} CompleteTerminates(s: System, e: Event, t: System)
    requires Inv(s) && Step(s, e, t) && e.Complete?
    ensures e.uid in s.store
    ensures Terminates(s, e.uid, Completed(s.store[e.uid], e.archive, e.now), Exited, e.now, t)
  {
    assert RunShown(s, e.uid) && JobShown(s, e.uid);
    var run := s.runs[e.uid];
    TalliedCounts(run.panels, run.results, |run.results|);
  }

  lemma {:induction false} FailTerminates(s: System, e: Event, t: System)
    requires Inv(s) && Step(s, e, t) && e.Fail?
    ensures e.uid in s.store
    ensures Terminates(s, e.uid, Failed(s.store[e.uid], e.err, e.now), Reporting, e.now, t)
  {
    assert RunShown(s, e.uid) && JobShown(s, e.uid);
  }

  lemma {:induction false} PanicTerminates(s: System, e: Event, t: System)
    requires Inv(s) && Step(s, e, t) && e.Panic? && e.uid in s.store
    ensures Terminates(s, e.uid, Failed(s.store[e.uid], e.err, e.now), Exited, e.now, t)
  {
    assert RunShown(s, e.uid) && JobShown(s, e.uid) && ResultShown(s, e.uid);
    assert e.uid in s.endings ==> EndingShown(s, e.uid);
  }

  /** A step that leaves the store alone and only moves a run without a slot. */
  lemma {:induction false} QuietKeepsInv(s: System, uid: Uid, t: System)
    requires Inv(s) && uid in s.runs && !Holds(s.runs[uid].phase)
    requires t.store == s.store && t.endings == s.endings && s.clock <= t.clock
    requires t.runs == s.runs[uid := s.runs[uid].(phase := Exited)]
    ensures Inv(t)
  {
    forall u | u in t.endings ensures EndingShown(t, u) {
      assert EndingShown(s, u);
    }
    forall u | u in t.runs ensures RunShown(t, u) {
      assert RunShown(s, u);
    }
    forall u | u in t.store ensures JobShown(t, u) && ResultShown(t, u) {
      assert JobShown(s, u) && ResultShown(s, u);
    }
    LaterExcusesLosses(s, t);
  }

  /** A step that only moves a run from one phase to another, its slot and its progress kept. */
  lemma {:induction false} HeldRunMoves(s: System, uid: Uid, phase: Phase, t: System)
    requires Inv(s) && uid in s.runs && s.runs[uid].phase.Launching? && Holds(phase)
    requires phase.Running? ==> phase.tally == Tally(0, 0, 0, 0)
    requires t == s.(runs := s.runs[uid := s.runs[uid].(phase := phase)])
    ensures Inv(t)
  {
    forall u | u in t.runs ensures RunShown(t, u) {
      assert RunShown(s, u);
    }
    forall u | u in t.store ensures JobShown(t, u) && ResultShown(t, u) {
      assert JobShown(s, u) && ResultShown(s, u);
    }
    forall u | u in t.endings ensures EndingShown(t, u) {
      assert EndingShown(s, u);
    }
    LaterExcusesLosses(s, t);
  }

  lemma {:induction false} StepKeepsInv(s: System, e: Event, t: System)
    requires Inv(s) && Step(s, e, t)
    ensures Inv(t)
  {
    match e
    case Start(_, _, _, _) => StartKeepsInv(s, e, t);
    case Launch(uid) => HeldRunMoves(s, uid, Running(Tally(0, 0, 0, 0)), t);
    case Die(uid) => HeldRunMoves(s, uid, Orphaned, t);
    case PanelDone(_, _) => PanelKeepsInv(s, e, t);
    case Complete(uid, archive, now) =>
      CompleteTerminates(s, e, t);
      TerminatingKeepsInv(s, uid, Completed(s.store[uid], archive, now), Exited, now, t);
    case Fail(uid, err, now) =>
      FailTerminates(s, e, t);
      TerminatingKeepsInv(s, uid, Failed(s.store[uid], err, now), Reporting, now, t);
    case Panic(uid, err, now) =>
      if uid in s.store {
        PanicTerminates(s, e, t);
        TerminatingKeepsInv(s, uid, Failed(s.store[uid], err, now), Exited, now, t);
      } else {
        assert RunShown(s, uid);
        QuietKeepsInv(s, uid, t);
      }
    case Exit(uid) => QuietKeepsInv(s, uid, t);
  }

  // ---- whole executions -------------------------------------------------------------------------

  ghost predicate Execution(states: seq<System>, events: seq<Event>) {
    && |states| == |events| + 1 && states[0] == START
    && (forall i | 0 <= i < |events| :: Step(states[i], events[i], states[i + 1]))
  }

  lemma {:induction false} Reached(states: seq<System>, events: seq<Event>, i: nat)
    requires Execution(states, events) && i <= |events|
    ensures Inv(states[i])
  {
    if i > 0 {
      Reached(states, events, i - 1);
      StepKeepsInv(states[i - 1], events[i - 1], states[i]);
    }
  }

  /** The runs in a phase: about to be launched, in the panel loop, orphaned. */
  function Starting(s: System): set<Uid> {
    set u | u in s.runs && s.runs[u].phase.Launching?
  }

  function Generating(s: System): set<Uid> {
    set u | u in s.runs && s.runs[u].phase.Running?
  }

  function Orphans(s: System): set<Uid> {
    set u | u in s.runs && s.runs[u].phase.Orphaned?
  }

  /** In every reachable state the pending jobs are exactly the runs being started, those in their
      loop and those whose start died, at most MAX_IN_FLIGHT together, and at most MAX_ENTRIES
      finished jobs are kept. */
  lemma {:induction false} StoreStaysBounded(states: seq<System>, events: seq<Event>, i: nat)
    requires Execution(states, events) && i <= |events|
    ensures var s := states[i];
            && PendingIds(s.store) == Starting(s) + Generating(s) + Orphans(s)
            && |Starting(s)| + |Generating(s)| + |Orphans(s)| == |PendingIds(s.store)| <= 4
            && |TerminalIds(s.store)| <= 100
  {
    Reached(states, events, i);
    var s := states[i];
    forall u ensures u in PendingIds(s.store) <==> u in Starting(s) + Generating(s) + Orphans(s) {
      assert u in s.store ==> JobShown(s, u);
      assert u in s.runs ==> RunShown(s, u);
    }
    assert PendingIds(s.store) == Starting(s) + Generating(s) + Orphans(s);
  }

  /** A start is refused exactly when the runs being started, generating and orphaned are
      MAX_IN_FLIGHT. */
  lemma {:induction false} StartRefusedIffFull(states: seq<System>, events: seq<Event>, i: nat)
    requires Execution(states, events) && i < |events| && events[i].Start?
    ensures var s := states[i];
            events[i].uid in states[i + 1].runs <==>
              |Starting(s)| + |Generating(s)| + |Orphans(s)| < 4
  {
    StoreStaysBounded(states, events, i);
    StepAt(states, events, i);
  }

  // ---- slots that are never given back ----------------------------------------------------------

  predicate OrphanPending(s: System, u: Uid) {
    u in Orphans(s) && u in PendingIds(s.store)
  }

  lemma {:induction false} OrphanStays(s: System, e: Event, t: System, u: Uid)
    requires Inv(s) && Step(s, e, t) && u in Orphans(s)
    ensures u in Orphans(t)
  {
    assert RunShown(s, u);
  }

  /** A run whose start died stays pending in every later state: nothing completes, fails or prunes
      its job. */
  lemma {:induction false} OrphansStayPending(
    states: seq<System>, events: seq<Event>, i: nat, j: nat, u: Uid)
    requires Execution(states, events) && i <= j <= |events| && u in Orphans(states[i])
    ensures OrphanPending(states[j], u)
  {
    if i < j {
      var k := j - 1;
      OrphansStayPending(states, events, i, k, u);
      StepAt(states, events, k);
      OrphanStays(states[k], events[k], states[k + 1], u);
    }
    StoreStaysBounded(states, events, j);
  }

  /** The orphans are exactly the runs whose start died. */
  lemma {:induction false} OrphansDied(states: seq<System>, events: seq<Event>, i: nat, u: Uid)
    requires Execution(states, events) && i <= |events|
    ensures u in Orphans(states[i]) <==> exists k | 0 <= k < i :: events[k] == Die(u)
  {
    if i > 0 {
      var k := i - 1;
      OrphansDied(states, events, k, u);
      StepAt(states, events, k);
      if u in Orphans(states[k]) {
        OrphanStays(states[k], events[k], states[k + 1], u);
      }
    }
  }

  predicate NoStartDied(events: seq<Event>, i: nat)
    requires i <= |events|
  {
    forall k | 0 <= k < i :: !events[k].Die?
  }

  /** Every slot is held by work still going on exactly when no start has died. */
  lemma {:induction false} SlotsAreWorkIff(states: seq<System>, events: seq<Event>, i: nat)
    requires Execution(states, events) && i <= |events|
    ensures PendingIds(states[i].store) == Starting(states[i]) + Generating(states[i]) <==>
              NoStartDied(events, i)
  {
    var s := states[i];
    StoreStaysBounded(states, events, i);
    forall u ensures u in Orphans(s) <==> exists k | 0 <= k < i :: events[k] == Die(u) {
      OrphansDied(states, events, i, u);
    }
    if NoStartDied(events, i) {
      assert Orphans(s) == {};
    } else {
      var k :| 0 <= k < i && events[k].Die?;
      assert events[k] == Die(events[k].uid);
      assert events[k].uid in Orphans(s);
    }
  }

  /** Once MAX_IN_FLIGHT starts have died, every later start is refused. */
  lemma {:induction false} OrphansBlockAllStarts(states: seq<System>, events: seq<Event>, i: nat, j: nat)
    requires Execution(states, events) && i <= j < |events| && events[j].Start?
    requires |Orphans(states[i])| == 4
    ensures events[j].uid !in states[j + 1].runs
  {
    forall u | u in Orphans(states[i]) ensures u in Orphans(states[j]) {
      OrphansStayPending(states, events, i, j, u);
    }
    SubsetSize(Orphans(states[i]), Orphans(states[j]));
    StartRefusedIffFull(states, events, j);
  }

  /** After n dead starts of distinct runs, with nothing else going on. */
  function DeadStarts(us: seq<Uid>, creator: Requester, panels: seq<Panel>): System {
    System(map u | u in us :: NewJob(u, |panels|, creator, 1),
           map u | u in us :: Run(creator, panels, 1, [], Orphaned), map[], if us == [] then 0 else 1)
  }

  /** Such a run of starts: with MAX_IN_FLIGHT uids the store is full and nothing is running. */
  lemma {:induction false} DeadStartsFillTheStore(us: seq<Uid>, creator: Requester, panels: seq<Panel>)
    returns (states: seq<System>, events: seq<Event>)
    requires |us| <= MAX_IN_FLIGHT && panels != []
    requires forall i, j | 0 <= i < j < |us| :: us[i] != us[j]
    ensures Execution(states, events) && |events| == 2 * |us|
    ensures states[|events|] == DeadStarts(us, creator, panels)
    ensures |Orphans(states[|events|])| == |us| && Generating(states[|events|]) == {}
  {
    OrphansOf(us, creator, panels);
    if us == [] {
      states, events := [START], [];
    } else {
      var init, u := us[..|us| - 1], us[|us| - 1];
      states, events := DeadStartsFillTheStore(init, creator, panels);
      OneMoreDeadStart(init, u, creator, panels);
      InitAndLast(us);
      states, events := TwoMore(
        states, events, Start(u, creator, panels, 1),
        AfterDeadStart(DeadStarts(init, creator, panels), u, creator, panels),
        Die(u), DeadStarts(us, creator, panels));
    }
  }

  lemma {:induction false} TwoMore(
    states: seq<System>, events: seq<Event>, e: Event, s: System, f: Event, t: System)
    returns (ss: seq<System>, es: seq<Event>)
    requires Execution(states, events) && Step(states[|events|], e, s) && Step(s, f, t)
    ensures Execution(ss, es) && |es| == |events| + 2 && ss[|es|] == t
  {
    ExecutionExtended(states, events, e, s);
    ExecutionExtended(states + [s], events + [e], f, t);
    ss, es := states + [s] + [t], events + [e] + [f];
  }

  function AfterDeadStart(s: System, u: Uid, creator: Requester, panels: seq<Panel>): System {
    System(s.store[u := NewJob(u, |panels|, creator, 1)],
           s.runs[u := Run(creator, panels, 1, [], Launching)], s.endings, 1)
  }

  lemma {:induction false} OrphansOf(us: seq<Uid>, creator: Requester, panels: seq<Panel>)
    requires forall i, j | 0 <= i < j < |us| :: us[i] != us[j]
    ensures var s := DeadStarts(us, creator, panels);
            |Orphans(s)| == |us| && Generating(s) == {} && PendingIds(s.store) == Orphans(s)
            && TerminalIds(s.store) == {}
  {
    if us != [] {
      var init, u := us[..|us| - 1], us[|us| - 1];
      OrphansOf(init, creator, panels);
      assert u !in init;
      InitAndLast(us);
      assert Orphans(DeadStarts(us, creator, panels)) == Orphans(DeadStarts(init, creator, panels)) + {u};
    }
  }

  lemma {:induction false} OneMoreDeadStart(init: seq<Uid>, u: Uid, creator: Requester, panels: seq<Panel>)
    requires |init| < MAX_IN_FLIGHT && panels != [] && u !in init
    requires forall i, j | 0 <= i < j < |init| :: init[i] != init[j]
    ensures var s, mid := DeadStarts(init, creator, panels),
                          AfterDeadStart(DeadStarts(init, creator, panels), u, creator, panels);
            && Step(s, Start(u, creator, panels, 1), mid)
            && Step(mid, Die(u), DeadStarts(init + [u], creator, panels))
  {
    OrphansOf(init, creator, panels);
    StartWithoutPrune(DeadStarts(init, creator, panels), u, creator, panels);
    var mid := AfterDeadStart(DeadStarts(init, creator, panels), u, creator, panels);
    var t := DeadStarts(init + [u], creator, panels);
    assert mid.store == t.store;
    assert mid.runs[u := mid.runs[u].(phase := Orphaned)] == t.runs;
  }

  lemma {:induction false} StartWithoutPrune(s: System, u: Uid, creator: Requester, panels: seq<Panel>)
    requires u !in s.runs && panels != [] && s.clock <= 1
    requires forall v | v in s.store :: s.store[v].state == Pending
    requires |PendingIds(s.store)| < MAX_IN_FLIGHT
    ensures Step(s, Start(u, creator, panels, 1), AfterDeadStart(s, u, creator, panels))
  {
    PruneOfPending(AfterDeadStart(s, u, creator, panels).store, 1);
  }

  lemma {:induction false} PruneOfPending(s: Store, now: Time)
    requires forall u | u in s :: s[u].state == Pending
    ensures PruneRel(s, now, s)
  {
    assert TerminalIds(s) == {} && Retained(s, now) == {};
  }

  lemma {:induction false} ExecutionExtended(states: seq<System>, events: seq<Event>, e: Event, t: System)
    requires Execution(states, events) && Step(states[|events|], e, t)
    ensures Execution(states + [t], events + [e])
  {
    var ss, es := states + [t], events + [e];
    forall i | 0 <= i < |es| ensures Step(ss[i], es[i], ss[i + 1]) {
      if i < |events| {
        assert Step(states[i], events[i], states[i + 1]);
      }
    }
  }

  // ---- progress and results ---------------------------------------------------------------------

  lemma {:induction false} StepMovesOn(s: System, e: Event, t: System, u: Uid)
    requires Inv(s) && Step(s, e, t) && u in s.store && u in t.store
    ensures s.store[u].panelsDone <= t.store[u].panelsDone
    ensures t.store[u].panelsTotal == s.store[u].panelsTotal
  {
    assert JobShown(s, u);
    match e
    case Start(uid, creator, panels, now) =>
      if uid in t.runs {
        PruneShape(s.store[uid := NewJob(uid, |panels|, creator, now)], now, t.store);
      }
    case PanelDone(uid, _) =>
      var run := s.runs[uid];
      assert RunShown(s, uid);
      TalliedCounts(run.panels, run.results, |run.results|);
    case Complete(uid, archive, now) =>
      CompleteTerminates(s, e, t);
      TerminatingMovesOn(s, uid, Completed(s.store[uid], archive, now), Exited, now, t, u);
    case Fail(uid, err, now) =>
      FailTerminates(s, e, t);
      TerminatingMovesOn(s, uid, Failed(s.store[uid], err, now), Reporting, now, t, u);
    case Panic(uid, err, now) =>
      if uid in s.store {
        PanicTerminates(s, e, t);
        TerminatingMovesOn(s, uid, Failed(s.store[uid], err, now), Exited, now, t, u);
      }
    case _ =>
  }

  lemma {:induction false} TerminatingMovesOn(
    s: System, uid: Uid, j: JobVal, phase: Phase, now: Time, t: System, u: Uid)
    requires Terminates(s, uid, j, phase, now, t) && u in s.store && u in t.store
    ensures t.store[u].panelsDone == s.store[u].panelsDone
    ensures t.store[u].panelsTotal == s.store[u].panelsTotal
  {
    PruneShape(s.store[uid := j], now, t.store);
  }

  /** The progress a job shows never goes back, never passes its total, and is the total once the
      job is complete; the counters of the run add up. */
  lemma {:induction false} ProgressIsTrue(states: seq<System>, events: seq<Event>, i: nat, u: Uid)
    requires Execution(states, events) && i < |events|
    requires u in states[i].store && u in states[i + 1].store
    ensures states[i].store[u].panelsDone <= states[i + 1].store[u].panelsDone
    ensures states[i + 1].store[u].panelsTotal == states[i].store[u].panelsTotal
    ensures states[i].store[u].panelsDone <= states[i].store[u].panelsTotal
    ensures states[i].store[u].state == JobState.Complete ==>
              states[i].store[u].panelsDone == states[i].store[u].panelsTotal
  {
    StepAt(states, events, i);
    assert JobShown(states[i], u);
    StepMovesOn(states[i], events[i], states[i + 1], u);
  }

  /** When a run completes, every panel is behind it: the skipped ones and those that ran make up the
      total, and no more failed or were captured than ran. */
  lemma {:induction false} CompletedRunAddsUp(states: seq<System>, events: seq<Event>, i: nat)
    requires Execution(states, events) && i < |events| && events[i].Complete?
    ensures InLoop(states[i], events[i].uid)
    ensures var run := states[i].runs[events[i].uid];
            var ran := RanAt(run.panels, |run.panels|);
            && run.phase.tally.skipped + |ran| == |run.panels|
            && run.phase.tally.failed <= |ran| && run.phase.tally.captured <= |ran|
  {
    StepAt(states, events, i);
    var run := states[i].runs[events[i].uid];
    assert RunShown(states[i], events[i].uid);
    TalliedCounts(run.panels, run.results, |run.results|);
  }

  /** A complete result is never rewritten; an error only by a panic of the same run after its fail
      call, which leaves it an error without an archive. */
  lemma {:induction false} ResultRewrittenOnlyByPanic(s: System, e: Event, t: System, u: Uid)
    requires Inv(s) && Step(s, e, t) && u in s.endings
    ensures u in t.endings && t.endings[u].state == s.endings[u].state
    ensures t.endings[u].archive == s.endings[u].archive || s.endings[u].state == Error
    ensures t.endings[u] != s.endings[u] ==> s.endings[u].state == Error && e.Panic? && e.uid == u
  {
    assert EndingShown(s, u);
  }

  ghost predicate HasEnding(s: System, u: Uid, ending: Ending, creator: Requester) {
    u in s.endings && u in s.runs && s.endings[u] == ending && s.runs[u].creator == creator
  }

  lemma {:induction false} EndingBegins(s: System, e: Event, t: System)
    requires Inv(s) && Step(s, e, t) && e.Complete?
    ensures HasEnding(t, e.uid, Ending(e.now, JobState.Complete, e.archive, ""), s.runs[e.uid].creator)
  {
    assert RunShown(s, e.uid);
  }

  lemma {:induction false} EndingStays(s: System, e: Event, t: System, u: Uid, ending: Ending, creator: Requester)
    requires Inv(s) && Step(s, e, t) && HasEnding(s, u, ending, creator)
    requires ending.state == JobState.Complete
    ensures HasEnding(t, u, ending, creator)
  {
    assert EndingShown(s, u);
  }

  lemma {:induction false} StepAt(states: seq<System>, events: seq<Event>, i: nat)
    requires Execution(states, events) && i < |events|
    ensures Inv(states[i]) && Step(states[i], events[i], states[i + 1])
  {
    Reached(states, events, i);
  }

  /** What a completion wrote is its run's last word. */
  lemma {:induction false} EndingLasts(states: seq<System>, events: seq<Event>, k: nat, j: nat)
    requires Execution(states, events) && k < j <= |events| && events[k].Complete?
    ensures events[k].uid in states[k].runs
    ensures HasEnding(states[j], events[k].uid, Ending(events[k].now, JobState.Complete, events[k].archive, ""),
                      states[k].runs[events[k].uid].creator)
  {
    var e := events[k];
    StepAt(states, events, k);
    if j == k + 1 {
      EndingBegins(states[k], e, states[k + 1]);
    } else {
      var i := j - 1;
      EndingLasts(states, events, k, i);
      StepAt(states, events, i);
      EndingStays(states[i], events[i], states[i + 1], e.uid,
                  Ending(e.now, JobState.Complete, e.archive, ""), states[k].runs[e.uid].creator);
    }
  }

  /** Once a run has completed, its archive is what a requester of its creator's organisation and uid
      downloads, and nobody else gets anything, until an hour has passed or a hundred other runs have
      ended no earlier. */
  lemma {:induction false} ArchiveStaysAvailable(states: seq<System>, events: seq<Event>, k: nat, j: nat, r: Requester)
    requires Execution(states, events) && k < j <= |events| && events[k].Complete?
    ensures events[k].uid in states[k].runs && events[k].uid in states[j].endings
    ensures var d := ArchiveIn(states[j].store, events[k].uid, r);
            var creator := states[k].runs[events[k].uid].creator;
            && (d.Found? ==>
                  && d == Found(events[k].archive, JobState.Complete)
                  && r.uid != "" && r.uid == creator.uid && r.orgID == creator.orgID)
            && ((&& r.uid != "" && r.uid == creator.uid && r.orgID == creator.orgID
                 && states[j].clock - events[k].now <= 3_600_000_000_000
                 && |EndedSince(states[j], events[k].uid)| < 100) ==> d.Found?)
  {
    var u, s := events[k].uid, states[j];
    EndingLasts(states, events, k, j);
    Reached(states, events, j);
    ToldIff(s.store, u, r);
    if u in s.store {
      assert JobShown(s, u) && ResultShown(s, u);
    } else {
      assert MayBeLost(s, u);
    }
  }

  /** A run is what its accepted start made it. */
  lemma {:induction false} RunHasStart(states: seq<System>, events: seq<Event>, j: nat, u: Uid)
    returns (i: nat)
    requires Execution(states, events) && j <= |events| && u in states[j].runs
    ensures i < j
    ensures var run := states[j].runs[u];
            events[i] == Start(u, run.creator, run.panels, run.startedAt)
  {
    var k := j - 1;
    StepAt(states, events, k);
    if u in states[k].runs {
      i := RunHasStart(states, events, k, u);
    } else {
      i := k;
    }
  }

  /** What the status endpoint tells in any reachable state: the creator alone sees the run that was
      started, with as many panels as were posted; while it is pending, as many done as have run or
      been skipped; once it is complete, all of them; and of an error, the message of its ending. */
  lemma {:induction false} SnapshotIsTrue(
    states: seq<System>, events: seq<Event>, i: nat, u: Uid, r: Requester)
    requires Execution(states, events) && i <= |events| && SnapshotIn(states[i].store, u, r).Some?
    ensures u in states[i].runs
    ensures var shown, s := SnapshotIn(states[i].store, u, r).value, states[i];
            var run := s.runs[u];
            && r.uid != "" && r.uid == run.creator.uid && r.orgID == run.creator.orgID
            && shown.uid == u && shown.createdAt == run.startedAt && shown.panelsTotal == |run.panels|
            && match shown.state
               case Pending => Holds(run.phase) && shown.panelsDone == |run.results| && shown.err == ""
               case Complete =>
                 run.phase.Exited? && shown.panelsDone == |run.panels| && shown.err == ""
               case Error => u in s.endings && s.endings[u].state == Error && shown.err == s.endings[u].err
  {
    Reached(states, events, i);
    var s := states[i];
    ToldIff(s.store, u, r);
    assert JobShown(s, u) && ResultShown(s, u) && RunShown(s, u);
    assert u in s.endings ==> EndingShown(s, u);
  }

  /** After a step that prunes, no finished job older than an hour is left. */
  lemma {:induction false} NothingStaleAfterPrune(s: System, e: Event, t: System, u: Uid)
    requires Inv(s) && Step(s, e, t) && u in TerminalIds(t.store)
    requires (e.Start? && e.uid in t.runs) || e.Complete? || e.Fail? || (e.Panic? && e.uid in s.store)
    ensures t.clock - t.store[u].finishedAt <= 3_600_000_000_000
  {
    match e
    case Start(uid, creator, panels, now) =>
      StaleIsPruned(s.store[uid := NewJob(uid, |panels|, creator, now)], now, t.store, u);
    case Complete(uid, archive, now) =>
      assert RunShown(s, uid);
      StaleIsPruned(s.store[uid := Completed(s.store[uid], archive, now)], now, t.store, u);
    case Fail(uid, err, now) =>
      assert RunShown(s, uid);
      StaleIsPruned(s.store[uid := Failed(s.store[uid], err, now)], now, t.store, u);
    case Panic(uid, err, now) =>
      StaleIsPruned(s.store[uid := Failed(s.store[uid], err, now)], now, t.store, u);
    case _ =>
  }

  lemma {:induction false} StaleIsPruned(mid: Store, now: Time, after: Store, u: Uid)
    requires PruneRel(mid, now, after) && u in TerminalIds(after)
    ensures now - after[u].finishedAt <= 3_600_000_000_000
  {
    assert u in Retained(mid, now);
  }

  predicate EndsRun(e: Event, u: Uid) {
    (e.Complete? || e.Fail? || e.Panic?) && e.uid == u
  }

  /** What a terminal call writes. */
  function EndingOf(e: Event): Ending
    requires e.Complete? || e.Fail? || e.Panic?
  {
    if e.Complete? then Ending(e.now, JobState.Complete, e.archive, "") else Ending(e.now, Error, [], e.err)
  }

  /** The runs EndedSince counts really ended at a terminal call of theirs. */
  lemma {:induction false} EndingHasEvent(states: seq<System>, events: seq<Event>, j: nat, v: Uid)
    returns (i: nat)
    requires Execution(states, events) && j <= |events| && v in states[j].endings
    ensures i < j && EndsRun(events[i], v) && EndingOf(events[i]) == states[j].endings[v]
  {
    assert Step(states[j - 1], events[j - 1], states[j]) by {
      assert j > 0;
    }
    if EndsRun(events[j - 1], v) && states[j].endings[v] == EndingOf(events[j - 1]) {
      i := j - 1;
    } else {
      i := EndingHasEvent(states, events, j - 1, v);
    }
  }

  predicate Timed(e: Event) {
    e.Start? || e.Complete? || e.Fail? || e.Panic?
  }

  ghost predicate StrictClock(events: seq<Event>) {
    forall a, b | 0 <= a < b < |events| && Timed(events[a]) && Timed(events[b]) ::
      events[a].now < events[b].now
  }

  /** With a clock that moves on at every timed event, the runs that ended no earlier than u's
      completion at event k ended after event k. */
  lemma {:induction false} EndedSinceMeansLater(states: seq<System>, events: seq<Event>, k: nat, j: nat, v: Uid)
    returns (i: nat)
    requires Execution(states, events) && k < j <= |events|
    requires StrictClock(events) && events[k].Complete?
    requires events[k].uid in states[j].endings && v in EndedSince(states[j], events[k].uid)
    ensures k < i < j && EndsRun(events[i], v)
  {
    EndingLasts(states, events, k, j);
    i := EndingHasEvent(states, events, j, v);
    assert Timed(events[i]) && Timed(events[k]);
  }
}
