/** The tallies of the smoke runner (upstream/scripts/cuj-smoke.ts).

    What the browser does in a run is an input: how the first attempt ends, whether the login can be
    refreshed, how the second attempt ends. */
module SmokeTally {
  import opened Common

  // ---- tallies, on values -----------------------------------------------------------------------

  type Tally = map<string, nat>

  /** Outcome counts by scenario, and those by journey. */
  type ByScenario = map<string, Tally>
  type ByJourney = map<string, ByScenario>

  datatype Tallies = Tallies(byOutcome: Tally, byJourney: ByJourney)

  datatype Record = Record(journey: string, scenario: string, outcome: string)

  function CountOf(t: Tally, outcome: string): nat {
    if outcome in t then t[outcome] else 0
  }

  function ScenarioOf(s: ByScenario, scenario: string): Tally {
    if scenario in s then s[scenario] else map[]
  }

  function JourneyOf(j: ByJourney, journey: string): ByScenario {
    if journey in j then j[journey] else map[]
  }

  function Bumped(t: Tally, outcome: string): Tally {
    t[outcome := CountOf(t, outcome) + 1]
  }

  function InScenario(s: ByScenario, scenario: string, outcome: string): ByScenario {
    s[scenario := Bumped(ScenarioOf(s, scenario), outcome)]
  }

  function InJourney(j: ByJourney, r: Record): ByJourney {
    j[r.journey := InScenario(JourneyOf(j, r.journey), r.scenario, r.outcome)]
  }

  function Recorded(t: Tallies, r: Record): Tallies {
    Tallies(Bumped(t.byOutcome, r.outcome), InJourney(t.byJourney, r))
  }

  function TallyAll(log: seq<Record>): Tallies {
    if log == [] then Tallies(map[], map[])
    else Recorded(TallyAll(log[..|log| - 1]), log[|log| - 1])
  }

  // ---- the maps of the summary ------------------------------------------------------------------

  class Counts {
    var entries: Tally

    constructor ()
      ensures entries == map[]
    {
      entries := map[];
    }

    method Increment(outcome: string)
      modifies this
      ensures entries == Bumped(old(entries), outcome)
    {
      entries := entries[outcome := CountOf(entries, outcome) + 1];
    }
  }

  class Scenarios {
    var entries: map<string, Counts>
    ghost var model: ByScenario
    ghost var Repr: set<object>

    ghost predicate Counted(s: string)
      requires s in entries && s in model
      reads this, Repr
    {
      entries[s] in Repr && entries[s].entries == model[s]
    }

    /** The map shows its model, and no two scenarios share a map. */
    ghost predicate Valid()
      reads this, Repr
    {
      && this in Repr && model.Keys == entries.Keys
      && (forall s | s in entries :: Counted(s))
      && (forall s, t | s in entries && t in entries && s != t :: entries[s] != entries[t])
    }

    constructor ()
      ensures Valid() && fresh(Repr) && model == map[]
    {
      entries := map[];
      model := map[];
      Repr := {this};
    }

    method Increment(scenario: string, outcome: string)
      requires Valid()
      modifies Repr
      ensures Valid() && fresh(Repr - old(Repr))
      ensures model == InScenario(old(model), scenario, outcome)
    {
      var perScenario;
      if scenario in entries {
        perScenario := entries[scenario];
      } else {
        perScenario := new Counts();
      }
      assert perScenario.entries == ScenarioOf(model, scenario);
      perScenario.Increment(outcome);
      entries := entries[scenario := perScenario];
      model := InScenario(model, scenario, outcome);
      Repr := Repr + {perScenario};
    }
  }

  /** The map has that footprint and that model. */
  ghost predicate Shows(m: Scenarios, repr: set<object>, model: ByScenario)
    reads m, repr
  {
    m.Repr == repr && m.Valid() && m.model == model
  }

  class Summary {
    const total: real
    const byOutcome: Counts
    var byJourney: map<string, Scenarios>
    var totalDurationMs: int
    var failures: seq<Failure>
    ghost var model: ByJourney
    ghost var Repr: set<object>
    ghost var reprs: map<string, set<object>>

    ghost predicate Keyed()
      reads this`byJourney, this`model, this`Repr, this`reprs
    {
      && this !in Repr && byOutcome in Repr && model.Keys == byJourney.Keys == reprs.Keys
      && Apart(reprs) && Inside(reprs, Repr - {byOutcome})
      && (forall j | j in byJourney :: byJourney[j] in reprs[j])
    }

    /** The maps of all journeys but one show the model. */
    ghost predicate ValidBut(journey: string)
      reads this`byJourney, this`model, this`Repr, this`reprs, Repr
    {
      Keyed() && forall j | j in byJourney && j != journey :: Shows(byJourney[j], reprs[j], model[j])
    }

    /** The map of a journey is apart from all the others. */
    ghost predicate Fits(journey: string, m: Scenarios)
      reads this, m
    {
      && this !in m.Repr && byOutcome !in m.Repr
      && forall j | j in reprs && j != journey :: reprs[j] !! m.Repr
    }

    /** The maps show the model, and no two journeys share one. */
    ghost predicate Valid()
      reads this`byJourney, this`model, this`Repr, this`reprs, Repr
    {
      Keyed() && forall j | j in byJourney :: Shows(byJourney[j], reprs[j], model[j])
    }

    ghost function Contents(): Tallies
      reads this`model, byOutcome
    {
      Tallies(byOutcome.entries, model)
    }

    constructor (total: real)
      ensures Valid() && fresh(Repr) && Contents() == Tallies(map[], map[])
      ensures this.total == total && totalDurationMs == 0 && failures == []
    {
      this.total := total;
      byOutcome := new Counts();
      byJourney := map[];
      totalDurationMs := 0;
      failures := [];
      model := map[];
      reprs := map[];
      new;
      Repr := {byOutcome};
    }

    /** The end of the loop's body. */
    method RecordEnd(journey: string, scenario: string, outcome: string, durationMs: int)
      requires Valid()
      modifies this, Repr
      ensures Valid() && fresh(Repr - old(Repr))
      ensures Contents() == Recorded(old(Contents()), Record(journey, scenario, outcome))
      ensures totalDurationMs == old(totalDurationMs) + durationMs && failures == old(failures)
    {
      RecordOutcome(journey, scenario, outcome);
      totalDurationMs := totalDurationMs + durationMs;
    }

    /** recordOutcome */
    method RecordOutcome(journey: string, scenario: string, outcome: string)
      requires Valid()
      modifies this`byJourney, this`model, this`Repr, this`reprs, Repr
      ensures Valid() && fresh(Repr - old(Repr))
      ensures Contents() == Recorded(old(Contents()), Record(journey, scenario, outcome))
    {
      byOutcome.Increment(outcome);
      RecordNested(journey, Record(journey, scenario, outcome));
    }

    /** Its nested half. */
    method RecordNested(journey: string, r: Record)
      requires Valid() && r.journey == journey
      modifies this`byJourney, this`model, this`Repr, this`reprs, Repr - {byOutcome}
      ensures Valid() && fresh(Repr - old(Repr))
      ensures model == InJourney(old(model), r)
    {
      var perJourney := FindOrMake(journey);
      Bump(journey, perJourney, r);
      Install(journey, perJourney);
    }

    method Bump(journey: string, perJourney: Scenarios, r: Record)
      requires ValidBut(journey) && Fits(journey, perJourney) && perJourney.Valid()
      modifies perJourney.Repr
      ensures ValidBut(journey) && Fits(journey, perJourney) && perJourney.Valid()
      ensures fresh(perJourney.Repr - old(perJourney.Repr))
      ensures perJourney.model == InScenario(old(perJourney.model), r.scenario, r.outcome)
    {
      perJourney.Increment(r.scenario, r.outcome);
    }

    method FindOrMake(journey: string) returns (perJourney: Scenarios)
      requires Valid()
      ensures perJourney.Valid() && perJourney.model == JourneyOf(model, journey)
      ensures Fits(journey, perJourney) && ValidBut(journey)
      ensures perJourney.Repr <= Repr || fresh(perJourney.Repr)
    {
      if journey in byJourney {
        perJourney := byJourney[journey];
      } else {
        perJourney := new Scenarios();
      }
    }

    method Install(journey: string, perJourney: Scenarios)
      requires ValidBut(journey) && Fits(journey, perJourney) && perJourney.Valid()
      modifies this`byJourney, this`model, this`Repr, this`reprs
      ensures Valid() && Repr == old(Repr) + perJourney.Repr
      ensures model == old(model)[journey := perJourney.model]
    {
      FootprintsUpdated(reprs, Repr, journey, perJourney.Repr, byOutcome);
      byJourney, model, Repr, reprs :=
        byJourney[journey := perJourney], model[journey := perJourney.model], Repr + perJourney.Repr,
        reprs[journey := perJourney.Repr];
      assert Shows(perJourney, perJourney.Repr, perJourney.model);
      forall j | j in byJourney && j != journey ensures Shows(byJourney[j], reprs[j], model[j]) {
        assert old(Shows(byJourney[j], reprs[j], model[j]));
      }
    }
  }

  lemma {:induction false} FootprintsUpdated(
    reprs: map<string, set<object>>, all: set<object>, journey: string, repr: set<object>, o: object)
    requires Apart(reprs) && Inside(reprs, all - {o}) && o !in repr
    requires forall j | j in reprs && j != journey :: reprs[j] !! repr
    ensures Apart(reprs[journey := repr]) && Inside(reprs[journey := repr], all + repr - {o})
  {
  }

  ghost predicate Inside(reprs: map<string, set<object>>, all: set<object>) {
    forall j | j in reprs :: reprs[j] <= all
  }

  /** No two journeys' maps have anything in common. */
  ghost predicate Apart(reprs: map<string, set<object>>) {
    forall j, k | j in reprs && k in reprs && j != k :: reprs[j] !! reprs[k]
  }

  datatype Failure = Failure(run: nat, journey: string, scenario: string, postReauth: bool, message: string)

  // ---- the runs ---------------------------------------------------------------------------------

  /** How an attempt ends: with the journey's end, at the login page, or with another error. The
      outcome is what follows " -> " in the logged context, None when nothing does. */
  datatype Attempt =
    | Ended(outcome: Option<string>, durationMs: int)
    | Expired(landedAt: string)
    | Broke(message: string)

  /** One run of the loop: what it would meet. reauth is None when the login cannot be refreshed. */
  datatype Run = Run(journey: string, scenario: string, first: Attempt, reauth: Option<Attempt>)

  datatype Settled = Completed(outcome: string, durationMs: int) | Failed(postReauth: bool, message: string) | Aborts

  /** The message of a SessionExpiredError. */
  function ExpiredMessage(landedAt: string): string {
    "session expired (landed at " + landedAt + ")"
  }

  /** How a run counts. One without an outcome ends the program: the line printed for it pads the
      outcome, which fails outside the try. */
  function Settle(r: Run): Settled {
    match r.first
    case Ended(Some(o), d) => Completed(o, d)
    case Ended(None, _) => Aborts
    case Broke(m) => Failed(false, m)
    case Expired(_) =>
      match r.reauth
      case None => Aborts
      case Some(Ended(Some(o), d)) => Completed(o, d)
      case Some(Ended(None, _)) => Aborts
      case Some(Broke(m)) => Failed(true, m)
      case Some(Expired(at)) => Failed(true, ExpiredMessage(at))
  }

  function LogOf(runs: seq<Run>): seq<Record> {
    if runs == [] then []
    else
      var init, r := LogOf(runs[..|runs| - 1]), runs[|runs| - 1];
      match Settle(r)
      case Completed(o, _) => init + [Record(r.journey, r.scenario, o)]
      case _ => init
  }

  function DurationOf(runs: seq<Run>): int {
    if runs == [] then 0
    else
      DurationOf(runs[..|runs| - 1])
      + match Settle(runs[|runs| - 1]) case Completed(_, d) => d case _ => 0
  }

  function FailuresOf(runs: seq<Run>): seq<Failure> {
    if runs == [] then []
    else
      var init, r := FailuresOf(runs[..|runs| - 1]), runs[|runs| - 1];
      match Settle(r)
      case Failed(post, m) => init + [Failure(|runs|, r.journey, r.scenario, post, m)]
      case _ => init
  }

  predicate NoneAborts(runs: seq<Run>) {
    forall k | 0 <= k < |runs| :: Settle(runs[k]) != Aborts
  }

  /** The summary after the runs. */
  ghost predicate Sums(s: Summary, runs: seq<Run>)
    reads s, s.byOutcome
  {
    SumUp(s.Contents(), s.totalDurationMs, s.failures, runs)
  }

  ghost predicate SumUp(t: Tallies, durationMs: int, failures: seq<Failure>, runs: seq<Run>) {
    t == TallyAll(LogOf(runs)) && durationMs == DurationOf(runs) && failures == FailuresOf(runs)
  }

  /** The first n runs of a supply. */
  function Taken(supply: nat -> Run, n: nat): (runs: seq<Run>)
    ensures |runs| == n
  {
    seq(n, k requires 0 <= k < n => supply(k))
  }

  /** main, from the number of runs asked for on: parseArgs refuses less than one, then the loop runs.
      An error of the login's refresh or a run without an outcome ends the program without a summary.
      passes is how often the loop's body ran to its end. */
  method RunAll(requested: real, supply: nat -> Run)
    returns (summary: Option<Summary>, exitCode: nat, ghost passes: nat)
    ensures summary.Some? <==> requested >= 1.0 && NoneAborts(Taken(supply, requested.Floor))
    ensures summary.Some? ==>
              && passes == requested.Floor && summary.value.total == requested
              && Sums(summary.value, Taken(supply, requested.Floor))
              && (exitCode == 0 <==> FailuresOf(Taken(supply, requested.Floor)) == [])
    ensures summary.None? ==> exitCode == 1
  {
    passes := 0;
    if requested < 1.0 {
      return None, 1, passes;
    }
    var s := new Summary(requested);
    var i := 1;
    while i as real <= requested
      invariant i == passes + 1 && passes as real <= requested
      invariant s.Valid() && fresh(s) && fresh(s.Repr)
      invariant s.total == requested && Sums(s, Taken(supply, passes))
      invariant NoneAborts(Taken(supply, passes))
      decreases requested.Floor - i
    {
      var done := NextRun(s, i, supply, passes);
      if !done {
        TakenPrefix(supply, passes, requested.Floor);
        return None, 1, passes;
      }
      i, passes := i + 1, passes + 1;
    }
    assert passes == requested.Floor;
    return Some(s), if |s.failures| > 0 then 1 else 0, passes;
  }

  method NextRun(summary: Summary, i: nat, supply: nat -> Run, ghost n: nat) returns (done: bool)
    requires summary.Valid() && i == n + 1
    requires Sums(summary, Taken(supply, n)) && NoneAborts(Taken(supply, n))
    modifies summary, summary.Repr
    ensures done <==> Settle(supply(n)) != Aborts
    ensures summary.Valid() && fresh(summary.Repr - old(summary.Repr))
    ensures done ==> Sums(summary, Taken(supply, n + 1)) && NoneAborts(Taken(supply, n + 1))
  {
    OneMoreTaken(supply, n);
    done := OneRun(summary, i, supply(i - 1), Taken(supply, n));
  }

  lemma {:induction false} OneMoreTaken(supply: nat -> Run, n: nat)
    ensures Taken(supply, n + 1) == Taken(supply, n) + [supply(n)]
  {
  }

  lemma {:induction false} TakenPrefix(supply: nat -> Run, k: nat, n: nat)
    requires k < n && Settle(supply(k)) == Aborts
    ensures !NoneAborts(Taken(supply, n))
  {
    assert Taken(supply, n)[k] == supply(k);
  }

  method OneRun(summary: Summary, i: nat, run: Run, ghost before: seq<Run>) returns (done: bool)
    requires summary.Valid() && Sums(summary, before) && i == |before| + 1
    modifies summary, summary.Repr
    ensures done <==> Settle(run) != Aborts
    ensures summary.Valid() && fresh(summary.Repr - old(summary.Repr))
    ensures done ==> Sums(summary, before + [run])
  {
    var end := run.first;
    if end.Expired? {
      if run.reauth == None {
        return false;
      }
      end := run.reauth.value;
      if !end.Ended? {
        var message := if end.Broke? then end.message else ExpiredMessage(end.landedAt);
        NoteFailure(summary, i, run, true, message, before);
        return true;
      }
    } else if end.Broke? {
      NoteFailure(summary, i, run, false, end.message, before);
      return true;
    }
    if end.outcome == None {
      return false;
    }
    NoteEnd(summary, run, end.outcome.value, end.durationMs, before);
    return true;
  }

  method NoteFailure(
    summary: Summary, i: nat, run: Run, postReauth: bool, message: string, ghost before: seq<Run>)
    requires summary.Valid() && Sums(summary, before) && i == |before| + 1
    requires Settle(run) == Failed(postReauth, message)
    modifies summary`failures
    ensures summary.Valid() && Sums(summary, before + [run])
  {
    OneMoreRun(before, run);
    summary.failures := summary.failures + [Failure(i, run.journey, run.scenario, postReauth, message)];
  }

  method NoteEnd(summary: Summary, run: Run, outcome: string, durationMs: int, ghost before: seq<Run>)
    requires summary.Valid() && Sums(summary, before)
    requires Settle(run) == Completed(outcome, durationMs)
    modifies summary, summary.Repr
    ensures summary.Valid() && fresh(summary.Repr - old(summary.Repr))
    ensures Sums(summary, before + [run])
  {
    EndSumsUp(summary.Contents(), summary.totalDurationMs, summary.failures, before, run);
    summary.RecordEnd(run.journey, run.scenario, outcome, durationMs);
  }

  lemma {:induction false} EndSumsUp(
    t: Tallies, durationMs: int, failures: seq<Failure>, before: seq<Run>, run: Run)
    requires Settle(run).Completed? && SumUp(t, durationMs, failures, before)
    ensures SumUp(Recorded(t, Record(run.journey, run.scenario, Settle(run).outcome)),
                  durationMs + Settle(run).durationMs, failures, before + [run])
  {
    OneMoreRun(before, run);
  }

  /** The attempt a run is counted by: the first, or the second when the first met an expired session
      and the login could be refreshed. */
  predicate CountedBy(r: Run, a: Attempt, second: bool) {
    if r.first.Expired? then second && r.reauth == Some(a) else !second && a == r.first
  }

  /** What a run counts as, by the attempt it is counted by: an end once, under its outcome and with
      its duration; an error or a session expired again as one failure, said to be after the refresh
      if it was the second attempt. */
  lemma {:induction false} RunCounts(before: seq<Run>, r: Run, a: Attempt, second: bool)
    requires CountedBy(r, a, second)
    ensures var runs := before + [r];
            match a
            case Ended(Some(outcome), durationMs) =>
              && LogOf(runs) == LogOf(before) + [Record(r.journey, r.scenario, outcome)]
              && DurationOf(runs) == DurationOf(before) + durationMs
              && FailuresOf(runs) == FailuresOf(before)
            case Ended(None, _) => Settle(r) == Aborts
            case Broke(message) =>
              && LogOf(runs) == LogOf(before) && DurationOf(runs) == DurationOf(before)
              && FailuresOf(runs) ==
                 FailuresOf(before) + [Failure(|before| + 1, r.journey, r.scenario, second, message)]
            case Expired(landedAt) =>
              && second
              && LogOf(runs) == LogOf(before) && DurationOf(runs) == DurationOf(before)
              && FailuresOf(runs) ==
                 FailuresOf(before)
                 + [Failure(|before| + 1, r.journey, r.scenario, true,
                            "session expired (landed at " + landedAt + ")")]
  {
    assert (before + [r])[..|before|] == before;
  }

  /** A run ends the program exactly when the refresh fails, or when the attempt it is counted by ends
      without an outcome. */
  lemma {:induction false} AbortsIff(r: Run)
    ensures Settle(r) == Aborts <==>
              || (r.first.Expired? && r.reauth == None)
              || (exists d :: CountedBy(r, Ended(None, d), r.first.Expired?))
  {
    if r.first.Ended? && r.first.outcome == None {
      assert CountedBy(r, Ended(None, r.first.durationMs), false);
    }
    if r.first.Expired? && r.reauth.Some? && r.reauth.value.Ended? && r.reauth.value.outcome == None {
      assert CountedBy(r, Ended(None, r.reauth.value.durationMs), true);
    }
  }

  /** What one more run adds to the sums. */
  lemma {:induction false} OneMoreRun(before: seq<Run>, run: Run)
    requires Settle(run) != Aborts
    ensures var runs := before + [run];
            match Settle(run)
            case Completed(o, d) =>
              && TallyAll(LogOf(runs)) ==
                 Recorded(TallyAll(LogOf(before)), Record(run.journey, run.scenario, o))
              && DurationOf(runs) == DurationOf(before) + d && FailuresOf(runs) == FailuresOf(before)
            case Failed(post, m) =>
              && LogOf(runs) == LogOf(before) && DurationOf(runs) == DurationOf(before)
              && FailuresOf(runs) ==
                 FailuresOf(before) + [Failure(|runs|, run.journey, run.scenario, post, m)]
  {
    assert (before + [run])[..|before|] == before;
    if Settle(run).Completed? {
      RecordedNext(LogOf(before), Record(run.journey, run.scenario, Settle(run).outcome));
    }
  }

  lemma {:induction false} RecordedNext(log: seq<Record>, r: Record)
    ensures TallyAll(log + [r]) == Recorded(TallyAll(log), r)
  {
    assert (log + [r])[..|log|] == log;
  }

  // ---- what the tallies count -------------------------------------------------------------------

  function Times(log: seq<Record>, r: Record): nat {
    if log == [] then 0
    else Times(log[..|log| - 1], r) + if log[|log| - 1] == r then 1 else 0
  }

  function TimesOutcome(log: seq<Record>, outcome: string): nat {
    if log == [] then 0
    else TimesOutcome(log[..|log| - 1], outcome) + if log[|log| - 1].outcome == outcome then 1 else 0
  }

  function NestedCount(j: ByJourney, r: Record): nat {
    CountOf(ScenarioOf(JourneyOf(j, r.journey), r.scenario), r.outcome)
  }

  /** Each nested count is the number of completed runs of that journey, scenario and outcome, each
      flat one the number of completed runs of that outcome. */
  lemma {:induction false} CountsAreTrue(log: seq<Record>, r: Record)
    ensures NestedCount(TallyAll(log).byJourney, r) == Times(log, r)
    ensures CountOf(TallyAll(log).byOutcome, r.outcome) == TimesOutcome(log, r.outcome)
  {
    if log != [] {
      CountsAreTrue(log[..|log| - 1], r);
      OneRecordCounts(TallyAll(log[..|log| - 1]), log[|log| - 1], r);
    }
  }

  lemma {:induction false} OneRecordCounts(t: Tallies, next: Record, r: Record)
    ensures NestedCount(Recorded(t, next).byJourney, r) ==
            NestedCount(t.byJourney, r) + if next == r then 1 else 0
    ensures CountOf(Recorded(t, next).byOutcome, r.outcome) ==
            CountOf(t.byOutcome, r.outcome) + if next.outcome == r.outcome then 1 else 0
  {
  }

  // ---- sums over maps ---------------------------------------------------------------------------

  ghost function Sum(m: map<string, nat>): nat {
    if m == map[] then 0
    else
      var k :| k in m;
      m[k] + Sum(m - {k})
  }

  /** A sum may start with any entry. */
  lemma {:induction false} SumFrom(m: map<string, nat>, k: string)
    requires k in m
    ensures Sum(m) == m[k] + Sum(m - {k})
    decreases |m|
  {
    var first :| first in m && Sum(m) == m[first] + Sum(m - {first});
    if first != k {
      SumFrom(m - {first}, k);
      SumFrom(m - {k}, first);
      assert m - {first} - {k} == m - {k} - {first};
    }
  }

  lemma {:induction false} SumUpdated(m: map<string, nat>, k: string, v: nat)
    ensures Sum(m[k := v]) == Sum(m) - CountOf(m, k) + v
  {
    var n := m[k := v];
    SumFrom(n, k);
    if k in m {
      SumFrom(m, k);
      assert n - {k} == m - {k};
    } else {
      assert n - {k} == m;
    }
  }

  /** An outcome's counts by scenario, and its sums by journey. */
  function OutcomeByScenario(s: ByScenario, outcome: string): map<string, nat> {
    map k | k in s :: CountOf(s[k], outcome)
  }

  ghost function OutcomeByJourney(j: ByJourney, outcome: string): map<string, nat> {
    map k | k in j :: Sum(OutcomeByScenario(j[k], outcome))
  }

  /** The nested counts of an outcome over all journeys and scenarios. */
  ghost function NestedSum(j: ByJourney, outcome: string): nat {
    Sum(OutcomeByJourney(j, outcome))
  }

  lemma {:induction false} ScenarioAddsOne(s: ByScenario, scenario: string, next: string, outcome: string)
    ensures Sum(OutcomeByScenario(InScenario(s, scenario, next), outcome)) ==
            Sum(OutcomeByScenario(s, outcome)) + if next == outcome then 1 else 0
  {
    var m := OutcomeByScenario(s, outcome);
    var v := CountOf(Bumped(ScenarioOf(s, scenario), next), outcome);
    assert OutcomeByScenario(InScenario(s, scenario, next), outcome) == m[scenario := v];
    SumUpdated(m, scenario, v);
    assert v == CountOf(m, scenario) + if next == outcome then 1 else 0;
  }

  lemma {:induction false} OutcomeInJourney(j: ByJourney, next: Record, outcome: string)
    ensures OutcomeByJourney(InJourney(j, next), outcome) ==
            OutcomeByJourney(j, outcome)[next.journey :=
              Sum(OutcomeByScenario(
                InScenario(JourneyOf(j, next.journey), next.scenario, next.outcome), outcome))]
  {
  }

  lemma {:induction false} JourneyAddsOne(j: ByJourney, next: Record, outcome: string)
    ensures NestedSum(InJourney(j, next), outcome) ==
            NestedSum(j, outcome) + if next.outcome == outcome then 1 else 0
  {
    var m := OutcomeByJourney(j, outcome);
    var before := JourneyOf(j, next.journey);
    var after := InScenario(before, next.scenario, next.outcome);
    var v := Sum(OutcomeByScenario(after, outcome));
    OutcomeInJourney(j, next, outcome);
    SumUpdated(m, next.journey, v);
    ScenarioAddsOne(before, next.scenario, next.outcome, outcome);
    if next.journey !in j {
      assert OutcomeByScenario(before, outcome) == map[];
    }
  }

  /** For every outcome, the flat tally is the sum of the nested ones. */
  lemma {:induction false} FlatIsSumOfNested(log: seq<Record>, outcome: string)
    ensures CountOf(TallyAll(log).byOutcome, outcome) == NestedSum(TallyAll(log).byJourney, outcome)
  {
    if log == [] {
      assert OutcomeByJourney(map[], outcome) == map[];
    } else {
      var init, last := log[..|log| - 1], log[|log| - 1];
      FlatIsSumOfNested(init, outcome);
      JourneyAddsOne(TallyAll(init).byJourney, last, outcome);
    }
  }

  lemma {:induction false} FlatSumIsLength(log: seq<Record>)
    ensures Sum(TallyAll(log).byOutcome) == |log|
  {
    if log != [] {
      var init, last := log[..|log| - 1], log[|log| - 1];
      FlatSumIsLength(init);
      var flat := TallyAll(init).byOutcome;
      SumUpdated(flat, last.outcome, CountOf(flat, last.outcome) + 1);
    }
  }

  lemma {:induction false} RunsAddUp(runs: seq<Run>)
    requires NoneAborts(runs)
    ensures |LogOf(runs)| + |FailuresOf(runs)| == |runs|
  {
    if runs != [] {
      RunsAddUp(runs[..|runs| - 1]);
    }
  }

  /** What printSummary counts as completed: the sum of the flat tally's values. */
  method CountCompleted(t: Tally) returns (completed: nat)
    ensures completed == Sum(t)
  {
    completed := 0;
    var rest := t;
    while rest != map[]
      invariant completed + Sum(rest) == Sum(t)
      decreases |rest|
    {
      var k :| k in rest;
      SumFrom(rest, k);
      completed, rest := completed + rest[k], rest - {k};
    }
  }

  predicate IsWhole(x: real) {
    x == x.Floor as real
  }

  lemma {:induction false} NoFailures(runs: seq<Run>)
    requires forall k | 0 <= k < |runs| :: Settle(runs[k]).Completed?
    ensures FailuresOf(runs) == [] && NoneAborts(runs)
  {
    if runs != [] {
      NoFailures(runs[..|runs| - 1]);
    }
  }

  /** A summary's completed and failed runs are its printed number of runs rounded down, so they add
      up to the printed number exactly when a whole number of runs was asked for. */
  lemma {:induction false} CompletedAndFailed(s: Summary, supply: nat -> Run)
    requires s.total >= 1.0 && NoneAborts(Taken(supply, s.total.Floor))
    requires Sums(s, Taken(supply, s.total.Floor))
    ensures Sum(s.byOutcome.entries) + |s.failures| == s.total.Floor
    ensures (Sum(s.byOutcome.entries) + |s.failures|) as real == s.total <==>
              IsWhole(s.total)
  {
    var runs := Taken(supply, s.total.Floor);
    FlatSumIsLength(LogOf(runs));
    RunsAddUp(runs);
  }

  /** Two and a half runs: two are made, and two and a half printed. */
  method HalfARunIsPrinted() returns (s: Summary)
    ensures s.total == 2.5
    ensures Sum(s.byOutcome.entries) == 2 && |s.failures| == 0
  {
    var supply: nat -> Run := n => Run("search", "click", Ended(Some("success"), n), None);
    assert 2.5.Floor == 2;
    NoFailures(Taken(supply, 2));
    var summary, _, _ := RunAll(2.5, supply);
    s := summary.value;
    CompletedAndFailed(s, supply);
  }
}
