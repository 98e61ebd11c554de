/** The in-memory job store of the dashboard diagnostics endpoint
    (upstream/pkg/api/ds_query_dashboard_diagnostics.go).

    Every method of the store runs under one mutex, so each is one atomic step. The clock and the
    generated uid are arguments. Map iteration order and the order sort.Slice gives equal finish
    times are left open: what a prune does is the relation PruneRel. */
module DiagnosticsJobs {
  import opened Common

  type Uid = string
  type Time = int // nanoseconds
  type Bytes = seq<bv8>

  datatype JobState = Pending | Complete | Error

  /** The part of identity.Requester that ownership reads. */
  datatype Requester = Requester(orgID: int, uid: string)

  /** The value of one job record. */
  datatype JobVal = JobVal(
    uid: Uid,
    state: JobState,
    createdAt: Time,
    finishedAt: Time,
    panelsTotal: int,
    panelsDone: int,
    err: string,
    archive: Bytes,
    creator: Requester)

  /** The value of the whole store. */
  type Store = map<Uid, JobVal>

  const ZERO_TIME: Time := 0
  const RETENTION: Time := 3600 * 1_000_000_000
  const MAX_ENTRIES: nat := 100
  const MAX_IN_FLIGHT: nat := 4

  datatype Snapshot = Snapshot(
    uid: Uid, state: JobState, panelsTotal: int, panelsDone: int, err: string, createdAt: Time)

  datatype Download = NotFound | Found(archive: Bytes, state: JobState)

  // ---- what the store operations mean, on values ------------------------------------------------

  function PendingIds(s: Store): set<Uid> {
    set u | u in s && s[u].state == Pending
  }

  function TerminalIds(s: Store): set<Uid> {
    set u | u in s && s[u].state != Pending
  }

  predicate Expired(j: JobVal, now: Time) {
    now - j.finishedAt > RETENTION
  }

  /** The terminal jobs still inside their retention window. */
  function Retained(s: Store, now: Time): set<Uid> {
    set u | u in TerminalIds(s) && !Expired(s[u], now)
  }

  /** after is before without the expired terminal jobs and, beyond MAX_ENTRIES of the others,
      without the ones that finished first. Jobs that finished at the same instant may be evicted in
      either order. */
  ghost predicate PruneRel(before: Store, now: Time, after: Store) {
    && after.Keys <= before.Keys
    && (forall u | u in after :: after[u] == before[u])
    && PendingIds(before) <= after.Keys
    && TerminalIds(after) <= Retained(before, now)
    && |TerminalIds(after)| == Min(MAX_ENTRIES, |Retained(before, now)|)
    && (forall d, k | d in Retained(before, now) && d !in after && k in TerminalIds(after) ::
          before[d].finishedAt <= before[k].finishedAt)
  }

  function NewJob(uid: Uid, total: int, creator: Requester, now: Time): JobVal {
    JobVal(uid, Pending, now, ZERO_TIME, total, 0, "", [], creator)
  }

  ghost predicate CreateRel(
    before: Store, uid: Uid, total: int, creator: Requester, now: Time, ok: bool, after: Store)
  {
    if |PendingIds(before)| >= MAX_IN_FLIGHT then
      !ok && after == before
    else
      ok && PruneRel(before[uid := NewJob(uid, total, creator, now)], now, after)
  }

  function Progressed(before: Store, uid: Uid, done: int): Store {
    if uid in before then before[uid := before[uid].(panelsDone := done)] else before
  }

  function Completed(j: JobVal, archive: Bytes, now: Time): JobVal {
    j.(state := Complete, archive := archive, finishedAt := now)
  }

  function Failed(j: JobVal, err: string, now: Time): JobVal {
    j.(state := Error, err := err, finishedAt := now)
  }

  ghost predicate CompleteRel(before: Store, uid: Uid, archive: Bytes, now: Time, after: Store) {
    if uid in before then PruneRel(before[uid := Completed(before[uid], archive, now)], now, after)
    else after == before
  }

  ghost predicate FailRel(before: Store, uid: Uid, err: string, now: Time, after: Store) {
    if uid in before then PruneRel(before[uid := Failed(before[uid], err, now)], now, after)
    else after == before
  }

  predicate OwnedBy(creator: Requester, requester: Requester) {
    if requester.uid == "" || creator.uid == "" then false
    else creator.orgID == requester.orgID && creator.uid == requester.uid
  }

  function ArchiveIn(s: Store, uid: Uid, requester: Requester): Download {
    if uid !in s || !OwnedBy(s[uid].creator, requester) then NotFound
    else Found(s[uid].archive, s[uid].state)
  }

  function SnapshotIn(s: Store, uid: Uid, requester: Requester): Option<Snapshot> {
    if uid !in s || !OwnedBy(s[uid].creator, requester) then None
    else
      var j := s[uid];
      Some(Snapshot(j.uid, j.state, j.panelsTotal, j.panelsDone, j.err, j.createdAt))
  }

  /** Who is told of a job: the same organisation and the same uid, and that not empty. Everybody else
      gets what an unknown uid gets. */
  lemma {:induction false} ToldIff(s: Store, u: Uid, r: Requester)
    ensures ArchiveIn(s, u, r) ==
            if u in s && r.uid != "" && s[u].creator.uid == r.uid && s[u].creator.orgID == r.orgID
            then Found(s[u].archive, s[u].state) else NotFound
    ensures SnapshotIn(s, u, r).Some? <==>
              u in s && r.uid != "" && s[u].creator.uid == r.uid && s[u].creator.orgID == r.orgID
  {
  }

  /** For instance, another admin of the same organisation. */
  lemma {:induction false} ColleagueIsNotTold(s: Store, u: Uid)
    requires u in s && s[u].creator == Requester(1, "alice")
    ensures ArchiveIn(s, u, Requester(1, "bob")) == NotFound
    ensures SnapshotIn(s, u, Requester(1, "bob")) == None
  {
    ToldIff(s, u, Requester(1, "bob"));
  }

  // ---- facts about pruning ----------------------------------------------------------------------

  lemma {:induction false} SubsetOfSameSize<T>(a: set<T>, b: set<T>)
    requires a <= b && |a| >= |b|
    ensures a == b
  {
    assert b == a + (b - a);
  }

  lemma {:induction false} Without<T>(a: set<T>, b: set<T>, x: T)
    requires x in b
    ensures a - (b - {x}) == if x in a then (a - b) + {x} else a - b
  {
  }

  lemma {:induction false} SubsetSize<T>(a: set<T>, b: set<T>)
    requires a <= b
    ensures |a| <= |b|
  {
    assert b == a + (b - a);
  }

  lemma {:induction false} CountedWithout<T>(a: set<T>, b: set<T>, x: T)
    requires x in b
    ensures |a - (b - {x})| == |a - b| + if x in a then 1 else 0
  {
    Without(a, b, x);
  }

  lemma {:induction false} InsteadOf<T>(a: set<T>, b: set<T>, d: T) returns (e: T)
    requires |a| == |b| && d in a && d !in b
    ensures e in b && e !in a
  {
    if b <= a {
      SubsetOfSameSize(b, a);
      assert false;
    }
    e :| e in b && e !in a;
  }

  /** No terminal job that survives a prune finished before an unexpired job that did not, and with
      distinct finish times the prune has exactly one outcome. */
  lemma {:induction false} PruneIsDetermined(before: Store, now: Time, b: Store, c: Store)
    requires PruneRel(before, now, b) && PruneRel(before, now, c)
    requires forall u, v | u in Retained(before, now) && v in Retained(before, now) && u != v ::
               before[u].finishedAt != before[v].finishedAt
    ensures b == c
  {
    var tb, tc := TerminalIds(b), TerminalIds(c);
    if d :| d in tb && d !in tc {
      var e := InsteadOf(tb, tc, d);
      assert false;
    }
    SubsetOfSameSize(tb, tc);
    forall u ensures u in b <==> u in c {
      assert u in b ==> u in PendingIds(before) || u in tb;
      assert u in c ==> u in PendingIds(before) || u in tc;
    }
    assert b.Keys == c.Keys;
  }

  /** A job the prune takes away for any reason but age leaves MAX_ENTRIES others behind, none of
      which finished earlier. */
  lemma {:induction false} EvictedForSpace(before: Store, now: Time, after: Store, u: Uid)
    requires PruneRel(before, now, after)
    requires u in before && u !in after && !Expired(before[u], now)
    ensures before[u].state != Pending
    ensures |TerminalIds(after)| == 100
    ensures forall k | k in TerminalIds(after) :: before[u].finishedAt <= before[k].finishedAt
  {
    assert u !in PendingIds(before);
    assert u in Retained(before, now) && u !in TerminalIds(after);
    if |TerminalIds(after)| != MAX_ENTRIES {
      SubsetOfSameSize(TerminalIds(after), Retained(before, now));
      assert false;
    }
  }

  // ---- the store itself -------------------------------------------------------------------------

  class Job {
    const uid: Uid
    const createdAt: Time
    const panelsTotal: int
    const creator: Requester
    var state: JobState
    var finishedAt: Time
    var panelsDone: int
    var err: string
    var archive: Bytes

    constructor (uid: Uid, total: int, creator: Requester, now: Time)
      ensures Val() == NewJob(uid, total, creator, now)
    {
      this.uid := uid;
      this.createdAt := now;
      this.panelsTotal := total;
      this.creator := creator;
      this.state := Pending;
      this.finishedAt := ZERO_TIME;
      this.panelsDone := 0;
      this.err := "";
      this.archive := [];
    }

    ghost function Val(): JobVal
      reads this
    {
      JobVal(uid, state, createdAt, finishedAt, panelsTotal, panelsDone, err, archive, creator)
    }
  }

  /** The same records under fewer uids. */
  ghost predicate Narrows(before: map<Uid, Job>, after: map<Uid, Job>) {
    after.Keys <= before.Keys && forall u | u in after :: after[u] == before[u]
  }

  class JobStore {
    var jobs: map<Uid, Job>

    /** No two uids share a record. */
    ghost predicate Valid()
      reads this
    {
      forall u, v | u in jobs && v in jobs && u != v :: jobs[u] != jobs[v]
    }

    ghost function Contents(): (s: Store)
      reads this, jobs.Values
      ensures s.Keys == jobs.Keys
    {
      map u | u in jobs :: jobs[u].Val()
    }

    constructor ()
      ensures Valid() && Contents() == map[]
    {
      jobs := map[];
    }

    method Create(uid: Uid, total: int, creator: Requester, now: Time) returns (job: Option<Job>)
      requires Valid()
      modifies this
      ensures Valid()
      ensures CreateRel(old(Contents()), uid, total, creator, now, job.Some?, Contents())
      ensures job.Some? ==> uid in jobs && jobs[uid] == job.value && fresh(job.value)
    {
      var inFlight := CountPending();
      if inFlight >= MAX_IN_FLIGHT {
        return None;
      }
      var j := Admit(uid, total, creator, now);
      return Some(j);
    }

    /** create, once there is a free slot. */
    method Admit(uid: Uid, total: int, creator: Requester, now: Time) returns (j: Job)
      requires Valid()
      modifies this
      ensures Valid() && fresh(j)
      ensures PruneRel(old(Contents())[uid := NewJob(uid, total, creator, now)], now, Contents())
      ensures uid in jobs && jobs[uid] == j
    {
      j := new Job(uid, total, creator, now);
      Insert(uid, j);
      assert uid in PendingIds(Contents());
      PruneLocked(now);
    }

    method Insert(uid: Uid, j: Job)
      requires Valid() && j !in jobs.Values
      modifies this
      ensures Valid() && jobs == old(jobs)[uid := j]
      ensures Contents() == old(Contents())[uid := j.Val()]
    {
      jobs := jobs[uid := j];
    }

    ghost function PendingJobs(): set<Uid>
      reads this, jobs.Values
    {
      set u | u in jobs && jobs[u].state == Pending
    }

    /** The counting loop of create. */
    method CountPending() returns (n: nat)
      ensures n == |PendingIds(Contents())|
    {
      assert PendingIds(Contents()) == PendingJobs();
      n := CountJobs();
    }

    method CountJobs() returns (n: nat)
      ensures n == |PendingJobs()|
    {
      n := 0;
      var todo := jobs.Keys;
      while todo != {}
        invariant todo <= jobs.Keys && n == |PendingJobs() - todo|
      {
        var uid :| uid in todo;
        CountedWithout(PendingJobs(), todo, uid);
        todo := todo - {uid};
        if jobs[uid].state == Pending {
          n := n + 1;
        }
      }
      assert PendingJobs() - todo == PendingJobs();
    }

    method PruneLocked(now: Time)
      requires Valid()
      modifies this
      ensures Valid()
      ensures Narrows(old(jobs), jobs)
      ensures PruneRel(old(Contents()), now, Contents())
    {
      ghost var before := Contents();
      var terminal := DropExpired(now);
      ListsSize(terminal, Retained(before, now));
      if |terminal| <= MAX_ENTRIES {
        PruneRelWithoutEviction(before, now, Contents());
        return;
      }
      EvictOldest(terminal, before, now);
    }

    /** The eviction beyond the cap: sort by finish time, delete all but the last MAX_ENTRIES. */
    method EvictOldest(terminal: seq<Uid>, ghost before: Store, ghost now: Time)
      requires Valid() && |terminal| > MAX_ENTRIES
      requires Lists(terminal, Retained(before, now))
      requires Unexpired(before, now, Contents())
      modifies this
      ensures Valid() && Narrows(old(jobs), jobs)
      ensures PruneRel(before, now, Contents())
    {
      ghost var unexpired := Contents();
      var sorted := SortByFinishedAt(terminal);
      assert FinishOrdered(unexpired, sorted);
      ListsSorted(terminal, sorted, Retained(before, now));
      var excess := |sorted| - MAX_ENTRIES;
      EvictFirst(sorted, excess);
      PruneRelAfterEviction(before, now, unexpired, sorted, excess, Contents());
    }

    /** The first loop of pruneLocked: deletes what is past retention, lists the rest. */
    method DropExpired(now: Time) returns (terminal: seq<Uid>)
      requires Valid()
      modifies this
      ensures Valid()
      ensures Lists(terminal, Retained(old(Contents()), now))
      ensures Unexpired(old(Contents()), now, Contents())
      ensures Narrows(old(jobs), jobs)
    {
      ghost var before := Contents();
      terminal := [];
      var todo := jobs.Keys;
      while todo != {}
        invariant Narrows(old(jobs), jobs)
        invariant Sifted(before, now, todo, jobs.Keys, terminal)
      {
        var uid :| uid in todo;
        var j := jobs[uid];
        assert j.Val() == before[uid];
        SiftOne(before, now, todo, jobs.Keys, terminal, uid);
        todo := todo - {uid};
        if j.state != Pending {
          if now - j.finishedAt > RETENTION {
            jobs := jobs - {uid};
          } else {
            terminal := terminal + [uid];
          }
        }
      }
      SiftedAll(before, now, jobs.Keys, terminal);
    }

    /** sort.Slice with the less function of pruneLocked; not stable, so only the order of the
        finish times is promised. */
    method SortByFinishedAt(uids: seq<Uid>) returns (sorted: seq<Uid>)
      requires forall u | u in uids :: u in jobs
      ensures multiset(sorted) == multiset(uids)
      ensures FinishOrdered(Contents(), sorted)
    {
      sorted := [];
      for i := 0 to |uids|
        invariant multiset(sorted) == multiset(uids[..i])
        invariant FinishOrdered(Contents(), sorted)
      {
        assert uids[..i + 1] == uids[..i] + [uids[i]];
        sorted := InsertByFinishedAt(sorted, uids[i]);
      }
      assert uids[..|uids|] == uids;
    }

    method InsertByFinishedAt(sorted: seq<Uid>, uid: Uid) returns (r: seq<Uid>)
      requires uid in jobs && FinishOrdered(Contents(), sorted)
      ensures multiset(r) == multiset(sorted) + multiset{uid}
      ensures FinishOrdered(Contents(), r)
    {
      var at := PlaceFor(sorted, uid);
      InsertKeepsOrder(Contents(), sorted, at, uid);
      InsertAdds(sorted, at, uid);
      r := sorted[..at] + [uid] + sorted[at..];
    }

    method PlaceFor(sorted: seq<Uid>, uid: Uid) returns (at: nat)
      requires uid in jobs && FinishOrdered(Contents(), sorted)
      ensures Fits(Contents(), sorted, at, uid)
    {
      ghost var s := Contents();
      at := |sorted|;
      while at > 0 && jobs[uid].finishedAt < jobs[sorted[at - 1]].finishedAt
        invariant 0 <= at <= |sorted|
        invariant forall k | at <= k < |sorted| :: s[uid].finishedAt <= s[sorted[k]].finishedAt
      {
        at := at - 1;
      }
    }

    /** The last loop of pruneLocked. */
    method EvictFirst(sorted: seq<Uid>, n: nat)
      requires Valid() && n <= |sorted|
      modifies this
      ensures Valid()
      ensures Narrows(old(jobs), jobs)
      ensures Contents() == old(Contents()) - Elements(sorted[..n])
    {
      for i := 0 to n
        invariant Valid()
        invariant jobs == old(jobs) - Elements(sorted[..i])
      {
        assert sorted[..i + 1] == sorted[..i] + [sorted[i]];
        jobs := jobs - {sorted[i]};
      }
    }

    method SetProgress(uid: Uid, done: int)
      requires Valid()
      modifies if uid in jobs then {jobs[uid]} else {}
      ensures Valid() && jobs == old(jobs)
      ensures Contents() == Progressed(old(Contents()), uid, done)
    {
      if uid in jobs {
        jobs[uid].panelsDone := done;
      }
    }

    method CompleteJob(uid: Uid, archive: Bytes, now: Time)
      requires Valid()
      modifies this, if uid in jobs then {jobs[uid]} else {}
      ensures Valid()
      ensures CompleteRel(old(Contents()), uid, archive, now, Contents())
    {
      if uid in jobs {
        var j := jobs[uid];
        j.state := Complete;
        j.archive := archive;
        j.finishedAt := now;
        assert Contents() ==
               old(Contents())[uid := Completed(old(Contents())[uid], archive, now)];
        PruneLocked(j.finishedAt);
      }
    }

    method FailJob(uid: Uid, err: string, now: Time)
      requires Valid()
      modifies this, if uid in jobs then {jobs[uid]} else {}
      ensures Valid()
      ensures FailRel(old(Contents()), uid, err, now, Contents())
    {
      if uid in jobs {
        var j := jobs[uid];
        j.state := Error;
        j.err := err;
        j.finishedAt := now;
        assert Contents() == old(Contents())[uid := Failed(old(Contents())[uid], err, now)];
        PruneLocked(j.finishedAt);
      }
    }

    method ArchiveOf(uid: Uid, requester: Requester) returns (d: Download)
      ensures d == ArchiveIn(Contents(), uid, requester)
    {
      if uid !in jobs || !OwnedBy(jobs[uid].creator, requester) {
        return NotFound;
      }
      return Found(jobs[uid].archive, jobs[uid].state);
    }

    method GetSnapshot(uid: Uid, requester: Requester) returns (s: Option<Snapshot>)
      ensures s == SnapshotIn(Contents(), uid, requester)
    {
      if uid !in jobs || !OwnedBy(jobs[uid].creator, requester) {
        return None;
      }
      var j := jobs[uid];
      return Some(Snapshot(j.uid, j.state, j.panelsTotal, j.panelsDone, j.err, j.createdAt));
    }
  }

  // ---- what the loops of the prune rely on ------------------------------------------------------

  ghost predicate FinishOrdered(s: Store, uids: seq<Uid>) {
    && (forall i | 0 <= i < |uids| :: uids[i] in s)
    && (forall i, j | 0 <= i < j < |uids| :: s[uids[i]].finishedAt <= s[uids[j]].finishedAt)
  }

  /** u belongs at that place. */
  ghost predicate Fits(s: Store, uids: seq<Uid>, at: nat, u: Uid) {
    && at <= |uids| && u in s && (forall k | 0 <= k < |uids| :: uids[k] in s)
    && (at > 0 ==> s[uids[at - 1]].finishedAt <= s[u].finishedAt)
    && (forall k | at <= k < |uids| :: s[u].finishedAt <= s[uids[k]].finishedAt)
  }

  lemma {:induction false} InsertAdds<T>(xs: seq<T>, at: nat, x: T)
    requires at <= |xs|
    ensures multiset(xs[..at] + [x] + xs[at..]) == multiset(xs) + multiset{x}
  {
    assert xs == xs[..at] + xs[at..];
  }

  lemma {:induction false} InsertKeepsOrder(s: Store, uids: seq<Uid>, at: nat, u: Uid)
    requires FinishOrdered(s, uids) && Fits(s, uids, at, u)
    ensures FinishOrdered(s, uids[..at] + [u] + uids[at..])
  {
    var r := uids[..at] + [u] + uids[at..];
    assert forall i | 0 <= i < at :: r[i] == uids[i];
    assert r[at] == u;
    assert forall i | at < i < |r| :: r[i] == uids[i - 1];
  }

  /** xs names every element of s exactly once. */
  ghost predicate Lists<T(!new)>(xs: seq<T>, s: set<T>) {
    && (forall x :: x in xs <==> x in s)
    && (forall i, j | 0 <= i < j < |xs| :: xs[i] != xs[j])
  }

  lemma {:induction false} ListsAppend<T(!new)>(xs: seq<T>, s: set<T>, x: T)
    requires Lists(xs, s) && x !in s
    ensures Lists(xs + [x], s + {x})
  {
  }

  lemma {:induction false} ListsSize<T(!new)>(xs: seq<T>, s: set<T>)
    requires Lists(xs, s)
    ensures |xs| == |s|
  {
    if xs != [] {
      var last := xs[|xs| - 1];
      assert xs == xs[..|xs| - 1] + [last];
      ListsSize(xs[..|xs| - 1], s - {last});
    } else {
      assert s == {};
    }
  }

  lemma {:induction false} ListsPermuted<T(!new)>(xs: seq<T>, ys: seq<T>, s: set<T>)
    requires Lists(xs, s) && multiset(ys) == multiset(xs)
    ensures Lists(ys, s)
  {
    forall x ensures x in ys <==> x in s {
      assert x in ys <==> x in multiset(ys);
      assert x in xs <==> x in multiset(xs);
    }
    forall i, j | 0 <= i < j < |ys| ensures ys[i] != ys[j] {
      assert ys == ys[..i] + [ys[i]] + ys[i + 1..j] + [ys[j]] + ys[j + 1..];
      OccursOnce(xs, ys[i]);
    }
  }

  lemma {:induction false} OccursOnce<T>(xs: seq<T>, x: T)
    requires forall i, j | 0 <= i < j < |xs| :: xs[i] != xs[j]
    ensures multiset(xs)[x] <= 1
  {
    if xs != [] {
      var init, last := xs[..|xs| - 1], xs[|xs| - 1];
      assert xs == init + [last];
      OccursOnce(init, x);
      assert last !in multiset(init);
    }
  }

  lemma {:induction false} ListsSorted<T(!new)>(xs: seq<T>, ys: seq<T>, s: set<T>)
    requires Lists(xs, s) && multiset(xs) == multiset(ys)
    ensures Lists(ys, s) && |ys| == |xs|
  {
    ListsPermuted(xs, ys, s);
    ListsSize(xs, s);
    ListsSize(ys, s);
  }

  /** after is before without its expired terminal jobs. */
  ghost predicate Unexpired(before: Store, now: Time, after: Store) {
    && after.Keys == PendingIds(before) + Retained(before, now)
    && (forall u | u in after :: u in before && after[u] == before[u])
  }

  /** The loop over the store: todo is still to be looked at, keys are still stored. */
  ghost predicate Sifted(before: Store, now: Time, todo: set<Uid>, keys: set<Uid>, terminal: seq<Uid>) {
    && todo <= keys <= before.Keys && Lists(terminal, Retained(before, now) - todo)
    && keys == PendingIds(before) + Retained(before, now) + todo
  }

  lemma {:induction false} SiftOne(
    before: Store, now: Time, todo: set<Uid>, keys: set<Uid>, terminal: seq<Uid>, uid: Uid)
    requires Sifted(before, now, todo, keys, terminal) && uid in todo
    ensures if before[uid].state == Pending then Sifted(before, now, todo - {uid}, keys, terminal)
            else if Expired(before[uid], now) then Sifted(before, now, todo - {uid}, keys - {uid}, terminal)
            else Sifted(before, now, todo - {uid}, keys, terminal + [uid])
  {
    var retained := Retained(before, now);
    Without(retained, todo, uid);
    if before[uid].state != Pending && !Expired(before[uid], now) {
      ListsAppend(terminal, retained - todo, uid);
    }
  }

  lemma {:induction false} SiftedAll(before: Store, now: Time, keys: set<Uid>, terminal: seq<Uid>)
    requires Sifted(before, now, {}, keys, terminal)
    ensures Lists(terminal, Retained(before, now))
    ensures keys == PendingIds(before) + Retained(before, now)
  {
    assert Retained(before, now) - {} == Retained(before, now);
  }

  lemma {:induction false} PruneRelWithoutEviction(before: Store, now: Time, after: Store)
    requires |Retained(before, now)| <= MAX_ENTRIES
    requires Unexpired(before, now, after)
    ensures PruneRel(before, now, after)
  {
    assert TerminalIds(after) == Retained(before, now);
  }

  /** What is left of sorted once its first n are evicted is what the store still has finished. */
  lemma {:induction false} KeptAreTheLast(before: Store, now: Time, sorted: seq<Uid>, n: nat, after: Store)
    requires n <= |sorted| && Lists(sorted, Retained(before, now))
    requires after.Keys == PendingIds(before) + Retained(before, now) - Elements(sorted[..n])
    requires forall u | u in after :: u in before && after[u] == before[u]
    ensures PendingIds(before) <= after.Keys
    ensures Lists(sorted[n..], TerminalIds(after))
  {
    var out, kept := sorted[..n], sorted[n..];
    assert sorted == out + kept;
    forall u ensures u in kept <==> u in TerminalIds(after) {
      assert u in sorted <==> u in out || u in kept;
      if u in kept {
        var j :| 0 <= j < |kept| && kept[j] == u;
        assert u == sorted[n + j];
        assert u !in out;
      }
    }
    forall u | u in PendingIds(before) ensures u in after {
      assert u in out ==> u in sorted;
    }
  }

  lemma {:induction false} EvictedFinishedFirst(before: Store, sorted: seq<Uid>, n: nat, d: Uid, k: Uid)
    requires n <= |sorted| && FinishOrdered(before, sorted)
    requires d in sorted[..n] && k in sorted[n..]
    ensures before[d].finishedAt <= before[k].finishedAt
  {
    var i :| 0 <= i < n && sorted[..n][i] == d;
    var j :| 0 <= j < |sorted| - n && sorted[n..][j] == k;
    assert sorted[i] == d && sorted[n + j] == k;
  }

  lemma {:induction false} PruneRelAfterEviction(
    before: Store, now: Time, unexpired: Store, sorted: seq<Uid>, n: nat, after: Store)
    requires Unexpired(before, now, unexpired)
    requires Lists(sorted, Retained(before, now))
    requires FinishOrdered(unexpired, sorted)
    requires n < |sorted| && |sorted| - n == MAX_ENTRIES
    requires after == unexpired - Elements(sorted[..n])
    ensures PruneRel(before, now, after)
  {
    KeptAreTheLast(before, now, sorted, n, after);
    ListsSize(sorted[n..], TerminalIds(after));
    ListsSize(sorted, Retained(before, now));
    forall d, k | d in Retained(before, now) && d !in after && k in TerminalIds(after)
      ensures before[d].finishedAt <= before[k].finishedAt
    {
      EvictedFinishedFirst(before, sorted, n, d, k);
    }
    assert TerminalIds(after) <= Retained(before, now);
  }
}
