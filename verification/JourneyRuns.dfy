/** Whole lives of the journey recorder, in every order in which handlers resume, tests wait, waits
    time out and the recorder is disposed
    (upstream/e2e-playwright/journey-tracking/journeyRecorder.ts).

    The first half says what the records must be by looking at the log of processed operations alone.
    The second half is about the promises handed to waiting tests. */
module JourneyRuns {
  import opened Common
  import opened JourneyRecorder

  const START := State(map[], map[], [], map[], map[], [], [])

  // ---- what the log alone says ------------------------------------------------------------------

  /** The id of the latest start of the type among the first n operations. */
  function LatestStart(log: seq<Op>, n: nat, kind: JourneyType): Option<Id>
    requires n <= |log|
  {
    if n == 0 then None
    else if log[n - 1].Started? && log[n - 1].kind == kind then Some(log[n - 1].id)
    else LatestStart(log, n - 1, kind)
  }

  /** The journey operation i is about. */
  function TargetAt(log: seq<Op>, i: nat): Id
    requires i < |log|
  {
    match log[i]
    case Started(_, id, _, _) => id
    case Stepped(kind, _, id, _, _, _) => Or(id, Or(LatestStart(log, i, kind), ""))
    case AttributesSet(kind, _, _) => Or(LatestStart(log, i, kind), "")
    case Ended(kind, _, id, _, _, _, _) => Or(id, Or(LatestStart(log, i, kind), ""))
  }

  predicate EndFor(log: seq<Op>, i: nat, id: Id)
    requires i < |log|
  {
    log[i].Ended? && TargetAt(log, i) == id
  }

  predicate StartFor(log: seq<Op>, i: nat, id: Id)
    requires i < |log|
  {
    log[i].Started? && log[i].id == id
  }

  /** Operation k started id, and among the first n nothing has started or ended it since. */
  ghost predicate OpenSince(log: seq<Op>, n: nat, id: Id, k: nat)
    requires n <= |log|
  {
    k < n && StartFor(log, k, id) && forall i | k < i < n :: !StartFor(log, i, id) && !EndFor(log, i, id)
  }

  function OpenedAt(log: seq<Op>, n: nat, id: Id): (k: Option<nat>)
    requires n <= |log|
    ensures k.Some? ==> OpenSince(log, n, id, k.value)
    ensures k.None? ==> forall i | 0 <= i < n :: !OpenSince(log, n, id, i)
  {
    if n == 0 then None
    else if StartFor(log, n - 1, id) then Some(n - 1)
    else if EndFor(log, n - 1, id) then None
    else
      var k := OpenedAt(log, n - 1, id);
      assert forall i | 0 <= i < n - 1 :: OpenSince(log, n, id, i) ==> OpenSince(log, n - 1, id, i);
      k
  }

  /** What an operation adds to an open journey's record. */
  datatype Part = Step | Update | Log

  /** Operation i adds such a part to id's record. */
  predicate Adds(log: seq<Op>, i: nat, id: Id, part: Part)
    requires i < |log|
  {
    && TargetAt(log, i) == id
    && match part
       case Step => log[i].Stepped?
       case Update => log[i].AttributesSet? && id != ""
       case Log => log[i].Stepped? || (log[i].AttributesSet? && id != "")
  }

  /** Where among the operations after k and before n such parts are added, in order. */
  function Positions(log: seq<Op>, k: nat, n: nat, id: Id, part: Part): (ps: seq<nat>)
    requires n <= |log|
    ensures forall j | 0 <= j < |ps| :: k < ps[j] < n && Adds(log, ps[j], id, part)
    decreases n
  {
    if n <= k + 1 then []
    else
      Positions(log, k, n - 1, id, part) + (if Adds(log, n - 1, id, part) then [n - 1] else [])
  }

  /** Positions misses none. */
  lemma {:induction false} PositionFound(
    log: seq<Op>, k: nat, n: nat, id: Id, part: Part, i: nat) returns (j: nat)
    requires k < i < n <= |log| && Adds(log, i, id, part)
    ensures j < |Positions(log, k, n, id, part)| && Positions(log, k, n, id, part)[j] == i
    decreases n
  {
    if i == n - 1 {
      j := |Positions(log, k, n - 1, id, part)|;
    } else {
      j := PositionFound(log, k, n - 1, id, part, i);
    }
  }

  /** Positions keeps the order of the log. */
  lemma {:induction false} PositionsOrdered(
    log: seq<Op>, k: nat, n: nat, id: Id, part: Part, a: nat, b: nat)
    requires n <= |log| && a < b < |Positions(log, k, n, id, part)|
    ensures Positions(log, k, n, id, part)[a] < Positions(log, k, n, id, part)[b]
    decreases n
  {
    if b < |Positions(log, k, n - 1, id, part)| {
      PositionsOrdered(log, k, n - 1, id, part, a, b);
    }
  }

  /** The record of id while open since operation k, after n operations: the steps, attribute
      updates and raw texts of the operations resolved to id since then, in order. */
  function Recorded(log: seq<Op>, k: nat, n: nat, id: Id): Active
    requires k < n <= |log| && StartFor(log, k, id)
  {
    var steps := Positions(log, k, n, id, Step);
    var updates := Positions(log, k, n, id, Update);
    var texts := Positions(log, k, n, id, Log);
    Active(
      log[k].kind,
      id,
      seq(|steps|, j requires 0 <= j < |steps| =>
        var op := log[steps[j]];
        StepRecord(op.name, Or(op.number, j + 1), op.stepAttributes)),
      seq(|updates|, j requires 0 <= j < |updates| =>
        log[updates[j]].whole),
      log[k].concurrent,
      [log[k].text] + seq(|texts|, j requires 0 <= j < |texts| =>
        log[texts[j]].text))
  }

  function OpenRecord(log: seq<Op>, n: nat, id: Id): Option<Active>
    requires n <= |log|
  {
    match OpenedAt(log, n, id)
    case Some(k) => Some(Recorded(log, k, n, id))
    case None => None
  }

  /** What an end completes: its own outcome, duration, count and attributes, and what the journey's
      open record has, if it has one; the end's text comes last. */
  function RecordBy(end: Op, id: Id, open: Option<Active>): Record
    requires end.Ended?
  {
    match open
    case None =>
      Record(end.kind, id, end.outcome, end.durationMs, end.stepCount, end.attributes, [], [], 0, [end.text])
    case Some(a) =>
      Record(end.kind, id, end.outcome, end.durationMs, end.stepCount, end.attributes, a.steps,
             a.attributeUpdates, a.concurrent, a.rawLogs + [end.text])
  }

  /** One completed record for every end, in order. */
  function CompletedBy(log: seq<Op>, n: nat): seq<Record>
    requires n <= |log|
  {
    if n == 0 then []
    else if !log[n - 1].Ended? then CompletedBy(log, n - 1)
    else
      var id := TargetAt(log, n - 1);
      CompletedBy(log, n - 1) + [RecordBy(log[n - 1], id, OpenRecord(log, n - 1, id))]
  }

  // ---- the recorder agrees with the log ---------------------------------------------------------

  ghost predicate IdsAgree(s: State, log: seq<Op>, n: nat)
    requires n <= |log|
  {
    forall kind :: Lookup(s.typeToId, kind) == LatestStart(log, n, kind)
  }

  ghost predicate RecordsAgree(s: State, log: seq<Op>, n: nat)
    requires n <= |log|
  {
    forall id :: Lookup(s.active, id) == OpenRecord(log, n, id)
  }

  ghost predicate Agrees(s: State, log: seq<Op>, n: nat)
    requires n <= |log|
  {
    IdsAgree(s, log, n) && RecordsAgree(s, log, n) && s.completed == CompletedBy(log, n)
  }

  lemma {:induction false} IdsKeepAgreeing(s: State, log: seq<Op>, n: nat)
    requires n < |log| && IdsAgree(s, log, n)
    ensures IdsAgree(Apply(s, log[n]), log, n + 1)
  {
    forall kind
      ensures Lookup(Apply(s, log[n]).typeToId, kind) == LatestStart(log, n + 1, kind)
    {
      assert Lookup(s.typeToId, kind) == LatestStart(log, n, kind);
    }
  }

  lemma {:induction false} TargetsAgree(s: State, log: seq<Op>, n: nat)
    requires n < |log| && IdsAgree(s, log, n) && !log[n].Started?
    ensures log[n].Stepped? || log[n].Ended? ==>
              Target(s, log[n].kind, log[n].payloadId) == TargetAt(log, n)
    ensures log[n].AttributesSet? ==> Target(s, log[n].kind, None) == TargetAt(log, n)
  {
    assert Lookup(s.typeToId, log[n].kind) == LatestStart(log, n, log[n].kind);
  }

  /** An operation that neither starts nor ends id adds to its open record exactly its own parts. */
  lemma {:induction false} OpenRecordGrows(log: seq<Op>, n: nat, id: Id)
    requires n < |log| && !StartFor(log, n, id) && !EndFor(log, n, id)
    requires OpenedAt(log, n, id).Some?
    ensures OpenedAt(log, n + 1, id) == OpenedAt(log, n, id)
    ensures var a, b := OpenRecord(log, n, id).value, OpenRecord(log, n + 1, id).value;
            b == Active(
                   a.kind, id,
                   if Adds(log, n, id, Step) then a.steps + [NextStep(a, log[n])] else a.steps,
                   if Adds(log, n, id, Update) then a.attributeUpdates + [log[n].whole]
                   else a.attributeUpdates,
                   a.concurrent,
                   if Adds(log, n, id, Log) then a.rawLogs + [log[n].text] else a.rawLogs)
  {
    var k := OpenedAt(log, n, id).value;
    var a, b := Recorded(log, k, n, id), Recorded(log, k, n + 1, id);
    assert b.steps == if Adds(log, n, id, Step) then a.steps + [NextStep(a, log[n])] else a.steps;
    assert b.attributeUpdates == if Adds(log, n, id, Update) then a.attributeUpdates + [log[n].whole]
                                 else a.attributeUpdates;
    assert b.rawLogs == if Adds(log, n, id, Log) then a.rawLogs + [log[n].text] else a.rawLogs;
  }

  lemma {:induction false} RecordsKeepAgreeing(s: State, log: seq<Op>, n: nat, id: Id)
    requires n < |log| && IdsAgree(s, log, n) && RecordsAgree(s, log, n)
    ensures Lookup(Apply(s, log[n]).active, id) == OpenRecord(log, n + 1, id)
  {
    assert Lookup(s.active, id) == OpenRecord(log, n, id);
    if log[n].Started? {
      StartAgrees(s, log, n, id);
    } else {
      TargetsAgree(s, log, n);
      if OpenedAt(log, n, id).None? || EndFor(log, n, id) {
        NothingOpens(log, n, id);
      } else {
        OpenRecordGrows(log, n, id);
        GrowthAgrees(s, log[n], id, log, n);
      }
    }
  }

  lemma {:induction false} NothingOpens(log: seq<Op>, n: nat, id: Id)
    requires n < |log| && !StartFor(log, n, id)
    requires OpenedAt(log, n, id).None? || EndFor(log, n, id)
    ensures OpenRecord(log, n + 1, id) == None
  {
  }

  lemma {:induction false} StartAgrees(s: State, log: seq<Op>, n: nat, id: Id)
    requires n < |log| && log[n].Started?
    requires Lookup(s.active, id) == OpenRecord(log, n, id)
    ensures Lookup(Apply(s, log[n]).active, id) == OpenRecord(log, n + 1, id)
  {
    if log[n].id == id {
      var b := Recorded(log, n, n + 1, id);
      assert b.steps == [] && b.attributeUpdates == [] && b.rawLogs == [log[n].text];
    } else if OpenedAt(log, n, id).Some? {
      OpenRecordGrows(log, n, id);
    } else {
      NothingOpens(log, n, id);
    }
  }

  lemma {:induction false} GrowthAgrees(s: State, op: Op, id: Id, log: seq<Op>, n: nat)
    requires n < |log| && op == log[n] && !op.Started? && !EndFor(log, n, id) && id in s.active
    requires op.Stepped? || op.Ended? ==> Target(s, op.kind, op.payloadId) == TargetAt(log, n)
    requires op.AttributesSet? ==> Target(s, op.kind, None) == TargetAt(log, n)
    requires s.active[id].id == id
    ensures var a := s.active[id];
            Lookup(Apply(s, op).active, id) == Some(Active(
              a.kind, id,
              if Adds(log, n, id, Step) then a.steps + [NextStep(a, op)] else a.steps,
              if Adds(log, n, id, Update) then a.attributeUpdates + [op.whole]
              else a.attributeUpdates,
              a.concurrent,
              if Adds(log, n, id, Log) then a.rawLogs + [op.text] else a.rawLogs))
  {
  }

  /** The recorder, having processed the log, holds exactly what the log says: the latest id of each
      type, an entry for each id started and not ended since, and one completed record per end. */
  lemma {:induction false} RecorderFollowsLog(log: seq<Op>, n: nat)
    requires n <= |log|
    ensures Agrees(ApplyAll(START, log[..n]), log, n)
  {
    if n > 0 {
      var m := n - 1;
      RecorderFollowsLog(log, m);
      var s := ApplyAll(START, log[..m]);
      assert log[..n][..m] == log[..m];
      IdsKeepAgreeing(s, log, m);
      forall id ensures Lookup(Apply(s, log[m]).active, id) == OpenRecord(log, n, id) {
        RecordsKeepAgreeing(s, log, m, id);
      }
      if log[m].Ended? {
        TargetsAgree(s, log, m);
        assert Lookup(s.active, TargetAt(log, m)) == OpenRecord(log, m, TargetAt(log, m));
      }
    }
  }

  // ---- whole lives ------------------------------------------------------------------------------

  datatype Event =
    | Resume(message: Message)
    | WaitEnd(kind: JourneyType)
    | WaitStart(kind: JourneyType)
    | EndTimeout(promise: nat)
    | StartTimeout(promise: nat)
    | Dispose

  /** A recorder with its history: the operations processed, and the promises whose waiters a
      dispose has dropped while they were pending. */
  datatype Life = Life(state: State, log: seq<Op>, droppedEnds: set<nat>, droppedStarts: set<nat>)

  const BIRTH := Life(START, [], {}, {})

  function Unsettled<V>(ps: seq<Promise<V>>): set<nat> {
    set p: nat | p < |ps| && ps[p].status.Pending?
  }

  function After(l: Life, e: Event): Life {
    var s := l.state;
    match e
    case Resume(m) => l.(state := ApplyAll(s, Ops(m)), log := l.log + Ops(m))
    case WaitEnd(kind) => l.(state := WaitedEnd(s, kind))
    case WaitStart(kind) => l.(state := WaitedStart(s, kind))
    case EndTimeout(p) => l.(state := s.(ends := TimedOut(s.ends, p)))
    case StartTimeout(p) => l.(state := s.(starts := TimedOut(s.starts, p)))
    case Dispose => Life(Disposed(s), l.log, l.droppedEnds + Unsettled(s.ends),
                         l.droppedStarts + Unsettled(s.starts))
  }

  function LifeAfter(events: seq<Event>): Life {
    if events == [] then BIRTH
    else After(LifeAfter(events[..|events| - 1]), events[|events| - 1])
  }

  /** What of the state the records live in. */
  predicate SameRecords(s: State, t: State) {
    s.active == t.active && s.typeToId == t.typeToId && s.completed == t.completed
  }

  lemma {:induction false} SameRecordsApplied(s: State, t: State, op: Op)
    requires SameRecords(s, t)
    ensures SameRecords(Apply(s, op), Apply(t, op))
  {
  }

  lemma {:induction false} SameRecordsKept(s: State, t: State, ops: seq<Op>)
    requires SameRecords(s, t)
    ensures SameRecords(ApplyAll(s, ops), ApplyAll(t, ops))
  {
    if ops != [] {
      var init := ops[..|ops| - 1];
      SameRecordsKept(s, t, init);
      SameRecordsApplied(ApplyAll(s, init), ApplyAll(t, init), ops[|ops| - 1]);
    }
  }

  lemma {:induction false} WaitsKeepRecords(l: Life, e: Event)
    requires !e.Resume?
    ensures SameRecords(After(l, e).state, l.state) && After(l, e).log == l.log
  {
  }

  lemma {:induction false} RecordsIgnoreWaits(events: seq<Event>)
    ensures SameRecords(LifeAfter(events).state, ApplyAll(START, LifeAfter(events).log))
  {
    if events != [] {
      var before, e := LifeAfter(events[..|events| - 1]), events[|events| - 1];
      RecordsIgnoreWaits(events[..|events| - 1]);
      if e.Resume? {
        SameRecordsKept(before.state, ApplyAll(START, before.log), Ops(e.message));
        ApplyAppended(START, before.log, Ops(e.message));
      } else {
        WaitsKeepRecords(before, e);
      }
    }
  }

  /** Whatever the order of handlers, waits, timeouts and dispose, the records are those of the log
      of processed operations. */
  lemma {:induction false} RecordsFollowLog(events: seq<Event>)
    ensures Agrees(LifeAfter(events).state, LifeAfter(events).log, |LifeAfter(events).log|)
  {
    var l := LifeAfter(events);
    RecordsIgnoreWaits(events);
    RecorderFollowsLog(l.log, |l.log|);
    assert l.log[..|l.log|] == l.log;
  }

  /** A promise settles once: a resolved or rejected one stays as it is. A pending one is rejected by
      its own timeout and by nothing else. */
  lemma {:induction false} PromisesSettleOnce(l: Life, e: Event, p: nat)
    ensures p < |l.state.ends| ==>
              && p < |After(l, e).state.ends|
              && SettlesOnce(l.state.ends[p], After(l, e).state.ends[p], e == EndTimeout(p))
    ensures p < |l.state.starts| ==>
              && p < |After(l, e).state.starts|
              && SettlesOnce(l.state.starts[p], After(l, e).state.starts[p], e == StartTimeout(p))
  {
    if e.Resume? {
      OpsSettleOnce(l.state, Ops(e.message), p);
    }
  }

  predicate SettlesOnce<V(==)>(before: Promise<V>, after: Promise<V>, timeout: bool) {
    && after.kind == before.kind
    && (!before.status.Pending? ==> after == before)
    && (before.status.Pending? ==> (after.status.Rejected? <==> timeout))
  }

  lemma {:induction false} OpsSettleOnce(s: State, ops: seq<Op>, p: nat)
    ensures var t := ApplyAll(s, ops);
            && (p < |s.ends| ==> p < |t.ends| && SettlesOnce(s.ends[p], t.ends[p], false))
            && (p < |s.starts| ==> p < |t.starts| && SettlesOnce(s.starts[p], t.starts[p], false))
  {
    if ops != [] {
      OpsSettleOnce(s, ops[..|ops| - 1], p);
      OpSettlesOnce(ApplyAll(s, ops[..|ops| - 1]), ops[|ops| - 1], p);
    }
  }

  lemma {:induction false} OpSettlesOnce(s: State, op: Op, p: nat)
    ensures var t := Apply(s, op);
            && (p < |s.ends| ==> p < |t.ends| && SettlesOnce(s.ends[p], t.ends[p], false))
            && (p < |s.starts| ==> p < |t.starts| && SettlesOnce(s.starts[p], t.starts[p], false))
  {
  }

  // ---- promises ---------------------------------------------------------------------------------

  /** The promises of one kind of wait, the waiters that will settle them, and the promises a dispose
      has cut off. */
  datatype Board<V> = Board(ws: map<JourneyType, seq<nat>>, ps: seq<Promise<V>>, dropped: set<nat>)

  predicate Waiting<V>(b: Board<V>, p: nat) {
    p < |b.ps| && b.ps[p].kind in b.ws && p in b.ws[b.ps[p].kind]
  }

  /** A waiter list names promises of its own type that were not cut off. */
  ghost predicate WaitersFit<V>(b: Board<V>) {
    forall kind, w: nat | kind in b.ws && w in b.ws[kind] :: WaiterFits(b, kind, w)
  }

  ghost predicate WaiterFits<V>(b: Board<V>, kind: JourneyType, w: nat) {
    w < |b.ps| && b.ps[w].kind == kind && w !in b.dropped
  }

  /** A pending promise is waiting or cut off; a cut-off one never resolves. */
  ghost predicate PromiseFits<V>(b: Board<V>, p: nat)
    requires p < |b.ps|
  {
    && (b.ps[p].status.Pending? ==> p in b.dropped || Waiting(b, p))
    && (p in b.dropped ==> !b.ps[p].status.Resolved?)
  }

  ghost predicate Fit<V>(b: Board<V>) {
    && WaitersFit(b)
    && (forall p | p in b.dropped :: p < |b.ps|)
    && (forall p: nat | p < |b.ps| :: PromiseFits(b, p))
  }

  function Served<V>(b: Board<V>, kind: JourneyType, v: V): Board<V> {
    b.(ws := b.ws - {kind}, ps := if kind in b.ws then SettleAll(b.ps, b.ws[kind], v) else b.ps)
  }

  /** Serving a type resolves exactly its pending promises that were not cut off. */
  lemma {:induction false} ServedFits<V>(b: Board<V>, kind: JourneyType, v: V)
    requires Fit(b)
    ensures Fit(Served(b, kind, v))
    ensures forall p: nat | p < |b.ps| :: Served(b, kind, v).ps[p] ==
              if b.ps[p].kind == kind && b.ps[p].status.Pending? && p !in b.dropped
              then Promise(kind, Resolved(v)) else b.ps[p]
  {
    var c := Served(b, kind, v);
    forall k, w: nat | k in c.ws && w in c.ws[k] ensures WaiterFits(c, k, w) {
      assert WaiterFits(b, k, w);
    }
    forall w: nat | kind in b.ws && w in b.ws[kind] ensures b.ps[w].kind == kind && w !in b.dropped {
      assert WaiterFits(b, kind, w);
    }
    forall p: nat | p < |b.ps|
      ensures c.ps[p] == if b.ps[p].kind == kind && b.ps[p].status.Pending? && p !in b.dropped
                         then Promise(kind, Resolved(v)) else b.ps[p]
    {
      assert PromiseFits(b, p);
    }
    forall p: nat | p < |c.ps| ensures PromiseFits(c, p) {
      assert PromiseFits(b, p);
    }
  }

  lemma {:induction false} WaitFits<V>(b: Board<V>, kind: JourneyType)
    requires Fit(b)
    ensures Fit(b.(ps := b.ps + [Promise(kind, Pending)], ws := AddWaiter(b.ws, kind, |b.ps|)))
  {
    var c := b.(ps := b.ps + [Promise(kind, Pending)], ws := AddWaiter(b.ws, kind, |b.ps|));
    assert c.ws[kind][|c.ws[kind]| - 1] == |b.ps|;
    forall k, w: nat | k in c.ws && w in c.ws[k] ensures WaiterFits(c, k, w) {
      assert w == |b.ps| || (k in b.ws && w in b.ws[k] && WaiterFits(b, k, w));
    }
    forall p: nat | p < |c.ps| ensures PromiseFits(c, p) {
      if p < |b.ps| {
        assert PromiseFits(b, p);
        assert Waiting(b, p) ==> Waiting(c, p);
      }
    }
  }

  lemma {:induction false} AnsweredFits<V>(b: Board<V>, kind: JourneyType, v: V)
    requires Fit(b)
    ensures Fit(b.(ps := b.ps + [Promise(kind, Resolved(v))]))
  {
    var c := b.(ps := b.ps + [Promise(kind, Resolved(v))]);
    forall k, w: nat | k in c.ws && w in c.ws[k] ensures WaiterFits(c, k, w) {
      assert WaiterFits(b, k, w);
    }
    forall p: nat | p < |c.ps| ensures PromiseFits(c, p) {
      if p < |b.ps| {
        assert PromiseFits(b, p);
      }
    }
  }

  lemma {:induction false} TimedOutFits<V>(b: Board<V>, i: nat)
    requires Fit(b)
    ensures Fit(b.(ps := TimedOut(b.ps, i)))
  {
    var c := b.(ps := TimedOut(b.ps, i));
    forall k, w: nat | k in c.ws && w in c.ws[k] ensures WaiterFits(c, k, w) {
      assert WaiterFits(b, k, w);
    }
    forall p: nat | p < |c.ps| ensures PromiseFits(c, p) {
      assert PromiseFits(b, p);
    }
  }

  lemma {:induction false} DisposedFits<V>(b: Board<V>)
    requires Fit(b)
    ensures Fit(Board(map[], b.ps, b.dropped + Unsettled(b.ps)))
  {
    var c := Board(map[], b.ps, b.dropped + Unsettled(b.ps));
    forall p: nat | p < |c.ps| ensures PromiseFits(c, p) {
      assert PromiseFits(b, p);
    }
  }

  // ---- waiting for an end -----------------------------------------------------------------------

  function EndBoard(l: Life): Board<Record> {
    Board(l.state.endWaiters, l.state.ends, l.droppedEnds)
  }

  /** End waiters for a type exist only while no record of it does, and what a wait has resolved to
      is the first record of its type. */
  ghost predicate EndsTrue(b: Board<Record>, completed: seq<Record>) {
    && (forall kind | kind in b.ws :: FirstOfType(completed, kind).None?)
    && (forall p: nat | p < |b.ps| && b.ps[p].status.Resolved? ::
          FirstOfType(completed, b.ps[p].kind) == Some(b.ps[p].status.value))
  }

  lemma {:induction false} FirstOfTypeAppended(rs: seq<Record>, r: Record, kind: JourneyType)
    ensures FirstOfType(rs + [r], kind) ==
            if FirstOfType(rs, kind).Some? then FirstOfType(rs, kind)
            else if r.journeyType == kind then Some(r) else None
  {
    if rs == [] {
      assert rs + [r] == [r];
    } else {
      assert (rs + [r])[1..] == rs[1..] + [r];
      FirstOfTypeAppended(rs[1..], r, kind);
    }
  }

  lemma {:induction false} ServedStaysTrue(b: Board<Record>, completed: seq<Record>, r: Record)
    requires Fit(b) && EndsTrue(b, completed)
    ensures EndsTrue(Served(b, r.journeyType, r), completed + [r])
  {
    var c := Served(b, r.journeyType, r);
    ServedFits(b, r.journeyType, r);
    forall kind | kind in c.ws ensures FirstOfType(completed + [r], kind).None? {
      FirstOfTypeAppended(completed, r, kind);
    }
    forall p: nat | p < |c.ps| && c.ps[p].status.Resolved?
      ensures FirstOfType(completed + [r], c.ps[p].kind) == Some(c.ps[p].status.value)
    {
      FirstOfTypeAppended(completed, r, c.ps[p].kind);
      assert PromiseFits(b, p);
    }
  }

  lemma {:induction false} OpKeepsEnds(s: State, op: Op, dropped: set<nat>)
    requires Fit(Board(s.endWaiters, s.ends, dropped))
    requires EndsTrue(Board(s.endWaiters, s.ends, dropped), s.completed)
    ensures var t := Apply(s, op);
            Fit(Board(t.endWaiters, t.ends, dropped))
            && EndsTrue(Board(t.endWaiters, t.ends, dropped), t.completed)
  {
    if op.Ended? {
      var b := Board(s.endWaiters, s.ends, dropped);
      var target := Target(s, op.kind, op.payloadId);
      var r := MakeRecord(op, target, Lookup(s.active, target));
      ServedFits(b, op.kind, r);
      ServedStaysTrue(b, s.completed, r);
    }
  }

  lemma {:induction false} OpsKeepEnds(s: State, ops: seq<Op>, dropped: set<nat>)
    requires Fit(Board(s.endWaiters, s.ends, dropped))
    requires EndsTrue(Board(s.endWaiters, s.ends, dropped), s.completed)
    ensures var t := ApplyAll(s, ops);
            Fit(Board(t.endWaiters, t.ends, dropped))
            && EndsTrue(Board(t.endWaiters, t.ends, dropped), t.completed)
  {
    if ops != [] {
      OpsKeepEnds(s, ops[..|ops| - 1], dropped);
      OpKeepsEnds(ApplyAll(s, ops[..|ops| - 1]), ops[|ops| - 1], dropped);
    }
  }

  lemma {:induction false} EventKeepsEnds(l: Life, e: Event)
    requires Fit(EndBoard(l)) && EndsTrue(EndBoard(l), l.state.completed)
    ensures Fit(EndBoard(After(l, e))) && EndsTrue(EndBoard(After(l, e)), After(l, e).state.completed)
  {
    var b := EndBoard(l);
    match e
    case Resume(m) => OpsKeepEnds(l.state, Ops(m), l.droppedEnds);
    case WaitEnd(kind) =>
      match FirstOfType(l.state.completed, kind) {
        case Some(r) => AnsweredFits(b, kind, r);
        case None => WaitFits(b, kind);
      }
    case WaitStart(_) =>
    case EndTimeout(p) => TimedOutFits(b, p);
    case StartTimeout(_) =>
    case Dispose => DisposedFits(b);
  }

  lemma {:induction false} EndsStayTrue(events: seq<Event>)
    ensures var l := LifeAfter(events);
            Fit(EndBoard(l)) && EndsTrue(EndBoard(l), l.state.completed)
  {
    if events != [] {
      EndsStayTrue(events[..|events| - 1]);
      EventKeepsEnds(LifeAfter(events[..|events| - 1]), events[|events| - 1]);
    }
  }

  /** After any events, a wait for the end of a type is settled as follows. If it resolved, then to
      the first completed record of the type, so all that resolve get the same record. If it is still
      pending, then no such record exists, unless a dispose has cut it off; and one cut off never
      resolves. */
  lemma {:induction false} EndWaitsGetTheFirstRecord(events: seq<Event>, p: nat)
    requires p < |LifeAfter(events).state.ends|
    ensures var l := LifeAfter(events);
            var first := FirstOfType(l.state.completed, l.state.ends[p].kind);
            match l.state.ends[p].status
            case Resolved(r) => first == Some(r) && p !in l.droppedEnds
            case Pending => p in l.droppedEnds || first.None?
            case Rejected => true
  {
    EndsStayTrue(events);
    assert PromiseFits(EndBoard(LifeAfter(events)), p);
  }

  // ---- waiting for a start ----------------------------------------------------------------------

  function StartBoard(l: Life): Board<Id> {
    Board(l.state.startWaiters, l.state.starts, l.droppedStarts)
  }

  predicate StartedIn(log: seq<Op>, kind: JourneyType, id: Id) {
    exists i | 0 <= i < |log| :: log[i].Started? && log[i].kind == kind && log[i].id == id
  }

  /** Start waiters for a type exist only while it has no id or the empty one, and what a wait has
      resolved to is an id the type was started with. */
  ghost predicate StartsTrue(b: Board<Id>, typeToId: map<JourneyType, Id>, log: seq<Op>) {
    && (forall kind | kind in b.ws :: Or(Lookup(typeToId, kind), "") == "")
    && (forall kind | kind in typeToId :: StartedIn(log, kind, typeToId[kind]))
    && (forall p: nat | p < |b.ps| && b.ps[p].status.Resolved? ::
          StartedIn(log, b.ps[p].kind, b.ps[p].status.value))
  }

  lemma {:induction false} StartedInMore(log: seq<Op>, op: Op, kind: JourneyType, id: Id)
    requires StartedIn(log, kind, id)
    ensures StartedIn(log + [op], kind, id)
  {
    var i :| 0 <= i < |log| && log[i].Started? && log[i].kind == kind && log[i].id == id;
    assert (log + [op])[i] == log[i];
  }

  lemma {:induction false} OpKeepsStarts(s: State, op: Op, dropped: set<nat>, log: seq<Op>)
    requires Fit(Board(s.startWaiters, s.starts, dropped))
    requires StartsTrue(Board(s.startWaiters, s.starts, dropped), s.typeToId, log)
    ensures var t := Apply(s, op);
            Fit(Board(t.startWaiters, t.starts, dropped))
            && StartsTrue(Board(t.startWaiters, t.starts, dropped), t.typeToId, log + [op])
  {
    var b := Board(s.startWaiters, s.starts, dropped);
    var t := Apply(s, op);
    var c := Board(t.startWaiters, t.starts, dropped);
    if op.Started? {
      ServedFits(b, op.kind, op.id);
      assert (log + [op])[|log|] == op;
      assert StartedIn(log + [op], op.kind, op.id);
    }
    forall kind | kind in t.typeToId ensures StartedIn(log + [op], kind, t.typeToId[kind]) {
      if kind in s.typeToId && StartedIn(log, kind, t.typeToId[kind]) {
        StartedInMore(log, op, kind, t.typeToId[kind]);
      }
    }
    forall p: nat | p < |c.ps| && c.ps[p].status.Resolved?
      ensures StartedIn(log + [op], c.ps[p].kind, c.ps[p].status.value)
    {
      if b.ps[p].status.Resolved? {
        StartedInMore(log, op, c.ps[p].kind, c.ps[p].status.value);
      }
    }
  }

  lemma {:induction false} OpsKeepStarts(s: State, ops: seq<Op>, dropped: set<nat>, log: seq<Op>)
    requires Fit(Board(s.startWaiters, s.starts, dropped))
    requires StartsTrue(Board(s.startWaiters, s.starts, dropped), s.typeToId, log)
    ensures var t := ApplyAll(s, ops);
            Fit(Board(t.startWaiters, t.starts, dropped))
            && StartsTrue(Board(t.startWaiters, t.starts, dropped), t.typeToId, log + ops)
  {
    if ops != [] {
      var init, op := ops[..|ops| - 1], ops[|ops| - 1];
      OpsKeepStarts(s, init, dropped, log);
      OpKeepsStarts(ApplyAll(s, init), op, dropped, log + init);
      assert log + ops == log + init + [op];
    } else {
      assert log + ops == log;
    }
  }

  lemma {:induction false} EventKeepsStarts(l: Life, e: Event)
    requires Fit(StartBoard(l)) && StartsTrue(StartBoard(l), l.state.typeToId, l.log)
    ensures var m := After(l, e);
            Fit(StartBoard(m)) && StartsTrue(StartBoard(m), m.state.typeToId, m.log)
  {
    var b := StartBoard(l);
    match e
    case Resume(m) => OpsKeepStarts(l.state, Ops(m), l.droppedStarts, l.log);
    case WaitStart(kind) =>
      var id := Or(Lookup(l.state.typeToId, kind), "");
      if id != "" {
        AnsweredFits(b, kind, id);
      } else {
        WaitFits(b, kind);
      }
    case WaitEnd(_) =>
    case StartTimeout(p) => TimedOutFits(b, p);
    case EndTimeout(_) =>
    case Dispose => DisposedFits(b);
  }

  lemma {:induction false} StartsStayTrue(events: seq<Event>)
    ensures var l := LifeAfter(events);
            Fit(StartBoard(l)) && StartsTrue(StartBoard(l), l.state.typeToId, l.log)
  {
    if events != [] {
      StartsStayTrue(events[..|events| - 1]);
      EventKeepsStarts(LifeAfter(events[..|events| - 1]), events[|events| - 1]);
    }
  }

  /** After any events, a wait for the start of a type that resolved got an id the type was started
      with; one still pending was cut off by a dispose or its type has no id but the empty one. */
  lemma {:induction false} StartWaitsGetAStartedId(events: seq<Event>, p: nat)
    requires p < |LifeAfter(events).state.starts|
    ensures var l := LifeAfter(events);
            var kind := l.state.starts[p].kind;
            match l.state.starts[p].status
            case Resolved(id) => StartedIn(l.log, kind, id) && p !in l.droppedStarts
            case Pending => p in l.droppedStarts || Or(Lookup(l.state.typeToId, kind), "") == ""
            case Rejected => true
  {
    StartsStayTrue(events);
    assert PromiseFits(StartBoard(LifeAfter(events)), p);
  }

  /** A start wait is answered at once exactly when the type's latest start had an id of its own: one
      with an empty id counts as not started, and the wait goes on. */
  lemma {:induction false} StartWaitAnsweredIff(events: seq<Event>, kind: JourneyType)
    ensures var l := LifeAfter(events);
            var starts := After(l, WaitStart(kind)).state.starts;
            |starts| == |l.state.starts| + 1
            && (starts[|l.state.starts|].status.Resolved? <==>
                  Or(LatestStart(l.log, |l.log|, kind), "") != "")
  {
    RecordsFollowLog(events);
    var l := LifeAfter(events);
    assert Lookup(l.state.typeToId, kind) == LatestStart(l.log, |l.log|, kind);
  }
}
