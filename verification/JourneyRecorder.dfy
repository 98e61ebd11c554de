/** The recorder of journey debug logs (upstream/e2e-playwright/journey-tracking/journeyRecorder.ts).

    A console handler pushes the raw text, awaits its three arguments and then runs to its end
    without a further await. So there are two atomic segments: OnConsole when a message arrives and
    Resume when its arguments are there, and handlers resume in any order. Resolving a promise that
    has settled does nothing. */
module JourneyRecorder {
  import opened Common
  import opened Text

  type Id = string
  type JourneyType = string
  type Attributes = map<string, string>

  /** The data payload, its fields already passed through String and Number. */
  datatype Payload = Payload(
    journeyId: Option<Id>,
    concurrentJourneys: Option<int>,
    stepNumber: Option<int>,
    durationMs: Option<int>,
    stepCount: Option<int>,
    attributes: Option<Attributes>,
    whole: Attributes)

  /** A console message and what its arguments resolve to: None where the await rejects or the value
      has the wrong type. */
  datatype Message = Message(
    text: string, prefix: Option<string>, context: Option<string>, payload: Option<Payload>)

  datatype StepRecord = StepRecord(name: string, stepNumber: int, attributes: Option<Attributes>)

  datatype Record = Record(
    journeyType: JourneyType,
    journeyId: Id,
    outcome: string,
    durationMs: int,
    stepCount: int,
    attributes: Attributes,
    steps: seq<StepRecord>,
    attributeUpdates: seq<Attributes>,
    concurrentJourneys: int,
    rawLogs: seq<string>)

  // ---- what a message asks for ------------------------------------------------------------------

  datatype Op =
    | Started(kind: JourneyType, id: Id, concurrent: int, text: string)
    | Stepped(kind: JourneyType, name: string, payloadId: Option<Id>, number: Option<int>,
              stepAttributes: Option<Attributes>, text: string)
    | AttributesSet(kind: JourneyType, whole: Attributes, text: string)
    | Ended(kind: JourneyType, outcome: string, payloadId: Option<Id>, durationMs: int, stepCount: int,
            attributes: Attributes, text: string)

  function Or<T>(o: Option<T>, default: T): T {
    match o
    case Some(v) => v
    case None => default
  }

  function Field<T>(p: Option<Payload>, get: Payload -> Option<T>): Option<T> {
    match p
    case Some(v) => get(v)
    case None => None
  }

  function StartOps(prefix: string, ctx: string, m: Message): seq<Op> {
    if Includes(prefix, "startJourney") && ctx != "" then
      [Started(ctx, Or(Field(m.payload, (p: Payload) => p.journeyId), ""),
               Or(Field(m.payload, (p: Payload) => p.concurrentJourneys), 0), m.text)]
    else []
  }

  function StepOps(prefix: string, ctx: string, m: Message): seq<Op> {
    var slash := IndexOf(ctx, "/", 0);
    if (Includes(prefix, "recordEvent") || Includes(prefix, "startStep")) && slash != -1 then
      [Stepped(ctx[..slash], ctx[slash + 1..], Field(m.payload, (p: Payload) => p.journeyId),
               Field(m.payload, (p: Payload) => p.stepNumber),
               Field(m.payload, (p: Payload) => p.attributes), m.text)]
    else []
  }

  function AttributeOps(prefix: string, ctx: string, m: Message): seq<Op> {
    if Includes(prefix, "setAttributes") && ctx != "" && m.payload.Some? then
      [AttributesSet(ctx, m.payload.value.whole, m.text)]
    else []
  }

  function EndOps(prefix: string, ctx: string, m: Message): seq<Op> {
    var arrow := IndexOf(ctx, " -> ", 0);
    if Includes(prefix, "] end") && arrow != -1 then
      [Ended(ctx[..arrow], ctx[arrow + 4..], Field(m.payload, (p: Payload) => p.journeyId),
             Or(Field(m.payload, (p: Payload) => p.durationMs), 0),
             Or(Field(m.payload, (p: Payload) => p.stepCount), 0),
             Or(Field(m.payload, (p: Payload) => p.attributes), map[]), m.text)]
    else []
  }

  /** The operations of one message, in the order of the handler's four tests. */
  function Ops(m: Message): seq<Op> {
    if m.prefix.None? then []
    else
      var prefix, ctx := m.prefix.value, Or(m.context, "");
      StartOps(prefix, ctx, m) + StepOps(prefix, ctx, m)
      + AttributeOps(prefix, ctx, m) + EndOps(prefix, ctx, m)
  }

  // ---- the recorder's state as a value ----------------------------------------------------------

  datatype Active = Active(
    kind: JourneyType, id: Id, steps: seq<StepRecord>, attributeUpdates: seq<Attributes>,
    concurrent: int, rawLogs: seq<string>)

  datatype Status<V> = Pending | Resolved(value: V) | Rejected

  /** A promise handed to a waiting test. */
  datatype Promise<V> = Promise(kind: JourneyType, status: Status<V>)

  /** Waiters are positions in the promise lists. */
  datatype State = State(
    active: map<Id, Active>,
    typeToId: map<JourneyType, Id>,
    completed: seq<Record>,
    endWaiters: map<JourneyType, seq<nat>>,
    startWaiters: map<JourneyType, seq<nat>>,
    ends: seq<Promise<Record>>,
    starts: seq<Promise<Id>>)

  function Settle<V>(p: Promise<V>, v: V): Promise<V> {
    if p.status.Pending? then p.(status := Resolved(v)) else p
  }

  /** Every waiter in ws called with v. */
  function SettleAll<V>(ps: seq<Promise<V>>, ws: seq<nat>, v: V): (r: seq<Promise<V>>)
    ensures |r| == |ps|
  {
    seq(|ps|, i requires 0 <= i < |ps| => if i in ws then Settle(ps[i], v) else ps[i])
  }

  /** The id an operation without one of its own resolves to: that of the type's latest start. */
  function Target(s: State, kind: JourneyType, id: Option<Id>): Id {
    Or(id, Or(Lookup(s.typeToId, kind), ""))
  }

  function NextStep(a: Active, op: Op): StepRecord
    requires op.Stepped?
  {
    StepRecord(op.name, Or(op.number, |a.steps| + 1), op.stepAttributes)
  }

  function MakeRecord(op: Op, id: Id, a: Option<Active>): Record
    requires op.Ended?
  {
    match a
    case Some(j) =>
      Record(op.kind, id, op.outcome, op.durationMs, op.stepCount, op.attributes, j.steps,
             j.attributeUpdates, j.concurrent, j.rawLogs + [op.text])
    case None =>
      Record(op.kind, id, op.outcome, op.durationMs, op.stepCount, op.attributes, [], [], 0,
             [op.text])
  }

  function Apply(s: State, op: Op): State {
    match op
    case Started(kind, id, concurrent, text) =>
      s.(active := s.active[id := Active(kind, id, [], [], concurrent, [text])],
         typeToId := s.typeToId[kind := id],
         starts := if kind in s.startWaiters then SettleAll(s.starts, s.startWaiters[kind], id)
                   else s.starts,
         startWaiters := s.startWaiters - {kind})
    case Stepped(kind, _, id, _, _, text) =>
      var target := Target(s, kind, id);
      if target !in s.active then s
      else
        var a := s.active[target];
        s.(active := s.active[target := a.(steps := a.steps + [NextStep(a, op)],
                                           rawLogs := a.rawLogs + [text])])
    case AttributesSet(kind, whole, text) =>
      var target := Target(s, kind, None);
      if target == "" || target !in s.active then s
      else
        var a := s.active[target];
        s.(active := s.active[target := a.(attributeUpdates := a.attributeUpdates + [whole],
                                           rawLogs := a.rawLogs + [text])])
    case Ended(kind, _, id, _, _, _, _) =>
      var target := Target(s, kind, id);
      var record := MakeRecord(op, target, Lookup(s.active, target));
      s.(active := s.active - {target},
         completed := s.completed + [record],
         ends := if kind in s.endWaiters then SettleAll(s.ends, s.endWaiters[kind], record)
                 else s.ends,
         endWaiters := s.endWaiters - {kind})
  }

  function ApplyAll(s: State, ops: seq<Op>): State {
    if ops == [] then s
    else Apply(ApplyAll(s, ops[..|ops| - 1]), ops[|ops| - 1])
  }

  lemma {:induction false} ApplyAppended(s: State, xs: seq<Op>, ys: seq<Op>)
    ensures ApplyAll(s, xs + ys) == ApplyAll(ApplyAll(s, xs), ys)
  {
    if ys == [] {
      assert xs + ys == xs;
    } else {
      var init := ys[..|ys| - 1];
      ApplyAppended(s, xs, init);
      assert (xs + ys)[..|xs + ys| - 1] == xs + init;
    }
  }

  lemma {:induction false} ApplyOne(s: State, op: Op)
    ensures ApplyAll(s, [op]) == Apply(s, op)
  {
    assert [op][..0] == [];
  }

  lemma {:induction false} ApplyFour(s: State, a: seq<Op>, b: seq<Op>, c: seq<Op>, d: seq<Op>)
    ensures ApplyAll(s, a + b + c + d) ==
            ApplyAll(ApplyAll(ApplyAll(ApplyAll(s, a), b), c), d)
  {
    ApplyAppended(s, a, b);
    ApplyAppended(s, a + b, c);
    ApplyAppended(s, a + b + c, d);
  }

  /** The state after a start, field by field. */
  lemma {:induction false} StartedState(s: State, t: State, op: Op)
    requires op.Started?
    requires t.active == s.active[op.id := Active(op.kind, op.id, [], [], op.concurrent, [op.text])]
    requires t.typeToId == s.typeToId[op.kind := op.id]
    requires t.starts == if op.kind in s.startWaiters
                         then SettleAll(s.starts, s.startWaiters[op.kind], op.id) else s.starts
    requires t.startWaiters == s.startWaiters - {op.kind}
    requires t.completed == s.completed && t.ends == s.ends && t.endWaiters == s.endWaiters
    ensures t == Apply(s, op)
  {
  }

  /** The state after an end, field by field. */
  lemma {:induction false} EndedState(s: State, t: State, op: Op, target: Id, record: Record)
    requires op.Ended? && target == Target(s, op.kind, op.payloadId)
    requires record == MakeRecord(op, target, Lookup(s.active, target))
    requires t.active == s.active - {target}
    requires t.completed == s.completed + [record]
    requires t.ends == if op.kind in s.endWaiters
                       then SettleAll(s.ends, s.endWaiters[op.kind], record) else s.ends
    requires t.endWaiters == s.endWaiters - {op.kind}
    requires t.typeToId == s.typeToId && t.starts == s.starts && t.startWaiters == s.startWaiters
    ensures t == Apply(s, op)
  {
  }

  /** completedJourneys.find by type. */
  function FirstOfType(rs: seq<Record>, kind: JourneyType): (r: Option<Record>)
    ensures r.Some? ==> r.value in rs && r.value.journeyType == kind
    ensures r.None? ==> forall x | x in rs :: x.journeyType != kind
  {
    if rs == [] then None
    else if rs[0].journeyType == kind then Some(rs[0])
    else FirstOfType(rs[1..], kind)
  }

  function AddWaiter(ws: map<JourneyType, seq<nat>>, kind: JourneyType, w: nat)
    : map<JourneyType, seq<nat>>
  {
    ws[kind := Or(Lookup(ws, kind), []) + [w]]
  }

  /** waitForJourneyEnd(kind): the new promise is the last of ends. */
  function WaitedEnd(s: State, kind: JourneyType): State {
    match FirstOfType(s.completed, kind)
    case Some(r) => s.(ends := s.ends + [Promise(kind, Resolved(r))])
    case None => s.(ends := s.ends + [Promise(kind, Pending)],
                    endWaiters := AddWaiter(s.endWaiters, kind, |s.ends|))
  }

  /** waitForJourneyStart(kind); an empty id counts as not started. */
  function WaitedStart(s: State, kind: JourneyType): State {
    var id := Or(Lookup(s.typeToId, kind), "");
    if id != "" then s.(starts := s.starts + [Promise(kind, Resolved(id))])
    else s.(starts := s.starts + [Promise(kind, Pending)],
            startWaiters := AddWaiter(s.startWaiters, kind, |s.starts|))
  }

  function TimedOut<V>(ps: seq<Promise<V>>, i: nat): seq<Promise<V>> {
    if i < |ps| && ps[i].status.Pending? then ps[i := ps[i].(status := Rejected)] else ps
  }

  function Disposed(s: State): State {
    s.(endWaiters := map[], startWaiters := map[])
  }

  // ---- the recorder -----------------------------------------------------------------------------

  /** The mutable entry of activeJourneys. */
  class ActiveJourney {
    const kind: JourneyType
    const id: Id
    const concurrent: int
    var steps: seq<StepRecord>
    var attributeUpdates: seq<Attributes>
    var rawLogs: seq<string>

    constructor (kind: JourneyType, id: Id, concurrent: int, text: string)
      ensures this.id == id && Val() == Active(kind, id, [], [], concurrent, [text])
    {
      this.kind := kind;
      this.id := id;
      this.concurrent := concurrent;
      this.steps := [];
      this.attributeUpdates := [];
      this.rawLogs := [text];
    }

    ghost function Val(): Active
      reads this
    {
      Active(kind, id, steps, attributeUpdates, concurrent, rawLogs)
    }
  }

  class Recorder {
    var rawLogs: seq<string>
    var activeJourneys: map<Id, ActiveJourney>
    var typeToId: map<JourneyType, Id>
    var completedJourneys: seq<Record>
    var endWaiters: map<JourneyType, seq<nat>>
    var startWaiters: map<JourneyType, seq<nat>>
    var ends: seq<Promise<Record>>
    var starts: seq<Promise<Id>>

    ghost predicate Valid()
      reads this`activeJourneys
    {
      forall i, j | i in activeJourneys && j in activeJourneys && i != j ::
        activeJourneys[i] != activeJourneys[j]
    }

    ghost function ActiveView(): map<Id, Active>
      reads this`activeJourneys, activeJourneys.Values
    {
      map i | i in activeJourneys :: activeJourneys[i].Val()
    }

    ghost function View(): State
      reads this, activeJourneys.Values
    {
      State(ActiveView(), typeToId, completedJourneys, endWaiters, startWaiters, ends, starts)
    }

    constructor ()
      ensures Valid() && View() == State(map[], map[], [], map[], map[], [], []) && rawLogs == []
    {
      rawLogs := [];
      activeJourneys := map[];
      typeToId := map[];
      completedJourneys := [];
      endWaiters := map[];
      startWaiters := map[];
      ends := [];
      starts := [];
    }

    /** The handler up to its first await: true when it goes on. */
    method OnConsole(text: string) returns (goesOn: bool)
      requires Valid()
      modifies this`rawLogs
      ensures Valid() && View() == old(View())
      ensures goesOn == (StartsWith(text, "[JourneyTracker]") || StartsWith(text, "[JourneyRegistry]"))
      ensures rawLogs == if goesOn then old(rawLogs) + [text] else old(rawLogs)
    {
      goesOn := StartsWith(text, "[JourneyTracker]") || StartsWith(text, "[JourneyRegistry]");
      if goesOn {
        rawLogs := rawLogs + [text];
      }
    }

    /** The handler once its arguments have resolved. */
    method Resume(m: Message)
      requires Valid()
      modifies this, activeJourneys.Values
      ensures Valid() && rawLogs == old(rawLogs)
      ensures View() == ApplyAll(old(View()), Ops(m))
    {
      if m.prefix.None? {
        return;
      }
      var prefix, ctx := m.prefix.value, Or(m.context, "");
      ghost var s0 := View();
      OnStart(prefix, ctx, m);
      OnStep(prefix, ctx, m);
      OnAttributes(prefix, ctx, m);
      OnEnd(prefix, ctx, m);
      ApplyFour(s0, StartOps(prefix, ctx, m), StepOps(prefix, ctx, m),
                AttributeOps(prefix, ctx, m), EndOps(prefix, ctx, m));
    }

    method OnStart(prefix: string, ctx: string, m: Message)
      requires Valid()
      modifies this
      ensures Valid() && rawLogs == old(rawLogs)
      ensures fresh(activeJourneys.Values - old(activeJourneys.Values))
      ensures View() == ApplyAll(old(View()), StartOps(prefix, ctx, m))
    {
      if Includes(prefix, "startJourney") && ctx != "" {
        var op := StartOps(prefix, ctx, m)[0];
        ApplyOne(View(), op);
        HandleStart(op);
      }
    }

    method OnStep(prefix: string, ctx: string, m: Message)
      requires Valid()
      modifies activeJourneys.Values
      ensures Valid() && unchanged(this)
      ensures View() == ApplyAll(old(View()), StepOps(prefix, ctx, m))
    {
      var slash := IndexOf(ctx, "/", 0);
      if (Includes(prefix, "recordEvent") || Includes(prefix, "startStep")) && slash != -1 {
        var op := StepOps(prefix, ctx, m)[0];
        ApplyOne(View(), op);
        HandleStep(op);
      }
    }

    method OnAttributes(prefix: string, ctx: string, m: Message)
      requires Valid()
      modifies activeJourneys.Values
      ensures Valid() && unchanged(this)
      ensures View() == ApplyAll(old(View()), AttributeOps(prefix, ctx, m))
    {
      if Includes(prefix, "setAttributes") && ctx != "" && m.payload.Some? {
        var op := AttributeOps(prefix, ctx, m)[0];
        ApplyOne(View(), op);
        HandleAttributes(op);
      }
    }

    method OnEnd(prefix: string, ctx: string, m: Message)
      requires Valid()
      modifies this
      ensures Valid() && rawLogs == old(rawLogs)
      ensures View() == ApplyAll(old(View()), EndOps(prefix, ctx, m))
    {
      var arrow := IndexOf(ctx, " -> ", 0);
      if Includes(prefix, "] end") && arrow != -1 {
        var op := EndOps(prefix, ctx, m)[0];
        ApplyOne(View(), op);
        HandleEnd(op);
      }
    }

    method HandleStart(op: Op)
      requires Valid() && op.Started?
      modifies this
      ensures Valid() && rawLogs == old(rawLogs)
      ensures fresh(activeJourneys.Values - old(activeJourneys.Values))
      ensures View() == Apply(old(View()), op)
    {
      ghost var s := View();
      var entry := new ActiveJourney(op.kind, op.id, op.concurrent, op.text);
      typeToId := typeToId[op.kind := op.id];
      assert ActiveView() == s.active;
      Activate(entry);
      ResolveStartWaiters(op.kind, op.id);
      StartedState(s, View(), op);
    }

    method Activate(entry: ActiveJourney)
      requires Valid() && entry !in activeJourneys.Values
      modifies this`activeJourneys
      ensures Valid() && activeJourneys.Values <= old(activeJourneys.Values) + {entry}
      ensures ActiveView() == old(ActiveView())[entry.id := entry.Val()]
    {
      activeJourneys := activeJourneys[entry.id := entry];
    }

    method ResolveStartWaiters(kind: JourneyType, id: Id)
      modifies this`starts, this`startWaiters
      ensures starts == if kind in old(startWaiters)
                        then SettleAll(old(starts), old(startWaiters)[kind], id) else old(starts)
      ensures startWaiters == old(startWaiters) - {kind}
      ensures ActiveView() == old(ActiveView())
    {
      if kind in startWaiters {
        starts := ResolveWaiters(starts, startWaiters[kind], id);
      }
      startWaiters := startWaiters - {kind};
    }

    method ResolveEndWaiters(kind: JourneyType, record: Record)
      modifies this`ends, this`endWaiters
      ensures ends == if kind in old(endWaiters)
                      then SettleAll(old(ends), old(endWaiters)[kind], record) else old(ends)
      ensures endWaiters == old(endWaiters) - {kind}
      ensures ActiveView() == old(ActiveView())
    {
      if kind in endWaiters {
        ends := ResolveWaiters(ends, endWaiters[kind], record);
      }
      endWaiters := endWaiters - {kind};
    }

    method ResolveId(kind: JourneyType, id: Option<Id>) returns (target: Id)
      ensures target == Target(View(), kind, id)
    {
      target := if id.Some? then id.value else if kind in typeToId then typeToId[kind] else "";
    }

    method HandleStep(op: Op)
      requires Valid() && op.Stepped?
      modifies activeJourneys.Values
      ensures Valid() && unchanged(this)
      ensures View() == Apply(old(View()), op)
    {
      var target := ResolveId(op.kind, op.payloadId);
      if target in activeJourneys {
        var active := activeJourneys[target];
        ghost var before := ActiveView();
        var number := if op.number.Some? then op.number.value else |active.steps| + 1;
        active.steps := active.steps + [StepRecord(op.name, number, op.stepAttributes)];
        active.rawLogs := active.rawLogs + [op.text];
        assert ActiveView() == before[target := active.Val()];
      }
    }

    method HandleAttributes(op: Op)
      requires Valid() && op.AttributesSet?
      modifies activeJourneys.Values
      ensures Valid() && unchanged(this)
      ensures View() == Apply(old(View()), op)
    {
      if op.kind in typeToId && typeToId[op.kind] != "" && typeToId[op.kind] in activeJourneys {
        var target := typeToId[op.kind];
        var active := activeJourneys[target];
        ghost var before := ActiveView();
        active.attributeUpdates := active.attributeUpdates + [op.whole];
        active.rawLogs := active.rawLogs + [op.text];
        assert ActiveView() == before[target := active.Val()];
      }
    }

    method HandleEnd(op: Op)
      requires Valid() && op.Ended?
      modifies this
      ensures Valid() && rawLogs == old(rawLogs)
      ensures View() == Apply(old(View()), op)
    {
      ghost var s := View();
      var target := ResolveId(op.kind, op.payloadId);
      var record := CloseJourney(op, target);
      ResolveEndWaiters(op.kind, record);
      EndedState(s, View(), op, target, record);
    }

    method CloseJourney(op: Op, target: Id) returns (record: Record)
      requires Valid() && op.Ended?
      modifies this`completedJourneys, this`activeJourneys
      ensures Valid()
      ensures record == MakeRecord(op, target, Lookup(old(ActiveView()), target))
      ensures completedJourneys == old(completedJourneys) + [record]
      ensures ActiveView() == old(ActiveView()) - {target}
    {
      record := BuildRecord(op, target);
      CompleteActive(target, record);
    }

    method CompleteActive(target: Id, record: Record)
      requires Valid()
      modifies this`completedJourneys, this`activeJourneys
      ensures Valid()
      ensures completedJourneys == old(completedJourneys) + [record]
      ensures ActiveView() == old(ActiveView()) - {target}
    {
      completedJourneys := completedJourneys + [record];
      activeJourneys := activeJourneys - {target};
    }

    method BuildRecord(op: Op, target: Id) returns (record: Record)
      requires op.Ended?
      ensures record == MakeRecord(op, target, Lookup(ActiveView(), target))
    {
      if target in activeJourneys {
        var active := activeJourneys[target];
        record := Record(op.kind, target, op.outcome, op.durationMs, op.stepCount, op.attributes,
                         active.steps, active.attributeUpdates, active.concurrent,
                         active.rawLogs + [op.text]);
      } else {
        record := Record(op.kind, target, op.outcome, op.durationMs, op.stepCount, op.attributes,
                         [], [], 0, [op.text]);
      }
    }

    static method ResolveWaiters<V>(ps: seq<Promise<V>>, ws: seq<nat>, v: V)
      returns (settled: seq<Promise<V>>)
      ensures settled == SettleAll(ps, ws, v)
    {
      settled := ps;
      for k := 0 to |ws|
        invariant |settled| == |ps|
        invariant forall i | 0 <= i < |ps| ::
                    settled[i] == if i in ws[..k] then Settle(ps[i], v) else ps[i]
      {
        if ws[k] < |ps| {
          settled := settled[ws[k] := Settle(settled[ws[k]], v)];
        }
      }
      assert ws[..|ws|] == ws;
    }

    method WaitForJourneyEnd(kind: JourneyType) returns (promise: nat)
      requires Valid()
      modifies this`ends, this`endWaiters
      ensures Valid() && promise == |old(ends)|
      ensures View() == WaitedEnd(old(View()), kind)
    {
      promise := |ends|;
      var existing := FirstOfType(completedJourneys, kind);
      if existing.Some? {
        ends := ends + [Promise(kind, Resolved(existing.value))];
        return;
      }
      ends := ends + [Promise(kind, Pending)];
      var waiters := if kind in endWaiters then endWaiters[kind] else [];
      endWaiters := endWaiters[kind := waiters + [promise]];
    }

    method WaitForJourneyStart(kind: JourneyType) returns (promise: nat)
      requires Valid()
      modifies this`starts, this`startWaiters
      ensures Valid() && promise == |old(starts)|
      ensures View() == WaitedStart(old(View()), kind)
    {
      promise := |starts|;
      if kind in typeToId && typeToId[kind] != "" {
        starts := starts + [Promise(kind, Resolved(typeToId[kind]))];
        return;
      }
      starts := starts + [Promise(kind, Pending)];
      var waiters := if kind in startWaiters then startWaiters[kind] else [];
      startWaiters := startWaiters[kind := waiters + [promise]];
    }

    method EndTimeout(promise: nat)
      requires Valid()
      modifies this`ends
      ensures Valid() && View() == old(View()).(ends := TimedOut(old(ends), promise))
    {
      ends := TimedOut(ends, promise);
    }

    method StartTimeout(promise: nat)
      requires Valid()
      modifies this`starts
      ensures Valid() && View() == old(View()).(starts := TimedOut(old(starts), promise))
    {
      starts := TimedOut(starts, promise);
    }

    /** Clears the waiters and nothing else: the console handler stays attached. */
    method Dispose()
      requires Valid()
      modifies this`endWaiters, this`startWaiters
      ensures Valid() && View() == Disposed(old(View()))
    {
      endWaiters := map[];
      startWaiters := map[];
    }
  }
}
