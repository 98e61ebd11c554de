/** What the text of a console message asks of the journey recorder, and the records by the messages
    themselves (upstream/e2e-playwright/journey-tracking/journeyRecorder.ts). */
module JourneyMessages {
  import opened Common
  import opened Text
  import opened JourneyRecorder
  import opened JourneyRuns

  // ---- what a message asks for, by its parts ----------------------------------------------------

  /** The prefix has the word. */
  ghost predicate Says(m: Message, word: string) {
    m.prefix.Some? && exists i :: OccursAt(m.prefix.value, word, i)
  }

  /** The context is kind, a slash and name, and it is the first slash. */
  predicate AtSlash(ctx: string, kind: string, name: string) {
    ctx == kind + "/" + name && '/' !in kind
  }

  /** The context is kind, an arrow and outcome, and it is the first arrow. */
  ghost predicate AtArrow(ctx: string, kind: string, outcome: string) {
    ctx == kind + " -> " + outcome && forall i | 0 <= i < |kind| :: !OccursAt(ctx, " -> ", i)
  }

  ghost predicate StartPart(m: Message, part: seq<Op>) {
    if Says(m, "startJourney") && m.context.Some? && m.context.value != "" then
      var kind := m.context.value;
      match m.payload
      case None => part == [Started(kind, "", 0, m.text)]
      case Some(p) =>
        part == [Started(kind, if p.journeyId.Some? then p.journeyId.value else "",
                         if p.concurrentJourneys.Some? then p.concurrentJourneys.value else 0, m.text)]
    else part == []
  }

  ghost predicate StepPart(m: Message, part: seq<Op>) {
    if (Says(m, "recordEvent") || Says(m, "startStep")) && m.context.Some? && '/' in m.context.value then
      exists kind, name :: AtSlash(m.context.value, kind, name) && part == [StepOf(m, kind, name)]
    else part == []
  }

  function StepOf(m: Message, kind: string, name: string): Op {
    match m.payload
    case None => Stepped(kind, name, None, None, None, m.text)
    case Some(p) => Stepped(kind, name, p.journeyId, p.stepNumber, p.attributes, m.text)
  }

  ghost predicate AttributePart(m: Message, part: seq<Op>) {
    if Says(m, "setAttributes") && m.context.Some? && m.context.value != "" && m.payload.Some? then
      part == [AttributesSet(m.context.value, m.payload.value.whole, m.text)]
    else part == []
  }

  ghost predicate EndPart(m: Message, part: seq<Op>) {
    if Says(m, "] end") && m.context.Some? && exists i :: OccursAt(m.context.value, " -> ", i) then
      exists kind, outcome :: AtArrow(m.context.value, kind, outcome) && part == [EndOf(m, kind, outcome)]
    else part == []
  }

  function EndOf(m: Message, kind: string, outcome: string): Op {
    match m.payload
    case None => Ended(kind, outcome, None, 0, 0, map[], m.text)
    case Some(p) =>
      Ended(kind, outcome, p.journeyId, if p.durationMs.Some? then p.durationMs.value else 0,
            if p.stepCount.Some? then p.stepCount.value else 0,
            if p.attributes.Some? then p.attributes.value else map[], m.text)
  }

  /** The message asks for these operations: a start, a step, attributes and an end, as far as its
      prefix, context and payload have them, in this order. */
  ghost predicate Asks(m: Message, ops: seq<Op>) {
    exists a, b, c, d ::
      StartPart(m, a) && StepPart(m, b) && AttributePart(m, c) && EndPart(m, d) && ops == a + b + c + d
  }

  // ---- splitting a context ----------------------------------------------------------------------

  lemma {:induction false} IncludesIff(s: string, word: string)
    ensures Includes(s, word) <==> exists i :: OccursAt(s, word, i)
  {
  }

  lemma {:induction false} SlashIff(ctx: string)
    ensures IndexOf(ctx, "/", 0) != -1 <==> '/' in ctx
    ensures IndexOf(ctx, "/", 0) != -1 ==>
              AtSlash(ctx, ctx[..IndexOf(ctx, "/", 0)], ctx[IndexOf(ctx, "/", 0) + 1..])
  {
    var i := IndexOf(ctx, "/", 0);
    forall k | 0 <= k < |ctx| ensures OccursAt(ctx, "/", k) <==> ctx[k] == '/' {
      assert ctx[k..k + 1] == [ctx[k]];
    }
    if i != -1 {
      assert ctx == ctx[..i] + "/" + ctx[i + 1..];
      assert forall k | 0 <= k < i :: ctx[k] != '/';
    }
  }

  lemma {:induction false} SlashSplitsOnce(ctx: string, k1: string, n1: string, k2: string, n2: string)
    requires AtSlash(ctx, k1, n1) && AtSlash(ctx, k2, n2)
    ensures k1 == k2 && n1 == n2
  {
    SplitHasSlash(ctx, k1, n1);
    SplitHasSlash(ctx, k2, n2);
  }

  lemma {:induction false} SplitHasSlash(ctx: string, kind: string, name: string)
    requires AtSlash(ctx, kind, name)
    ensures IndexOf(ctx, "/", 0) == |kind| && ctx[..|kind|] == kind && ctx[|kind| + 1..] == name
  {
    OccursWithin(kind, "/", name, "/", 0);
    assert "/"[0..1] == "/";
    forall k | 0 <= k < |kind| ensures !OccursAt(ctx, "/", k) {
      if OccursAt(ctx, "/", k) {
        OccursChar(ctx, "/", k, 0);
      }
    }
    FirstIs(ctx, "/", 0, |kind|);
  }

  lemma {:induction false} ArrowIff(ctx: string)
    ensures IndexOf(ctx, " -> ", 0) != -1 ==>
              AtArrow(ctx, ctx[..IndexOf(ctx, " -> ", 0)], ctx[IndexOf(ctx, " -> ", 0) + 4..])
  {
    var i := IndexOf(ctx, " -> ", 0);
    if i != -1 {
      assert ctx == ctx[..i] + ctx[i..i + 4] + ctx[i + 4..];
    }
  }

  lemma {:induction false} SplitHasArrow(ctx: string, kind: string, outcome: string)
    requires AtArrow(ctx, kind, outcome)
    ensures IndexOf(ctx, " -> ", 0) == |kind| && ctx[..|kind|] == kind && ctx[|kind| + 4..] == outcome
  {
    OccursWithin(kind, " -> ", outcome, " -> ", 0);
    assert " -> "[0..4] == " -> ";
    FirstIs(ctx, " -> ", 0, |kind|);
  }

  // ---- the recorder does what the message asks --------------------------------------------------

  lemma {:induction false} StartPartIs(m: Message)
    requires m.prefix.Some?
    ensures StartPart(m, StartOps(m.prefix.value, Or(m.context, ""), m))
  {
    IncludesIff(m.prefix.value, "startJourney");
  }

  lemma {:induction false} StepPartIs(m: Message)
    requires m.prefix.Some?
    ensures StepPart(m, StepOps(m.prefix.value, Or(m.context, ""), m))
  {
    IncludesIff(m.prefix.value, "recordEvent");
    IncludesIff(m.prefix.value, "startStep");
    var ctx := Or(m.context, "");
    SlashIff(ctx);
    var i := IndexOf(ctx, "/", 0);
    if i != -1 {
      assert AtSlash(ctx, ctx[..i], ctx[i + 1..]);
    }
  }

  lemma {:induction false} AttributePartIs(m: Message)
    requires m.prefix.Some?
    ensures AttributePart(m, AttributeOps(m.prefix.value, Or(m.context, ""), m))
  {
    IncludesIff(m.prefix.value, "setAttributes");
  }

  lemma {:induction false} EndPartIs(m: Message)
    requires m.prefix.Some?
    ensures EndPart(m, EndOps(m.prefix.value, Or(m.context, ""), m))
  {
    IncludesIff(m.prefix.value, "] end");
    var ctx := Or(m.context, "");
    ArrowIff(ctx);
    var i := IndexOf(ctx, " -> ", 0);
    if i != -1 {
      assert AtArrow(ctx, ctx[..i], ctx[i + 4..]);
    }
  }

  /** What a resumed handler does is what its message asks for. */
  lemma {:induction false} OpsAreAsked(m: Message)
    ensures Asks(m, Ops(m))
  {
    if m.prefix.None? {
      assert StartPart(m, []) && StepPart(m, []) && AttributePart(m, []) && EndPart(m, []);
      assert [] + [] + [] + [] == Ops(m);
    } else {
      var prefix, ctx := m.prefix.value, Or(m.context, "");
      StartPartIs(m);
      StepPartIs(m);
      AttributePartIs(m);
      EndPartIs(m);
      assert Ops(m) == StartOps(prefix, ctx, m) + StepOps(prefix, ctx, m)
                       + AttributeOps(prefix, ctx, m) + EndOps(prefix, ctx, m);
    }
  }

  lemma {:induction false} StepPartIsOne(m: Message, x: seq<Op>, y: seq<Op>)
    requires StepPart(m, x) && StepPart(m, y)
    ensures x == y
  {
    if (Says(m, "recordEvent") || Says(m, "startStep")) && m.context.Some? && '/' in m.context.value {
      var k1, n1 :| AtSlash(m.context.value, k1, n1) && x == [StepOf(m, k1, n1)];
      var k2, n2 :| AtSlash(m.context.value, k2, n2) && y == [StepOf(m, k2, n2)];
      SlashSplitsOnce(m.context.value, k1, n1, k2, n2);
    }
  }

  lemma {:induction false} EndPartIsOne(m: Message, x: seq<Op>, y: seq<Op>)
    requires EndPart(m, x) && EndPart(m, y)
    ensures x == y
  {
    if Says(m, "] end") && m.context.Some? && exists i :: OccursAt(m.context.value, " -> ", i) {
      var k1, o1 :| AtArrow(m.context.value, k1, o1) && x == [EndOf(m, k1, o1)];
      var k2, o2 :| AtArrow(m.context.value, k2, o2) && y == [EndOf(m, k2, o2)];
      SplitHasArrow(m.context.value, k1, o1);
      SplitHasArrow(m.context.value, k2, o2);
    }
  }

  /** And a message asks for one thing only. */
  lemma {:induction false} AskedIsDetermined(m: Message, ops: seq<Op>)
    requires Asks(m, ops)
    ensures ops == Ops(m)
  {
    OpsAreAsked(m);
    var a, b, c, d :| StartPart(m, a) && StepPart(m, b) && AttributePart(m, c) && EndPart(m, d)
                      && ops == a + b + c + d;
    var w, x, y, z :| StartPart(m, w) && StepPart(m, x) && AttributePart(m, y) && EndPart(m, z)
                      && Ops(m) == w + x + y + z;
    StepPartIsOne(m, b, x);
    EndPartIsOne(m, d, z);
  }

  /** A message that only reports a step, in context kind/name, is exactly that step. */
  lemma {:induction false} StepMessage(m: Message, kind: string, name: string)
    requires Says(m, "recordEvent") || Says(m, "startStep")
    requires !Says(m, "startJourney") && !Says(m, "setAttributes") && !Says(m, "] end")
    requires m.context == Some(kind + "/" + name) && '/' !in kind
    ensures Ops(m) == [match m.payload
                       case None => Stepped(kind, name, None, None, None, m.text)
                       case Some(p) => Stepped(kind, name, p.journeyId, p.stepNumber, p.attributes, m.text)]
  {
    assert AtSlash(m.context.value, kind, name);
    assert m.context.value[|kind|] == '/';
    assert StepPart(m, [StepOf(m, kind, name)]);
    assert [] + [StepOf(m, kind, name)] + [] + [] == [StepOf(m, kind, name)];
    assert Asks(m, [StepOf(m, kind, name)]);
    AskedIsDetermined(m, [StepOf(m, kind, name)]);
  }

  /** A message that only reports a start, in the context of its journey type, is exactly that start. */
  lemma {:induction false} StartMessage(m: Message, kind: string)
    requires Says(m, "startJourney") && !Says(m, "setAttributes") && !Says(m, "] end")
    requires !Says(m, "recordEvent") && !Says(m, "startStep")
    requires m.context == Some(kind) && kind != ""
    ensures Ops(m) == [match m.payload
                       case None => Started(kind, "", 0, m.text)
                       case Some(p) =>
                         Started(kind, if p.journeyId.Some? then p.journeyId.value else "",
                                 if p.concurrentJourneys.Some? then p.concurrentJourneys.value else 0,
                                 m.text)]
  {
    OpsAreAsked(m);
    var a, b, c, d :| StartPart(m, a) && StepPart(m, b) && AttributePart(m, c) && EndPart(m, d)
                      && Ops(m) == a + b + c + d;
    assert Ops(m) == a;
  }

  /** A message that only sets attributes, with a payload, adds exactly that payload. */
  lemma {:induction false} AttributesMessage(m: Message, kind: string, p: Payload)
    requires Says(m, "setAttributes") && !Says(m, "startJourney") && !Says(m, "] end")
    requires !Says(m, "recordEvent") && !Says(m, "startStep")
    requires m.context == Some(kind) && kind != "" && m.payload == Some(p)
    ensures Ops(m) == [AttributesSet(kind, p.whole, m.text)]
  {
    OpsAreAsked(m);
    var a, b, c, d :| StartPart(m, a) && StepPart(m, b) && AttributePart(m, c) && EndPart(m, d)
                      && Ops(m) == a + b + c + d;
    assert Ops(m) == c;
  }

  /** A message that only reports an end, in context kind -> outcome, is exactly that end. */
  lemma {:induction false} EndMessage(m: Message, kind: string, outcome: string)
    requires Says(m, "] end") && !Says(m, "startJourney") && !Says(m, "setAttributes")
    requires !Says(m, "recordEvent") && !Says(m, "startStep")
    requires m.context.Some? && AtArrow(m.context.value, kind, outcome)
    ensures Ops(m) == [match m.payload
                       case None => Ended(kind, outcome, None, 0, 0, map[], m.text)
                       case Some(p) =>
                         Ended(kind, outcome, p.journeyId,
                               if p.durationMs.Some? then p.durationMs.value else 0,
                               if p.stepCount.Some? then p.stepCount.value else 0,
                               if p.attributes.Some? then p.attributes.value else map[], m.text)]
  {
    SplitHasArrow(m.context.value, kind, outcome);
    assert OccursAt(m.context.value, " -> ", |kind|);
    assert EndPart(m, [EndOf(m, kind, outcome)]);
    assert [] + [] + [] + [EndOf(m, kind, outcome)] == [EndOf(m, kind, outcome)];
    assert Asks(m, [EndOf(m, kind, outcome)]);
    AskedIsDetermined(m, [EndOf(m, kind, outcome)]);
  }

  /** A message asks for nothing exactly when none of the four tests is met. */
  lemma {:induction false} NothingAskedIff(m: Message)
    ensures Ops(m) == [] <==>
              && !(Says(m, "startJourney") && m.context.Some? && m.context.value != "")
              && !((Says(m, "recordEvent") || Says(m, "startStep"))
                   && m.context.Some? && '/' in m.context.value)
              && !(Says(m, "setAttributes") && m.context.Some? && m.context.value != "" && m.payload.Some?)
              && !(Says(m, "] end") && m.context.Some? && exists i :: OccursAt(m.context.value, " -> ", i))
  {
    OpsAreAsked(m);
    var a, b, c, d :| StartPart(m, a) && StepPart(m, b) && AttributePart(m, c) && EndPart(m, d)
                      && Ops(m) == a + b + c + d;
    assert Ops(m) == [] <==> a == [] && b == [] && c == [] && d == [];
  }

  // ---- the records, by the messages -------------------------------------------------------------

  /** The log is what the messages of the resumed handlers ask for, one after the other. */
  ghost predicate Tells(events: seq<Event>, log: seq<Op>) {
    if events == [] then log == []
    else
      var init, e := events[..|events| - 1], events[|events| - 1];
      match e
      case Resume(m) => exists before, ops :: Tells(init, before) && Asks(m, ops) && log == before + ops
      case _ => Tells(init, log)
  }

  lemma {:induction false} LogIsTold(events: seq<Event>)
    ensures Tells(events, LifeAfter(events).log)
  {
    if events != [] {
      var init, e := events[..|events| - 1], events[|events| - 1];
      LogIsTold(init);
      if e.Resume? {
        OpsAreAsked(e.message);
        assert LifeAfter(events).log == LifeAfter(init).log + Ops(e.message);
      } else {
        WaitsKeepRecords(LifeAfter(init), e);
      }
    }
  }

  /** Whatever the order of handlers, waits, timeouts and dispose, the records are those of the log
      that the messages tell, in the order in which their handlers resumed. */
  lemma {:induction false} RecordsFollowMessages(events: seq<Event>) returns (log: seq<Op>)
    ensures Tells(events, log)
    ensures Agrees(LifeAfter(events).state, log, |log|)
  {
    log := LifeAfter(events).log;
    LogIsTold(events);
    RecordsFollowLog(events);
  }
}
