/** The legacy dashboard save over the resource store (upstream/pkg/api/dashboard.go).

    The store maps a resource name to what the handler reads of a dashboard. The id lookup, failing
    calls, generated names and what the storage layer makes of the manager are inputs. The storage
    layer raises the generation exactly when the content changes, and nothing is deleted. */
module DashboardSave {
  import opened Common

  type Name = string
  type Content = string

  /** GetManagerProperties: whether there is a manager, and whether it allows edits. */
  datatype Manager = Unmanaged | Managed(allowsEdits: bool)

  datatype Dash = Dash(generation: int, content: Content, manager: Manager)

  type Store = map<Name, Dash>

  /** A numeric field of the posted spec. */
  datatype Number = Absent | Int(value: int) | Malformed

  datatype Command = Command(
    apiVersionOk: bool,
    title: string,
    objectName: Name,
    specUid: Name,
    specId: Number,
    specVersion: Number,
    overwrite: bool,
    content: Content)

  /** GetDashboardUIDByID */
  datatype IdRef = IdUnknown | IdAmbiguous | IdOf(uid: Name)

  /** What the services answer while one save reads: the id lookup, and the code of an error that
      getting an object meets other than its absence. */
  datatype Reads = Reads(idRef: IdRef, getError: Option<int>)

  /** What the storage layer does with the write: the code of its error, the name it generates, how
      much more than one the generation rises, the manager it stores. */
  datatype Writes = Writes(error: Option<int>, generatedName: Name, raise: nat, manager: Manager)

  datatype Reason =
    | BadApiVersion | MissingTitle | BadId | BadVersion
    | UnknownId | AmbiguousId | ReadFailed | UidTaken
    | Provisioned | VersionConflict | WriteFailed

  datatype Reply = Saved(name: Name, version: int) | Refused(code: int, reason: Reason)

  /** What the handler has made up its mind to do once it has read. */
  datatype Decision = Refuse(code: int, reason: Reason) | Create(name: Name) | Update(name: Name, found: Dash)

  // ---- the handler, on values -------------------------------------------------------------------

  function SuppliedName(c: Command): Name {
    if c.objectName == "" && c.specUid != "" then c.specUid else c.objectName
  }

  function InternalId(c: Command): int {
    match c.specId
    case Int(i) => i
    case _ => 0
  }

  predicate Locked(d: Dash) {
    d.manager.Managed? && !d.manager.allowsEdits
  }

  /** What resolveLegacyInternalID returns (a get of the empty name is an error): the name to use, or the refusal. */
  datatype Resolution = Resolved(name: Name) | Unresolved(code: int, reason: Reason)

  function ResolveInternalId(s: Store, r: Reads, name: Name): Resolution {
    match r.idRef
    case IdUnknown => if name == "" then Unresolved(404, UnknownId) else Resolved(name)
    case IdAmbiguous => Unresolved(500, AmbiguousId)
    case IdOf(uid) =>
      if name == "" then (if r.getError.Some? || uid == "" then Unresolved(500, ReadFailed) else Resolved(uid))
      else if name == uid then Resolved(name)
      else if r.getError.Some? then Unresolved(500, ReadFailed)
      else if name in s then Unresolved(400, UidTaken)
      else Resolved(name)
  }

  /** What the handler does with a name it has settled on. */
  function DecideFor(s: Store, c: Command, r: Reads, name: Name): Decision {
    if name == "" then Create("")
    else if r.getError.Some? then Refuse(r.getError.value, ReadFailed)
    else if name !in s then Create(name)
    else if Locked(s[name]) then Refuse(400, Provisioned)
    else if !c.overwrite && c.specVersion != Int(s[name].generation) then
      Refuse(409, VersionConflict)
    else Update(name, s[name])
  }

  /** Everything before the write. */
  function Decide(s: Store, c: Command, r: Reads): Decision {
    if !c.apiVersionOk then Refuse(400, BadApiVersion)
    else if c.title == "" then Refuse(400, MissingTitle)
    else if c.specId == Malformed then Refuse(400, BadId)
    else if c.specVersion == Malformed then Refuse(400, BadVersion)
    else if InternalId(c) > 0 then
      match ResolveInternalId(s, r, SuppliedName(c))
      case Unresolved(code, reason) => Refuse(code, reason)
      case Resolved(name) => DecideFor(s, c, r, name)
    else DecideFor(s, c, r, SuppliedName(c))
  }

  function Written(existing: Option<Dash>, content: Content, w: Writes): Dash {
    match existing
    case None => Dash(1, content, w.manager)
    case Some(d) =>
      Dash(if content != d.content then d.generation + 1 + w.raise else d.generation, content, w.manager)
  }

  /** client.Create and client.Update. The update carries no resource version, so it replaces whatever
      is stored by then. */
  function Commit(s: Store, d: Decision, c: Command, w: Writes): (Store, Reply) {
    match d
    case Refuse(code, reason) => (s, Refused(code, reason))
    case Create(name) =>
      var actual := if name == "" then w.generatedName else name;
      if w.error.Some? then (s, Refused(w.error.value, WriteFailed))
      else if actual in s then (s, Refused(409, WriteFailed))
      else
        var dash := Written(None, c.content, w);
        (s[actual := dash], Saved(actual, dash.generation))
    case Update(name, _) =>
      if w.error.Some? then (s, Refused(w.error.value, WriteFailed))
      else if name !in s then (s, Refused(404, WriteFailed))
      else
        var dash := Written(Some(s[name]), c.content, w);
        (s[name := dash], Saved(name, dash.generation))
  }

  function Save(s: Store, c: Command, r: Reads, w: Writes): (Store, Reply) {
    Commit(s, Decide(s, c, r), c, w)
  }

  // ---- the handler ------------------------------------------------------------------------------

  class DashboardApi {
    var store: Store

    /** saveDashboardViaK8s */
    method SaveDashboard(c: Command, r: Reads, w: Writes) returns (reply: Reply)
      modifies this
      ensures (store, reply) == Save(old(store), c, r, w)
    {
      if !c.apiVersionOk {
        return Refused(400, BadApiVersion);
      }
      if c.title == "" {
        return Refused(400, MissingTitle);
      }
      if c.specId == Malformed {
        return Refused(400, BadId);
      }
      var internalId := if c.specId.Int? then c.specId.value else 0;
      if c.specVersion == Malformed {
        return Refused(400, BadVersion);
      }
      var name := c.objectName;
      if name == "" && c.specUid != "" {
        name := c.specUid;
      }
      var existing: Option<Dash> := None;
      if internalId > 0 {
        var refusal;
        name, existing, refusal := ResolveLegacyInternalId(r, name);
        if refusal.Some? {
          return refusal.value;
        }
      }
      if name != "" && existing == None {
        if r.getError.Some? {
          return Refused(r.getError.value, ReadFailed);
        }
        existing := if name in store then Some(store[name]) else None;
      }
      if existing.Some? {
        if existing.value.manager.Managed? && !existing.value.manager.allowsEdits {
          return Refused(400, Provisioned);
        }
        if !c.overwrite {
          if !c.specVersion.Int? || c.specVersion.value != existing.value.generation {
            return Refused(409, VersionConflict);
          }
        }
      }
      if w.error.Some? {
        return Refused(w.error.value, WriteFailed);
      }
      if existing.None? {
        if name == "" {
          name := w.generatedName;
        }
        if name in store {
          return Refused(409, WriteFailed);
        }
        store := store[name := Dash(1, c.content, w.manager)];
      } else {
        var generation := existing.value.generation;
        if c.content != existing.value.content {
          generation := generation + 1 + w.raise;
        }
        store := store[name := Dash(generation, c.content, w.manager)];
      }
      return Saved(name, store[name].generation);
    }

    method ResolveLegacyInternalId(r: Reads, name: Name)
      returns (resolved: Name, existing: Option<Dash>, refusal: Option<Reply>)
      ensures match ResolveInternalId(store, r, name)
              case Unresolved(code, reason) => refusal == Some(Refused(code, reason))
              case Resolved(n) => refusal == None && resolved == n
      ensures refusal == None && existing.Some? ==>
                r.getError.None? && resolved in store && existing.value == store[resolved] && resolved != ""
    {
      match r.idRef
      case IdUnknown =>
        if name == "" {
          return "", None, Some(Refused(404, UnknownId));
        }
        return name, None, None;
      case IdAmbiguous =>
        return "", None, Some(Refused(500, AmbiguousId));
      case IdOf(uid) =>
        if name == "" {
          if r.getError.Some? || uid == "" {
            return "", None, Some(Refused(500, ReadFailed));
          }
          return uid, if uid in store then Some(store[uid]) else None, None;
        }
        if name == uid {
          return name, None, None;
        }
        if r.getError.Some? {
          return "", None, Some(Refused(500, ReadFailed));
        }
        if name in store {
          return "", None, Some(Refused(400, UidTaken));
        }
        return name, None, None;
    }
  }

  // ---- one save ---------------------------------------------------------------------------------

  /** A refusal leaves the store alone; a success puts the posted content under one name, the one it
      reports, and touches no other. */
  lemma {:induction false} SaveChangesOneName(s: Store, c: Command, r: Reads, w: Writes)
    ensures var (t, reply) := Save(s, c, r, w);
            match reply
            case Refused(_, _) => t == s
            case Saved(name, version) =>
              && name in t && t[name] == Dash(version, c.content, w.manager)
              && t.Keys == s.Keys + {name}
              && (forall n | n in s && n != name :: t[n] == s[n])
  {
  }

  /** The uid a request supplies: the object's name, or else the one in the spec. */
  function Supplied(c: Command): Name {
    if c.objectName != "" then c.objectName else c.specUid
  }

  /** A request that carries a numeric id. */
  predicate ById(c: Command) {
    c.specId.Int? && c.specId.value > 0
  }

  /** The name a request is about: the uid it supplies, else the one its id maps to; empty for a new
      dashboard. */
  function Target(c: Command, r: Reads): Name {
    if Supplied(c) != "" then Supplied(c)
    else if ById(c) && r.idRef.IdOf? then r.idRef.uid
    else ""
  }

  /** What there is against a request, each taken alone, whatever the handler looks at first. */
  predicate Objects(s: Store, c: Command, r: Reads, w: Writes, reason: Reason) {
    var byId, name := ById(c), Target(c, r);
    match reason
    case BadApiVersion => !c.apiVersionOk
    case MissingTitle => c.title == ""
    case BadId => c.specId == Malformed
    case BadVersion => c.specVersion == Malformed
    case UnknownId => byId && r.idRef.IdUnknown? && Supplied(c) == ""
    case AmbiguousId => byId && r.idRef.IdAmbiguous?
    case ReadFailed =>
      (name != "" && r.getError.Some?) || (byId && r.idRef.IdOf? && name == "")
    case UidTaken =>
      byId && r.idRef.IdOf? && Supplied(c) != "" && Supplied(c) != r.idRef.uid && name in s
    case Provisioned => name != "" && name in s && s[name].manager == Managed(false)
    case VersionConflict =>
      name != "" && name in s && !c.overwrite && c.specVersion != Int(s[name].generation)
    case WriteFailed => w.error.Some? || (name == "" && w.generatedName in s)
  }

  /** The place of a reason in the handler's order. */
  function Rank(reason: Reason): nat {
    match reason
    case BadApiVersion => 0
    case MissingTitle => 1
    case BadId => 2
    case BadVersion => 3
    case UnknownId => 4
    case AmbiguousId => 5
    case ReadFailed => 6
    case UidTaken => 7
    case Provisioned => 8
    case VersionConflict => 9
    case WriteFailed => 10
  }

  /** The code of a refusal. A failed read keeps the storage's own code unless an id was being
      resolved; a failed write keeps it unless the generated name was taken. */
  function CodeOf(c: Command, r: Reads, w: Writes, reason: Reason): int {
    match reason
    case UnknownId => 404
    case AmbiguousId => 500
    case ReadFailed =>
      if r.getError.None? then 500
      else if ById(c) && r.idRef.IdOf? && (Supplied(c) == "" || Supplied(c) != r.idRef.uid)
      then 500
      else r.getError.value
    case VersionConflict => 409
    case WriteFailed => if w.error.Some? then w.error.value else 409
    case _ => 400
  }

  /** For every store and request: a save is refused for the first of the reasons against it, with
      that reason's code, and it succeeds exactly when there is none. Then it writes under the name
      the request is about, or a generated one, and reports 1 for a new dashboard, else the raised
      generation. */
  lemma {:induction false} SaveOutcome(s: Store, c: Command, r: Reads, w: Writes)
    ensures match Save(s, c, r, w).1
            case Refused(code, reason) =>
              && Objects(s, c, r, w, reason) && code == CodeOf(c, r, w, reason)
              && (forall q | Rank(q) < Rank(reason) :: !Objects(s, c, r, w, q))
            case Saved(name, version) =>
              && (forall q :: !Objects(s, c, r, w, q))
              && name == (if Target(c, r) == "" then w.generatedName else Target(c, r))
              && version == if name !in s then 1
                            else if c.content == s[name].content then s[name].generation
                            else s[name].generation + 1 + w.raise
  {
  }

  /** A supplied uid is always the name written; an id alone writes under the uid it maps to, and
      never under a generated name. */
  lemma {:induction false} SaveWritesTheIntendedName(s: Store, c: Command, r: Reads, w: Writes)
    requires Save(s, c, r, w).1.Saved?
    ensures Supplied(c) != "" ==> Save(s, c, r, w).1.name == Supplied(c)
    ensures Supplied(c) == "" && ById(c) ==>
              r.idRef.IdOf? && Save(s, c, r, w).1.name == r.idRef.uid
    ensures Supplied(c) == "" && !ById(c) ==> Save(s, c, r, w).1.name == w.generatedName
  {
  }

  predicate WellFormed(c: Command) {
    c.apiVersionOk && c.title != "" && c.specId != Malformed && c.specVersion != Malformed
  }

  /** An id, where there is one, does not speak for another dashboard than the supplied uid. */
  predicate IdAgrees(c: Command, r: Reads) {
    ById(c) ==>
      match r.idRef
      case IdUnknown => Supplied(c) != ""
      case IdAmbiguous => false
      case IdOf(uid) => Supplied(c) == "" || Supplied(c) == uid
  }

  /** Only a manager that does not allow edits makes a dashboard provisioned: one without a manager, or
      with one that does, is never refused for it. */
  lemma {:induction false} ProvisionedIff(s: Store, c: Command, r: Reads, w: Writes)
    requires Target(c, r) != "" && Target(c, r) in s
    requires WellFormed(c) && IdAgrees(c, r) && r.getError.None?
    ensures Save(s, c, r, w).1 == Refused(400, Provisioned) <==> s[Target(c, r)].manager == Managed(false)
  {
    SaveOutcome(s, c, r, w);
  }

  /** An id whose uid differs from the supplied one is refused for that exactly when the supplied one
      is taken, as far as the request is well formed and can be read; if it is free a dashboard is
      created under it. */
  lemma {:induction false} ForeignUidRefusedIffTaken(s: Store, c: Command, r: Reads, w: Writes)
    ensures Save(s, c, r, w).1 == Refused(400, UidTaken) <==>
              && WellFormed(c) && r.getError.None?
              && ById(c) && r.idRef.IdOf?
              && Supplied(c) != "" && Supplied(c) != r.idRef.uid && Supplied(c) in s
    ensures WellFormed(c) && r.getError.None? && w.error.None? && !r.idRef.IdAmbiguous?
            && Supplied(c) != "" && Supplied(c) !in s ==>
              Save(s, c, r, w).1 == Saved(Supplied(c), 1)
  {
  }

  /** An existing dashboard, named by uid or by id, is replaced exactly when the request is well
      formed, its id agrees with its uid, nothing fails, its manager allows edits, and the request
      either overwrites or carries its current generation. */
  lemma {:induction false} UpdateAcceptedIff(s: Store, c: Command, r: Reads, w: Writes)
    requires Target(c, r) != "" && Target(c, r) in s
    ensures var d := s[Target(c, r)];
            Save(s, c, r, w).1.Saved? <==>
              && WellFormed(c) && IdAgrees(c, r) && r.getError.None? && w.error.None?
              && d.manager != Managed(false) && (c.overwrite || c.specVersion == Int(d.generation))
  {
    SaveOutcome(s, c, r, w);
  }

  // ---- runs of atomic saves ---------------------------------------------------------------------

  datatype Input = Input(command: Command, answers: Reads, writes: Writes)

  ghost predicate AtomicRun(ss: seq<Store>, inputs: seq<Input>) {
    && |ss| == |inputs| + 1
    && (forall i | 0 <= i < |inputs| ::
          ss[i + 1] == Save(ss[i], inputs[i].command, inputs[i].answers, inputs[i].writes).0)
  }

  /** A dashboard whose manager disallows edits is never written again by atomic saves. */
  lemma {:induction false} LockedNeverChanges(
    ss: seq<Store>, inputs: seq<Input>, i: nat, j: nat, n: Name)
    requires AtomicRun(ss, inputs) && i <= j <= |inputs|
    requires n in ss[i] && ss[i][n].manager == Managed(false)
    ensures n in ss[j] && ss[j][n] == ss[i][n]
  {
    if i < j {
      LockedNeverChanges(ss, inputs, i, j - 1, n);
      assert ss[j] == Save(ss[j - 1], inputs[j - 1].command, inputs[j - 1].answers, inputs[j - 1].writes).0;
    }
  }

  /** b is a later state of the dashboard a: the generation never falls, and tells whether the content
      changed. */
  predicate Later(a: Dash, b: Dash) {
    a.generation <= b.generation && (a.generation == b.generation ==> a.content == b.content)
  }

  predicate LaterStore(s: Store, t: Store) {
    forall n | n in s :: n in t && Later(s[n], t[n])
  }

  lemma {:induction false} CommitMovesOn(s: Store, d: Decision, c: Command, w: Writes)
    ensures LaterStore(s, Commit(s, d, c, w).0)
  {
  }

  lemma {:induction false} RunMovesOn(ss: seq<Store>, inputs: seq<Input>, i: nat, j: nat)
    requires AtomicRun(ss, inputs) && i <= j <= |inputs|
    ensures LaterStore(ss[i], ss[j])
  {
    if i < j {
      RunMovesOn(ss, inputs, i, j - 1);
      var x := inputs[j - 1];
      CommitMovesOn(ss[j - 1], Decide(ss[j - 1], x.command, x.answers), x.command, x.writes);
    }
  }

  /** A client that read generation v of a dashboard and has a non-overwriting save with version v
      accepted replaced exactly the content it read: nothing was changed in between, so nobody's
      accepted change is lost. */
  lemma {:induction false} AcceptedVersionReplacesWhatWasRead(
    ss: seq<Store>, inputs: seq<Input>, i: nat, j: nat, n: Name)
    requires AtomicRun(ss, inputs) && i <= j < |inputs| && n in ss[i]
    requires var x := inputs[j];
             !x.command.overwrite && x.command.specVersion == Int(ss[i][n].generation)
             && Save(ss[j], x.command, x.answers, x.writes).1.Saved?
             && Save(ss[j], x.command, x.answers, x.writes).1.name == n
    ensures forall k | i <= k <= j :: n in ss[k] && ss[k][n].content == ss[i][n].content
  {
    forall k | i <= k <= j ensures n in ss[k] && ss[k][n].content == ss[i][n].content {
      RunMovesOn(ss, inputs, i, k);
      RunMovesOn(ss, inputs, k, j);
    }
  }

  // ---- reading and writing as separate steps ----------------------------------------------------

  /** A save between its last read and its write. */
  datatype Undecided = Undecided(command: Command, decision: Decision)

  datatype System = System(store: Store, saves: map<nat, Undecided>)

  datatype Event = Read(id: nat, command: Command, answers: Reads) | Write(id: nat, writes: Writes)

  predicate Enabled(y: System, e: Event) {
    match e
    case Read(id, _, _) => id !in y.saves
    case Write(id, _) => id in y.saves
  }

  function After(y: System, e: Event): System
    requires Enabled(y, e)
  {
    match e
    case Read(id, c, r) => y.(saves := y.saves[id := Undecided(c, Decide(y.store, c, r))])
    case Write(id, w) =>
      System(Commit(y.store, y.saves[id].decision, y.saves[id].command, w).0, y.saves - {id})
  }

  ghost predicate Execution(ys: seq<System>, es: seq<Event>) {
    && |ys| == |es| + 1
    && (forall i | 0 <= i < |es| :: Enabled(ys[i], es[i]) && ys[i + 1] == After(ys[i], es[i]))
  }

  lemma {:induction false} DecisionKept(ys: seq<System>, es: seq<Event>, i: nat, j: nat)
    requires Execution(ys, es) && i < j <= |es| && es[i].Read?
    requires forall k | i < k < j :: es[k].id != es[i].id
    ensures es[i].id in ys[j].saves
    ensures ys[j].saves[es[i].id] ==
            Undecided(es[i].command, Decide(ys[i].store, es[i].command, es[i].answers))
  {
    if i + 1 < j {
      DecisionKept(ys, es, i, j - 1);
      assert ys[j] == After(ys[j - 1], es[j - 1]);
    } else {
      assert ys[j] == After(ys[i], es[i]);
    }
  }

  // ---- when a race is possible ------------------------------------------------------------------

  /** The save is to update n, with other content than is stored. */
  predicate Changes(s: Store, u: Undecided, n: Name) {
    u.decision.Update? && u.decision.name == n && n in s && u.command.content != s[n].content
  }

  predicate Rival(y: System, q: nat, n: Name) {
    q in y.saves && Changes(y.store, y.saves[q], n)
  }

  predicate Undisturbed(y: System, id: nat, n: Name) {
    forall q | q in y.saves && q != id :: !Rival(y, q, n)
  }

  /** The event is no read that makes a new rival. */
  predicate Quiet(y: System, e: Event, n: Name) {
    e.Read? ==>
      !Changes(y.store, Undecided(e.command, Decide(y.store, e.command, e.answers)), n)
  }

  /** Events from y on, none of them save id's, and none making a new rival. */
  ghost predicate Schedule(y: System, id: nat, n: Name, ys: seq<System>, es: seq<Event>) {
    && Execution(ys, es) && ys[0] == y
    && (forall k | 0 <= k < |es| :: Quiet(ys[k], es[k], n) && es[k].id != id)
  }

  /** n still has the generation and the content it had at y. */
  predicate SameVersion(y: System, z: System, n: Name) {
    && n in y.store && n in z.store
    && y.store[n].generation == z.store[n].generation && y.store[n].content == z.store[n].content
  }

  lemma {:induction false} QuietStep(y: System, e: Event, id: nat, n: Name)
    requires n in y.store && Enabled(y, e) && Quiet(y, e, n) && e.id != id && Undisturbed(y, id, n)
    ensures SameVersion(y, After(y, e), n) && Undisturbed(After(y, e), id, n)
  {
    var z := After(y, e);
    assert e.Write? ==> !Rival(y, e.id, n);
    forall q | q in z.saves && q != id ensures !Rival(z, q, n) {
      assert q in y.saves ==> !Rival(y, q, n);
    }
  }

  lemma {:induction false} QuietScheduleKeepsVersion(
    y: System, id: nat, n: Name, ys: seq<System>, es: seq<Event>, k: nat)
    requires n in y.store && Undisturbed(y, id, n) && Schedule(y, id, n, ys, es) && k <= |es|
    ensures SameVersion(y, ys[k], n) && Undisturbed(ys[k], id, n)
  {
    if k > 0 {
      QuietScheduleKeepsVersion(y, id, n, ys, es, k - 1);
      QuietStep(ys[k - 1], es[k - 1], id, n);
      assert ys[k - 1 + 1] == After(ys[k - 1], es[k - 1]);
    }
  }

  /** At any moment between a save's read and its write, with the stored version still the one it
      read: that version is bound to be the one replaced, however the saves under way are scheduled
      and whatever quiet reads come, exactly when no other save under way has decided to update the
      dashboard with other content. */
  lemma {:induction false} RaceIsExcludedIff(y: System, id: nat, n: Name)
    requires n in y.store
    ensures Undisturbed(y, id, n) <==>
              forall ys, es | Schedule(y, id, n, ys, es) :: SameVersion(y, ys[|es|], n)
  {
    if Undisturbed(y, id, n) {
      forall ys, es | Schedule(y, id, n, ys, es) ensures SameVersion(y, ys[|es|], n) {
        QuietScheduleKeepsVersion(y, id, n, ys, es, |es|);
      }
    } else {
      var q :| q in y.saves && q != id && Rival(y, q, n);
      var e := Write(q, Writes(None, "", 0, Unmanaged));
      assert Schedule(y, id, n, [y, After(y, e)], [e]);
      assert !SameVersion(y, [y, After(y, e)][1], n);
    }
  }

  /** So a save that reads while nobody else is about to change the dashboard, and writes before
      anybody else has read it for a change, replaces exactly what it read. */
  lemma {:induction false} UndisturbedSaveReplacesWhatWasRead(
    ys: seq<System>, es: seq<Event>, i: nat, j: nat, n: Name)
    requires Execution(ys, es) && i < j < |es| && es[i].Read? && es[j].Write? && es[j].id == es[i].id
    requires forall k | i < k < j :: es[k].id != es[i].id && Quiet(ys[k], es[k], n)
    requires var d := Decide(ys[i].store, es[i].command, es[i].answers);
             d.Update? && d.name == n && !es[i].command.overwrite
    requires Undisturbed(ys[i], es[i].id, n)
    ensures n in ys[i].store && SameVersion(ys[i], ys[j], n)
    ensures es[i].command.specVersion == Int(ys[j].store[n].generation)
    ensures es[j].writes.error.None? ==>
              n in ys[j + 1].store && ys[j + 1].store[n].content == es[i].command.content
  {
    ReadLeavesUndisturbed(ys, es, i, n);
    SliceIsSchedule(ys, es, i, j, n);
    QuietScheduleKeepsVersion(ys[i + 1], es[i].id, n, ys[i + 1..j + 1], es[i + 1..j], j - i - 1);
    DecisionKept(ys, es, i, j);
    assert ys[j + 1] == After(ys[j], es[j]);
  }

  lemma {:induction false} ReadLeavesUndisturbed(ys: seq<System>, es: seq<Event>, i: nat, n: Name)
    requires Execution(ys, es) && i < |es| && es[i].Read? && Undisturbed(ys[i], es[i].id, n)
    ensures Undisturbed(ys[i + 1], es[i].id, n) && ys[i + 1].store == ys[i].store
  {
    var y, z := ys[i], ys[i + 1];
    assert z == After(y, es[i]);
    forall q | q in z.saves && q != es[i].id ensures !Rival(z, q, n) {
      assert !Rival(y, q, n);
    }
  }

  lemma {:induction false} SliceIsSchedule(ys: seq<System>, es: seq<Event>, i: nat, j: nat, n: Name)
    requires Execution(ys, es) && i < j <= |es|
    requires forall k | i < k < j :: es[k].id != es[i].id && Quiet(ys[k], es[k], n)
    ensures Schedule(ys[i + 1], es[i].id, n, ys[i + 1..j + 1], es[i + 1..j])
  {
    var zs, fs := ys[i + 1..j + 1], es[i + 1..j];
    forall k | 0 <= k < |fs|
      ensures Enabled(zs[k], fs[k]) && zs[k + 1] == After(zs[k], fs[k])
      ensures Quiet(zs[k], fs[k], n) && fs[k].id != es[i].id
    {
      assert ys[i + 1 + k + 1] == After(ys[i + 1 + k], es[i + 1 + k]);
    }
  }

  /** And where there is a rival, a continuation loses its change: the rival writes, then the save,
      whose version is by then not the stored one; both are accepted. */
  lemma {:induction false} RivalsChangeIsLost(y: System, id: nat, q: nat, n: Name)
    returns (ys: seq<System>, es: seq<Event>)
    requires id in y.saves && q != id && Rival(y, q, n)
    requires y.saves[id].decision.Update? && y.saves[id].decision.name == n
    requires y.saves[id].command.content != y.saves[q].command.content
    ensures Execution(ys, es) && ys[0] == y && |es| == 2
    ensures n in ys[1].store && ys[1].store[n].content == y.saves[q].command.content
    ensures ys[1].store[n].generation > y.store[n].generation
    ensures n in ys[2].store && ys[2].store[n].content == y.saves[id].command.content
  {
    var writes := Writes(None, "", 0, Unmanaged);
    es := [Write(q, writes), Write(id, writes)];
    var y1 := After(y, es[0]);
    ys := [y, y1, After(y1, es[1])];
  }

  // ---- locks with reading and writing apart -----------------------------------------------------

  /** No save under way has decided to update n. */
  predicate NoneUpdates(y: System, n: Name) {
    forall q | q in y.saves :: !(y.saves[q].decision.Update? && y.saves[q].decision.name == n)
  }

  predicate Same(y: System, z: System, n: Name) {
    n in y.store && n in z.store && z.store[n] == y.store[n]
  }

  lemma {:induction false} LockHoldsFor(ys: seq<System>, es: seq<Event>, k: nat, n: Name)
    requires Execution(ys, es) && k <= |es|
    requires n in ys[0].store && ys[0].store[n].manager == Managed(false) && NoneUpdates(ys[0], n)
    ensures Same(ys[0], ys[k], n) && NoneUpdates(ys[k], n)
  {
    if k > 0 {
      LockHoldsFor(ys, es, k - 1, n);
      assert ys[k - 1 + 1] == After(ys[k - 1], es[k - 1]);
    }
  }

  /** A locked dashboard stays as it is in every continuation exactly when no save that read it
      before the lock is still about to update it. */
  lemma {:induction false} LockHoldsIff(y: System, n: Name)
    requires n in y.store && y.store[n].manager == Managed(false)
    ensures NoneUpdates(y, n) <==>
              forall ys, es | Execution(ys, es) && ys[0] == y :: Same(y, ys[|es|], n)
  {
    if NoneUpdates(y, n) {
      forall ys, es | Execution(ys, es) && ys[0] == y ensures Same(y, ys[|es|], n) {
        LockHoldsFor(ys, es, |es|, n);
      }
    } else {
      var q :| q in y.saves && y.saves[q].decision.Update? && y.saves[q].decision.name == n;
      var e := Write(q, Writes(None, "", 0, Unmanaged));
      assert Execution([y, After(y, e)], [e]);
      assert !Same(y, [y, After(y, e)][1], n);
    }
  }

  /** It happens: a save reads, another one locks the dashboard, the first one writes. */
  lemma {:induction false} LockedIsOverwritten(n: Name, base: Dash, x: Content, y: Content)
    returns (ys: seq<System>, es: seq<Event>)
    requires n != "" && base.manager == Unmanaged && x != y
    ensures Execution(ys, es) && ys[0] == System(map[n := base], map[]) && |es| == 4
    ensures es[0].Read? && es[3].Write? && es[3].id == es[0].id
    ensures n in ys[3].store && ys[3].store[n].manager == Managed(false) && ys[3].store[n].content == y
    ensures n in ys[4].store && ys[4].store[n].content == x
  {
    var first := Command(true, "t", n, "", Absent, Int(base.generation), false, x);
    var second := first.(content := y);
    var answers := Reads(IdUnknown, None);
    es := [Read(0, first, answers), Read(1, second, answers),
           Write(1, Writes(None, "", 0, Managed(false))), Write(0, Writes(None, "", 0, Unmanaged))];
    var y0 := System(map[n := base], map[]);
    var y1 := After(y0, es[0]);
    var y2 := After(y1, es[1]);
    var y3 := After(y2, es[2]);
    ys := [y0, y1, y2, y3, After(y3, es[3])];
  }

  /** Two saves that read the same version are both accepted when the second reads before the first
      writes: the first one's content is gone and neither was told. */
  lemma {:induction false} BothVersionsAccepted(n: Name, base: Dash, x: Content, y: Content)
    returns (ys: seq<System>, es: seq<Event>)
    requires n != "" && base.manager == Unmanaged && x != base.content && y != x
    ensures Execution(ys, es) && ys[0] == System(map[n := base], map[]) && |es| == 4
    ensures es[0].Read? && es[1].Read? && es[2].Write? && es[3].Write?
    ensures !es[0].command.overwrite && !es[1].command.overwrite
    ensures es[0].command.specVersion == es[1].command.specVersion == Int(base.generation)
    ensures n in ys[3].store && ys[3].store[n].content == x
    ensures n in ys[4].store && ys[4].store[n].content == y
  {
    var first := Command(true, "t", n, "", Absent, Int(base.generation), false, x);
    var second := first.(content := y);
    var answers := Reads(IdUnknown, None);
    var writes := Writes(None, "", 0, Unmanaged);
    es := [Read(0, first, answers), Read(1, second, answers), Write(0, writes), Write(1, writes)];
    var y0 := System(map[n := base], map[]);
    var y1 := After(y0, es[0]);
    var y2 := After(y1, es[1]);
    var y3 := After(y2, es[2]);
    var y4 := After(y3, es[3]);
    ys := [y0, y1, y2, y3, y4];
  }
}
