/** The legacy update of a dashboard's access control list
    (upstream/pkg/api/dashboard_permission.go), with what the permission service does with the
    commands (upstream/pkg/services/accesscontrol/resourcepermissions/service.go, store.go).

    Which principals exist is an input of the service. */
module DashboardAcl {
  import opened Common

  /** An item of the request. */
  datatype Item = Item(userId: int, teamId: int, role: Option<string>, permission: int)

  /** An entry of the current list; login is empty but for users. */
  datatype Entry = Entry(
    userId: int, teamId: int, role: Option<string>, permission: int, login: string, inherited: bool)

  datatype Command = Command(userId: int, teamId: int, builtinRole: string, permission: string)

  datatype Principal = User(id: int) | Team(id: int) | Role(name: string)

  /** The stored list: for each principal the name of its permission, empty for actions that make up
      none of the named ones. */
  type Acl = map<Principal, string>

  function PermissionName(permission: int): string {
    if permission == 1 then "View"
    else if permission == 2 then "Edit"
    else if permission == 4 then "Admin"
    else ""
  }

  function RoleName(role: Option<string>): string {
    match role
    case Some(r) => r
    case None => ""
  }

  /** The principal the service takes a command to be about. */
  function Target(userId: int, teamId: int, role: string): Principal {
    if userId != 0 then User(userId) else if teamId != 0 then Team(teamId) else Role(role)
  }

  function ItemTarget(i: Item): Principal {
    Target(i.userId, i.teamId, RoleName(i.role))
  }

  function EntryTarget(o: Entry): Principal {
    Target(o.userId, o.teamId, RoleName(o.role))
  }

  function CommandTarget(c: Command): Principal {
    Target(c.userId, c.teamId, c.builtinRole)
  }

  // ---- the handler, on values -------------------------------------------------------------------

  predicate AllowedItem(i: Item) {
    && !(i.userId > 0 && i.teamId > 0)
    && !((i.userId > 0 || i.teamId > 0) && i.role.Some?)
  }

  function Grant(i: Item): Command {
    Command(i.userId, i.teamId, RoleName(i.role), PermissionName(i.permission))
  }

  function Grants(items: seq<Item>): (cs: seq<Command>)
    ensures |cs| == |items|
  {
    seq(|items|, k requires 0 <= k < |items| => Grant(items[k]))
  }

  /** The test that keeps an old entry from being removed. */
  predicate Covers(i: Item, o: Entry) {
    || (i.userId != 0 && i.userId == o.userId)
    || (i.teamId != 0 && i.teamId == o.teamId)
    || (i.role.Some? && o.role.Some? && i.role.value == o.role.value)
  }

  predicate Covered(items: seq<Item>, o: Entry) {
    exists k | 0 <= k < |items| :: Covers(items[k], o)
  }

  function Removal(o: Entry): Command {
    Command(o.userId, o.teamId, RoleName(o.role), "")
  }

  function Removals(items: seq<Item>, entries: seq<Entry>): seq<Command> {
    if entries == [] then []
    else
      var init := Removals(items, entries[..|entries| - 1]);
      if Covered(items, entries[|entries| - 1]) then init else init + [Removal(entries[|entries| - 1])]
  }

  predicate IsHidden(hidden: set<string>, login: string, o: Entry) {
    !o.inherited && o.login != login && o.login in hidden
  }

  function KeepItem(o: Entry): Item {
    Item(o.userId, o.teamId, o.role, o.permission)
  }

  function HiddenItems(hidden: set<string>, login: string, acl: seq<Entry>): seq<Item> {
    if acl == [] then []
    else
      var init := HiddenItems(hidden, login, acl[..|acl| - 1]);
      if IsHidden(hidden, login, acl[|acl| - 1]) then init + [KeepItem(acl[|acl| - 1])] else init
  }

  function Put(acl: Acl, c: Command): Acl {
    if c.permission == "" then acl - {CommandTarget(c)} else acl[CommandTarget(c) := c.permission]
  }

  function PutAll(acl: Acl, cs: seq<Command>): Acl {
    if cs == [] then acl else Put(PutAll(acl, cs[..|cs| - 1]), cs[|cs| - 1])
  }

  predicate AllKnown(cs: seq<Command>, known: set<Principal>) {
    forall k | 0 <= k < |cs| :: CommandTarget(cs[k]) in known
  }

  // ---- the handler ------------------------------------------------------------------------------

  method ValidatePermissionsUpdate(items: seq<Item>) returns (ok: bool)
    ensures ok <==> forall k | 0 <= k < |items| ::
              && !(items[k].userId > 0 && items[k].teamId > 0)
              && !(items[k].userId > 0 && items[k].role.Some?)
              && !(items[k].teamId > 0 && items[k].role.Some?)
  {
    for k := 0 to |items|
      invariant forall j | 0 <= j < k :: AllowedItem(items[j])
    {
      if items[k].userId > 0 && items[k].teamId > 0 {
        return false;
      }
      if (items[k].userId > 0 || items[k].teamId > 0) && items[k].role.Some? {
        return false;
      }
    }
    return true;
  }

  method FilterHiddenAcl(isGrafanaAdmin: bool, login: string, hidden: set<string>, acl: seq<Entry>)
    returns (items: seq<Item>)
    ensures items == if isGrafanaAdmin then [] else HiddenItems(hidden, login, acl)
  {
    items := [];
    if isGrafanaAdmin {
      return;
    }
    for k := 0 to |acl|
      invariant items == HiddenItems(hidden, login, acl[..k])
    {
      assert acl[..k + 1][..k] == acl[..k];
      var item := acl[k];
      if item.inherited || item.login == login {
        continue;
      }
      if item.login in hidden {
        items := items + [Item(item.userId, item.teamId, item.role, item.permission)];
      }
    }
    assert acl[..|acl|] == acl;
  }

  /** The command list of updateDashboardAccessControl. */
  method AccessControlCommands(items: seq<Item>, entries: seq<Entry>) returns (commands: seq<Command>)
    ensures commands == Grants(items) + Removals(items, entries)
    ensures |commands| >= |items| && forall k | 0 <= k < |items| :: IsGrantOf(commands[k], items[k])
    ensures forall k | |items| <= k < |commands| :: commands[k].permission == ""
  {
    forall k | 0 <= k < |Removals(items, entries)| ensures Removals(items, entries)[k].permission == "" {
      RemovalsAreEmpty(items, entries, k);
    }
    commands := [];
    for k := 0 to |items|
      invariant commands == Grants(items)[..k]
    {
      commands := commands + [Grant(items[k])];
    }
    for j := 0 to |entries|
      invariant commands == Grants(items) + Removals(items, entries[..j])
    {
      var o := entries[j];
      var shouldRemove := true;
      for k := 0 to |items|
        invariant shouldRemove
        invariant forall i | 0 <= i < k :: !Covers(items[i], o)
      {
        var item := items[k];
        if item.userId != 0 && item.userId == o.userId {
          shouldRemove := false;
          break;
        }
        if item.teamId != 0 && item.teamId == o.teamId {
          shouldRemove := false;
          break;
        }
        if item.role.Some? && o.role.Some? && item.role.value == o.role.value {
          shouldRemove := false;
          break;
        }
      }
      assert shouldRemove <==> !Covered(items, o);
      assert entries[..j + 1][..j] == entries[..j];
      if shouldRemove {
        commands := commands + [Command(o.userId, o.teamId, RoleName(o.role), "")];
      }
    }
    assert entries[..|entries|] == entries;
  }

  class PermissionService {
    var acl: Acl

    /** Validates every command, then applies them in one transaction; dbFails rolls it back. */
    method SetPermissions(commands: seq<Command>, known: set<Principal>, dbFails: bool) returns (ok: bool)
      modifies this
      ensures ok <==> AllKnown(commands, known) && !dbFails
      ensures acl == if ok then PutAll(old(acl), commands) else old(acl)
    {
      for k := 0 to |commands|
        invariant AllKnown(commands[..k], known) && acl == old(acl)
      {
        if CommandTarget(commands[k]) !in known {
          return false;
        }
      }
      if dbFails {
        return false;
      }
      for k := 0 to |commands|
        invariant acl == PutAll(old(acl), commands[..k])
      {
        assert commands[..k + 1][..k] == commands[..k];
        if commands[k].permission == "" {
          acl := acl - {CommandTarget(commands[k])};
        } else {
          acl := acl[CommandTarget(commands[k]) := commands[k].permission];
        }
      }
      assert commands[..|commands|] == commands;
      return true;
    }

    /** UpdateDashboardPermissions, with entries what getDashboardACL lists. */
    method UpdateDashboardPermissions(
      request: seq<Item>, entries: seq<Entry>, isGrafanaAdmin: bool, login: string,
      hidden: set<string>, known: set<Principal>, dbFails: bool) returns (ok: bool)
      modifies this
      ensures var kept := if isGrafanaAdmin then [] else HiddenItems(hidden, login, entries);
              var cs := Grants(request + kept) + Removals(request + kept, entries);
              && (ok <==> (forall k | 0 <= k < |request| :: AllowedItem(request[k]))
                          && AllKnown(cs, known) && !dbFails)
              && acl == if ok then PutAll(old(acl), cs) else old(acl)
    {
      var valid := ValidatePermissionsUpdate(request);
      if !valid {
        return false;
      }
      var kept := FilterHiddenAcl(isGrafanaAdmin, login, hidden, entries);
      var commands := AccessControlCommands(request + kept, entries);
      ok := SetPermissions(commands, known, dbFails);
    }
  }

  // ---- permissions and principals, written out --------------------------------------------------

  /** The name a permission's number has; no other number has one. */
  predicate IsNameOf(name: string, permission: int) {
    && (permission == 1 ==> name == "View") && (permission == 2 ==> name == "Edit")
    && (permission == 4 ==> name == "Admin") && (permission !in {1, 2, 4} ==> name == "")
  }

  predicate IsGrantOf(c: Command, i: Item) {
    && c.userId == i.userId && c.teamId == i.teamId && IsNameOf(c.permission, i.permission)
    && (i.role.Some? ==> c.builtinRole == i.role.value) && (i.role.None? ==> c.builtinRole == "")
  }

  /** The ids and the role are those of the principal: the user's id comes before the team's, the
      team's before the role. */
  predicate Names(userId: int, teamId: int, role: Option<string>, p: Principal) {
    match p
    case User(id) => id != 0 && userId == id
    case Team(id) => id != 0 && userId == 0 && teamId == id
    case Role(name) => userId == 0 && teamId == 0 && (role == Some(name) || (role == None && name == ""))
  }

  predicate About(i: Item, p: Principal) {
    Names(i.userId, i.teamId, i.role, p)
  }

  predicate EntryAbout(o: Entry, p: Principal) {
    Names(o.userId, o.teamId, o.role, p)
  }

  /** p holds the permission of that number, or nothing where the number has no name. */
  predicate Holds(acl: Acl, p: Principal, permission: int) {
    if permission in {1, 2, 4} then p in acl && IsNameOf(acl[p], permission) else p !in acl
  }

  /** p holds what the last item about it says, and nothing when there is none. */
  ghost predicate HoldsRequested(acl: Acl, items: seq<Item>, p: Principal) {
    && (forall k | 0 <= k < |items| && About(items[k], p)
                   && (forall j | k < j < |items| :: !About(items[j], p)) ::
          Holds(acl, p, items[k].permission))
    && ((forall k | 0 <= k < |items| :: !About(items[k], p)) ==> p !in acl)
  }

  /** entries lists the stored permissions: one entry for one principal, with the number of its
      permission. */
  ghost predicate Represents(entries: seq<Entry>, acl: Acl) {
    && (forall k | 0 <= k < |entries| :: OnePrincipal(entries[k]))
    && (forall k, p | 0 <= k < |entries| && EntryAbout(entries[k], p) ::
          p in acl && IsNameOf(acl[p], entries[k].permission))
    && (forall p | p in acl :: exists k | 0 <= k < |entries| :: EntryAbout(entries[k], p))
    && (forall j, k, p | 0 <= j < |entries| && 0 <= k < |entries| && EntryAbout(entries[j], p)
                         && EntryAbout(entries[k], p) :: j == k)
  }

  /** Some entry about p is of a hidden user other than the requester, and not inherited. */
  predicate HiddenFrom(hidden: set<string>, login: string, entries: seq<Entry>, p: Principal) {
    exists k | 0 <= k < |entries| ::
      && EntryAbout(entries[k], p)
      && entries[k].login in hidden && entries[k].login != login && !entries[k].inherited
  }

  lemma {:induction false} AboutIff(i: Item, p: Principal)
    ensures About(i, p) <==> ItemTarget(i) == p && p != User(0) && p != Team(0)
  {
  }

  lemma {:induction false} EntryAboutIff(o: Entry, p: Principal)
    ensures EntryAbout(o, p) <==> EntryTarget(o) == p && p != User(0) && p != Team(0)
  {
  }

  lemma {:induction false} TargetIsReal(userId: int, teamId: int, role: string)
    ensures Target(userId, teamId, role) != User(0) && Target(userId, teamId, role) != Team(0)
  {
  }

  lemma {:induction false} NameIsIts(permission: int)
    ensures IsNameOf(PermissionName(permission), permission)
    ensures PermissionName(permission) == "" <==> permission !in {1, 2, 4}
  {
  }

  lemma {:induction false} RequestedIsHeld(acl: Acl, items: seq<Item>, p: Principal)
    requires Lookup(acl, p) == Requested(items, p)
    ensures HoldsRequested(acl, items, p)
  {
    forall k | 0 <= k < |items| ensures About(items[k], p) <==> ItemTarget(items[k]) == p {
      AboutIff(items[k], p);
      TargetIsReal(items[k].userId, items[k].teamId, RoleName(items[k].role));
    }
    var last := LastFor(items, p);
    if last.Some? {
      NameIsIts(items[last.value].permission);
    }
  }

  lemma {:induction false} RepresentsMatches(entries: seq<Entry>, acl: Acl)
    requires Represents(entries, acl)
    ensures Matches(entries, acl)
  {
    forall k | 0 <= k < |entries|
      ensures EntryAbout(entries[k], EntryTarget(entries[k])) && EntryTarget(entries[k]) in acl
      ensures acl[EntryTarget(entries[k])] == PermissionName(entries[k].permission)
    {
      EntryAboutIff(entries[k], EntryTarget(entries[k]));
      TargetIsReal(entries[k].userId, entries[k].teamId, RoleName(entries[k].role));
      NameIsIts(entries[k].permission);
    }
    forall p | p in acl ensures exists k | 0 <= k < |entries| :: EntryTarget(entries[k]) == p {
      var k :| 0 <= k < |entries| && EntryAbout(entries[k], p);
      EntryAboutIff(entries[k], p);
    }
  }

  lemma {:induction false} HiddenFromIff(hidden: set<string>, login: string, entries: seq<Entry>, p: Principal)
    ensures HiddenFrom(hidden, login, entries, p) <==> IsHiddenUser(hidden, login, entries, p)
  {
    forall k | 0 <= k < |entries| ensures EntryAbout(entries[k], p) <==> EntryTarget(entries[k]) == p {
      EntryAboutIff(entries[k], p);
      TargetIsReal(entries[k].userId, entries[k].teamId, RoleName(entries[k].role));
    }
  }

  // ---- what the commands do ---------------------------------------------------------------------

  /** The position of the last item about p, None when there is none. */
  function LastFor(items: seq<Item>, p: Principal): (k: Option<nat>)
    ensures k.Some? ==> k.value < |items| && ItemTarget(items[k.value]) == p
    ensures forall j | 0 <= j < |items| && ItemTarget(items[j]) == p :: k.Some? && j <= k.value
  {
    if items == [] then None
    else if ItemTarget(items[|items| - 1]) == p then Some(|items| - 1)
    else LastFor(items[..|items| - 1], p)
  }

  /** What a list of items asks for p: the permission of the last item about it, and nothing when
      there is none or its permission has no name. */
  function Requested(items: seq<Item>, p: Principal): Option<string> {
    match LastFor(items, p)
    case None => None
    case Some(k) =>
      var name := PermissionName(items[k].permission);
      if name == "" then None else Some(name)
  }

  /** What Represents comes to in terms of the commands. */
  ghost predicate Matches(entries: seq<Entry>, acl: Acl) {
    && (forall k | 0 <= k < |entries| :: OnePrincipal(entries[k])
          && EntryTarget(entries[k]) in acl
          && acl[EntryTarget(entries[k])] == PermissionName(entries[k].permission))
    && (forall p | p in acl :: exists k | 0 <= k < |entries| :: EntryTarget(entries[k]) == p)
    && (forall j, k | 0 <= j < k < |entries| :: EntryTarget(entries[j]) != EntryTarget(entries[k]))
  }

  predicate OnePrincipal(o: Entry) {
    || (o.userId > 0 && o.teamId == 0 && o.role == None)
    || (o.userId == 0 && o.teamId > 0 && o.role == None)
    || (o.userId == 0 && o.teamId == 0 && o.role.Some? && o.role.value != "")
  }

  /** Principals as the service knows them: positive ids and roles with a name. */
  predicate Real(known: set<Principal>) {
    forall p | p in known ::
      match p
      case User(id) => id > 0
      case Team(id) => id > 0
      case Role(name) => name != ""
  }

  predicate Proper(items: seq<Item>, known: set<Principal>) {
    forall k | 0 <= k < |items| :: AllowedItem(items[k]) && ItemTarget(items[k]) in known
  }

  /** For an allowed item about a known principal, the three-way test is equality of principals. */
  lemma {:induction false} CoversIffSamePrincipal(i: Item, o: Entry, known: set<Principal>)
    requires AllowedItem(i) && Real(known) && ItemTarget(i) in known && OnePrincipal(o)
    ensures Covers(i, o) <==> ItemTarget(i) == EntryTarget(o)
  {
  }

  lemma {:induction false} CoveredIffRequested(items: seq<Item>, o: Entry, known: set<Principal>)
    requires Proper(items, known) && Real(known) && OnePrincipal(o)
    ensures Covered(items, o) <==> LastFor(items, EntryTarget(o)).Some?
  {
    forall k | 0 <= k < |items| ensures Covers(items[k], o) <==> ItemTarget(items[k]) == EntryTarget(o) {
      CoversIffSamePrincipal(items[k], o, known);
    }
    var last := LastFor(items, EntryTarget(o));
    if last.Some? {
      assert Covers(items[last.value], o);
    }
  }

  lemma {:induction false} PutAllAppended(acl: Acl, xs: seq<Command>, ys: seq<Command>)
    ensures PutAll(acl, xs + ys) == PutAll(PutAll(acl, xs), ys)
  {
    if ys == [] {
      assert xs + ys == xs;
    } else {
      var init := ys[..|ys| - 1];
      PutAllAppended(acl, xs, init);
      assert (xs + ys)[..|xs + ys| - 1] == xs + init;
    }
  }

  lemma {:induction false} GrantsGiveRequested(acl: Acl, items: seq<Item>, p: Principal)
    ensures Lookup(PutAll(acl, Grants(items)), p) ==
            if LastFor(items, p).Some? then Requested(items, p) else Lookup(acl, p)
  {
    if items != [] {
      var init := items[..|items| - 1];
      GrantsGiveRequested(acl, init, p);
      assert Grants(items)[..|items| - 1] == Grants(init);
    }
  }

  /** Some entry about p is covered by no item. */
  predicate LeftOut(items: seq<Item>, entries: seq<Entry>, p: Principal) {
    exists k | 0 <= k < |entries| :: EntryTarget(entries[k]) == p && !Covered(items, entries[k])
  }

  lemma {:induction false} RemovalsTake(
    acl: Acl, items: seq<Item>, entries: seq<Entry>, p: Principal)
    ensures Lookup(PutAll(acl, Removals(items, entries)), p) ==
            if LeftOut(items, entries, p) then None else Lookup(acl, p)
  {
    if entries != [] {
      var init, o := entries[..|entries| - 1], entries[|entries| - 1];
      RemovalsTake(acl, items, init, p);
      OneMoreEntry(items, init, o, p);
      assert entries == init + [o];
      var cs := Removals(items, init);
      PutAppended(acl, cs, Removal(o));
    }
  }

  lemma {:induction false} OneMoreEntry(items: seq<Item>, init: seq<Entry>, o: Entry, p: Principal)
    ensures LeftOut(items, init + [o], p) <==>
              LeftOut(items, init, p) || (EntryTarget(o) == p && !Covered(items, o))
  {
    var entries := init + [o];
    assert entries[|init|] == o;
    if k :| 0 <= k < |init| && EntryTarget(init[k]) == p && !Covered(items, init[k]) {
      assert entries[k] == init[k];
    }
  }

  lemma {:induction false} PutAppended(acl: Acl, cs: seq<Command>, c: Command)
    ensures PutAll(acl, cs + [c]) == Put(PutAll(acl, cs), c)
  {
    assert (cs + [c])[..|cs|] == cs;
  }

  /** After the grants a principal holds what the last item about it says, and without one what it
      held before. */
  lemma {:induction false} GrantsGive(acl: Acl, items: seq<Item>, p: Principal)
    ensures var result := PutAll(acl, Grants(items));
            if exists k | 0 <= k < |items| :: About(items[k], p) then HoldsRequested(result, items, p)
            else Lookup(result, p) == Lookup(acl, p)
  {
    GrantsGiveRequested(acl, items, p);
    forall k | 0 <= k < |items| ensures About(items[k], p) <==> ItemTarget(items[k]) == p {
      AboutIff(items[k], p);
      TargetIsReal(items[k].userId, items[k].teamId, RoleName(items[k].role));
    }
    if LastFor(items, p).Some? {
      RequestedIsHeld(PutAll(acl, Grants(items)), items, p);
    }
  }

  lemma {:induction false} RemovalsAreEmpty(items: seq<Item>, entries: seq<Entry>, k: nat)
    requires k < |Removals(items, entries)|
    ensures Removals(items, entries)[k].permission == ""
  {
    if k < |Removals(items, entries[..|entries| - 1])| {
      RemovalsAreEmpty(items, entries[..|entries| - 1], k);
    }
  }

  /** No removal is about a principal some item is about. */
  lemma {:induction false} RemovalsSpareTheGranted(
    items: seq<Item>, entries: seq<Entry>, known: set<Principal>, r: nat, k: nat)
    requires Proper(items, known) && Real(known)
    requires forall j | 0 <= j < |entries| :: OnePrincipal(entries[j])
    requires r < |Removals(items, entries)| && k < |items|
    ensures Removals(items, entries)[r].permission == ""
    ensures CommandTarget(Removals(items, entries)[r]) != ItemTarget(items[k])
  {
    var o := entries[|entries| - 1];
    if r < |Removals(items, entries[..|entries| - 1])| {
      RemovalsSpareTheGranted(items, entries[..|entries| - 1], known, r, k);
    } else {
      CoversIffSamePrincipal(items[k], o, known);
    }
  }

  lemma {:induction false} CommandsGiveRequested(
    acl: Acl, items: seq<Item>, entries: seq<Entry>, known: set<Principal>, p: Principal)
    requires Proper(items, known) && Real(known) && Matches(entries, acl)
    ensures Lookup(PutAll(acl, Grants(items) + Removals(items, entries)), p) == Requested(items, p)
  {
    PutAllAppended(acl, Grants(items), Removals(items, entries));
    GrantsGiveRequested(acl, items, p);
    RemovalsTake(PutAll(acl, Grants(items)), items, entries, p);
    forall k | 0 <= k < |entries|
      ensures Covered(items, entries[k]) <==> LastFor(items, EntryTarget(entries[k])).Some?
    {
      CoveredIffRequested(items, entries[k], known);
    }
    if LastFor(items, p).None? && p in acl {
      var k :| 0 <= k < |entries| && EntryTarget(entries[k]) == p;
      assert !Covered(items, entries[k]);
    }
  }

  /** Applied in order to the list they were computed from, the commands leave each principal "View",
      "Edit" or "Admin" as the last item about it says 1, 2 or 4, and nobody else anything. */
  lemma {:induction false} CommandsGiveTheItems(
    acl: Acl, items: seq<Item>, entries: seq<Entry>, known: set<Principal>, p: Principal)
    requires Proper(items, known) && Real(known) && Represents(entries, acl)
    ensures HoldsRequested(PutAll(acl, Grants(items) + Removals(items, entries)), items, p)
  {
    RepresentsMatches(entries, acl);
    CommandsGiveRequested(acl, items, entries, known, p);
    RequestedIsHeld(PutAll(acl, Grants(items) + Removals(items, entries)), items, p);
  }

  // ---- hidden users -----------------------------------------------------------------------------

  /** Every kept item is that of a hidden entry. */
  lemma {:induction false} HiddenItemFrom(
    hidden: set<string>, login: string, entries: seq<Entry>, i: nat) returns (k: nat)
    requires i < |HiddenItems(hidden, login, entries)|
    ensures k < |entries| && IsHidden(hidden, login, entries[k])
    ensures HiddenItems(hidden, login, entries)[i] == KeepItem(entries[k])
  {
    if i < |HiddenItems(hidden, login, entries[..|entries| - 1])| {
      k := HiddenItemFrom(hidden, login, entries[..|entries| - 1], i);
    } else {
      k := |entries| - 1;
    }
  }

  /** Every hidden entry has its kept item. */
  lemma {:induction false} HiddenItemOf(
    hidden: set<string>, login: string, entries: seq<Entry>, k: nat) returns (i: nat)
    requires k < |entries| && IsHidden(hidden, login, entries[k])
    ensures i < |HiddenItems(hidden, login, entries)|
    ensures HiddenItems(hidden, login, entries)[i] == KeepItem(entries[k])
  {
    if k < |entries| - 1 {
      i := HiddenItemOf(hidden, login, entries[..|entries| - 1], k);
    } else {
      i := |HiddenItems(hidden, login, entries[..|entries| - 1])|;
    }
  }

  lemma {:induction false} LastForAppended(a: seq<Item>, b: seq<Item>, p: Principal)
    ensures LastFor(a + b, p) ==
            match LastFor(b, p) case Some(k) => Some(|a| + k) case None => LastFor(a, p)
  {
    if b == [] {
      assert a + b == a;
    } else {
      AppendedInit(a, b);
      LastForAppended(a, b[..|b| - 1], p);
    }
  }

  /** The one entry about p. */
  lemma {:induction false} EntryIsUnique(entries: seq<Entry>, acl: Acl, j: nat, k: nat)
    requires Matches(entries, acl) && j < |entries| && k < |entries|
    requires EntryTarget(entries[j]) == EntryTarget(entries[k])
    ensures j == k
  {
  }

  lemma {:induction false} HiddenItemIsLast(
    hidden: set<string>, login: string, entries: seq<Entry>, acl: Acl, k: nat)
    requires Matches(entries, acl) && k < |entries| && IsHidden(hidden, login, entries[k])
    ensures var kept := HiddenItems(hidden, login, entries);
            var last := LastFor(kept, EntryTarget(entries[k]));
            last.Some? && kept[last.value] == KeepItem(entries[k])
  {
    var kept := HiddenItems(hidden, login, entries);
    var i := HiddenItemOf(hidden, login, entries, k);
    assert ItemTarget(kept[i]) == EntryTarget(entries[k]);
    var last := LastFor(kept, EntryTarget(entries[k])).value;
    var j := HiddenItemFrom(hidden, login, entries, last);
    EntryIsUnique(entries, acl, j, k);
  }

  /** An accepted update is about known principals only. */
  lemma {:induction false} AcceptedIsProper(
    request: seq<Item>, kept: seq<Item>, entries: seq<Entry>, acl: Acl, hidden: set<string>,
    login: string, known: set<Principal>)
    requires kept == [] || kept == HiddenItems(hidden, login, entries)
    requires forall k | 0 <= k < |request| :: AllowedItem(request[k])
    requires AllKnown(Grants(request + kept) + Removals(request + kept, entries), known)
    requires Matches(entries, acl)
    ensures Proper(request + kept, known)
  {
    var items := request + kept;
    forall k | 0 <= k < |items| ensures AllowedItem(items[k]) && ItemTarget(items[k]) in known {
      var cs := Grants(items) + Removals(items, entries);
      assert cs[k] == Grant(items[k]);
      assert CommandTarget(cs[k]) in known;
      if k >= |request| {
        var j := HiddenItemFrom(hidden, login, entries, k - |request|);
      }
    }
  }

  predicate IsHiddenUser(hidden: set<string>, login: string, entries: seq<Entry>, p: Principal) {
    exists k | 0 <= k < |entries| ::
      EntryTarget(entries[k]) == p && IsHidden(hidden, login, entries[k])
  }

  lemma {:induction false} UpdateGives(
    acl: Acl, request: seq<Item>, entries: seq<Entry>, isGrafanaAdmin: bool, login: string,
    hidden: set<string>, known: set<Principal>, p: Principal)
    requires Matches(entries, acl) && Real(known)
    requires forall k | 0 <= k < |request| :: AllowedItem(request[k])
    requires var items := request + if isGrafanaAdmin then [] else HiddenItems(hidden, login, entries);
             AllKnown(Grants(items) + Removals(items, entries), known)
    ensures var items := request + if isGrafanaAdmin then [] else HiddenItems(hidden, login, entries);
            var result := PutAll(acl, Grants(items) + Removals(items, entries));
            Lookup(result, p) ==
              if !isGrafanaAdmin && IsHiddenUser(hidden, login, entries, p)
              then (if Lookup(acl, p) == Some("") then None else Lookup(acl, p))
              else Requested(request, p)
  {
    var kept := if isGrafanaAdmin then [] else HiddenItems(hidden, login, entries);
    AcceptedGivesItems(acl, request, kept, entries, hidden, login, known, p);
    if isGrafanaAdmin {
      assert request + [] == request;
    } else if IsHiddenUser(hidden, login, entries, p) {
      var k :| 0 <= k < |entries| && EntryTarget(entries[k]) == p && IsHidden(hidden, login, entries[k]);
      HiddenKeepsPermission(acl, request, entries, hidden, login, k);
    } else {
      OthersGetRequested(request, entries, hidden, login, p);
    }
  }

  /** An accepted update leaves what its items ask for. */
  lemma {:induction false} AcceptedGivesItems(
    acl: Acl, request: seq<Item>, kept: seq<Item>, entries: seq<Entry>, hidden: set<string>,
    login: string, known: set<Principal>, p: Principal)
    requires kept == [] || kept == HiddenItems(hidden, login, entries)
    requires forall k | 0 <= k < |request| :: AllowedItem(request[k])
    requires AllKnown(Grants(request + kept) + Removals(request + kept, entries), known)
    requires Matches(entries, acl) && Real(known)
    ensures var cs := Grants(request + kept) + Removals(request + kept, entries);
            Lookup(PutAll(acl, cs), p) == Requested(request + kept, p)
  {
    AcceptedIsProper(request, kept, entries, acl, hidden, login, known);
    CommandsGiveRequested(acl, request + kept, entries, known, p);
  }

  /** The later of two lists decides, where it speaks of the principal. */
  lemma {:induction false} RequestedAppended(items: seq<Item>, kept: seq<Item>, p: Principal)
    ensures Requested(items + kept, p) ==
            if LastFor(kept, p).Some? then Requested(kept, p) else Requested(items, p)
  {
    LastForAppended(items, kept, p);
  }

  lemma {:induction false} HeldIsListed(entries: seq<Entry>, acl: Acl, k: nat)
    requires Matches(entries, acl) && k < |entries|
    ensures Lookup(acl, EntryTarget(entries[k])) == Some(PermissionName(entries[k].permission))
  {
  }

  lemma {:induction false} HiddenKeepsPermission(
    acl: Acl, request: seq<Item>, entries: seq<Entry>, hidden: set<string>, login: string, k: nat)
    requires Matches(entries, acl) && k < |entries| && IsHidden(hidden, login, entries[k])
    ensures var p := EntryTarget(entries[k]);
            Requested(request + HiddenItems(hidden, login, entries), p) ==
            if Lookup(acl, p) == Some("") then None else Lookup(acl, p)
  {
    RequestedAppended(request, HiddenItems(hidden, login, entries), EntryTarget(entries[k]));
    HiddenItemIsLast(hidden, login, entries, acl, k);
    HeldIsListed(entries, acl, k);
  }

  lemma {:induction false} OthersGetRequested(
    request: seq<Item>, entries: seq<Entry>, hidden: set<string>, login: string, p: Principal)
    requires !IsHiddenUser(hidden, login, entries, p)
    ensures Requested(request + HiddenItems(hidden, login, entries), p) == Requested(request, p)
  {
    var kept := HiddenItems(hidden, login, entries);
    RequestedAppended(request, kept, p);
    if LastFor(kept, p).Some? {
      var j := HiddenItemFrom(hidden, login, entries, LastFor(kept, p).value);
      assert false;
    }
  }

  /** What an accepted update leaves. A hidden user other than the requester keeps the permission
      held, whatever the request says, unless the requester is a server admin; it is lost only if it
      has no name to be granted again by. Everybody else holds exactly what the last item of the
      request about them says, by its number, and nothing when there is none. */
  lemma {:induction false} UpdateOutcome(
    acl: Acl, request: seq<Item>, entries: seq<Entry>, isGrafanaAdmin: bool, login: string,
    hidden: set<string>, known: set<Principal>, p: Principal)
    requires Represents(entries, acl) && Real(known)
    requires forall k | 0 <= k < |request| :: AllowedItem(request[k])
    requires var items := request + if isGrafanaAdmin then [] else HiddenItems(hidden, login, entries);
             AllKnown(Grants(items) + Removals(items, entries), known)
    ensures var items := request + if isGrafanaAdmin then [] else HiddenItems(hidden, login, entries);
            var result := PutAll(acl, Grants(items) + Removals(items, entries));
            if !isGrafanaAdmin && HiddenFrom(hidden, login, entries, p)
            then Lookup(result, p) == if Lookup(acl, p) == Some("") then None else Lookup(acl, p)
            else HoldsRequested(result, request, p)
  {
    RepresentsMatches(entries, acl);
    HiddenFromIff(hidden, login, entries, p);
    UpdateGives(acl, request, entries, isGrafanaAdmin, login, hidden, known, p);
    var items := request + if isGrafanaAdmin then [] else HiddenItems(hidden, login, entries);
    var result := PutAll(acl, Grants(items) + Removals(items, entries));
    if isGrafanaAdmin || !HiddenFrom(hidden, login, entries, p) {
      RequestedIsHeld(result, request, p);
    }
  }

  /** Without the validation an item naming a user and a role would shield the role's old entry from
      removal while granting it nothing. */
  lemma {:induction false} MixedItemKeepsStaleEntry(user: int, role: string)
    returns (items: seq<Item>, entries: seq<Entry>, acl: Acl)
    requires user > 0 && role != ""
    ensures |items| == 1 && !AllowedItem(items[0]) && Represents(entries, acl)
    ensures !About(items[0], Role(role))
    ensures Lookup(PutAll(acl, Grants(items) + Removals(items, entries)), Role(role)) == Some("View")
  {
    items := [Item(user, 0, Some(role), 1)];
    entries := [Entry(0, 0, Some(role), 1, "", false)];
    acl := map[Role(role) := "View"];
    assert Represents(entries, acl) by {
      assert EntryAbout(entries[0], Role(role));
    }
    assert Covers(items[0], entries[0]);
    PutAllAppended(acl, Grants(items), Removals(items, entries));
    GrantsGiveRequested(acl, items, Role(role));
    RemovalsTake(PutAll(acl, Grants(items)), items, entries, Role(role));
  }
}
