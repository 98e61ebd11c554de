/** The settings every plugin of the store gets, and the plugins available to an organisation
    (upstream/pkg/api/bootdata.go).

    The rows of the database and the plugin store are inputs. The store holds one version of a
    plugin, so ids are distinct; it lists a type's plugins in the order it lists them all. */
module PluginSettings {
  import opened Common

  datatype Kind = DataSource | Panel | App | Renderer

  datatype Plugin = Plugin(
    id: string, kind: Kind, autoEnabled: bool, includedInAppID: string, version: string, pinned: bool)

  /** pluginsettings.InfoDTO */
  datatype Info = Info(
    pluginID: string, orgID: int, enabled: bool, pinned: bool, version: string, autoEnabled: bool)

  type Settings = map<string, Info>

  datatype Available = Available(plugin: Plugin, settings: Info)

  // ---- the three passes, on values --------------------------------------------------------------

  function OfKind(ps: seq<Plugin>, kind: Kind): (r: seq<Plugin>)
    ensures forall p :: p in r <==> p in ps && p.kind == kind
  {
    if ps == [] then []
    else
      var init := OfKind(ps[..|ps| - 1], kind);
      if ps[|ps| - 1].kind == kind then init + [ps[|ps| - 1]] else init
  }

  function AppDefault(p: Plugin, org: int): Info {
    Info(p.id, org, p.autoEnabled, p.autoEnabled, p.version, p.autoEnabled)
  }

  function RestDefault(p: Plugin, org: int, enabled: bool): Info {
    Info(p.id, org, enabled, false, p.version, false)
  }

  function FillRows(rows: seq<Info>): Settings {
    if rows == [] then map[]
    else FillRows(rows[..|rows| - 1])[rows[|rows| - 1].pluginID := rows[|rows| - 1]]
  }

  function AddApp(s: Settings, p: Plugin, org: int): Settings {
    if p.id in s then s else s[p.id := AppDefault(p, org)]
  }

  function FillApps(s: Settings, apps: seq<Plugin>, org: int): Settings {
    if apps == [] then s else AddApp(FillApps(s, apps[..|apps| - 1], org), apps[|apps| - 1], org)
  }

  /** Whether a plugin without settings is enabled, given the settings filled in so far. */
  predicate EnabledGiven(s: Settings, p: Plugin) {
    p.includedInAppID == "" || (p.includedInAppID in s && s[p.includedInAppID].enabled)
  }

  function AddRest(s: Settings, p: Plugin, org: int): Settings {
    if p.id in s then s else s[p.id := RestDefault(p, org, EnabledGiven(s, p))]
  }

  function FillRest(s: Settings, ps: seq<Plugin>, org: int): Settings {
    if ps == [] then s else AddRest(FillRest(s, ps[..|ps| - 1], org), ps[|ps| - 1], org)
  }

  function Base(rows: seq<Info>, store: seq<Plugin>, org: int): Settings {
    FillApps(FillRows(rows), OfKind(store, App), org)
  }

  function SettingsFor(rows: seq<Info>, store: seq<Plugin>, org: int): Settings {
    FillRest(Base(rows, store, org), store, org)
  }

  // ---- the handlers -----------------------------------------------------------------------------

  /** pluginSettings; None when the rows cannot be read. */
  method FillSettings(rows: Option<seq<Info>>, store: seq<Plugin>, org: int)
    returns (r: Option<Settings>)
    ensures r == match rows case None => None case Some(pss) => Some(SettingsFor(pss, store, org))
  {
    if rows == None {
      return None;
    }
    var pss := rows.value;
    var settings: Settings := map[];
    for k := 0 to |pss|
      invariant settings == FillRows(pss[..k])
    {
      assert pss[..k + 1][..k] == pss[..k];
      settings := settings[pss[k].pluginID := pss[k]];
    }
    assert pss[..|pss|] == pss;
    settings := FillFromApps(settings, OfKind(store, App), org);
    settings := FillFromRest(settings, store, org);
    return Some(settings);
  }

  method FillFromApps(rows: Settings, apps: seq<Plugin>, org: int) returns (settings: Settings)
    ensures settings == FillApps(rows, apps, org)
  {
    settings := rows;
    for k := 0 to |apps|
      invariant settings == FillApps(rows, apps[..k], org)
    {
      assert apps[..k + 1][..k] == apps[..k];
      var plugin := apps[k];
      if plugin.id in settings {
        continue;
      }
      settings := settings[plugin.id := Info(plugin.id, org, plugin.autoEnabled, plugin.autoEnabled,
                                             plugin.version, plugin.autoEnabled)];
    }
    assert apps[..|apps|] == apps;
  }

  method FillFromRest(base: Settings, store: seq<Plugin>, org: int) returns (settings: Settings)
    ensures settings == FillRest(base, store, org)
  {
    settings := base;
    for k := 0 to |store|
      invariant settings == FillRest(base, store[..k], org)
    {
      assert store[..k + 1][..k] == store[..k];
      var plugin := store[k];
      if plugin.id in settings {
        continue;
      }
      var setting := Info(plugin.id, org, true, false, plugin.version, false);
      if plugin.includedInAppID != "" {
        setting := setting.(enabled := false);
        if plugin.includedInAppID in settings {
          setting := setting.(enabled := settings[plugin.includedInAppID].enabled);
        }
      }
      settings := settings[plugin.id := setting];
    }
    assert store[..|store|] == store;
  }

  /** availablePlugins: what it lists under each of the three kinds. */
  method AvailablePlugins(rows: Option<seq<Info>>, store: seq<Plugin>, org: int)
    returns (r: Option<map<Kind, map<string, Available>>>)
    requires Distinct(store)
    ensures r.Some? <==> rows.Some?
    ensures r.Some? ==>
              && r.value.Keys == {App, DataSource, Panel}
              && forall kind | kind in r.value ::
                   ListsAll(r.value[kind], store, kind, SettingsFor(rows.value, store, org))
  {
    var settings := FillSettings(rows, store, org);
    if settings == None {
      return None;
    }
    EveryPluginHasSettings(rows.value, store, org);
    var apps := AvailableOfKind(store, App, settings.value);
    var dataSources := AvailableOfKind(store, DataSource, settings.value);
    var panels := AvailableOfKind(store, Panel, settings.value);
    return Some(map[App := apps, DataSource := dataSources, Panel := panels]);
  }

  /** One of the three loops of availablePlugins; only the one over apps pins the plugin. */
  method AvailableOfKind(store: seq<Plugin>, kind: Kind, settings: Settings)
    returns (available: map<string, Available>)
    requires Distinct(store) && forall k | 0 <= k < |store| :: store[k].id in settings
    ensures ListsAll(available, store, kind, settings)
  {
    var ps := OfKind(store, kind);
    available := map[];
    for k := 0 to |ps|
      invariant forall id | id in available :: id in settings && available[id].settings == settings[id]
      invariant forall id | id in available ::
                  exists p | p in store :: Lists(available[id], p, kind, settings) && p.id == id
      invariant forall j | 0 <= j < k :: ps[j].id in available
    {
      var p := ps[k];
      assert p in ps;
      if p.id in settings {
        var shown := if kind == App then p.(pinned := settings[p.id].pinned) else p;
        available := available[p.id := Available(shown, settings[p.id])];
        assert Lists(available[p.id], p, kind, settings);
      }
    }
    forall p | p in store && p.kind == kind
      ensures p.id in available && Lists(available[p.id], p, kind, settings)
    {
      assert p in ps;
      var q :| q in store && Lists(available[p.id], q, kind, settings) && q.id == p.id;
      SameIdSamePlugin(store, p, q);
    }
  }

  /** An entry shows the plugin, pinned as its settings say if it is an app. */
  predicate Lists(a: Available, p: Plugin, kind: Kind, settings: Settings) {
    && p.kind == kind && p.id in settings
    && a.settings == settings[p.id]
    && a.plugin == if kind == App then p.(pinned := a.settings.pinned) else p
  }

  /** Every plugin of the kind is listed with its settings, and nothing else is. */
  ghost predicate ListsAll(m: map<string, Available>, store: seq<Plugin>, kind: Kind, settings: Settings) {
    && (forall p | p in store && p.kind == kind :: p.id in m && Lists(m[p.id], p, kind, settings))
    && (forall id | id in m :: exists p | p in store :: Lists(m[id], p, kind, settings) && p.id == id)
  }

  // ---- what each plugin gets --------------------------------------------------------------------

  predicate Distinct(ps: seq<Plugin>) {
    forall i, j | 0 <= i < j < |ps| :: ps[i].id != ps[j].id
  }

  /** The plugin of that id. */
  function PluginOf(ps: seq<Plugin>, id: string): (r: Option<Plugin>)
    ensures r.Some? ==> r.value in ps && r.value.id == id
    ensures forall p | p in ps && p.id == id :: r.Some?
  {
    if ps == [] then None
    else if ps[|ps| - 1].id == id then Some(ps[|ps| - 1])
    else PluginOf(ps[..|ps| - 1], id)
  }

  lemma {:induction false} SameIdSamePlugin(ps: seq<Plugin>, p: Plugin, q: Plugin)
    requires Distinct(ps) && p in ps && q in ps && p.id == q.id
    ensures p == q
  {
    var i :| 0 <= i < |ps| && ps[i] == p;
    var j :| 0 <= j < |ps| && ps[j] == q;
    assert i == j;
  }

  /** What the first two passes give an id: its row, or the default of the app of that name. */
  function BaseOf(rows: seq<Info>, store: seq<Plugin>, org: int, id: string): Option<Info> {
    if id in FillRows(rows) then Some(FillRows(rows)[id])
    else
      match PluginOf(store, id)
      case Some(p) => if p.kind == App then Some(AppDefault(p, org)) else None
      case None => None
  }

  /** Enabled unless included in an app that the first two passes leave disabled or unknown. */
  predicate EnabledByApp(rows: seq<Info>, store: seq<Plugin>, org: int, p: Plugin) {
    || p.includedInAppID == ""
    || match BaseOf(rows, store, org, p.includedInAppID)
       case Some(s) => s.enabled
       case None => false
  }

  /** The settings of an id, with no reference to any order of the store. */
  function SettingOf(rows: seq<Info>, store: seq<Plugin>, org: int, id: string): Option<Info> {
    if BaseOf(rows, store, org, id).Some? then BaseOf(rows, store, org, id)
    else
      match PluginOf(store, id)
      case Some(p) => Some(RestDefault(p, org, EnabledByApp(rows, store, org, p)))
      case None => None
  }

  lemma {:induction false} AppsAdd(s: Settings, apps: seq<Plugin>, org: int, id: string)
    requires Distinct(apps)
    ensures Lookup(FillApps(s, apps, org), id) ==
            if id in s then Some(s[id])
            else match PluginOf(apps, id)
                 case Some(p) => Some(AppDefault(p, org))
                 case None => None
  {
    if apps != [] {
      var init, p := apps[..|apps| - 1], apps[|apps| - 1];
      AppsAdd(s, init, org, id);
      AppsAdd(s, init, org, p.id);
      NotBefore(apps, |apps| - 1);
    }
  }

  lemma {:induction false} OfKindIsDistinct(store: seq<Plugin>, kind: Kind)
    requires Distinct(store)
    ensures Distinct(OfKind(store, kind))
  {
    if store != [] {
      var init, p := store[..|store| - 1], store[|store| - 1];
      OfKindIsDistinct(init, kind);
      forall q | q in OfKind(init, kind) ensures q.id != p.id {
        var i :| 0 <= i < |init| && init[i] == q;
        assert store[i].id != store[|store| - 1].id;
      }
    }
  }

  lemma {:induction false} BaseGives(rows: seq<Info>, store: seq<Plugin>, org: int, id: string)
    requires Distinct(store)
    ensures Lookup(Base(rows, store, org), id) == BaseOf(rows, store, org, id)
  {
    var apps := OfKind(store, App);
    OfKindIsDistinct(store, App);
    AppsAdd(FillRows(rows), apps, org, id);
    if PluginOf(store, id).Some? && PluginOf(apps, id).Some? {
      SameIdSamePlugin(store, PluginOf(store, id).value, PluginOf(apps, id).value);
    }
  }

  /** The third pass: what an id has after it has seen some plugins. */
  lemma {:induction false} RestKeeps(s: Settings, ps: seq<Plugin>, org: int, id: string)
    ensures id in s ==> Lookup(FillRest(s, ps, org), id) == Some(s[id])
    ensures id !in s && PluginOf(ps, id).None? ==> Lookup(FillRest(s, ps, org), id) == None
  {
    if ps != [] {
      RestKeeps(s, ps[..|ps| - 1], org, id);
    }
  }

  /** The plugin at k gets what the settings after the first k plugins say, and keeps it. */
  lemma {:induction false} RestAt(s: Settings, ps: seq<Plugin>, org: int, k: nat, n: nat)
    requires Distinct(ps) && k < n <= |ps| && ps[k].id !in s
    ensures Lookup(FillRest(s, ps[..n], org), ps[k].id) ==
            Some(RestDefault(ps[k], org, EnabledGiven(FillRest(s, ps[..k], org), ps[k])))
  {
    assert ps[..n][..n - 1] == ps[..n - 1];
    if k < n - 1 {
      RestAt(s, ps, org, k, n - 1);
    } else {
      NotBefore(ps, k);
      RestKeeps(s, ps[..k], org, ps[k].id);
    }
  }

  lemma {:induction false} NotBefore(ps: seq<Plugin>, k: nat)
    requires Distinct(ps) && k < |ps|
    ensures PluginOf(ps[..k], ps[k].id).None?
  {
    assert forall i | 0 <= i < k :: ps[..k][i].id != ps[k].id;
  }

  /** Every plugin of the store has settings. */
  lemma {:induction false} EveryPluginHasSettings(rows: seq<Info>, store: seq<Plugin>, org: int)
    requires Distinct(store)
    ensures forall k | 0 <= k < |store| :: store[k].id in SettingsFor(rows, store, org)
  {
    var base := Base(rows, store, org);
    assert store[..|store|] == store;
    forall k | 0 <= k < |store| ensures store[k].id in SettingsFor(rows, store, org) {
      if store[k].id in base {
        RestKeeps(base, store, org, store[k].id);
      } else {
        RestAt(base, store, org, k, |store|);
      }
    }
  }

  // ---- when the order of the store matters ------------------------------------------------------

  /** A plugin the third pass gives its settings. */
  predicate LeftToRest(rows: seq<Info>, store: seq<Plugin>, p: Plugin) {
    p in store && p.kind != App && p.id !in FillRows(rows)
  }

  /** x says it is included in b, which is no app, has no row, and is enabled. */
  predicate Nested(rows: seq<Info>, store: seq<Plugin>, org: int, x: Plugin, b: Plugin) {
    && LeftToRest(rows, store, x) && LeftToRest(rows, store, b) && x != b
    && x.includedInAppID == b.id && b.id != ""
    && EnabledByApp(rows, store, org, b)
  }

  predicate Settled(rows: seq<Info>, store: seq<Plugin>, org: int) {
    forall x, b | x in store && b in store :: !Nested(rows, store, org, x, b)
  }

  lemma {:induction false} PluginOfId(ps: seq<Plugin>, p: Plugin)
    requires Distinct(ps) && p in ps
    ensures PluginOf(ps, p.id) == Some(p)
  {
    SameIdSamePlugin(ps, p, PluginOf(ps, p.id).value);
  }

  lemma {:induction false} EnabledInBase(rows: seq<Info>, store: seq<Plugin>, org: int, p: Plugin)
    requires Distinct(store)
    ensures EnabledGiven(Base(rows, store, org), p) == EnabledByApp(rows, store, org, p)
  {
    BaseGives(rows, store, org, p.includedInAppID);
  }

  /** Without a nested plugin, the settings met in the third pass say what the base says. */
  lemma {:induction false} SettledAt(rows: seq<Info>, store: seq<Plugin>, org: int, k: nat)
    requires Distinct(store) && Settled(rows, store, org)
    requires k < |store| && LeftToRest(rows, store, store[k])
    ensures EnabledGiven(FillRest(Base(rows, store, org), store[..k], org), store[k]) ==
            EnabledByApp(rows, store, org, store[k])
    decreases k
  {
    var p, base, s := store[k], Base(rows, store, org), FillRest(Base(rows, store, org), store[..k], org);
    EnabledInBase(rows, store, org, p);
    RestKeeps(base, store[..k], org, p.includedInAppID);
    if p.includedInAppID != "" && p.includedInAppID !in base && PluginOf(store[..k], p.includedInAppID).Some? {
      var b := PluginOf(store[..k], p.includedInAppID).value;
      var j :| 0 <= j < k && store[..k][j] == b;
      PluginOfId(store, b);
      BaseGives(rows, store, org, b.id);
      SettledAt(rows, store, org, j);
      RestAt(base, store, org, j, k);
      assert !Nested(rows, store, org, p, b);
    }
  }

  /** Without a nested plugin the settings are the closed form, whatever the order. */
  lemma {:induction false} SettledSettings(rows: seq<Info>, store: seq<Plugin>, org: int, id: string)
    requires Distinct(store) && Settled(rows, store, org)
    ensures Lookup(SettingsFor(rows, store, org), id) == SettingOf(rows, store, org, id)
  {
    var base := Base(rows, store, org);
    BaseGives(rows, store, org, id);
    RestKeeps(base, store, org, id);
    if id !in base && PluginOf(store, id).Some? {
      var k :| 0 <= k < |store| && store[k] == PluginOf(store, id).value;
      assert store[..|store|] == store;
      RestAt(base, store, org, k, |store|);
      SettledAt(rows, store, org, k);
    }
  }

  /** A nested plugin is enabled exactly when the one it is included in comes first. */
  lemma {:induction false} NestedIsEnabledIffAfter(
    rows: seq<Info>, store: seq<Plugin>, org: int, i: nat, j: nat)
    requires Distinct(store) && i < |store| && j < |store|
    requires Nested(rows, store, org, store[i], store[j])
    ensures var s := Lookup(SettingsFor(rows, store, org), store[i].id);
            s.Some? && (s.value.enabled <==> j < i)
  {
    var x, b, base := store[i], store[j], Base(rows, store, org);
    assert store[..|store|] == store;
    PluginOfId(store, x);
    PluginOfId(store, b);
    BaseGives(rows, store, org, x.id);
    BaseGives(rows, store, org, b.id);
    RestAt(base, store, org, i, |store|);
    EnabledInBase(rows, store, org, b);
    RestKeeps(base, store[..j], org, b.includedInAppID);
    if j < i {
      RestAt(base, store, org, j, i);
    } else {
      if PluginOf(store[..i], b.id).Some? {
        SameIdSamePlugin(store, b, PluginOf(store[..i], b.id).value);
        NotInPrefix(store, i, j);
      }
      RestKeeps(base, store[..i], org, b.id);
    }
  }

  lemma {:induction false} NotInPrefix(ps: seq<Plugin>, i: nat, j: nat)
    requires Distinct(ps) && i <= j < |ps|
    ensures ps[j] !in ps[..i]
  {
    assert forall k | 0 <= k < i :: ps[..i][k].id != ps[j].id;
  }

  function Reversed<T>(s: seq<T>): (r: seq<T>)
    ensures |r| == |s|
    ensures forall k | 0 <= k < |s| :: r[k] == s[|s| - 1 - k]
  {
    if s == [] then [] else [s[|s| - 1]] + Reversed(s[..|s| - 1])
  }

  lemma {:induction false} ReversedPermutes<T>(s: seq<T>)
    ensures multiset(Reversed(s)) == multiset(s)
  {
    if s != [] {
      ReversedPermutes(s[..|s| - 1]);
      assert s == s[..|s| - 1] + [s[|s| - 1]];
    }
  }

  lemma {:induction false} DistinctPermuted(a: seq<Plugin>, b: seq<Plugin>)
    requires Distinct(a) && multiset(a) == multiset(b)
    ensures forall p :: p in a <==> p in b
    ensures Distinct(b)
  {
    forall p ensures p in a <==> p in b {
      assert p in multiset(a) <==> p in multiset(b);
    }
    forall i, j | 0 <= i < j < |b| ensures b[i].id != b[j].id {
      if b[i].id == b[j].id {
        SameIdSamePlugin(a, b[i], b[j]);
        Twice(b, i, j);
        Once(a, b[i]);
        assert false;
      }
    }
  }

  lemma {:induction false} Twice<T>(s: seq<T>, i: nat, j: nat)
    requires i < j < |s| && s[i] == s[j]
    ensures multiset(s)[s[i]] >= 2
  {
    assert s == s[..j] + s[j..];
    assert s[i] in s[..j] && s[j] == s[j..][0];
    assert multiset(s) == multiset(s[..j]) + multiset(s[j..]);
  }

  lemma {:induction false} Once(ps: seq<Plugin>, p: Plugin)
    requires Distinct(ps)
    ensures multiset(ps)[p] <= 1
  {
    if ps != [] {
      var init, last := ps[..|ps| - 1], ps[|ps| - 1];
      Once(init, p);
      assert ps == init + [last];
      assert forall i | 0 <= i < |init| :: init[i].id != last.id;
    }
  }

  lemma {:induction false} SameStoreSameClosedForm(
    rows: seq<Info>, a: seq<Plugin>, b: seq<Plugin>, org: int, id: string)
    requires Distinct(a) && Distinct(b) && forall p :: p in a <==> p in b
    ensures PluginOf(a, id) == PluginOf(b, id)
    ensures BaseOf(rows, a, org, id) == BaseOf(rows, b, org, id)
  {
    if PluginOf(a, id).Some? && PluginOf(b, id).Some? {
      SameIdSamePlugin(a, PluginOf(a, id).value, PluginOf(b, id).value);
    }
  }

  lemma {:induction false} SameStoreSettled(rows: seq<Info>, a: seq<Plugin>, b: seq<Plugin>, org: int)
    requires Distinct(a) && Distinct(b) && forall p :: p in a <==> p in b
    ensures forall x, y :: Nested(rows, a, org, x, y) <==> Nested(rows, b, org, x, y)
  {
    forall x, y ensures Nested(rows, a, org, x, y) <==> Nested(rows, b, org, x, y) {
      SameStoreSameClosedForm(rows, a, b, org, y.includedInAppID);
    }
  }

  lemma {:induction false} SettledInAnyOrder(rows: seq<Info>, a: seq<Plugin>, b: seq<Plugin>, org: int)
    requires Distinct(a) && multiset(a) == multiset(b) && Settled(rows, a, org)
    ensures SettingsFor(rows, a, org) == SettingsFor(rows, b, org)
  {
    DistinctPermuted(a, b);
    SameStoreSettled(rows, a, b, org);
    var sa, sb := SettingsFor(rows, a, org), SettingsFor(rows, b, org);
    forall id ensures Lookup(sa, id) == Lookup(sb, id) {
      SettledSettings(rows, a, org, id);
      SettledSettings(rows, b, org, id);
      SameStoreSameClosedForm(rows, a, b, org, id);
      if PluginOf(a, id).Some? {
        SameStoreSameClosedForm(rows, a, b, org, PluginOf(a, id).value.includedInAppID);
      }
    }
    SameFindings(sa, sb);
  }

  lemma {:induction false} SameFindings(a: Settings, b: Settings)
    requires forall id :: Lookup(a, id) == Lookup(b, id)
    ensures a == b
  {
    forall id ensures (id in a <==> id in b) && (id in a ==> a[id] == b[id]) {
      assert Lookup(a, id) == Lookup(b, id);
    }
  }

  lemma {:induction false} NestedReversed(rows: seq<Info>, store: seq<Plugin>, org: int, i: nat, j: nat)
    requires Distinct(Reversed(store)) && i < |store| && j < |store|
    requires Nested(rows, Reversed(store), org, store[i], store[j])
    ensures var s := Lookup(SettingsFor(rows, Reversed(store), org), store[i].id);
            s.Some? && (s.value.enabled <==> i < j)
  {
    var n := |store| - 1;
    NestedIsEnabledIffAfter(rows, Reversed(store), org, n - i, n - j);
  }

  lemma {:induction false} NestedBreaksOrder(
    rows: seq<Info>, store: seq<Plugin>, org: int, x: Plugin, b: Plugin)
    requires Distinct(store) && Nested(rows, store, org, x, b)
    ensures multiset(Reversed(store)) == multiset(store)
    ensures SettingsFor(rows, Reversed(store), org) != SettingsFor(rows, store, org)
  {
    var other := Reversed(store);
    ReversedPermutes(store);
    DistinctPermuted(store, other);
    SameStoreSettled(rows, store, other, org);
    var i :| 0 <= i < |store| && store[i] == x;
    var j :| 0 <= j < |store| && store[j] == b;
    NestedIsEnabledIffAfter(rows, store, org, i, j);
    NestedReversed(rows, store, org, i, j);
  }

  /** The settings do not depend on the order of the store exactly when no enabled plugin that is
      not an app and has no row has such a plugin included in it. */
  lemma {:induction false} OrderIsIrrelevantIff(rows: seq<Info>, store: seq<Plugin>, org: int)
    requires Distinct(store)
    ensures Settled(rows, store, org) <==>
              forall other | multiset(other) == multiset(store) ::
                SettingsFor(rows, other, org) == SettingsFor(rows, store, org)
  {
    if Settled(rows, store, org) {
      forall other | multiset(other) == multiset(store)
        ensures SettingsFor(rows, other, org) == SettingsFor(rows, store, org)
      {
        SettledInAnyOrder(rows, store, other, org);
      }
    } else {
      var x, b :| x in store && b in store && Nested(rows, store, org, x, b);
      NestedBreaksOrder(rows, store, org, x, b);
    }
  }

  /** A row for that id. */
  predicate HasRow(rows: seq<Info>, id: string) {
    exists k | 0 <= k < |rows| :: rows[k].pluginID == id
  }

  lemma {:induction false} FillRowsIs(rows: seq<Info>, id: string)
    ensures id in FillRows(rows) <==> HasRow(rows, id)
    ensures id in FillRows(rows) ==> FillRows(rows)[id] in rows && FillRows(rows)[id].pluginID == id
  {
    if rows != [] {
      var init, last := rows[..|rows| - 1], rows[|rows| - 1];
      FillRowsIs(init, id);
      InitAndLast(rows);
      assert rows[|rows| - 1] == last;
      assert forall k | 0 <= k < |init| :: rows[k] == init[k];
    }
  }

  /** Stored rows are what their plugins get: an id with a row has one of its rows, so with one row an
      id has exactly that. */
  lemma {:induction false} RowsAreKept(rows: seq<Info>, store: seq<Plugin>, org: int, k: nat)
    requires Distinct(store) && k < |rows|
    requires forall j | 0 <= j < |rows| && rows[j].pluginID == rows[k].pluginID :: rows[j] == rows[k]
    ensures Lookup(SettingsFor(rows, store, org), rows[k].pluginID) == Some(rows[k])
  {
    var id := rows[k].pluginID;
    FillRowsIs(rows, id);
    assert HasRow(rows, id);
    BaseGives(rows, store, org, id);
    RestKeeps(Base(rows, store, org), store, org, id);
  }

  /** What a plugin without a row gets: an app its own default, everything else an unpinned entry. */
  lemma {:induction false} RowlessSettings(rows: seq<Info>, store: seq<Plugin>, org: int, p: Plugin)
    requires Distinct(store) && p in store && !HasRow(rows, p.id)
    ensures p.id in SettingsFor(rows, store, org)
    ensures var s := SettingsFor(rows, store, org)[p.id];
            && s.pluginID == p.id && s.orgID == org && s.version == p.version
            && (p.kind == App ==>
                  s.enabled == p.autoEnabled && s.pinned == p.autoEnabled && s.autoEnabled == p.autoEnabled)
            && (p.kind != App ==> !s.pinned && !s.autoEnabled)
            && (p.kind != App && p.includedInAppID == "" ==> s.enabled)
  {
    var base := Base(rows, store, org);
    FillRowsIs(rows, p.id);
    PluginOfId(store, p);
    BaseGives(rows, store, org, p.id);
    if p.kind == App {
      RestKeeps(base, store, org, p.id);
    } else {
      var k :| 0 <= k < |store| && store[k] == p;
      assert store[..|store|] == store;
      RestAt(base, store, org, k, |store|);
    }
  }

  /** The intended use: what a plugin is included in is an app, or nothing the store knows. Then the
      order does not matter, and a plugin without a row that is included in an app follows that app's
      settings, and is disabled when there are none. */
  lemma {:induction false} ChildrenFollowTheirApps(rows: seq<Info>, store: seq<Plugin>, org: int, p: Plugin)
    requires Distinct(store) && p in store
    requires forall q, a | q in store && a in store && q.includedInAppID == a.id :: a.kind == App || a.id == ""
    ensures Settled(rows, store, org)
    ensures p.id in SettingsFor(rows, store, org)
    ensures HasRow(rows, p.id) ==>
              SettingsFor(rows, store, org)[p.id] in rows
              && SettingsFor(rows, store, org)[p.id].pluginID == p.id
    ensures !HasRow(rows, p.id) && p.kind == App ==>
              SettingsFor(rows, store, org)[p.id].enabled == p.autoEnabled
              && SettingsFor(rows, store, org)[p.id].pinned == p.autoEnabled
    ensures !HasRow(rows, p.id) && p.kind != App && p.includedInAppID == "" ==>
              SettingsFor(rows, store, org)[p.id].enabled
    ensures !HasRow(rows, p.id) && p.kind != App && p.includedInAppID != "" ==>
              (SettingsFor(rows, store, org)[p.id].enabled <==>
                 p.includedInAppID in SettingsFor(rows, store, org)
                 && SettingsFor(rows, store, org)[p.includedInAppID].enabled)
  {
    FillRowsIs(rows, p.id);
    if !HasRow(rows, p.id) {
      RowlessSettings(rows, store, org, p);
    }
    PluginOfId(store, p);
    SettledSettings(rows, store, org, p.id);
    SettledSettings(rows, store, org, p.includedInAppID);
  }

  /** The nested plugins of OrderIsIrrelevantIff, by what the store and the rows say: neither is an app
      or has a row, one is included in the other, and that one is included in nothing, in an app enabled
      by its row or its default, or in something else enabled by a row. */
  lemma {:induction false} NestedIff(
    rows: seq<Info>, store: seq<Plugin>, org: int, x: Plugin, b: Plugin)
    requires Distinct(store) && x in store && b in store
    requires forall j, k | 0 <= j < |rows| && 0 <= k < |rows| && rows[j].pluginID == rows[k].pluginID ::
               rows[j] == rows[k]
    ensures Nested(rows, store, org, x, b) <==>
              && x != b && x.includedInAppID == b.id && b.id != ""
              && x.kind != App && b.kind != App && !HasRow(rows, x.id) && !HasRow(rows, b.id)
              && (|| b.includedInAppID == ""
                  || (exists r | r in rows :: r.pluginID == b.includedInAppID && r.enabled)
                  || (!HasRow(rows, b.includedInAppID)
                      && exists a | a in store :: a.id == b.includedInAppID && a.kind == App && a.autoEnabled))
  {
    FillRowsIs(rows, x.id);
    FillRowsIs(rows, b.id);
    FillRowsIs(rows, b.includedInAppID);
    if b.includedInAppID in FillRows(rows) {
      OnlyRow(rows, b.includedInAppID);
    } else if PluginOf(store, b.includedInAppID).Some? {
      OnlyPlugin(store, b.includedInAppID);
    }
  }

  lemma {:induction false} OnlyRow(rows: seq<Info>, id: string)
    requires id in FillRows(rows)
    requires forall j, k | 0 <= j < |rows| && 0 <= k < |rows| && rows[j].pluginID == rows[k].pluginID ::
               rows[j] == rows[k]
    ensures forall r | r in rows && r.pluginID == id :: r == FillRows(rows)[id]
    ensures FillRows(rows)[id] in rows && FillRows(rows)[id].pluginID == id
  {
    FillRowsIs(rows, id);
    forall r | r in rows && r.pluginID == id ensures r == FillRows(rows)[id] {
      var j :| 0 <= j < |rows| && rows[j] == r;
      var k :| 0 <= k < |rows| && rows[k] == FillRows(rows)[id];
    }
  }

  lemma {:induction false} OnlyPlugin(store: seq<Plugin>, id: string)
    requires Distinct(store) && PluginOf(store, id).Some?
    ensures forall a | a in store && a.id == id :: a == PluginOf(store, id).value
  {
    forall a | a in store && a.id == id ensures a == PluginOf(store, id).value {
      SameIdSamePlugin(store, a, PluginOf(store, id).value);
    }
  }
}
