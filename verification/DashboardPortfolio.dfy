/** The generated dashboard files (scripts/generate_codestra_dashboards.py).

    A dashboard is its uid and title; the output directory is a map from paths. */
module DashboardPortfolio {
  import opened Common

  // ---- slugs ------------------------------------------------------------------------------------

  /** str.lower, exact where the result has a character a slug keeps: of the characters that are not
      ASCII only the Kelvin sign and the dotted capital I have such a lower case. */
  function LowerChar(c: char): string {
    if 'A' <= c <= 'Z' then [c - 'A' + 'a']
    else if c == '\U{212A}' then "k"
    else if c == '\U{0130}' then "i\U{0307}"
    else [c]
  }

  function Lower(s: string): string {
    if s == "" then "" else LowerChar(s[0]) + Lower(s[1..])
  }

  predicate Keeps(c: char) {
    'a' <= c <= 'z' || '0' <= c <= '9' || c == '-'
  }

  /** Every run of other characters becomes one dash; inRun says the last one read was such. */
  function Dashed(s: string, inRun: bool): string {
    if s == "" then ""
    else if Keeps(s[0]) then [s[0]] + Dashed(s[1..], false)
    else if inRun then Dashed(s[1..], true)
    else "-" + Dashed(s[1..], true)
  }

  function StripStart(s: string): string {
    if s != "" && s[0] == '-' then StripStart(s[1..]) else s
  }

  function StripEnd(s: string): string {
    if s != "" && s[|s| - 1] == '-' then StripEnd(s[..|s| - 1]) else s
  }

  function Slug(value: string): string {
    var s := StripEnd(StripStart(Dashed(Lower(value), false)));
    s[..Min(40, |s|)]
  }

  // ---- what is written --------------------------------------------------------------------------

  datatype Business = Business(id: string, displayName: string, services: seq<string>)

  type Registry = seq<Business>

  datatype Path = Path(folder: string, filename: string)

  datatype Dashboard = Dashboard(uid: string, title: string)

  type Files = map<Path, Dashboard>

  /** The dashboards generated for every registry. */
  datatype Special =
    | IncidentTriage | ExecutivePlatform | Infrastructure | Middleware | Kong | Keycloak | Odoo | N8n
    | Vicidial | Postgres | Redis | Caddy | Deployment | SecurityEvents | ErrorBudget | Environment
    | Server | Operations

  const SPECIALS: seq<Special> := [
    IncidentTriage, ExecutivePlatform, Infrastructure, Middleware, Kong, Keycloak, Odoo, N8n, Vicidial,
    Postgres, Redis, Caddy, Deployment, SecurityEvents, ErrorBudget, Environment, Server, Operations]

  function FolderOf(s: Special): string {
    match s
    case IncidentTriage => "incident"
    case ExecutivePlatform => "executive"
    case Infrastructure => "platform"
    case Middleware => "platform"
    case Kong => "api"
    case Keycloak => "security"
    case Odoo => "platform"
    case N8n => "platform"
    case Vicidial => "contact-center"
    case Postgres => "database"
    case Redis => "database"
    case Caddy => "platform"
    case Deployment => "deployment"
    case SecurityEvents => "security"
    case ErrorBudget => "slo"
    case Environment => "environment"
    case Server => "server"
    case Operations => "api"
  }

  function StemOf(s: Special): string {
    match s
    case IncidentTriage => "incident-triage"
    case ExecutivePlatform => "executive-platform"
    case Infrastructure => "infrastructure-health"
    case Middleware => "middleware-transactions"
    case Kong => "kong-api-gateway"
    case Keycloak => "keycloak-authentication"
    case Odoo => "odoo-integration"
    case N8n => "n8n-workflows"
    case Vicidial => "vicidial-call-center"
    case Postgres => "postgres"
    case Redis => "redis"
    case Caddy => "caddy-edge"
    case Deployment => "deployment-version"
    case SecurityEvents => "security-events"
    case ErrorBudget => "error-budget"
    case Environment => "environment-health"
    case Server => "server-health"
    case Operations => "operations-dashboard-api"
  }

  const SEPARATOR := " \U{2014} "
  const HEALTH_NAME := "Business Health"

  function SpecialTitle(s: Special): string {
    match s
    case IncidentTriage => "Incident Triage" + SEPARATOR + ("What broke, where, who " + "is affected, what changed?")
    case ExecutivePlatform => "Executive Platform Health"
    case Infrastructure => "Infrastructure Health"
    case Middleware => "Middleware Transactions"
    case Kong => "Kong API Gateway"
    case Keycloak => "Keycloak Authentication"
    case Odoo => "Odoo Health and Integration"
    case N8n => "n8n Workflow Health"
    case Vicidial => "VICIdial Call Center"
    case Postgres => "PostgreSQL Health"
    case Redis => "Redis Health"
    case Caddy => "Caddy Edge"
    case Deployment => "Deployment and Version"
    case SecurityEvents => "Security Events"
    case ErrorBudget => "SLO and Error Budget"
    case Environment => "Environment Health"
    case Server => "Server and Container Health"
    case Operations => "Operations Dashboard API"
  }

  /** What decides a dashboard's path and uid. */
  datatype Slot = ForSpecial(special: Special) | ForBusiness(slug: string) | ForApp(slug: string)

  function PathOf(slot: Slot): Path {
    match slot
    case ForSpecial(s) => Path(FolderOf(s), StemOf(s) + ".json")
    case ForBusiness(slug) => Path("business", "business-" + slug + ".json")
    case ForApp(slug) => Path("business", "app-" + slug + ".json")
  }

  /** Only the fifteen core ones pass their stem through slug; it is a slug already. */
  function UidOf(slot: Slot): string {
    match slot
    case ForSpecial(s) =>
      if s == IncidentTriage || s == ExecutivePlatform || s == Operations then "codestra-" + StemOf(s)
      else "codestra-" + Slug(StemOf(s))
    case ForBusiness(slug) => "biz-" + slug
    case ForApp(slug) => "app-" + slug
  }

  datatype Write = Write(slot: Slot, title: string)

  function SpecialWrites(specials: seq<Special>): seq<Write> {
    if specials == [] then []
    else SpecialWrites(specials[..|specials| - 1])
         + [Write(ForSpecial(specials[|specials| - 1]), SpecialTitle(specials[|specials| - 1]))]
  }

  function BusinessWrite(b: Business): Write {
    Write(ForBusiness(Slug(b.id)), b.displayName + SEPARATOR + HEALTH_NAME)
  }

  function AppWrite(b: Business, service: string): Write {
    Write(ForApp(Slug(service)), b.displayName + SEPARATOR + service)
  }

  function AppWrites(b: Business, services: seq<string>): seq<Write> {
    if services == [] then []
    else AppWrites(b, services[..|services| - 1]) + [AppWrite(b, services[|services| - 1])]
  }

  function RegistryWrites(registry: Registry): seq<Write> {
    if registry == [] then []
    else
      var b := registry[|registry| - 1];
      RegistryWrites(registry[..|registry| - 1]) + [BusinessWrite(b)] + AppWrites(b, b.services)
  }

  function Put(files: Files, w: Write): Files {
    files[PathOf(w.slot) := Dashboard(UidOf(w.slot), w.title)]
  }

  function PutAll(files: Files, ws: seq<Write>): Files {
    if ws == [] then files else Put(PutAll(files, ws[..|ws| - 1]), ws[|ws| - 1])
  }

  function Generated(registry: Registry): Files {
    PutAll(map[], SpecialWrites(SPECIALS) + RegistryWrites(registry))
  }

  /** main: the directory is cleared of generated files first. */
  method Generate(registry: Registry) returns (files: Files)
    ensures files == Generated(registry)
  {
    files := map[];
    for k := 0 to |SPECIALS|
      invariant files == PutAll(map[], SpecialWrites(SPECIALS[..k]))
    {
      OneMoreSpecial(SPECIALS, k);
      files := Put(files, Write(ForSpecial(SPECIALS[k]), SpecialTitle(SPECIALS[k])));
    }
    assert SPECIALS[..|SPECIALS|] == SPECIALS;
    ghost var start := files;
    for k := 0 to |registry|
      invariant files == PutAll(start, RegistryWrites(registry[..k]))
    {
      files := GenerateBusiness(files, registry[k]);
      OneMoreBusiness(start, registry, k);
    }
    assert registry[..|registry|] == registry;
    PutAllAppended(map[], SpecialWrites(SPECIALS), RegistryWrites(registry));
  }

  method GenerateBusiness(before: Files, business: Business) returns (files: Files)
    ensures files == PutAll(before, [BusinessWrite(business)] + AppWrites(business, business.services))
  {
    files := Put(before, BusinessWrite(business));
    PutOne(before, BusinessWrite(business));
    ghost var start := files;
    for j := 0 to |business.services|
      invariant files == PutAll(start, AppWrites(business, business.services[..j]))
    {
      assert business.services[..j + 1][..j] == business.services[..j];
      PutAppended(start, AppWrites(business, business.services[..j]),
                  AppWrite(business, business.services[j]));
      files := Put(files, AppWrite(business, business.services[j]));
    }
    assert business.services[..|business.services|] == business.services;
    PutAllAppended(before, [BusinessWrite(business)], AppWrites(business, business.services));
  }

  lemma {:induction false} PutOne(files: Files, w: Write)
    ensures PutAll(files, [w]) == Put(files, w)
  {
    assert [w][..0] == [];
  }

  lemma {:induction false} PutAppended(files: Files, ws: seq<Write>, w: Write)
    ensures PutAll(files, ws + [w]) == Put(PutAll(files, ws), w)
  {
    assert (ws + [w])[..|ws|] == ws;
  }

  lemma {:induction false} PutAllAppended(files: Files, a: seq<Write>, b: seq<Write>)
    ensures PutAll(files, a + b) == PutAll(PutAll(files, a), b)
  {
    if b == [] {
      assert a + b == a;
    } else {
      assert (a + b)[..|a + b| - 1] == a + b[..|b| - 1];
      PutAllAppended(files, a, b[..|b| - 1]);
    }
  }

  lemma {:induction false} OneMoreSpecial(specials: seq<Special>, k: nat)
    requires k < |specials|
    ensures var w := Write(ForSpecial(specials[k]), SpecialTitle(specials[k]));
            PutAll(map[], SpecialWrites(specials[..k + 1])) ==
            Put(PutAll(map[], SpecialWrites(specials[..k])), w)
  {
    assert specials[..k + 1][..k] == specials[..k];
    PutAppended(map[], SpecialWrites(specials[..k]), Write(ForSpecial(specials[k]), SpecialTitle(specials[k])));
  }

  lemma {:induction false} OneMoreBusiness(start: Files, registry: Registry, k: nat)
    requires k < |registry|
    ensures var b := registry[k];
            PutAll(start, RegistryWrites(registry[..k + 1])) ==
            PutAll(PutAll(start, RegistryWrites(registry[..k])), [BusinessWrite(b)] + AppWrites(b, b.services))
  {
    var b := registry[k];
    assert registry[..k + 1][..k] == registry[..k];
    Regrouped(RegistryWrites(registry[..k]), [BusinessWrite(b)], AppWrites(b, b.services));
    PutAllAppended(start, RegistryWrites(registry[..k]), [BusinessWrite(b)] + AppWrites(b, b.services));
  }

  // ---- paths and uids tell the slots apart ------------------------------------------------------

  /** The length and the first two characters of a stem. */
  function Fingerprint(s: string): int
    requires |s| >= 2
  {
    |s| * 1000000 + s[0] as int * 1000 + s[1] as int
  }

  function StemFingerprint(s: Special): int {
    match s
    case IncidentTriage => 15105110
    case ExecutivePlatform => 18101120
    case Infrastructure => 21105110
    case Middleware => 23109105
    case Kong => 16107111
    case Keycloak => 23107101
    case Odoo => 16111100
    case N8n => 13110056
    case Vicidial => 20118105
    case Postgres => 8112111
    case Redis => 5114101
    case Caddy => 10099097
    case Deployment => 18100101
    case SecurityEvents => 15115101
    case ErrorBudget => 12101114
    case Environment => 18101110
    case Server => 13115101
    case Operations => 24111112
  }

  lemma {:induction false} StemsDiffer(s: Special, t: Special)
    requires StemOf(s) == StemOf(t)
    ensures s == t
  {
    StemFingerprintIs(s);
    StemFingerprintIs(t);
  }

  lemma {:induction false} StemFingerprintIs(s: Special)
    ensures |StemOf(s)| >= 2 && Fingerprint(StemOf(s)) == StemFingerprint(s)
  {
  }

  lemma {:induction false} SuffixCut(a: string, b: string, head: string, tail: string)
    requires head + a + tail == head + b + tail
    ensures a == b
  {
    assert (head + a + tail)[|head|..|head| + |a|] == a;
    assert (head + b + tail)[|head|..|head| + |b|] == b;
  }

  lemma {:induction false} FolderIsNoBusiness(s: Special)
    ensures FolderOf(s) != "business"
  {
    assert FolderOf(s)[0] != 'b';
  }

  lemma {:induction false} BusinessIsNoApp(s: string, t: string)
    ensures PathOf(ForBusiness(s)) != PathOf(ForApp(t))
  {
    assert PathOf(ForBusiness(s)).filename[0] == 'b';
    assert PathOf(ForApp(t)).filename[0] == 'a';
  }

  lemma {:induction false} SpecialPathsDiffer(s: Special, t: Special)
    requires PathOf(ForSpecial(s)) == PathOf(ForSpecial(t))
    ensures s == t
  {
    assert "" + StemOf(s) + ".json" == StemOf(s) + ".json";
    assert "" + StemOf(t) + ".json" == StemOf(t) + ".json";
    SuffixCut(StemOf(s), StemOf(t), "", ".json");
    StemsDiffer(s, t);
  }

  /** A path belongs to one slot. */
  lemma {:induction false} PathsDiffer(a: Slot, b: Slot)
    requires PathOf(a) == PathOf(b)
    ensures a == b
  {
    match (a, b)
    case (ForSpecial(s), ForSpecial(t)) => SpecialPathsDiffer(s, t);
    case (ForSpecial(s), _) => FolderIsNoBusiness(s);
    case (_, ForSpecial(t)) => FolderIsNoBusiness(t);
    case (ForBusiness(s), ForBusiness(t)) => SuffixCut(s, t, "business-", ".json");
    case (ForApp(s), ForApp(t)) => SuffixCut(s, t, "app-", ".json");
    case (ForBusiness(s), ForApp(t)) => BusinessIsNoApp(s, t);
    case (ForApp(s), ForBusiness(t)) => BusinessIsNoApp(t, s);
  }

  /** The position among the specials. */
  function Rank(s: Special): nat {
    match s
    case IncidentTriage => 0
    case ExecutivePlatform => 1
    case Infrastructure => 2
    case Middleware => 3
    case Kong => 4
    case Keycloak => 5
    case Odoo => 6
    case N8n => 7
    case Vicidial => 8
    case Postgres => 9
    case Redis => 10
    case Caddy => 11
    case Deployment => 12
    case SecurityEvents => 13
    case ErrorBudget => 14
    case Environment => 15
    case Server => 16
    case Operations => 17
  }

  predicate SlugChar(c: char) {
    c == '-' || '0' <= c <= '9' || 'a' <= c <= 'z'
  }

  predicate AllKept(s: string) {
    forall k | 0 <= k < |s| :: SlugChar(s[k])
  }

  predicate IsSlug(s: string) {
    AllKept(s) && |s| <= 40 && (s != "" ==> s[0] != '-' && s[|s| - 1] != '-')
  }

  lemma {:induction false} LowerKeeps(s: string)
    requires AllKept(s)
    ensures Lower(s) == s && Dashed(s, false) == s
  {
    if s != "" {
      LowerKeeps(s[1..]);
      assert [s[0]] + s[1..] == s;
    }
  }

  // ---- what a slug is ---------------------------------------------------------------------------

  predicate WordChar(c: char) {
    'a' <= c <= 'z' || 'A' <= c <= 'Z' || '0' <= c <= '9' || c == '-'
  }

  /** Characters that are no part of a slug, in either case. */
  predicate IsGap(s: string) {
    s != "" && forall k | 0 <= k < |s| :: !WordChar(s[k]) && s[k] != '\U{212A}' && s[k] != '\U{0130}'
  }

  lemma {:induction false} LowerAppended(a: string, b: string)
    ensures Lower(a + b) == Lower(a) + Lower(b)
  {
    if a == "" {
      assert a + b == b;
    } else {
      assert (a + b)[1..] == a[1..] + b;
      LowerAppended(a[1..], b);
    }
  }

  /** Whether the text ends in a run, when one may have begun before it. */
  predicate EndsInRun(s: string, inRun: bool) {
    if s == "" then inRun else !Keeps(s[|s| - 1])
  }

  lemma {:induction false} DashedAppended(a: string, b: string, inRun: bool)
    ensures Dashed(a + b, inRun) == Dashed(a, inRun) + Dashed(b, EndsInRun(a, inRun))
  {
    if a == "" {
      assert a + b == b;
    } else {
      assert (a + b)[1..] == a[1..] + b;
      DashedAppended(a[1..], b, !Keeps(a[0]));
    }
  }

  lemma {:induction false} GapDashed(gap: string, inRun: bool)
    requires IsGap(gap)
    ensures Lower(gap) == gap && EndsInRun(gap, inRun)
    ensures Dashed(gap, inRun) == if inRun then "" else "-"
  {
    if |gap| > 1 {
      GapDashed(gap[1..], true);
    } else {
      assert gap[1..] == "";
    }
    assert gap == [gap[0]] + gap[1..];
  }

  lemma {:induction false} LowerStarts(s: string)
    requires s != "" && WordChar(s[0])
    ensures Lower(s) != "" && Keeps(Lower(s)[0])
  {
  }

  lemma {:induction false} LowerEnds(s: string)
    requires s != "" && WordChar(s[|s| - 1])
    ensures !EndsInRun(Lower(s), false)
  {
    assert s == s[..|s| - 1] + [s[|s| - 1]];
    LowerAppended(s[..|s| - 1], [s[|s| - 1]]);
    LowerStarts([s[|s| - 1]]);
  }

  lemma {:induction false} SlugIgnoresCase(a: string, c: char, b: string)
    requires 'A' <= c <= 'Z'
    ensures Slug(a + [c] + b) == Slug(a + [c - 'A' + 'a'] + b)
  {
    LowerAppended(a + [c], b);
    LowerAppended(a, [c]);
    LowerAppended(a + [c - 'A' + 'a'], b);
    LowerAppended(a, [c - 'A' + 'a']);
  }

  lemma {:induction false} GapBetween(a: string, gap: string, b: string)
    requires IsGap(gap) && !EndsInRun(a, false) && (b != "" ==> Keeps(b[0]))
    ensures Dashed(a + gap + b, false) == Dashed(a, false) + "-" + Dashed(b, false)
  {
    DashedAppended(a + gap, b, false);
    DashedAppended(a, gap, false);
    GapDashed(gap, false);
    assert (a + gap)[|a + gap| - 1] == gap[|gap| - 1];
  }

  lemma {:induction false} DashBetween(a: string, b: string)
    requires !EndsInRun(a, false)
    ensures Dashed(a + "-" + b, false) == Dashed(a, false) + "-" + Dashed(b, false)
  {
    DashedAppended(a, "-" + b, false);
    assert a + ("-" + b) == a + "-" + b;
    assert ("-" + b)[1..] == b;
  }

  lemma {:induction false} LowerJoined(a: string, mid: string, b: string)
    requires Lower(mid) == mid
    ensures Lower(a + mid + b) == Lower(a) + mid + Lower(b)
  {
    LowerAppended(a + mid, b);
    LowerAppended(a, mid);
  }

  /** Everything between two words is one dash. */
  lemma {:induction false} SlugJoinsWords(a: string, gap: string, b: string)
    requires IsGap(gap)
    requires a != "" ==> WordChar(a[|a| - 1])
    requires b != "" ==> WordChar(b[0])
    ensures Slug(a + gap + b) == Slug(a + "-" + b)
  {
    GapDashed(gap, false);
    LowerJoined(a, gap, b);
    assert "-"[1..] == "";
    LowerJoined(a, "-", b);
    if a != "" {
      LowerEnds(a);
    }
    if b != "" {
      LowerStarts(b);
    }
    GapBetween(Lower(a), gap, Lower(b));
    DashBetween(Lower(a), Lower(b));
  }

  lemma {:induction false} StripAppended(d: string)
    ensures StripStart(d + "-") == if StripStart(d) == "" then "" else StripStart(d) + "-"
  {
    if d == "" {
      assert (d + "-")[1..] == "";
    } else {
      assert (d + "-")[1..] == d[1..] + "-";
      StripAppended(d[1..]);
    }
  }

  /** No dash at either end matters. */
  lemma {:induction false} SlugDropsOuterDashes(value: string)
    ensures Slug("-" + value) == Slug(value) == Slug(value + "-")
  {
    var low := Lower(value);
    LowerAppended("-", value);
    LowerAppended(value, "-");
    assert ("-" + low)[1..] == low;
    var d := Dashed(low, false);
    assert ("-" + d)[1..] == d;
    DashedAppended(low, "-", false);
    assert "-"[1..] == "";
    StripAppended(d);
    var t := StripStart(d);
    assert (t + "-")[..|t + "-"| - 1] == t;
  }

  lemma {:induction false} CleanStays(d: string)
    requires d != "" ==> d[0] != '-' && d[|d| - 1] != '-'
    ensures StripEnd(StripStart(d)) == d
  {
    assert StripStart(d) == d;
  }

  /** And of a text in slug characters, with no dash at either end, the first forty remain. */
  lemma {:induction false} SlugCutsCleanText(value: string)
    requires AllKept(value) && (value != "" ==> value[0] != '-' && value[|value| - 1] != '-')
    ensures Slug(value) == if |value| <= 40 then value else value[..40]
  {
    LowerKeeps(value);
    CleanStays(value);
  }

  lemma {:induction false} StemKept1(s: Special)
    requires 0 <= Rank(s) < 5
    ensures AllKept(StemOf(s))
  {
    match s
    case IncidentTriage => assert AllKept("incident-triage");
    case ExecutivePlatform => assert AllKept("executive-platform");
    case Infrastructure => assert AllKept("infrastructure-health");
    case Middleware => assert AllKept("middleware-transactions");
    case Kong => assert AllKept("kong-api-gateway");
    case _ =>
  }

  lemma {:induction false} StemKept2(s: Special)
    requires 5 <= Rank(s) < 10
    ensures AllKept(StemOf(s))
  {
    match s
    case Keycloak => assert AllKept("keycloak-authentication");
    case Odoo => assert AllKept("odoo-integration");
    case N8n => assert AllKept("n8n-workflows");
    case Vicidial => assert AllKept("vicidial-call-center");
    case Postgres => assert AllKept("postgres");
    case _ =>
  }

  lemma {:induction false} StemKept3(s: Special)
    requires 10 <= Rank(s) < 14
    ensures AllKept(StemOf(s))
  {
    match s
    case Redis => assert AllKept("redis");
    case Caddy => assert AllKept("caddy-edge");
    case Deployment => assert AllKept("deployment-version");
    case SecurityEvents => assert AllKept("security-events");
    case _ =>
  }

  lemma {:induction false} StemKept4(s: Special)
    requires 14 <= Rank(s) < 18
    ensures AllKept(StemOf(s))
  {
    match s
    case ErrorBudget => assert AllKept("error-budget");
    case Environment => assert AllKept("environment-health");
    case Server => assert AllKept("server-health");
    case Operations => assert AllKept("operations-dashboard-api");
    case _ =>
  }

  lemma {:induction false} StemEnds(s: Special)
    ensures 0 < |StemOf(s)| <= 40 && StemOf(s)[0] != '-' && StemOf(s)[|StemOf(s)| - 1] != '-'
  {
  }

  lemma {:induction false} StemIsSlug(s: Special)
    ensures IsSlug(StemOf(s))
  {
    StemEnds(s);
    if Rank(s) < 5 {
      StemKept1(s);
    } else if Rank(s) < 10 {
      StemKept2(s);
    } else if Rank(s) < 14 {
      StemKept3(s);
    } else {
      StemKept4(s);
    }
  }

  lemma {:induction false} SpecialUid(s: Special)
    ensures UidOf(ForSpecial(s)) == "codestra-" + StemOf(s)
  {
    StemIsItsSlug(s);
  }

  lemma {:induction false} StemIsItsSlug(s: Special)
    ensures Slug(StemOf(s)) == StemOf(s)
  {
    StemIsSlug(s);
    SlugOfSlug(StemOf(s));
  }

  lemma {:induction false} SlugOfSlug(s: string)
    requires IsSlug(s)
    ensures Slug(s) == s
  {
    SlugCutsCleanText(s);
  }

  lemma {:induction false} PrefixCut(head: string, a: string, b: string)
    requires head + a == head + b
    ensures a == b
  {
    assert (head + a)[|head|..] == a;
    assert (head + b)[|head|..] == b;
  }

  function FirstOfUid(slot: Slot): char {
    match slot
    case ForSpecial(_) => 'c'
    case ForBusiness(_) => 'b'
    case ForApp(_) => 'a'
  }

  lemma {:induction false} UidStarts(slot: Slot)
    ensures UidOf(slot) != "" && UidOf(slot)[0] == FirstOfUid(slot)
  {
  }

  /** So does a uid. */
  lemma {:induction false} UidsDiffer(a: Slot, b: Slot)
    requires UidOf(a) == UidOf(b)
    ensures a == b
  {
    UidStarts(a);
    UidStarts(b);
    match (a, b)
    case (ForSpecial(s), ForSpecial(t)) =>
      SpecialUid(s);
      SpecialUid(t);
      PrefixCut("codestra-", StemOf(s), StemOf(t));
      StemsDiffer(s, t);
    case (ForBusiness(s), ForBusiness(t)) => PrefixCut("biz-", s, t);
    case (ForApp(s), ForApp(t)) => PrefixCut("app-", s, t);
    case _ => assert false;
  }

  // ---- how many files ---------------------------------------------------------------------------

  function BusinessSlugs(registry: Registry): seq<string> {
    if registry == [] then []
    else BusinessSlugs(registry[..|registry| - 1]) + [Slug(registry[|registry| - 1].id)]
  }

  function SlugsOf(services: seq<string>): seq<string> {
    if services == [] then []
    else SlugsOf(services[..|services| - 1]) + [Slug(services[|services| - 1])]
  }

  function ServiceSlugs(registry: Registry): seq<string> {
    if registry == [] then []
    else ServiceSlugs(registry[..|registry| - 1]) + SlugsOf(registry[|registry| - 1].services)
  }

  function SlotsOf(ws: seq<Write>): set<Slot> {
    set w | w in ws :: w.slot
  }

  function PathsOf(slots: set<Slot>): set<Path> {
    set s | s in slots :: PathOf(s)
  }

  function BusinessSlots(slugs: set<string>): set<Slot> {
    set s | s in slugs :: ForBusiness(s)
  }

  function AppSlots(slugs: set<string>): set<Slot> {
    set s | s in slugs :: ForApp(s)
  }

  function SpecialSlots(specials: set<Special>): set<Slot> {
    set s | s in specials :: ForSpecial(s)
  }

  lemma {:induction false} SlotsAppended(a: seq<Write>, b: seq<Write>)
    ensures SlotsOf(a + b) == SlotsOf(a) + SlotsOf(b)
  {
    assert forall w :: w in a + b <==> w in a || w in b;
  }

  lemma {:induction false} PutAllKeys(ws: seq<Write>)
    ensures PutAll(map[], ws).Keys == PathsOf(SlotsOf(ws))
  {
    if ws != [] {
      var init, last := ws[..|ws| - 1], ws[|ws| - 1];
      PutAllKeys(init);
      InitAndLast(ws);
      SlotsAppended(init, [last]);
      assert SlotsOf([last]) == {last.slot};
      assert PathsOf(SlotsOf(init) + {last.slot}) == PathsOf(SlotsOf(init)) + {PathOf(last.slot)};
    }
  }

  lemma {:induction false} PathsSize(slots: set<Slot>)
    ensures |PathsOf(slots)| == |slots|
  {
    if slots != {} {
      var s :| s in slots;
      PathsSize(slots - {s});
      if PathOf(s) in PathsOf(slots - {s}) {
        var t :| t in slots - {s} && PathOf(t) == PathOf(s);
        PathsDiffer(s, t);
        assert false;
      }
      assert PathsOf(slots) == PathsOf(slots - {s}) + {PathOf(s)};
    }
  }

  lemma {:induction false} BusinessSlotsSize(slugs: set<string>)
    ensures |BusinessSlots(slugs)| == |slugs|
  {
    if slugs != {} {
      var s :| s in slugs;
      BusinessSlotsSize(slugs - {s});
      assert BusinessSlots(slugs) == BusinessSlots(slugs - {s}) + {ForBusiness(s)};
    }
  }

  lemma {:induction false} AppSlotsSize(slugs: set<string>)
    ensures |AppSlots(slugs)| == |slugs|
  {
    if slugs != {} {
      var s :| s in slugs;
      AppSlotsSize(slugs - {s});
      assert AppSlots(slugs) == AppSlots(slugs - {s}) + {ForApp(s)};
    }
  }

  lemma {:induction false} SpecialSlotsSize(specials: set<Special>)
    ensures |SpecialSlots(specials)| == |specials|
  {
    if specials != {} {
      var s :| s in specials;
      SpecialSlotsSize(specials - {s});
      assert SpecialSlots(specials) == SpecialSlots(specials - {s}) + {ForSpecial(s)};
    }
  }

  lemma {:induction false} SlotsOfSpecials(specials: seq<Special>)
    ensures SlotsOf(SpecialWrites(specials)) == SpecialSlots(Elements(specials))
  {
    if specials != [] {
      var init, last := specials[..|specials| - 1], specials[|specials| - 1];
      SlotsOfSpecials(init);
      InitAndLast(specials);
      SlotsAppended(SpecialWrites(init), [Write(ForSpecial(last), SpecialTitle(last))]);
      assert Elements(specials) == Elements(init) + {last};
    }
  }

  lemma {:induction false} SlotsOfApps(b: Business, services: seq<string>)
    ensures SlotsOf(AppWrites(b, services)) == AppSlots(Elements(SlugsOf(services)))
  {
    if services != [] {
      var init, last := services[..|services| - 1], services[|services| - 1];
      SlotsOfApps(b, init);
      SlotsAppended(AppWrites(b, init), [AppWrite(b, last)]);
      assert Elements(SlugsOf(services)) == Elements(SlugsOf(init)) + {Slug(last)};
    }
  }

  lemma {:induction false} ElementsAppended<T>(a: seq<T>, b: seq<T>)
    ensures Elements(a + b) == Elements(a) + Elements(b)
  {
  }

  lemma {:induction false} SlotsJoined(a: set<string>, b: set<string>, c: set<string>, d: set<string>)
    ensures BusinessSlots(a + b) + AppSlots(c + d) ==
            BusinessSlots(a) + AppSlots(c) + BusinessSlots(b) + AppSlots(d)
    ensures forall s :: BusinessSlots({s}) == {ForBusiness(s)}
  {
  }

  lemma {:induction false} SlotsOfRegistry(registry: Registry)
    ensures SlotsOf(RegistryWrites(registry)) ==
            BusinessSlots(Elements(BusinessSlugs(registry))) + AppSlots(Elements(ServiceSlugs(registry)))
  {
    if registry != [] {
      var init, b := registry[..|registry| - 1], registry[|registry| - 1];
      SlotsOfRegistry(init);
      SlotsOfApps(b, b.services);
      SlotsAppended(RegistryWrites(init) + [BusinessWrite(b)], AppWrites(b, b.services));
      SlotsAppended(RegistryWrites(init), [BusinessWrite(b)]);
      assert SlotsOf([BusinessWrite(b)]) == {ForBusiness(Slug(b.id))};
      ElementsAppended(BusinessSlugs(init), [Slug(b.id)]);
      assert Elements([Slug(b.id)]) == {Slug(b.id)};
      ElementsAppended(ServiceSlugs(init), SlugsOf(b.services));
      SlotsJoined(Elements(BusinessSlugs(init)), {Slug(b.id)},
                  Elements(ServiceSlugs(init)), Elements(SlugsOf(b.services)));
    }
  }

  lemma {:induction false} RankAt(k: nat)
    requires k < |SPECIALS|
    ensures Rank(SPECIALS[k]) == k
  {
  }

  lemma {:induction false} SpecialsCount()
    ensures |Elements(SPECIALS)| == 18
  {
    forall i, j | 0 <= i < j < |SPECIALS| ensures SPECIALS[i] != SPECIALS[j] {
      RankAt(i);
      RankAt(j);
    }
    RepeatsShrink(SPECIALS);
  }

  /** For every registry: eighteen files, one for every distinct business slug, and one for every
      distinct service slug. */
  lemma {:induction false} GeneratedCount(registry: Registry)
    ensures |Generated(registry)| ==
            18 + |Elements(BusinessSlugs(registry))| + |Elements(ServiceSlugs(registry))|
  {
    var ws := SpecialWrites(SPECIALS) + RegistryWrites(registry);
    var specials := SpecialSlots(Elements(SPECIALS));
    var businesses := BusinessSlots(Elements(BusinessSlugs(registry)));
    var apps := AppSlots(Elements(ServiceSlugs(registry)));
    PutAllKeys(ws);
    SlotsAppended(SpecialWrites(SPECIALS), RegistryWrites(registry));
    SlotsOfSpecials(SPECIALS);
    SlotsOfRegistry(registry);
    PathsSize(SlotsOf(ws));
    SpecialSlotsSize(Elements(SPECIALS));
    BusinessSlotsSize(Elements(BusinessSlugs(registry)));
    AppSlotsSize(Elements(ServiceSlugs(registry)));
    SpecialsCount();
    ThreeParts(SlotsOf(ws), specials, businesses, apps);
    assert |Generated(registry)| == |Generated(registry).Keys|;
  }

  lemma {:induction false} ThreeParts<T>(all: set<T>, a: set<T>, b: set<T>, c: set<T>)
    requires all == a + (b + c) && a !! b && a !! c && b !! c
    ensures |all| == |a| + |b| + |c|
  {
  }

  // ---- uids and repeats -------------------------------------------------------------------------

  predicate NoRepeats<T(==)>(s: seq<T>) {
    forall i, j | 0 <= i < j < |s| :: s[i] != s[j]
  }

  lemma {:induction false} RepeatsShrink<T>(s: seq<T>)
    ensures |Elements(s)| <= |s|
    ensures |Elements(s)| == |s| <==> NoRepeats(s)
  {
    if s != [] {
      var init, last := s[..|s| - 1], s[|s| - 1];
      RepeatsShrink(init);
      InitAndLast(s);
      if last in init {
        var i :| 0 <= i < |init| && init[i] == last;
        assert s[i] == s[|s| - 1];
        assert Elements(s) == Elements(init);
      } else {
        assert Elements(s) == Elements(init) + {last};
        assert NoRepeats(init) ==> NoRepeats(s);
      }
    }
  }

  /** A file holds the dashboard of the slot its path belongs to. */
  ghost predicate Filed(files: Files, p: Path) {
    p in files && exists slot :: p == PathOf(slot) && files[p].uid == UidOf(slot) && files[p].title != ""
  }

  lemma {:induction false} AllFiled(ws: seq<Write>, p: Path)
    requires forall w | w in ws :: w.title != ""
    requires p in PutAll(map[], ws)
    ensures Filed(PutAll(map[], ws), p)
  {
    var init, last := ws[..|ws| - 1], ws[|ws| - 1];
    InitAndLast(ws);
    if p == PathOf(last.slot) {
      assert last in ws;
      assert PutAll(map[], ws)[p] == Dashboard(UidOf(last.slot), last.title);
    } else {
      AllFiled(init, p);
      var slot :| p == PathOf(slot) && PutAll(map[], init)[p].uid == UidOf(slot);
      assert PutAll(map[], ws)[p] == PutAll(map[], init)[p];
    }
  }

  lemma {:induction false} SpecialTitled(specials: seq<Special>)
    ensures forall w | w in SpecialWrites(specials) :: w.title != ""
  {
    if specials != [] {
      SpecialTitled(specials[..|specials| - 1]);
    }
  }

  lemma {:induction false} AppsTitled(b: Business, services: seq<string>)
    ensures forall w | w in AppWrites(b, services) :: w.title != ""
  {
    if services != [] {
      AppsTitled(b, services[..|services| - 1]);
    }
  }

  lemma {:induction false} RegistryTitled(registry: Registry)
    ensures forall w | w in RegistryWrites(registry) :: w.title != ""
  {
    if registry != [] {
      RegistryTitled(registry[..|registry| - 1]);
      AppsTitled(registry[|registry| - 1], registry[|registry| - 1].services);
    }
  }

  /** Whatever the registry, no two files have the same uid, and none lacks uid or title. */
  lemma {:induction false} GeneratedUidsAreDistinct(registry: Registry, p: Path, q: Path)
    requires p in Generated(registry) && q in Generated(registry)
    ensures Generated(registry)[p].uid != "" && Generated(registry)[p].title != ""
    ensures p != q ==> Generated(registry)[p].uid != Generated(registry)[q].uid
  {
    var files := Generated(registry);
    var ws := SpecialWrites(SPECIALS) + RegistryWrites(registry);
    SpecialTitled(SPECIALS);
    RegistryTitled(registry);
    AllFiled(ws, p);
    AllFiled(ws, q);
    var s :| p == PathOf(s) && files[p].uid == UidOf(s) && files[p].title != "";
    var t :| q == PathOf(t) && files[q].uid == UidOf(t) && files[q].title != "";
    UidStarts(s);
    if files[p].uid == files[q].uid {
      UidsDiffer(s, t);
    }
  }

  // ---- every business and service has its dashboard ---------------------------------------------

  ghost predicate WrittenAt(files: Files, ws: seq<Write>, slot: Slot) {
    && PathOf(slot) in files
    && exists w :: w in ws && w.slot == slot && files[PathOf(slot)] == Dashboard(UidOf(slot), w.title)
  }

  lemma {:induction false} SlotIsWritten(ws: seq<Write>, slot: Slot)
    requires slot in SlotsOf(ws)
    ensures WrittenAt(PutAll(map[], ws), ws, slot)
  {
    var init, last := ws[..|ws| - 1], ws[|ws| - 1];
    InitAndLast(ws);
    if slot == last.slot {
      assert last in ws;
    } else {
      SlotIsWritten(init, slot);
      if PathOf(slot) == PathOf(last.slot) {
        PathsDiffer(slot, last.slot);
      }
    }
  }

  ghost predicate OfBusiness(slug: string, title: string, b: Business) {
    slug == Slug(b.id) && title == b.displayName + " \U{2014} Business Health"
  }

  ghost predicate OfService(slug: string, title: string, b: Business, service: string) {
    service in b.services && slug == Slug(service) && title == b.displayName + " \U{2014} " + service
  }

  /** The write is one of the registry's, by the names there. */
  ghost predicate FromRegistry(w: Write, registry: Registry) {
    match w.slot
    case ForSpecial(_) => false
    case ForBusiness(slug) => exists b | b in registry :: OfBusiness(slug, w.title, b)
    case ForApp(slug) => exists b, s | b in registry :: OfService(slug, w.title, b, s)
  }

  lemma {:induction false} AppWritesFrom(b: Business, services: seq<string>, w: Write)
    requires w in AppWrites(b, services)
    ensures exists s | s in services :: w == AppWrite(b, s)
  {
    InitAndLast(services);
    if w != AppWrite(b, services[|services| - 1]) {
      AppWritesFrom(b, services[..|services| - 1], w);
    }
  }

  lemma {:induction false} WriteIsFrom(b: Business, registry: Registry, w: Write)
    requires b in registry && (w == BusinessWrite(b) || w in AppWrites(b, b.services))
    ensures FromRegistry(w, registry)
  {
    if w == BusinessWrite(b) {
      assert b.displayName + SEPARATOR + HEALTH_NAME == b.displayName + " \U{2014} Business Health";
      assert OfBusiness(Slug(b.id), w.title, b);
    } else {
      AppWritesFrom(b, b.services, w);
      var s :| s in b.services && w == AppWrite(b, s);
      assert OfService(Slug(s), w.title, b, s);
    }
  }

  lemma {:induction false} WritesAreFromRegistry(registry: Registry, w: Write)
    requires w in RegistryWrites(registry)
    ensures FromRegistry(w, registry)
  {
    var init, b := registry[..|registry| - 1], registry[|registry| - 1];
    if w in RegistryWrites(init) {
      WritesAreFromRegistry(init, w);
      assert forall c | c in init :: c in registry;
    } else {
      WriteIsFrom(b, registry, w);
    }
  }

  lemma {:induction false} SpecialsWriteSpecials(specials: seq<Special>, w: Write)
    requires w in SpecialWrites(specials)
    ensures w.slot.ForSpecial?
  {
    if w in SpecialWrites(specials[..|specials| - 1]) {
      SpecialsWriteSpecials(specials[..|specials| - 1], w);
    }
  }

  lemma {:induction false} SlotIsFiled(registry: Registry, slot: Slot) returns (w: Write)
    requires slot in SlotsOf(RegistryWrites(registry)) && !slot.ForSpecial?
    ensures w.slot == slot && FromRegistry(w, registry)
    ensures PathOf(slot) in Generated(registry)
    ensures Generated(registry)[PathOf(slot)] == Dashboard(UidOf(slot), w.title)
  {
    var ws := SpecialWrites(SPECIALS) + RegistryWrites(registry);
    SlotsAppended(SpecialWrites(SPECIALS), RegistryWrites(registry));
    SlotIsWritten(ws, slot);
    w :| w in ws && w.slot == slot && Generated(registry)[PathOf(slot)] == Dashboard(UidOf(slot), w.title);
    if w in SpecialWrites(SPECIALS) {
      SpecialsWriteSpecials(SPECIALS, w);
    } else {
      WritesAreFromRegistry(registry, w);
    }
  }

  lemma {:induction false} SlugsListed(registry: Registry, b: Business)
    requires b in registry
    ensures Slug(b.id) in BusinessSlugs(registry)
    ensures forall s | s in b.services :: Slug(s) in ServiceSlugs(registry)
  {
    var last := registry[|registry| - 1];
    InitAndLast(registry);
    if b == last {
      ServiceSlugsListed(b.services);
    } else {
      SlugsListed(registry[..|registry| - 1], b);
    }
  }

  lemma {:induction false} ServiceSlugsListed(services: seq<string>)
    ensures forall s | s in services :: Slug(s) in SlugsOf(services)
  {
    if services != [] {
      InitAndLast(services);
      ServiceSlugsListed(services[..|services| - 1]);
    }
  }

  /** Every business has its file, with the uid of its slug and the title of a business of that slug. */
  lemma {:induction false} EveryBusinessIsFiled(registry: Registry, b: Business) returns (c: Business)
    requires b in registry
    ensures c in registry && Slug(c.id) == Slug(b.id)
    ensures var p := Path("business", "business-" + Slug(b.id) + ".json");
            && p in Generated(registry)
            && Generated(registry)[p] ==
               Dashboard("biz-" + Slug(b.id), c.displayName + " \U{2014} Business Health")
  {
    SlugsListed(registry, b);
    SlotsOfRegistry(registry);
    var w := SlotIsFiled(registry, ForBusiness(Slug(b.id)));
    c :| c in registry && OfBusiness(Slug(b.id), w.title, c);
  }

  /** And so has every service, with the title of a service of that slug and its business. */
  lemma {:induction false} EveryServiceIsFiled(registry: Registry, b: Business, service: string)
    returns (c: Business, s: string)
    requires b in registry && service in b.services
    ensures c in registry && s in c.services && Slug(s) == Slug(service)
    ensures var p := Path("business", "app-" + Slug(service) + ".json");
            && p in Generated(registry)
            && Generated(registry)[p] ==
               Dashboard("app-" + Slug(service), c.displayName + " \U{2014} " + s)
  {
    SlugsListed(registry, b);
    SlotsOfRegistry(registry);
    var w := SlotIsFiled(registry, ForApp(Slug(service)));
    c, s :| c in registry && OfService(Slug(service), w.title, c, s);
  }
}
