/** The validator's checks of the generated dashboards
    (scripts/validate_codestra_observability.py): their number, uids and titles, and that those titled
    "business health" are exactly the managed businesses' own. */
module PortfolioValidator {
  import opened Common
  import opened Text
  import opened DashboardPortfolio

  function CountServices(registry: Registry): nat {
    if registry == [] then 0
    else CountServices(registry[..|registry| - 1]) + |registry[|registry| - 1].services|
  }

  function Expected(registry: Registry): nat {
    2 + 16 + |registry| + CountServices(registry)
  }

  lemma {:induction false} SlugsOfLength(services: seq<string>)
    ensures |SlugsOf(services)| == |services|
  {
    if services != [] {
      SlugsOfLength(services[..|services| - 1]);
    }
  }

  lemma {:induction false} SlugLengths(registry: Registry)
    ensures |BusinessSlugs(registry)| == |registry|
    ensures |ServiceSlugs(registry)| == CountServices(registry)
  {
    if registry != [] {
      SlugLengths(registry[..|registry| - 1]);
      SlugsOfLength(registry[|registry| - 1].services);
    }
  }

  /** The exact count check passes exactly when no two businesses and no two services have the same
      slug. */
  lemma {:induction false} CountPassesIff(registry: Registry)
    ensures |Generated(registry)| == Expected(registry) <==>
              NoRepeats(BusinessSlugs(registry)) && NoRepeats(ServiceSlugs(registry))
  {
    GeneratedCount(registry);
    SlugLengths(registry);
    RepeatsShrink(BusinessSlugs(registry));
    RepeatsShrink(ServiceSlugs(registry));
  }

  /** What the loop of validate_generated_dashboards asks of uids and titles. */
  predicate TellsApart(docs: seq<Dashboard>) {
    && (forall k | 0 <= k < |docs| :: docs[k].uid != "" && docs[k].title != "")
    && (forall j, k | 0 <= j < k < |docs| :: docs[j].uid != docs[k].uid && docs[j].title != docs[k].title)
  }

  const REQUIRED_BUSINESSES: set<string> := {
    "codestra", "moneybee", "beyvra", "breero", "larim-a", "transportation", "booked4seasons", "social",
    "klyrow", "telnexa", "kyqra", "restaurant", "provisioning"}

  /** The eighteen titles of REQUIRED_TITLES are those of the dashboards generated for every registry. */
  function RequiredTitles(): set<string> {
    set s | s in SPECIALS :: SpecialTitle(s)
  }

  /** re.sub(r"[^a-z0-9-]+", "-", item).strip("-"), without the lower case and the cut of a slug. */
  function Cleaned(item: string): string {
    StripEnd(StripStart(Dashed(item, false)))
  }

  function AllCleaned(items: set<string>): set<string> {
    set b | b in items :: Cleaned(b)
  }

  function RequiredHealth(): set<string> {
    AllCleaned(REQUIRED_BUSINESSES)
  }

  const HEALTH := "business health"

  predicate IsHealth(title: string) {
    Includes(Lower(title), HEALTH)
  }

  /** uid.removeprefix("biz-") */
  function WithoutPrefix(uid: string): string {
    if StartsWith(uid, "biz-") then uid[4..] else uid
  }

  /** business_dashboards */
  function HealthSlugs(docs: seq<Dashboard>): set<string> {
    set d | d in docs && IsHealth(d.title) :: WithoutPrefix(d.uid)
  }

  /** The count, uid, title and business-health checks. */
  predicate Accepts(registry: Registry, docs: seq<Dashboard>) {
    && |docs| == Expected(registry) && TellsApart(docs)
    && RequiredTitles() <= Titles(docs) && HealthSlugs(docs) == RequiredHealth()
  }

  /** These checks over the files in the order they are read. */
  method ValidateGenerated(registry: Registry, docs: seq<Dashboard>) returns (ok: bool)
    ensures ok <==> Accepts(registry, docs)
  {
    if |docs| != Expected(registry) {
      return false;
    }
    var titles, businessDashboards;
    ok, titles, businessDashboards := ReadDashboards(docs);
    if ok {
      ok := RequiredTitles() <= titles && businessDashboards == RequiredHealth();
    }
  }

  /** The loop, which fails on the first document without a uid or title of its own. */
  method ReadDashboards(docs: seq<Dashboard>)
    returns (ok: bool, titles: set<string>, businessDashboards: set<string>)
    ensures ok <==> TellsApart(docs)
    ensures ok ==> titles == Titles(docs) && businessDashboards == HealthSlugs(docs)
  {
    var uids: set<string> := {};
    titles, businessDashboards := {}, {};
    for k := 0 to |docs|
      invariant Collected(docs[..k], uids, titles, businessDashboards)
    {
      var d := docs[k];
      CollectedNext(docs, k, uids, titles, businessDashboards);
      if d.uid == "" || d.uid in uids {
        return false, titles, businessDashboards;
      }
      if d.title == "" || d.title in titles {
        return false, titles, businessDashboards;
      }
      uids := uids + {d.uid};
      titles := titles + {d.title};
      if IsHealth(d.title) {
        businessDashboards := businessDashboards + {WithoutPrefix(d.uid)};
      }
    }
    assert docs[..|docs|] == docs;
    return true, titles, businessDashboards;
  }

  /** What the loop has gathered from the documents read, all of which it could tell apart. */
  predicate Collected(docs: seq<Dashboard>, uids: set<string>, titles: set<string>, health: set<string>) {
    uids == Uids(docs) && titles == Titles(docs) && health == HealthSlugs(docs) && TellsApart(docs)
  }

  lemma {:induction false} CollectedNext(
    docs: seq<Dashboard>, k: nat, uids: set<string>, titles: set<string>, health: set<string>)
    requires k < |docs| && Collected(docs[..k], uids, titles, health)
    ensures var d := docs[k];
            if d.uid == "" || d.uid in uids || d.title == "" || d.title in titles then !TellsApart(docs)
            else Collected(docs[..k + 1], uids + {d.uid}, titles + {d.title},
                           health + if IsHealth(d.title) then {WithoutPrefix(d.uid)} else {})
  {
    assert docs[..k + 1] == docs[..k] + [docs[k]];
    OneMoreDocument(docs[..k], docs[k]);
    OneMoreHealth(docs[..k], docs[k]);
    PrefixTellsApart(docs, k + 1);
  }

  lemma {:induction false} OneMoreHealth(docs: seq<Dashboard>, d: Dashboard)
    ensures HealthSlugs(docs + [d]) ==
            HealthSlugs(docs) + if IsHealth(d.title) then {WithoutPrefix(d.uid)} else {}
  {
    assert forall x :: x in docs + [d] <==> x in docs || x == d;
  }

  function Uids(docs: seq<Dashboard>): set<string> {
    set d | d in docs :: d.uid
  }

  function Titles(docs: seq<Dashboard>): set<string> {
    set d | d in docs :: d.title
  }

  lemma {:induction false} OneMoreDocument(docs: seq<Dashboard>, d: Dashboard)
    requires TellsApart(docs)
    ensures Uids(docs + [d]) == Uids(docs) + {d.uid} && Titles(docs + [d]) == Titles(docs) + {d.title}
    ensures TellsApart(docs + [d]) <==>
              d.uid != "" && d.title != "" && d.uid !in Uids(docs) && d.title !in Titles(docs)
  {
    var more := docs + [d];
    assert forall k | 0 <= k < |docs| :: more[k] == docs[k];
    assert more[|docs|] == d;
    assert forall x :: x in more <==> x in docs || x == d;
    if x :| x in docs && (x.uid == d.uid || x.title == d.title) {
      var k :| 0 <= k < |docs| && docs[k] == x;
      assert more[k] == x;
    }
  }

  lemma {:induction false} PrefixTellsApart(docs: seq<Dashboard>, k: nat)
    requires k <= |docs|
    ensures TellsApart(docs) ==> TellsApart(docs[..k])
  {
  }

  function DocsAt(files: Files, order: seq<Path>): seq<Dashboard>
    requires forall p | p in order :: p in files
  {
    seq(|order|, k requires 0 <= k < |order| => files[order[k]])
  }

  /** In whatever order the files are read, the validator accepts a generated portfolio as far as these
      checks go exactly when: the slugs of businesses and those of services do not repeat, nor do the
      titles the registry's names give, and none of these is the incident dashboard's; the slugs of
      businesses are the required ones; and no business with services, and no service, has "business
      health" in its name. */
  lemma {:induction false} AcceptedIff(registry: Registry, order: seq<Path>)
    requires NoRepeats(order) && Elements(order) == Generated(registry).Keys
    ensures forall p :: p in order <==> p in Generated(registry)
    ensures Accepts(registry, DocsAt(Generated(registry), order)) <==>
              && NoRepeats(BusinessSlugs(registry)) && NoRepeats(ServiceSlugs(registry))
              && NoRepeats(RegistryTitles(registry))
              && SpecialTitle(IncidentTriage) !in RegistryTitles(registry)
              && Elements(BusinessSlugs(registry)) == REQUIRED_BUSINESSES
              && AppsAreQuiet(registry)
  {
    TellsApartIff(registry, order);
    if NoRepeats(BusinessSlugs(registry)) && NoRepeats(ServiceSlugs(registry)) {
      HealthAcceptedIff(registry, order);
    }
  }

  /** The count, uid and title checks alone. */
  lemma {:induction false} TellsApartIff(registry: Registry, order: seq<Path>)
    requires NoRepeats(order) && Elements(order) == Generated(registry).Keys
    ensures forall p :: p in order <==> p in Generated(registry)
    ensures var docs := DocsAt(Generated(registry), order);
            |docs| == Expected(registry) && TellsApart(docs) <==>
              && NoRepeats(BusinessSlugs(registry)) && NoRepeats(ServiceSlugs(registry))
              && NoRepeats(RegistryTitles(registry))
              && SpecialTitle(IncidentTriage) !in RegistryTitles(registry)
  {
    var files := Generated(registry);
    assert forall p :: p in order <==> p in Elements(order);
    RepeatsShrink(order);
    CountPassesIff(registry);
    ToldApartByTitles(registry, order);
    TitlesInOrder(files, order);
    if NoRepeats(BusinessSlugs(registry)) && NoRepeats(ServiceSlugs(registry)) {
      TitlesDifferIff(registry);
    }
  }

  // ---- titles -----------------------------------------------------------------------------------

  function AppTitles(displayName: string, services: seq<string>): seq<string> {
    if services == [] then []
    else AppTitles(displayName, services[..|services| - 1])
         + [displayName + SEPARATOR + services[|services| - 1]]
  }

  /** The titles the names of a registry give. */
  function RegistryTitles(registry: Registry): seq<string> {
    if registry == [] then []
    else
      var b := registry[|registry| - 1];
      RegistryTitles(registry[..|registry| - 1]) + [b.displayName + SEPARATOR + HEALTH_NAME]
      + AppTitles(b.displayName, b.services)
  }

  /** A service of that name gets its business's own title, so such a registry is not accepted. */
  lemma {:induction false} BusinessHealthServiceClashes(registry: Registry, k: nat)
    requires k < |registry| && HEALTH_NAME in registry[k].services
    ensures !NoRepeats(RegistryTitles(registry))
  {
    var init, b := registry[..|registry| - 1], registry[|registry| - 1];
    var own, apps := [b.displayName + SEPARATOR + HEALTH_NAME], AppTitles(b.displayName, b.services);
    NoRepeatsAppended(RegistryTitles(init) + own, apps);
    NoRepeatsAppended(RegistryTitles(init), own);
    if k < |registry| - 1 {
      BusinessHealthServiceClashes(init, k);
    } else {
      AppTitleOf(b.displayName, b.services, HEALTH_NAME);
      assert own[0] in RegistryTitles(init) + own;
    }
  }

  lemma {:induction false} AppTitleOf(displayName: string, services: seq<string>, service: string)
    requires service in services
    ensures displayName + SEPARATOR + service in AppTitles(displayName, services)
  {
    if service != services[|services| - 1] {
      InitAndLast(services);
      AppTitleOf(displayName, services[..|services| - 1], service);
    }
  }

  lemma {:induction false} NoRepeatsAppended<T>(a: seq<T>, b: seq<T>)
    ensures NoRepeats(a + b) <==>
              NoRepeats(a) && NoRepeats(b) && forall x | x in a :: x !in b
  {
    RepeatsShrink(a);
    RepeatsShrink(b);
    RepeatsShrink(a + b);
    ElementsAppended(a, b);
    var common := Elements(a) * Elements(b);
    assert |Elements(a) + Elements(b)| + |common| == |Elements(a)| + |Elements(b)|;
    assert common == {} <==> forall x | x in a :: x !in b by {
      if x :| x in a && x in b {
        assert x in common;
      }
    }
  }

  function TitlesOf(ws: seq<Write>): seq<string> {
    seq(|ws|, k requires 0 <= k < |ws| => ws[k].title)
  }

  function SlotSeq(ws: seq<Write>): seq<Slot> {
    seq(|ws|, k requires 0 <= k < |ws| => ws[k].slot)
  }

  lemma {:induction false} TitlesOfAppended(a: seq<Write>, b: seq<Write>)
    ensures TitlesOf(a + b) == TitlesOf(a) + TitlesOf(b)
  {
  }

  lemma {:induction false} TitlesOfApps(b: Business, services: seq<string>)
    ensures TitlesOf(AppWrites(b, services)) == AppTitles(b.displayName, services)
  {
    if services != [] {
      var init, last := services[..|services| - 1], services[|services| - 1];
      TitlesOfApps(b, init);
      TitlesOfAppended(AppWrites(b, init), [AppWrite(b, last)]);
      assert TitlesOf([AppWrite(b, last)]) == [b.displayName + SEPARATOR + last];
    }
  }

  lemma {:induction false} TitlesOfRegistry(registry: Registry)
    ensures TitlesOf(RegistryWrites(registry)) == RegistryTitles(registry)
  {
    if registry != [] {
      var init, b := registry[..|registry| - 1], registry[|registry| - 1];
      TitlesOfRegistry(init);
      TitlesOfApps(b, b.services);
      TitlesOfAppended(RegistryWrites(init) + [BusinessWrite(b)], AppWrites(b, b.services));
      TitlesOfAppended(RegistryWrites(init), [BusinessWrite(b)]);
      assert TitlesOf([BusinessWrite(b)]) == [b.displayName + SEPARATOR + HEALTH_NAME];
    }
  }

  /** The length and the first character of a title, where it has no dash. */
  function TitleFingerprint(s: Special): int {
    match s
    case IncidentTriage => 0
    case ExecutivePlatform => 25069
    case Infrastructure => 21073
    case Middleware => 23077
    case Kong => 16075
    case Keycloak => 23075
    case Odoo => 27079
    case N8n => 19110
    case Vicidial => 20086
    case Postgres => 17080
    case Redis => 12082
    case Caddy => 10067
    case Deployment => 22068
    case SecurityEvents => 15083
    case ErrorBudget => 20083
    case Environment => 18069
    case Server => 27083
    case Operations => 24079
  }

  lemma {:induction false} TitleFingerprint1(s: Special)
    requires 1 <= Rank(s) < 10
    ensures |SpecialTitle(s)| > 0
    ensures |SpecialTitle(s)| * 1000 + SpecialTitle(s)[0] as int == TitleFingerprint(s)
  {
  }

  lemma {:induction false} TitleFingerprint2(s: Special)
    requires 10 <= Rank(s) < 18
    ensures |SpecialTitle(s)| > 0
    ensures |SpecialTitle(s)| * 1000 + SpecialTitle(s)[0] as int == TitleFingerprint(s)
  {
  }

  lemma {:induction false} TitlesTold(s: Special)
    requires s != IncidentTriage
    ensures Plain(SpecialTitle(s)) && |SpecialTitle(s)| > 0
    ensures |SpecialTitle(s)| * 1000 + SpecialTitle(s)[0] as int == TitleFingerprint(s)
  {
    if Rank(s) < 10 {
      TitleFingerprint1(s);
    } else {
      TitleFingerprint2(s);
    }
    if Rank(s) < 7 {
      PlainTitles1(s);
    } else if Rank(s) < 13 {
      PlainTitles2(s);
    } else {
      PlainTitles3(s);
    }
  }

  lemma {:induction false} IncidentTitleIsNotPlain()
    ensures !Plain(SpecialTitle(IncidentTriage))
  {
    SeparatedIsNotPlain("Incident Triage", "What broke, where, who " + "is affected, what changed?");
  }

  lemma {:induction false} SpecialTitlesDiffer(s: Special, t: Special)
    requires SpecialTitle(s) == SpecialTitle(t)
    ensures s == t
  {
    IncidentTitleIsNotPlain();
    if s != IncidentTriage {
      TitlesTold(s);
    }
    if t != IncidentTriage {
      TitlesTold(t);
    }
  }

  predicate Plain(title: string) {
    forall k | 0 <= k < |title| :: title[k] != '\U{2014}'
  }

  lemma {:induction false} PlainTitles1(s: Special)
    requires 1 <= Rank(s) < 7
    ensures Plain(SpecialTitle(s))
  {
    match s
    case ExecutivePlatform => assert Plain("Executive Platform Health");
    case Infrastructure => assert Plain("Infrastructure Health");
    case Middleware => assert Plain("Middleware Transactions");
    case Kong => assert Plain("Kong API Gateway");
    case Keycloak => assert Plain("Keycloak Authentication");
    case Odoo => assert Plain("Odoo Health and Integration");
    case _ =>
  }

  lemma {:induction false} PlainTitles2(s: Special)
    requires 7 <= Rank(s) < 13
    ensures Plain(SpecialTitle(s))
  {
    match s
    case N8n => assert Plain("n8n Workflow Health");
    case Vicidial => assert Plain("VICIdial Call Center");
    case Postgres => assert Plain("PostgreSQL Health");
    case Redis => assert Plain("Redis Health");
    case Caddy => assert Plain("Caddy Edge");
    case Deployment => assert Plain("Deployment and Version");
    case _ =>
  }

  lemma {:induction false} PlainTitles3(s: Special)
    requires 13 <= Rank(s) < 18
    ensures Plain(SpecialTitle(s))
  {
    match s
    case SecurityEvents => assert Plain("Security Events");
    case ErrorBudget => assert Plain("SLO and Error Budget");
    case Environment => assert Plain("Environment Health");
    case Server => assert Plain("Server and Container Health");
    case Operations => assert Plain("Operations Dashboard API");
    case _ =>
  }

  lemma {:induction false} RegistryTitlesAreNotPlain(registry: Registry, title: string)
    requires title in RegistryTitles(registry)
    ensures !Plain(title)
  {
    var init, b := registry[..|registry| - 1], registry[|registry| - 1];
    if title in RegistryTitles(init) {
      RegistryTitlesAreNotPlain(init, title);
    } else if title in AppTitles(b.displayName, b.services) {
      AppTitlesAreNotPlain(b.displayName, b.services, title);
    } else {
      SeparatedIsNotPlain(b.displayName, HEALTH_NAME);
    }
  }

  lemma {:induction false} AppTitlesAreNotPlain(displayName: string, services: seq<string>, title: string)
    requires title in AppTitles(displayName, services)
    ensures !Plain(title)
  {
    var init, last := services[..|services| - 1], services[|services| - 1];
    if title in AppTitles(displayName, init) {
      AppTitlesAreNotPlain(displayName, init, title);
    } else {
      SeparatedIsNotPlain(displayName, last);
    }
  }

  lemma {:induction false} SeparatedIsNotPlain(a: string, b: string)
    ensures !Plain(a + SEPARATOR + b)
  {
    assert (a + SEPARATOR + b)[|a| + 1] == '\U{2014}';
  }

  /** Of the titles that do not come from the registry only the incident dashboard's can meet one
      that does. */
  lemma {:induction false} OnlyIncidentMeetsRegistry(registry: Registry, s: Special)
    requires SpecialTitle(s) in RegistryTitles(registry)
    ensures s == IncidentTriage
  {
    RegistryTitlesAreNotPlain(registry, SpecialTitle(s));
    if s != IncidentTriage {
      TitlesTold(s);
    }
  }

  lemma {:induction false} TitlesOfSpecials(specials: seq<Special>, title: string)
    ensures |TitlesOf(SpecialWrites(specials))| == |specials|
    ensures forall k | 0 <= k < |specials| ::
              TitlesOf(SpecialWrites(specials))[k] == SpecialTitle(specials[k])
    ensures title in TitlesOf(SpecialWrites(specials)) <==>
              exists s | s in specials :: title == SpecialTitle(s)
  {
    if specials != [] {
      var init, last := specials[..|specials| - 1], specials[|specials| - 1];
      TitlesOfSpecials(init, title);
      InitAndLast(specials);
      var w := Write(ForSpecial(last), SpecialTitle(last));
      TitlesOfAppended(SpecialWrites(init), [w]);
      assert TitlesOf([w]) == [SpecialTitle(last)];
    }
  }

  lemma {:induction false} SpecialTitlesDoNotRepeat()
    ensures NoRepeats(TitlesOf(SpecialWrites(SPECIALS)))
  {
    var titles := TitlesOf(SpecialWrites(SPECIALS));
    TitlesOfSpecials(SPECIALS, "");
    forall i, j | 0 <= i < j < |titles| ensures titles[i] != titles[j] {
      RankAt(i);
      RankAt(j);
      if titles[i] == titles[j] {
        SpecialTitlesDiffer(SPECIALS[i], SPECIALS[j]);
      }
    }
  }

  lemma {:induction false} WritesLength(registry: Registry)
    ensures |RegistryWrites(registry)| == |registry| + CountServices(registry)
  {
    if registry != [] {
      WritesLength(registry[..|registry| - 1]);
      AppWritesLength(registry[|registry| - 1], registry[|registry| - 1].services);
    }
  }

  lemma {:induction false} AppWritesLength(b: Business, services: seq<string>)
    ensures |AppWrites(b, services)| == |services|
  {
    if services != [] {
      AppWritesLength(b, services[..|services| - 1]);
    }
  }

  lemma {:induction false} ElementsOfSlotSeq(ws: seq<Write>)
    ensures Elements(SlotSeq(ws)) == SlotsOf(ws)
  {
    forall x ensures x in SlotSeq(ws) <==> x in SlotsOf(ws) {
      if x in SlotsOf(ws) {
        var k :| 0 <= k < |ws| && ws[k].slot == x;
        assert SlotSeq(ws)[k] == x;
      }
    }
  }

  /** Without colliding slugs no path is written twice. */
  lemma {:induction false} SlotsDoNotRepeat(registry: Registry)
    requires NoRepeats(BusinessSlugs(registry)) && NoRepeats(ServiceSlugs(registry))
    ensures NoRepeats(SlotSeq(SpecialWrites(SPECIALS) + RegistryWrites(registry)))
  {
    var ws := SpecialWrites(SPECIALS) + RegistryWrites(registry);
    CountPassesIff(registry);
    PutAllKeys(ws);
    PathsSize(SlotsOf(ws));
    WritesLength(registry);
    TitlesOfSpecials(SPECIALS, "");
    ElementsOfSlotSeq(ws);
    assert |Generated(registry)| == |Generated(registry).Keys|;
    RepeatsShrink(SlotSeq(ws));
  }

  function DashboardOf(w: Write): Dashboard {
    Dashboard(UidOf(w.slot), w.title)
  }

  /** Then every file holds what its one write put there. */
  lemma {:induction false} WrittenOnce(ws: seq<Write>, k: nat)
    requires NoRepeats(SlotSeq(ws)) && k < |ws|
    ensures PathOf(ws[k].slot) in PutAll(map[], ws)
    ensures PutAll(map[], ws)[PathOf(ws[k].slot)] == DashboardOf(ws[k])
  {
    if k < |ws| - 1 {
      var init := ws[..|ws| - 1];
      assert SlotSeq(init) == SlotSeq(ws)[..|ws| - 1];
      WrittenOnce(init, k);
      DifferentFiles(ws, k, |ws| - 1);
    }
  }

  lemma {:induction false} WriteOf(ws: seq<Write>, p: Path) returns (k: nat)
    requires p in PutAll(map[], ws)
    ensures k < |ws| && PathOf(ws[k].slot) == p
  {
    if p == PathOf(ws[|ws| - 1].slot) {
      k := |ws| - 1;
    } else {
      k := WriteOf(ws[..|ws| - 1], p);
    }
  }

  lemma {:induction false} DifferentFiles(ws: seq<Write>, i: nat, j: nat)
    requires NoRepeats(SlotSeq(ws)) && i < |ws| && j < |ws| && i != j
    ensures PathOf(ws[i].slot) != PathOf(ws[j].slot)
  {
    assert SlotSeq(ws)[i] != SlotSeq(ws)[j];
    if PathOf(ws[i].slot) == PathOf(ws[j].slot) {
      PathsDiffer(ws[i].slot, ws[j].slot);
    }
  }

  lemma {:induction false} FilesDifferThenWrites(ws: seq<Write>)
    requires NoRepeats(SlotSeq(ws)) && TitlesDiffer(PutAll(map[], ws))
    ensures NoRepeats(TitlesOf(ws))
  {
    forall i, j | 0 <= i < j < |ws| ensures TitlesOf(ws)[i] != TitlesOf(ws)[j] {
      WrittenOnce(ws, i);
      WrittenOnce(ws, j);
      DifferentFiles(ws, i, j);
    }
  }

  lemma {:induction false} TitlesAt(ws: seq<Write>, i: nat, j: nat)
    requires NoRepeats(TitlesOf(ws)) && i < |ws| && j < |ws| && i != j
    ensures ws[i].title != ws[j].title
  {
    assert TitlesOf(ws)[i] != TitlesOf(ws)[j];
  }

  lemma {:induction false} WritesDifferThenFiles(ws: seq<Write>)
    requires NoRepeats(SlotSeq(ws)) && NoRepeats(TitlesOf(ws))
    ensures TitlesDiffer(PutAll(map[], ws))
  {
    var files := PutAll(map[], ws);
    forall p, q | p in files && q in files && p != q ensures files[p].title != files[q].title {
      var i := WriteOf(ws, p);
      var j := WriteOf(ws, q);
      WrittenOnce(ws, i);
      WrittenOnce(ws, j);
      TitlesAt(ws, i, j);
    }
  }

  lemma {:induction false} TitlesDifferAsWritten(ws: seq<Write>)
    requires NoRepeats(SlotSeq(ws))
    ensures TitlesDiffer(PutAll(map[], ws)) <==> NoRepeats(TitlesOf(ws))
  {
    if TitlesDiffer(PutAll(map[], ws)) {
      FilesDifferThenWrites(ws);
    }
    if NoRepeats(TitlesOf(ws)) {
      WritesDifferThenFiles(ws);
    }
  }

  lemma {:induction false} TitlesDifferIff(registry: Registry)
    requires NoRepeats(BusinessSlugs(registry)) && NoRepeats(ServiceSlugs(registry))
    ensures TitlesDiffer(Generated(registry)) <==>
              NoRepeats(RegistryTitles(registry))
              && SpecialTitle(IncidentTriage) !in RegistryTitles(registry)
  {
    var specials, rest := SpecialWrites(SPECIALS), RegistryWrites(registry);
    SlotsDoNotRepeat(registry);
    TitlesDifferAsWritten(specials + rest);
    TitlesOfAppended(specials, rest);
    TitlesOfRegistry(registry);
    NoRepeatsAppended(TitlesOf(specials), RegistryTitles(registry));
    SpecialTitlesDoNotRepeat();
    SpecialsMeetRegistryIff(registry);
  }

  lemma {:induction false} SpecialsMeetRegistryIff(registry: Registry)
    ensures (exists t | t in TitlesOf(SpecialWrites(SPECIALS)) :: t in RegistryTitles(registry)) <==>
              SpecialTitle(IncidentTriage) in RegistryTitles(registry)
  {
    forall t ensures t in TitlesOf(SpecialWrites(SPECIALS)) <==> exists s | s in SPECIALS :: t == SpecialTitle(s) {
      TitlesOfSpecials(SPECIALS, t);
    }
    if t :| t in TitlesOf(SpecialWrites(SPECIALS)) && t in RegistryTitles(registry) {
      var s :| s in SPECIALS && t == SpecialTitle(s);
      OnlyIncidentMeetsRegistry(registry, s);
    }
    assert SPECIALS[0] == IncidentTriage;
  }

  predicate TitlesDiffer(files: Files) {
    forall p, q | p in files && q in files && p != q :: files[p].title != files[q].title
  }

  predicate TitlesDifferAlong(files: Files, order: seq<Path>)
    requires forall p | p in order :: p in files
  {
    forall j, k | 0 <= j < k < |order| :: files[order[j]].title != files[order[k]].title
  }

  lemma {:induction false} ToldApartByTitles(registry: Registry, order: seq<Path>)
    requires NoRepeats(order) && forall p :: p in order <==> p in Generated(registry)
    ensures TellsApart(DocsAt(Generated(registry), order)) <==>
              TitlesDifferAlong(Generated(registry), order)
  {
    var files, docs := Generated(registry), DocsAt(Generated(registry), order);
    forall j, k | 0 <= j < |docs| && 0 <= k < |docs|
      ensures docs[j].uid != "" && docs[j].title != ""
      ensures j != k ==> docs[j].uid != docs[k].uid
    {
      GeneratedUidsAreDistinct(registry, order[j], order[k]);
    }
    assert forall j | 0 <= j < |docs| :: docs[j].title == files[order[j]].title;
  }

  lemma {:induction false} TitlesInOrder(files: Files, order: seq<Path>)
    requires NoRepeats(order) && forall p :: p in order <==> p in files
    ensures TitlesDifferAlong(files, order) <==> TitlesDiffer(files)
  {
    if TitlesDifferAlong(files, order) {
      forall p, q | p in files && q in files && p != q ensures files[p].title != files[q].title {
        assert p in order && q in order;
        var j :| 0 <= j < |order| && order[j] == p;
        var k :| 0 <= k < |order| && order[k] == q;
        assert j < k || k < j;
      }
    }
  }

  // ---- business health --------------------------------------------------------------------------

  /** No dashboard of a service of b is titled "business health". */
  predicate IsQuiet(b: Business) {
    b.services != [] ==> !IsHealth(b.displayName) && forall s | s in b.services :: !IsHealth(s)
  }

  predicate AppsAreQuiet(registry: Registry) {
    forall b | b in registry :: IsQuiet(b)
  }

  lemma {:induction false} LowerJoined(a: string, b: string)
    ensures Lower(a + b) == Lower(a) + Lower(b)
  {
    if a == "" {
      assert a + b == b;
    } else {
      assert (a + b)[1..] == a[1..] + b;
      LowerJoined(a[1..], b);
      Regrouped(LowerChar(a[0]), Lower(a[1..]), Lower(b));
    }
  }

  lemma {:induction false} LowerOne(c: char)
    ensures Lower([c]) == LowerChar(c)
  {
    assert [c][1..] == "";
    assert LowerChar(c) + "" == LowerChar(c);
  }

  const DASH := '\U{2014}'

  lemma {:induction false} LowerSeparated(a: string, b: string)
    ensures Lower(a + SEPARATOR + b) == (Lower(a) + [' ']) + [DASH] + ([' '] + Lower(b))
  {
    LowerJoined(a + SEPARATOR, b);
    LowerJoined(a, SEPARATOR);
    LowerJoined([' '] + [DASH], [' ']);
    LowerJoined([' '], [DASH]);
    LowerOne(' ');
    LowerOne(DASH);
    assert SEPARATOR == [' '] + [DASH] + [' '];
    RegroupedAround(Lower(a), [' '], [DASH], [' '], Lower(b));
    Regrouped(Lower(a) + [' '] + [DASH], [' '], Lower(b));
  }

  /** A title speaks of business health exactly when one of its two names does. */
  lemma {:induction false} TitleIsHealthIff(a: string, b: string)
    ensures IsHealth(a + SEPARATOR + b) <==> IsHealth(a) || IsHealth(b)
  {
    LowerSeparated(a, b);
    assert HEALTH[0] == 'b' && HEALTH[|HEALTH| - 1] == 'h' && DASH !in HEALTH;
    IncludesAcross(Lower(a) + [' '], DASH, [' '] + Lower(b), HEALTH);
    IncludesBefore(Lower(a), ' ', HEALTH);
    IncludesAfter(' ', Lower(b), HEALTH);
  }

  lemma {:induction false} LowerPointwise(s: string, t: string)
    requires |s| == |t| && forall k | 0 <= k < |s| :: LowerChar(s[k]) == [t[k]]
    ensures Lower(s) == t
  {
    if s != "" {
      LowerPointwise(s[1..], t[1..]);
      assert [t[0]] + t[1..] == t;
    }
  }

  lemma {:induction false} NameAt(k: nat)
    requires k < |HEALTH_NAME|
    ensures |HEALTH| == |HEALTH_NAME| && LowerChar(HEALTH_NAME[k]) == [HEALTH[k]]
  {
  }

  lemma {:induction false} NameLowered()
    ensures Lower(HEALTH_NAME) == HEALTH
  {
    forall k: nat | k < |HEALTH_NAME|
      ensures |HEALTH| == |HEALTH_NAME| && LowerChar(HEALTH_NAME[k]) == [HEALTH[k]]
    {
      NameAt(k);
    }
    LowerPointwise(HEALTH_NAME, HEALTH);
  }

  /** A name that ends like that speaks of business health. */
  lemma {:induction false} SuffixIsHealth(prefix: string)
    ensures IsHealth(prefix + HEALTH_NAME)
  {
    LowerJoined(prefix, HEALTH_NAME);
    NameLowered();
    IncludesSuffix(Lower(prefix), HEALTH);
  }

  lemma {:induction false} IncludesSuffix(a: string, word: string)
    ensures Includes(a + word, word)
  {
    assert OccursAt(a + word, word, |a|);
  }

  lemma {:induction false} NameIsHealth()
    ensures IsHealth(HEALTH_NAME)
  {
    SuffixIsHealth("");
    assert "" + HEALTH_NAME == HEALTH_NAME;
  }

  lemma {:induction false} OwnTitleIsHealth(displayName: string)
    ensures IsHealth(displayName + SEPARATOR + HEALTH_NAME)
  {
    TitleIsHealthIff(displayName, HEALTH_NAME);
    NameIsHealth();
  }

  function DashboardsOf(ws: seq<Write>): seq<Dashboard> {
    if ws == [] then [] else DashboardsOf(ws[..|ws| - 1]) + [DashboardOf(ws[|ws| - 1])]
  }

  lemma {:induction false} HealthAppended(ws: seq<Write>, w: Write)
    ensures HealthSlugs(DashboardsOf(ws + [w])) ==
            HealthSlugs(DashboardsOf(ws)) + if IsHealth(w.title) then {WithoutPrefix(UidOf(w.slot))} else {}
  {
    assert (ws + [w])[..|ws|] == ws;
    OneMoreHealth(DashboardsOf(ws), DashboardOf(w));
  }

  lemma {:induction false} HealthJoined(a: seq<Write>, b: seq<Write>)
    ensures HealthSlugs(DashboardsOf(a + b)) == HealthSlugs(DashboardsOf(a)) + HealthSlugs(DashboardsOf(b))
  {
    if b == [] {
      assert a + b == a;
    } else {
      var init, last := b[..|b| - 1], b[|b| - 1];
      HealthJoined(a, init);
      InitAndLast(b);
      Regrouped(a, init, [last]);
      HealthAppended(a + init, last);
      HealthAppended(init, last);
    }
  }

  /** The uids that dashboards of services would wrongly add. */
  function AppHealth(displayName: string, services: seq<string>): set<string> {
    if services == [] then {}
    else
      var init, last := services[..|services| - 1], services[|services| - 1];
      AppHealth(displayName, init)
      + if IsHealth(displayName + SEPARATOR + last) then {"app-" + Slug(last)} else {}
  }

  function RegistryAppHealth(registry: Registry): set<string> {
    if registry == [] then {}
    else
      RegistryAppHealth(registry[..|registry| - 1])
      + AppHealth(registry[|registry| - 1].displayName, registry[|registry| - 1].services)
  }

  lemma {:induction false} HealthOfApps(b: Business, services: seq<string>)
    ensures HealthSlugs(DashboardsOf(AppWrites(b, services))) == AppHealth(b.displayName, services)
  {
    if services != [] {
      var init, last := services[..|services| - 1], services[|services| - 1];
      HealthOfApps(b, init);
      HealthAppended(AppWrites(b, init), AppWrite(b, last));
      assert WithoutPrefix("app-" + Slug(last)) == "app-" + Slug(last) by {
        assert ("app-" + Slug(last))[0] == 'a';
        assert ("app-" + Slug(last))[0..4][0] == 'a' && "biz-"[0] == 'b';
      }
    }
  }

  lemma {:induction false} HealthOfBusiness(b: Business)
    ensures HealthSlugs(DashboardsOf([BusinessWrite(b)])) == {Slug(b.id)}
  {
    OwnTitleIsHealth(b.displayName);
    HealthAppended([], BusinessWrite(b));
    assert [] + [BusinessWrite(b)] == [BusinessWrite(b)];
    assert HealthSlugs(DashboardsOf([])) == {};
    assert ("biz-" + Slug(b.id))[0..4] == "biz-" && ("biz-" + Slug(b.id))[4..] == Slug(b.id);
  }

  lemma {:induction false} HealthOfRegistry(registry: Registry)
    ensures HealthSlugs(DashboardsOf(RegistryWrites(registry))) ==
            Elements(BusinessSlugs(registry)) + RegistryAppHealth(registry)
  {
    if registry == [] {
      assert HealthSlugs(DashboardsOf([])) == {};
    } else {
      var init, b := registry[..|registry| - 1], registry[|registry| - 1];
      HealthOfRegistry(init);
      HealthJoined(RegistryWrites(init) + [BusinessWrite(b)], AppWrites(b, b.services));
      HealthJoined(RegistryWrites(init), [BusinessWrite(b)]);
      HealthOfBusiness(b);
      HealthOfApps(b, b.services);
      ElementsAppended(BusinessSlugs(init), [Slug(b.id)]);
      assert Elements([Slug(b.id)]) == {Slug(b.id)};
    }
  }

  /** A letter of "business health" that the title of a dashboard generated for every registry lacks. */
  function Lacking(s: Special): char {
    match s
    case IncidentTriage => 'u'
    case Operations => 'u'
    case ErrorBudget => 'h'
    case _ => 'b'
  }

  predicate Lacks(title: string, c: char)
    requires 'a' <= c <= 'z'
  {
    forall k | 0 <= k < |title| :: title[k] != c && title[k] != c - 'a' + 'A'
  }

  lemma {:induction false} LacksInLower(title: string, c: char)
    requires c == 'b' || c == 'u' || c == 'h'
    requires Lacks(title, c)
    ensures c !in Lower(title)
  {
    if title != "" {
      LacksInLower(title[1..], c);
      assert c !in LowerChar(title[0]);
    }
  }

  lemma {:induction false} SpecialLacks1(s: Special)
    requires 1 <= Rank(s) < 6
    ensures Lacks(SpecialTitle(s), Lacking(s))
  {
    match s
    case ExecutivePlatform => assert Lacks("Executive Platform Health", 'b');
    case Infrastructure => assert Lacks("Infrastructure Health", 'b');
    case Middleware => assert Lacks("Middleware Transactions", 'b');
    case Kong => assert Lacks("Kong API Gateway", 'b');
    case Keycloak => assert Lacks("Keycloak Authentication", 'b');
    case _ =>
  }

  lemma {:induction false} SpecialLacks2(s: Special)
    requires 6 <= Rank(s) < 12
    ensures Lacks(SpecialTitle(s), Lacking(s))
  {
    match s
    case Odoo => assert Lacks("Odoo Health and Integration", 'b');
    case N8n => assert Lacks("n8n Workflow Health", 'b');
    case Vicidial => assert Lacks("VICIdial Call Center", 'b');
    case Postgres => assert Lacks("PostgreSQL Health", 'b');
    case Redis => assert Lacks("Redis Health", 'b');
    case Caddy => assert Lacks("Caddy Edge", 'b');
    case _ =>
  }

  lemma {:induction false} SpecialLacks3(s: Special)
    requires 12 <= Rank(s) < 18
    ensures Lacks(SpecialTitle(s), Lacking(s))
  {
    match s
    case Deployment => assert Lacks("Deployment and Version", 'b');
    case SecurityEvents => assert Lacks("Security Events", 'b');
    case ErrorBudget => assert Lacks("SLO and Error Budget", 'h');
    case Environment => assert Lacks("Environment Health", 'b');
    case Server => assert Lacks("Server and Container Health", 'b');
    case Operations => assert Lacks("Operations Dashboard API", 'u');
    case _ =>
  }

  lemma {:induction false} LacksJoined(a: string, b: string, c: char)
    requires 'a' <= c <= 'z' && Lacks(a, c) && Lacks(b, c)
    ensures Lacks(a + b, c)
  {
  }

  lemma {:induction false} IncidentLacks()
    ensures Lacks(SpecialTitle(IncidentTriage), 'u')
  {
    var question := "What broke, where, who " + "is affected, what changed?";
    assert Lacks("Incident Triage", 'u') && Lacks(SEPARATOR, 'u');
    assert Lacks("What broke, where, who ", 'u') && Lacks("is affected, what changed?", 'u');
    LacksJoined("What broke, where, who ", "is affected, what changed?", 'u');
    LacksJoined("Incident Triage", SEPARATOR, 'u');
    LacksJoined("Incident Triage" + SEPARATOR, question, 'u');
  }

  lemma {:induction false} SpecialIsQuiet(s: Special)
    ensures !IsHealth(SpecialTitle(s))
  {
    if Rank(s) == 0 {
      IncidentLacks();
    } else if Rank(s) < 6 {
      SpecialLacks1(s);
    } else if Rank(s) < 12 {
      SpecialLacks2(s);
    } else {
      SpecialLacks3(s);
    }
    LacksInLower(SpecialTitle(s), Lacking(s));
    HealthHas(Lacking(s));
    NotIncluded(Lower(SpecialTitle(s)), HEALTH, Lacking(s));
  }

  lemma {:induction false} HealthHas(c: char)
    requires c == 'b' || c == 'u' || c == 'h'
    ensures c in HEALTH
  {
    assert HEALTH[0] == 'b' && HEALTH[1] == 'u' && HEALTH[14] == 'h';
  }

  lemma {:induction false} NotIncluded(s: string, word: string, c: char)
    requires c in word && c !in s
    ensures !Includes(s, word)
  {
    var k :| 0 <= k < |word| && word[k] == c;
    if Includes(s, word) {
      OccursChar(s, word, IndexOf(s, word, 0), k);
    }
  }

  lemma {:induction false} HealthOfSpecials(specials: seq<Special>)
    ensures HealthSlugs(DashboardsOf(SpecialWrites(specials))) == {}
  {
    if specials == [] {
      assert HealthSlugs(DashboardsOf([])) == {};
    } else {
      var init, last := specials[..|specials| - 1], specials[|specials| - 1];
      HealthOfSpecials(init);
      SpecialIsQuiet(last);
      HealthAppended(SpecialWrites(init), Write(ForSpecial(last), SpecialTitle(last)));
    }
  }

  /** The files hold the dashboards that were written. */
  lemma {:induction false} DocsAreWritten(ws: seq<Write>, order: seq<Path>)
    requires NoRepeats(SlotSeq(ws)) && forall p :: p in order <==> p in PutAll(map[], ws)
    ensures forall d :: d in DocsAt(PutAll(map[], ws), order) <==> d in DashboardsOf(ws)
  {
    var files := PutAll(map[], ws);
    var docs := DocsAt(files, order);
    forall d ensures d in docs <==> d in DashboardsOf(ws) {
      if d in docs {
        var i :| 0 <= i < |docs| && docs[i] == d;
        var k := WriteOf(ws, order[i]);
        WrittenOnce(ws, k);
        DashboardIn(ws, k);
      }
      if d in DashboardsOf(ws) {
        var k := WriterOf(ws, d);
        WrittenOnce(ws, k);
        var i :| 0 <= i < |order| && order[i] == PathOf(ws[k].slot);
        assert docs[i] == d;
      }
    }
  }

  lemma {:induction false} DashboardIn(ws: seq<Write>, k: nat)
    requires k < |ws|
    ensures DashboardOf(ws[k]) in DashboardsOf(ws)
  {
    if k < |ws| - 1 {
      DashboardIn(ws[..|ws| - 1], k);
    }
  }

  lemma {:induction false} WriterOf(ws: seq<Write>, d: Dashboard) returns (k: nat)
    requires d in DashboardsOf(ws)
    ensures k < |ws| && DashboardOf(ws[k]) == d
  {
    if d == DashboardOf(ws[|ws| - 1]) {
      k := |ws| - 1;
    } else {
      k := WriterOf(ws[..|ws| - 1], d);
    }
  }

  lemma {:induction false} RequiredKept1(b: string)
    requires b in {"codestra", "moneybee", "beyvra", "breero", "larim-a"}
    ensures AllKept(b)
  {
    assert AllKept("codestra");
    assert AllKept("moneybee");
    assert AllKept("beyvra");
    assert AllKept("breero");
    assert AllKept("larim-a");
  }

  lemma {:induction false} RequiredKept2(b: string)
    requires b in {"transportation", "booked4seasons", "social", "klyrow"}
    ensures AllKept(b)
  {
    assert AllKept("transportation");
    assert AllKept("booked4seasons");
    assert AllKept("social");
    assert AllKept("klyrow");
  }

  lemma {:induction false} RequiredKept3(b: string)
    requires b in {"telnexa", "kyqra", "restaurant", "provisioning"}
    ensures AllKept(b)
  {
    assert AllKept("telnexa");
    assert AllKept("kyqra");
    assert AllKept("restaurant");
    assert AllKept("provisioning");
  }

  lemma {:induction false} RequiredEnds(b: string)
    requires b in REQUIRED_BUSINESSES
    ensures b != "" && b[0] != '-' && b[|b| - 1] != '-' && b[0] != 'a'
  {
  }

  lemma {:induction false} RequiredIsSlug(b: string)
    requires b in REQUIRED_BUSINESSES
    ensures b != "" && AllKept(b) && b[0] != '-' && b[|b| - 1] != '-' && b[0] != 'a'
  {
    RequiredEnds(b);
    if b in {"codestra", "moneybee", "beyvra", "breero", "larim-a"} {
      RequiredKept1(b);
    } else if b in {"transportation", "booked4seasons", "social", "klyrow"} {
      RequiredKept2(b);
    } else {
      RequiredKept3(b);
    }
  }

  lemma {:induction false} RequiredHealthIs()
    ensures RequiredHealth() == REQUIRED_BUSINESSES
  {
    forall b | b in REQUIRED_BUSINESSES ensures Cleaned(b) == b {
      RequiredIsSlug(b);
      CleanedKeeps(b);
    }
    AllCleanedKeeps(REQUIRED_BUSINESSES);
  }

  lemma {:induction false} CleanedKeeps(b: string)
    requires b != "" && AllKept(b) && b[0] != '-' && b[|b| - 1] != '-'
    ensures Cleaned(b) == b
  {
    LowerKeeps(b);
  }

  lemma {:induction false} AllCleanedKeeps(items: set<string>)
    requires forall b | b in items :: Cleaned(b) == b
    ensures AllCleaned(items) == items
  {
  }

  lemma {:induction false} AppUidIsNotRequired(slug: string)
    ensures "app-" + slug !in REQUIRED_BUSINESSES
  {
    var uid := "app-" + slug;
    assert uid[0] == 'a';
    if uid in REQUIRED_BUSINESSES {
      RequiredEnds(uid);
    }
  }

  lemma {:induction false} AppHealthStarts(displayName: string, services: seq<string>)
    ensures AppHealth(displayName, services) !! REQUIRED_BUSINESSES
  {
    if services != [] {
      AppHealthStarts(displayName, services[..|services| - 1]);
      AppUidIsNotRequired(Slug(services[|services| - 1]));
    }
  }

  lemma {:induction false} UnionEmpty<T>(a: set<T>, b: set<T>)
    ensures a + b == {} <==> a == {} && b == {}
  {
    assert a <= a + b && b <= a + b;
  }

  lemma {:induction false} AllOfAppended(init: seq<string>, last: string, p: string -> bool)
    ensures (forall s | s in init + [last] :: p(s)) <==> (forall s | s in init :: p(s)) && p(last)
  {
    assert forall s :: s in init + [last] <==> s in init || s == last;
  }

  lemma {:induction false} AppHealthEmptyIff(displayName: string, services: seq<string>)
    ensures AppHealth(displayName, services) == {} <==>
              forall s | s in services :: !IsHealth(displayName) && !IsHealth(s)
  {
    if services != [] {
      var init, last := services[..|services| - 1], services[|services| - 1];
      AppHealthEmptyIff(displayName, init);
      TitleIsHealthIff(displayName, last);
      InitAndLast(services);
      var own := if IsHealth(displayName + SEPARATOR + last) then {"app-" + Slug(last)} else {};
      assert AppHealth(displayName, services) == AppHealth(displayName, init) + own;
      UnionEmpty(AppHealth(displayName, init), own);
      AllOfAppended(init, last, s => !IsHealth(displayName) && !IsHealth(s));
    }
  }

  lemma {:induction false} QuietIff(b: Business)
    ensures IsQuiet(b) <==> AppHealth(b.displayName, b.services) == {}
  {
    AppHealthEmptyIff(b.displayName, b.services);
    assert b.services != [] ==> b.services[0] in b.services;
  }

  lemma {:induction false} RegistryAppHealthIs(registry: Registry)
    ensures RegistryAppHealth(registry) == {} <==> AppsAreQuiet(registry)
    ensures RegistryAppHealth(registry) !! REQUIRED_BUSINESSES
  {
    if registry != [] {
      var b := registry[|registry| - 1];
      RegistryAppHealthIs(registry[..|registry| - 1]);
      QuietIff(b);
      AppHealthStarts(b.displayName, b.services);
      InitAndLast(registry);
    }
  }

  lemma {:induction false} HealthOfGenerated(registry: Registry, order: seq<Path>)
    requires NoRepeats(BusinessSlugs(registry)) && NoRepeats(ServiceSlugs(registry))
    requires forall p :: p in order <==> p in Generated(registry)
    ensures HealthSlugs(DocsAt(Generated(registry), order)) ==
            Elements(BusinessSlugs(registry)) + RegistryAppHealth(registry)
    ensures RequiredTitles() <= Titles(DocsAt(Generated(registry), order))
  {
    var specials, rest := SpecialWrites(SPECIALS), RegistryWrites(registry);
    var docs, written := DocsAt(Generated(registry), order), DashboardsOf(specials + rest);
    SlotsDoNotRepeat(registry);
    DocsAreWritten(specials + rest, order);
    SameHealth(docs, written);
    HealthOfWrites(registry);
    RequiredTitlesWritten(rest);
  }

  lemma {:induction false} HealthOfWrites(registry: Registry)
    ensures HealthSlugs(DashboardsOf(SpecialWrites(SPECIALS) + RegistryWrites(registry))) ==
            Elements(BusinessSlugs(registry)) + RegistryAppHealth(registry)
  {
    HealthJoined(SpecialWrites(SPECIALS), RegistryWrites(registry));
    HealthOfSpecials(SPECIALS);
    HealthOfRegistry(registry);
  }

  lemma {:induction false} RequiredTitlesWritten(rest: seq<Write>)
    ensures RequiredTitles() <= Titles(DashboardsOf(SpecialWrites(SPECIALS) + rest))
  {
    forall t | t in RequiredTitles()
      ensures t in Titles(DashboardsOf(SpecialWrites(SPECIALS) + rest))
    {
      SpecialTitleWritten(t, rest);
    }
  }

  lemma {:induction false} SameHealth(a: seq<Dashboard>, b: seq<Dashboard>)
    requires forall d :: d in a <==> d in b
    ensures HealthSlugs(a) == HealthSlugs(b) && Titles(a) == Titles(b)
  {
  }

  lemma {:induction false} SpecialTitleWritten(t: string, rest: seq<Write>)
    requires t in RequiredTitles()
    ensures exists d | d in DashboardsOf(SpecialWrites(SPECIALS) + rest) :: d.title == t
  {
    var ws := SpecialWrites(SPECIALS) + rest;
    TitlesOfSpecials(SPECIALS, t);
    var titles := TitlesOf(SpecialWrites(SPECIALS));
    var k :| 0 <= k < |titles| && titles[k] == t;
    DashboardIn(ws, k);
    assert DashboardOf(ws[k]).title == t;
  }

  /** Without colliding slugs the required titles are there, and the business-health check passes
      exactly when the businesses are the required ones and no other title speaks of business health. */
  lemma {:induction false} HealthAcceptedIff(registry: Registry, order: seq<Path>)
    requires NoRepeats(BusinessSlugs(registry)) && NoRepeats(ServiceSlugs(registry))
    requires forall p :: p in order <==> p in Generated(registry)
    ensures var docs := DocsAt(Generated(registry), order);
            && RequiredTitles() <= Titles(docs)
            && (HealthSlugs(docs) == RequiredHealth() <==>
                  Elements(BusinessSlugs(registry)) == REQUIRED_BUSINESSES && AppsAreQuiet(registry))
  {
    HealthOfGenerated(registry, order);
    RequiredHealthIs();
    RegistryAppHealthIs(registry);
    UnionIs(Elements(BusinessSlugs(registry)), RegistryAppHealth(registry), REQUIRED_BUSINESSES);
  }

  lemma {:induction false} UnionIs<T>(a: set<T>, b: set<T>, r: set<T>)
    requires b !! r
    ensures a + b == r <==> a == r && b == {}
  {
    if a + b == r {
      assert forall x | x in b :: x in a + b;
    }
  }

  /** For instance: a service named "Prod Business Health" has a slug and a title of its own, and is
      refused all the same, as is every name that ends in "Business Health". */
  lemma {:induction false} HealthServiceIsRefused(
    registry: Registry, order: seq<Path>, b: Business, prefix: string)
    requires NoRepeats(order) && Elements(order) == Generated(registry).Keys
    requires b in registry && prefix + HEALTH_NAME in b.services
    ensures forall p :: p in order <==> p in Generated(registry)
    ensures !Accepts(registry, DocsAt(Generated(registry), order))
  {
    AcceptedIff(registry, order);
    NotQuiet(b, prefix);
  }

  lemma {:induction false} NotQuiet(b: Business, prefix: string)
    requires prefix + HEALTH_NAME in b.services
    ensures !IsQuiet(b)
  {
    SuffixIsHealth(prefix);
  }

  // ---- what the required checks ask of any documents --------------------------------------------

  ghost predicate SpeaksOfHealth(title: string) {
    exists i :: OccursAt(Lower(title), "business health", i)
  }

  /** A document about the health of the business, by its title and uid. */
  ghost predicate HealthOf(d: Dashboard, b: string) {
    SpeaksOfHealth(d.title) && (d.uid == b || d.uid == "biz-" + b)
  }

  lemma {:induction false} EverySpecialIsListed(s: Special)
    ensures s in SPECIALS
  {
    assert SPECIALS[Rank(s)] == s;
  }

  /** Enough for b not to begin with "biz-". */
  predicate NoPrefix(b: string) {
    |b| > 1 && b[1] != 'i'
  }

  lemma {:induction false} RequiredHasNoPrefix(b: string)
    requires b in REQUIRED_BUSINESSES
    ensures NoPrefix(b)
  {
  }

  lemma {:induction false} PrefixTaken(uid: string, b: string)
    requires NoPrefix(b)
    ensures WithoutPrefix(uid) == b <==> uid == "biz-" + b || uid == b
  {
    assert "biz-"[1] == 'i';
    if uid == "biz-" + b {
      assert uid[0..4] == "biz-" && uid[4..] == b;
    } else if StartsWith(uid, "biz-") {
      assert uid == uid[0..4] + uid[4..];
      assert uid[0..4][1] == uid[1];
    }
  }

  ghost predicate HasTitle(docs: seq<Dashboard>, title: string) {
    exists d | d in docs :: d.title == title
  }

  ghost predicate HasHealthOf(docs: seq<Dashboard>, b: string) {
    exists d | d in docs :: HealthOf(d, b)
  }

  ghost predicate HealthOfSome(d: Dashboard, required: set<string>) {
    exists b | b in required :: HealthOf(d, b)
  }

  /** Each of these has a document about its health, and no document is about the health of another. */
  ghost predicate HealthCovers(docs: seq<Dashboard>, required: set<string>) {
    && (forall b | b in required :: HasHealthOf(docs, b))
    && (forall d | d in docs && SpeaksOfHealth(d.title) :: HealthOfSome(d, required))
  }

  /** Whatever documents there are: the required titles are there exactly when each of the eighteen
      is one of theirs. */
  lemma {:induction false} TitlesRequiredIff(docs: seq<Dashboard>)
    ensures RequiredTitles() <= Titles(docs) <==> forall s: Special :: HasTitle(docs, SpecialTitle(s))
  {
    forall s: Special ensures SpecialTitle(s) in RequiredTitles() {
      EverySpecialIsListed(s);
    }
  }

  /** And the business-health check passes exactly when the health documents cover the required
      businesses and nothing else. */
  lemma {:induction false} HealthRequiredIff(docs: seq<Dashboard>)
    ensures HealthSlugs(docs) == RequiredHealth() <==> HealthCovers(docs, REQUIRED_BUSINESSES)
  {
    forall b | b in RequiredHealth() ensures NoPrefix(b) {
      RequiredHealthIs();
      RequiredHasNoPrefix(b);
    }
    HealthCoversIff(docs, RequiredHealth());
    RequiredHealthIs();
  }

  lemma {:induction false} HealthCoversIff(docs: seq<Dashboard>, required: set<string>)
    requires forall b | b in required :: NoPrefix(b)
    ensures HealthSlugs(docs) == required <==> HealthCovers(docs, required)
  {
    forall b | b in required ensures b in HealthSlugs(docs) <==> HasHealthOf(docs, b) {
      HealthSlugIff(docs, b);
    }
    forall d | d in docs && SpeaksOfHealth(d.title)
      ensures WithoutPrefix(d.uid) in required <==> HealthOfSome(d, required)
    {
      HealthOfOne(d, required);
    }
    SlugsWithin(docs, required);
    assert HealthSlugs(docs) == required <==> HealthSlugs(docs) <= required && required <= HealthSlugs(docs);
  }

  lemma {:induction false} HealthSlugIff(docs: seq<Dashboard>, b: string)
    requires NoPrefix(b)
    ensures b in HealthSlugs(docs) <==> HasHealthOf(docs, b)
  {
    forall d | d in docs ensures IsHealth(d.title) && WithoutPrefix(d.uid) == b <==> HealthOf(d, b) {
      PrefixTaken(d.uid, b);
    }
  }

  lemma {:induction false} HealthOfOne(d: Dashboard, required: set<string>)
    requires SpeaksOfHealth(d.title) && forall b | b in required :: NoPrefix(b)
    ensures WithoutPrefix(d.uid) in required <==> HealthOfSome(d, required)
  {
    forall b | b in required ensures WithoutPrefix(d.uid) == b <==> HealthOf(d, b) {
      PrefixTaken(d.uid, b);
    }
  }

  lemma {:induction false} SlugsWithin(docs: seq<Dashboard>, allowed: set<string>)
    ensures HealthSlugs(docs) <= allowed <==>
              forall d | d in docs && SpeaksOfHealth(d.title) :: WithoutPrefix(d.uid) in allowed
  {
    if HealthSlugs(docs) <= allowed {
      forall d | d in docs && SpeaksOfHealth(d.title) ensures WithoutPrefix(d.uid) in allowed {
        assert WithoutPrefix(d.uid) in HealthSlugs(docs);
      }
    }
  }

  /** That is at least one for each business, not exactly one: a second document under the other form
      of the uid goes unnoticed. */
  lemma {:induction false} SecondHealthDocument(docs: seq<Dashboard>, d: Dashboard, b: string)
    requires b in REQUIRED_BUSINESSES && HealthOf(d, b)
    requires HealthSlugs(docs) == RequiredHealth()
    ensures HealthSlugs(docs + [d]) == RequiredHealth()
  {
    RequiredIsHealth(b);
    PrefixTaken(d.uid, b);
    SlugAdded(docs, d, RequiredHealth());
  }

  lemma {:induction false} RequiredIsHealth(b: string)
    requires b in REQUIRED_BUSINESSES
    ensures NoPrefix(b) && b in RequiredHealth()
  {
    RequiredHasNoPrefix(b);
    RequiredHealthIs();
  }

  lemma {:induction false} SlugAdded(docs: seq<Dashboard>, d: Dashboard, slugs: set<string>)
    requires HealthSlugs(docs) == slugs && WithoutPrefix(d.uid) in slugs
    ensures HealthSlugs(docs + [d]) == slugs
  {
    OneMoreHealth(docs, d);
  }
}
