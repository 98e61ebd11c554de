/** The flattening of the navigation tree of the scopes dev environment
    (upstream/devenv/scopes/scopes.go). */
module ScopeNavigations {
  import opened Common

  datatype Node = Node(
    name: string,
    title: string,
    url: string,
    scope: string,
    subScope: string,
    groups: seq<string>,
    disableSubScopeSelection: bool,
    preLoadSubScopeChildren: bool,
    children: seq<Node>)

  /** A configured url, or the number of a generated one. */
  datatype Url = Given(text: string) | Generated(number: nat)

  datatype Navigation = Navigation(
    url: Url,
    scope: string,
    subScope: string,
    title: string,
    groups: seq<string>,
    disableSubScopeSelection: bool,
    preLoadSubScopeChildren: bool)

  datatype NavigationWithName = NavigationWithName(name: string, title: string, nav: Navigation)

  // ---- generated urls ---------------------------------------------------------------------------

  const DIGITS := "0123456789"

  /** fmt's %d of a natural number. */
  function Decimal(n: nat): string {
    if n < 10 then [DIGITS[n]] else Decimal(n / 10) + [DIGITS[n % 10]]
  }

  function DigitValue(c: char): nat {
    if '0' <= c <= '9' then (c - '0') as nat else 0
  }

  /** The number a decimal string denotes. */
  function Value(s: string): nat {
    if s == "" then 0 else 10 * Value(s[..|s| - 1]) + DigitValue(s[|s| - 1])
  }

  lemma {:induction false} DecimalDenotes(n: nat)
    ensures Value(Decimal(n)) == n
  {
    assert DigitValue(DIGITS[n % 10]) == n % 10;
    if n < 10 {
      assert Decimal(n)[..0] == "";
    } else {
      DecimalDenotes(n / 10);
      assert Decimal(n)[..|Decimal(n)| - 1] == Decimal(n / 10);
    }
  }

  /** The url as text. */
  function Render(u: Url): string {
    match u
    case Given(text) => text
    case Generated(k) => "/d/dash-" + Decimal(k)
  }

  lemma {:induction false} GeneratedUrlsDiffer(j: nat, k: nat)
    requires j != k
    ensures Render(Generated(j)) != Render(Generated(k))
  {
    DecimalDenotes(j);
    DecimalDenotes(k);
    assert Render(Generated(j))[8..] == Decimal(j) && Render(Generated(k))[8..] == Decimal(k);
  }

  // ---- the flattening, on values ----------------------------------------------------------------

  /** How many urls a tree, and a forest, need generated. */
  function TreeMissing(n: Node): nat {
    Bit(n.url == "") + Missing(n.children)
  }

  function Missing(forest: seq<Node>): nat {
    if forest == [] then 0 else TreeMissing(forest[0]) + Missing(forest[1..])
  }

  /** The scope children get when they have none. */
  function ForChildren(n: Node, scope: string): string {
    if n.subScope == "" then scope else n.subScope
  }

  function Effective(n: Node, inherited: string): string {
    if n.scope != "" then n.scope else inherited
  }

  /** The entry of a node whose scope has been settled, with count urls generated before it. */
  function EntryOf(n: Node, scope: string, count: nat): NavigationWithName {
    NavigationWithName(n.name, n.title, Navigation(
      if n.url == "" then Generated(count + 1) else Given(n.url),
      scope, n.subScope, n.title, n.groups, n.disableSubScopeSelection, n.preLoadSubScopeChildren))
  }

  /** The entries of a tree whose root's scope has been settled. */
  function TreeEntries(n: Node, scope: string, count: nat): seq<NavigationWithName> {
    [EntryOf(n, scope, count)] + Flatten(n.children, ForChildren(n, scope), count + Bit(n.url == ""))
  }

  function Flatten(forest: seq<Node>, inherited: string, count: nat): seq<NavigationWithName> {
    if forest == [] then []
    else
      TreeEntries(forest[0], Effective(forest[0], inherited), count)
      + Flatten(forest[1..], inherited, count + TreeMissing(forest[0]))
  }

  function TreeSize(n: Node): nat {
    1 + Size(n.children)
  }

  function Size(forest: seq<Node>): nat {
    if forest == [] then 0 else TreeSize(forest[0]) + Size(forest[1..])
  }

  // ---- the program ------------------------------------------------------------------------------

  class Counter {
    var value: nat

    constructor ()
      ensures value == 0
    {
      value := 0;
    }
  }

  method TreeToNavigations(node: Node, dashboardCounter: Counter)
    returns (navigations: seq<NavigationWithName>)
    modifies dashboardCounter
    ensures navigations == TreeEntries(node, node.scope, old(dashboardCounter.value))
    ensures dashboardCounter.value == old(dashboardCounter.value) + TreeMissing(node)
    decreases TreeSize(node)
  {
    var url := Given(node.url);
    if node.url == "" {
      dashboardCounter.value := dashboardCounter.value + 1;
      url := Generated(dashboardCounter.value);
    }
    var nav := Navigation(url, node.scope, node.subScope, node.title, node.groups,
                          node.disableSubScopeSelection, node.preLoadSubScopeChildren);
    var first := NavigationWithName(node.name, node.title, nav);
    navigations := [first];
    ghost var inherited := ForChildren(node, node.scope);
    ghost var start := dashboardCounter.value;
    for k := 0 to |node.children|
      invariant navigations == [first] + Flatten(node.children[..k], inherited, start)
      invariant dashboardCounter.value == start + Missing(node.children[..k])
    {
      var child := node.children[k];
      var childScope := node.subScope;
      if childScope == "" {
        childScope := node.scope;
      }
      if child.scope == "" {
        child := child.(scope := childScope);
      }
      ChildIsSmaller(node.children, k);
      OneMoreChild(node.children, k, child, inherited, start);
      ghost var before := Flatten(node.children[..k], inherited, start);
      var more := TreeToNavigations(child, dashboardCounter);
      Regrouped([first], before, more);
      navigations := navigations + more;
    }
    assert node.children[..|node.children|] == node.children;
  }

  /** The root loop of main: one counter for all roots. */
  method FlattenRoots(roots: seq<Node>) returns (navigations: seq<NavigationWithName>)
    ensures navigations == Flatten(roots, "", 0)
  {
    var dashboardCounter := new Counter();
    navigations := [];
    for k := 0 to |roots|
      invariant navigations == Flatten(roots[..k], "", 0)
      invariant dashboardCounter.value == Missing(roots[..k])
    {
      OneMoreTree(roots[..k], roots[k], "", 0);
      assert roots[..k + 1] == roots[..k] + [roots[k]];
      var flat := TreeToNavigations(roots[k], dashboardCounter);
      navigations := navigations + flat;
    }
    assert roots[..|roots|] == roots;
  }

  // ---- what the loops rely on -------------------------------------------------------------------

  lemma {:induction false} MissingAppended(a: seq<Node>, b: seq<Node>)
    ensures Missing(a + b) == Missing(a) + Missing(b)
  {
    if a == [] {
      assert a + b == b;
    } else {
      assert (a + b)[1..] == a[1..] + b;
      MissingAppended(a[1..], b);
    }
  }

  lemma {:induction false} FlattenAppended(a: seq<Node>, b: seq<Node>, inherited: string, count: nat)
    ensures Flatten(a + b, inherited, count) ==
            Flatten(a, inherited, count) + Flatten(b, inherited, count + Missing(a))
  {
    if a == [] {
      assert a + b == b;
    } else {
      assert (a + b)[1..] == a[1..] + b;
      FlattenAppended(a[1..], b, inherited, count + TreeMissing(a[0]));
    }
  }

  lemma {:induction false} OneMoreTree(forest: seq<Node>, n: Node, inherited: string, count: nat)
    ensures Flatten(forest + [n], inherited, count) ==
            Flatten(forest, inherited, count)
            + TreeEntries(n, Effective(n, inherited), count + Missing(forest))
    ensures Missing(forest + [n]) == Missing(forest) + TreeMissing(n)
  {
    FlattenAppended(forest, [n], inherited, count);
    MissingAppended(forest, [n]);
    assert [n][1..] == [];
  }

  /** A tree flattens the same whether its root's scope is its own or was filled in. */
  lemma {:induction false} ScopeSettled(n: Node, scope: string, count: nat)
    ensures var settled := n.(scope := scope);
            && TreeEntries(settled, scope, count) == TreeEntries(n, scope, count)
            && TreeMissing(settled) == TreeMissing(n)
            && TreeSize(settled) == TreeSize(n)
  {
  }

  lemma {:induction false} OneMoreChild(children: seq<Node>, k: nat, child: Node, inherited: string, count: nat)
    requires k < |children|
    requires child == children[k].(scope := Effective(children[k], inherited))
    ensures Flatten(children[..k + 1], inherited, count) ==
            Flatten(children[..k], inherited, count)
            + TreeEntries(child, child.scope, count + Missing(children[..k]))
    ensures Missing(children[..k + 1]) == Missing(children[..k]) + TreeMissing(child)
    ensures TreeSize(child) == TreeSize(children[k])
  {
    assert children[..k + 1] == children[..k] + [children[k]];
    OneMoreTree(children[..k], children[k], inherited, count);
    ScopeSettled(children[k], child.scope, count + Missing(children[..k]));
  }

  lemma {:induction false} ChildIsSmaller(forest: seq<Node>, k: nat)
    requires k < |forest|
    ensures TreeSize(forest[k]) <= Size(forest)
  {
    if k > 0 {
      ChildIsSmaller(forest[1..], k - 1);
    }
  }

  // ---- what the flattening is -------------------------------------------------------------------

  /** The nodes in preorder. */
  function Preorder(forest: seq<Node>): seq<Node> {
    if forest == [] then []
    else [forest[0]] + Preorder(forest[0].children) + Preorder(forest[1..])
  }

  /** The position of each node's parent in preorder, when the forest starts at position at. */
  function Parents(forest: seq<Node>, at: nat, parent: Option<nat>): seq<Option<nat>> {
    if forest == [] then []
    else
      [parent] + Parents(forest[0].children, at + 1, Some(at))
      + Parents(forest[1..], at + 1 + |Preorder(forest[0].children)|, parent)
  }

  /** How many of the first n nodes have no url. */
  function UrlLess(nodes: seq<Node>, n: nat): nat
    requires n <= |nodes|
  {
    if n == 0 then 0 else UrlLess(nodes, n - 1) + Bit(nodes[n - 1].url == "")
  }

  /** The entry shows the node, with its own url or the one numbered after count others. */
  predicate Shows(e: NavigationWithName, n: Node, count: nat) {
    && e.name == n.name && e.title == n.title && e.nav.title == n.title
    && e.nav.url == (if n.url == "" then Generated(count + 1) else Given(n.url))
    && e.nav.subScope == n.subScope && e.nav.groups == n.groups
    && e.nav.disableSubScopeSelection == n.disableSubScopeSelection
    && e.nav.preLoadSubScopeChildren == n.preLoadSubScopeChildren
  }

  lemma {:induction false} UrlLessJoined(a: seq<Node>, b: seq<Node>, n: nat)
    requires n <= |a| + |b|
    ensures UrlLess(a + b, n) ==
            if n <= |a| then UrlLess(a, n) else UrlLess(a, |a|) + UrlLess(b, n - |a|)
  {
    if n > 0 {
      UrlLessJoined(a, b, n - 1);
    }
  }

  lemma {:induction false} MissingIsUrlLess(forest: seq<Node>)
    ensures Missing(forest) == UrlLess(Preorder(forest), |Preorder(forest)|)
  {
    if forest != [] {
      var n := forest[0];
      var below, rest := Preorder(n.children), Preorder(forest[1..]);
      MissingIsUrlLess(n.children);
      MissingIsUrlLess(forest[1..]);
      UrlLessJoined([n] + below, rest, 1 + |below| + |rest|);
      UrlLessJoined([n], below, 1 + |below|);
      assert UrlLess([n], 1) == Bit(n.url == "") + UrlLess([n], 0);
    }
  }

  /** The entries show the nodes in order, each generated url numbered after those before it. */
  ghost predicate ShowsAll(entries: seq<NavigationWithName>, nodes: seq<Node>, count: nat) {
    |entries| == |nodes| && forall i: nat | i < |nodes| :: ShownIn(entries, nodes, count, i)
  }

  ghost predicate ShownIn(entries: seq<NavigationWithName>, nodes: seq<Node>, count: nat, i: nat)
    requires i < |nodes| == |entries|
  {
    Shows(entries[i], nodes[i], count + UrlLess(nodes, i))
  }

  lemma {:induction false} ShowsAllJoined(
    e1: seq<NavigationWithName>, n1: seq<Node>, e2: seq<NavigationWithName>, n2: seq<Node>,
    count: nat, next: nat)
    requires next == count + UrlLess(n1, |n1|)
    requires ShowsAll(e1, n1, count) && ShowsAll(e2, n2, next)
    ensures ShowsAll(e1 + e2, n1 + n2, count)
  {
    forall i: nat | i < |n1 + n2| ensures ShownIn(e1 + e2, n1 + n2, count, i) {
      if i < |n1| {
        assert ShownIn(e1, n1, count, i);
        ShownInFirst(e1, n1, e2, n2, count, i);
      } else {
        assert ShownIn(e2, n2, next, i - |n1|);
        ShownInSecond(e1, n1, e2, n2, count, next, i - |n1|);
      }
    }
  }

  lemma {:induction false} ShownInFirst(
    e1: seq<NavigationWithName>, n1: seq<Node>, e2: seq<NavigationWithName>, n2: seq<Node>,
    count: nat, i: nat)
    requires |e1| == |n1| && |e2| == |n2| && i < |n1| && ShownIn(e1, n1, count, i)
    ensures ShownIn(e1 + e2, n1 + n2, count, i)
  {
    UrlLessJoined(n1, n2, i);
  }

  lemma {:induction false} ShownInSecond(
    e1: seq<NavigationWithName>, n1: seq<Node>, e2: seq<NavigationWithName>, n2: seq<Node>,
    count: nat, next: nat, i: nat)
    requires |e1| == |n1| && |e2| == |n2| && i < |n2| && next == count + UrlLess(n1, |n1|)
    requires ShownIn(e2, n2, next, i)
    ensures ShownIn(e1 + e2, n1 + n2, count, |n1| + i)
  {
    UrlLessJoined(n1, n2, |n1| + i);
    UrlLessJoined(n1, n2, |n1|);
  }

  lemma {:induction false} ShowsOne(n: Node, scope: string, count: nat)
    ensures ShowsAll([EntryOf(n, scope, count)], [n], count)
    ensures UrlLess([n], 1) == Bit(n.url == "")
  {
    assert UrlLess([n], 1) == UrlLess([n], 0) + Bit([n][0].url == "");
  }

  lemma {:induction false} FirstTree(forest: seq<Node>, inherited: string, count: nat)
    requires forest != []
    ensures var n, rest := forest[0], forest[1..];
            && Preorder(forest) == [n] + Preorder(n.children) + Preorder(rest)
            && Flatten(forest, inherited, count) ==
               TreeEntries(n, Effective(n, inherited), count)
               + Flatten(rest, inherited, count + TreeMissing(n))
  {
  }

  /** One entry per node, in preorder; the k-th node without a url, counted over all roots, gets the
      k-th generated one. */
  lemma {:induction false} FlattenShowsPreorder(forest: seq<Node>, inherited: string, count: nat)
    ensures ShowsAll(Flatten(forest, inherited, count), Preorder(forest), count)
    decreases forest
  {
    if forest != [] {
      var n := forest[0];
      var tree := TreeEntries(n, Effective(n, inherited), count);
      var rest := Flatten(forest[1..], inherited, count + TreeMissing(n));
      var next := count + TreeMissing(n);
      var treeNodes, restNodes := [n] + Preorder(n.children), Preorder(forest[1..]);
      TreeShowsPreorder(n, Effective(n, inherited), count);
      TreeMissingIsUrlLess(n);
      FlattenShowsPreorder(forest[1..], inherited, next);
      ShowsAllJoined(tree, treeNodes, rest, restNodes, count, next);
      FirstTree(forest, inherited, count);
    }
  }

  lemma {:induction false} TreeShowsPreorder(n: Node, scope: string, count: nat)
    ensures ShowsAll(TreeEntries(n, scope, count), [n] + Preorder(n.children), count)
    decreases n
  {
    var next := count + Bit(n.url == "");
    var below := Flatten(n.children, ForChildren(n, scope), next);
    FlattenShowsPreorder(n.children, ForChildren(n, scope), next);
    TreeShown(n, scope, count, next, below, Preorder(n.children));
  }

  lemma {:induction false} TreeMissingIsUrlLess(n: Node)
    ensures UrlLess([n] + Preorder(n.children), |[n] + Preorder(n.children)|) == TreeMissing(n)
  {
    var below := Preorder(n.children);
    MissingIsUrlLess(n.children);
    UrlLessJoined([n], below, 1 + |below|);
    assert UrlLess([n], 1) == UrlLess([n], 0) + Bit([n][0].url == "");
  }

  lemma {:induction false} TreeShown(
    n: Node, scope: string, count: nat, next: nat, below: seq<NavigationWithName>, belowNodes: seq<Node>)
    requires next == count + Bit(n.url == "") && ShowsAll(below, belowNodes, next)
    ensures ShowsAll([EntryOf(n, scope, count)] + below, [n] + belowNodes, count)
  {
    ShowsOne(n, scope, count);
    var entry := [EntryOf(n, scope, count)];
    assert UrlLess([n], |[n]|) == Bit(n.url == "");
    ShowsAllJoined(entry, [n], below, belowNodes, count, next);
  }

  /** Nodes, their entries and their parents' positions, from position at on. */
  datatype Listing = Listing(
    nodes: seq<Node>, entries: seq<NavigationWithName>, parents: seq<Option<nat>>)
  {
    predicate Even() {
      |nodes| == |entries| == |parents|
    }
  }

  function Join(a: Listing, b: Listing): Listing {
    Listing(a.nodes + b.nodes, a.entries + b.entries, a.parents + b.parents)
  }

  function Listed(forest: seq<Node>, inherited: string, count: nat, at: nat, parent: Option<nat>): Listing {
    Listing(Preorder(forest), Flatten(forest, inherited, count), Parents(forest, at, parent))
  }

  /** The i-th node is a root of the listing, whose scope is its own or the inherited one, or it has
      its parent further up, and its scope is its own or what the parent's entry passes on. */
  ghost predicate ScopeFollows(l: Listing, inherited: string, at: nat, parent: Option<nat>, i: nat)
    requires l.Even() && i < |l.nodes|
  {
    var node, scope, p := l.nodes[i], l.entries[i].nav.scope, l.parents[i];
    if node.scope != "" then scope == node.scope && (p == parent || HasParent(p, at, i))
    else if p == parent then scope == inherited
    else
      && HasParent(p, at, i)
      && var above, scopeAbove := l.nodes[p.value - at], l.entries[p.value - at].nav.scope;
         scope == if above.subScope != "" then above.subScope else scopeAbove
  }

  /** The parent is further up the listing. */
  predicate HasParent(p: Option<nat>, at: nat, i: nat) {
    p.Some? && at <= p.value < at + i
  }

  ghost predicate ScopesFollow(l: Listing, inherited: string, at: nat, parent: Option<nat>) {
    l.Even() && forall i: nat | i < |l.nodes| :: ScopeFollows(l, inherited, at, parent, i)
  }

  lemma {:induction false} SiblingsFollow(a: Listing, b: Listing, inherited: string, at: nat, parent: Option<nat>)
    requires parent.Some? ==> parent.value < at
    requires ScopesFollow(a, inherited, at, parent)
    requires ScopesFollow(b, inherited, at + |a.nodes|, parent)
    ensures ScopesFollow(Join(a, b), inherited, at, parent)
  {
    var l := Join(a, b);
    forall i: nat | i < |l.nodes| ensures ScopeFollows(l, inherited, at, parent, i) {
      if i < |a.nodes| {
        assert ScopeFollows(a, inherited, at, parent, i);
      } else {
        assert ScopeFollows(b, inherited, at + |a.nodes|, parent, i - |a.nodes|);
      }
    }
  }

  lemma {:induction false} ChildrenFollow(
    n: Node, e: NavigationWithName, b: Listing, inherited: string, at: nat, parent: Option<nat>)
    requires parent.Some? ==> parent.value < at
    requires e.nav.scope == Effective(n, inherited)
    requires ScopesFollow(b, ForChildren(n, e.nav.scope), at + 1, Some(at))
    ensures ScopesFollow(Join(Listing([n], [e], [parent]), b), inherited, at, parent)
  {
    var l := Join(Listing([n], [e], [parent]), b);
    forall i: nat | i < |l.nodes| ensures ScopeFollows(l, inherited, at, parent, i) {
      if i > 0 {
        assert ScopeFollows(b, ForChildren(n, e.nav.scope), at + 1, Some(at), i - 1);
      }
    }
  }

  /** Every entry has its node's own scope, else its parent's subScope, else its parent's scope. */
  lemma {:induction false} ScopesFollowParents(
    forest: seq<Node>, inherited: string, count: nat, at: nat, parent: Option<nat>)
    requires parent.Some? ==> parent.value < at
    ensures ScopesFollow(Listed(forest, inherited, count, at, parent), inherited, at, parent)
    decreases forest
  {
    if forest != [] {
      var n := forest[0];
      var e := EntryOf(n, Effective(n, inherited), count);
      var below := Listed(n.children, ForChildren(n, e.nav.scope), count + Bit(n.url == ""), at + 1, Some(at));
      var rest := Listed(forest[1..], inherited, count + TreeMissing(n), at + 1 + |below.nodes|, parent);
      ScopesFollowParents(n.children, ForChildren(n, e.nav.scope), count + Bit(n.url == ""), at + 1, Some(at));
      ScopesFollowParents(forest[1..], inherited, count + TreeMissing(n), at + 1 + |below.nodes|, parent);
      ChildrenFollow(n, e, below, inherited, at, parent);
      SiblingsFollow(Join(Listing([n], [e], [parent]), below), rest, inherited, at, parent);
      assert Preorder(forest) == [n] + below.nodes + rest.nodes;
      assert Flatten(forest, inherited, count) == [e] + below.entries + rest.entries;
      assert Parents(forest, at, parent) == [parent] + below.parents + rest.parents;
      assert Listed(forest, inherited, count, at, parent) ==
             Join(Join(Listing([n], [e], [parent]), below), rest);
    }
  }

  ghost predicate ParentIs(nodes: seq<Node>, forest: seq<Node>, p: Option<nat>, at: nat, parent: Option<nat>, i: nat)
    requires i < |nodes|
  {
    if p == parent then nodes[i] in forest
    else HasParent(p, at, i) && p.value - at < |nodes| && nodes[i] in nodes[p.value - at].children
  }

  ghost predicate ParentsFit(
    nodes: seq<Node>, parents: seq<Option<nat>>, forest: seq<Node>, at: nat, parent: Option<nat>)
  {
    && |parents| == |nodes|
    && forall i: nat | i < |nodes| :: ParentIs(nodes, forest, parents[i], at, parent, i)
  }

  /** And the parent listed for a node has it among its children; a node without one is a root. */
  lemma {:induction false} ParentsHaveTheirChildren(forest: seq<Node>, at: nat, parent: Option<nat>)
    requires parent.Some? ==> parent.value < at
    ensures ParentsFit(Preorder(forest), Parents(forest, at, parent), forest, at, parent)
    decreases forest
  {
    if forest != [] {
      var n := forest[0];
      var below, rest := Preorder(n.children), Preorder(forest[1..]);
      var inner, others := Parents(n.children, at + 1, Some(at)), Parents(forest[1..], at + 1 + |below|, parent);
      ParentsHaveTheirChildren(n.children, at + 1, Some(at));
      ParentsHaveTheirChildren(forest[1..], at + 1 + |below|, parent);
      ParentsJoined(forest, below, rest, inner, others, at, parent);
      assert Preorder(forest) == [n] + below + rest;
      assert Parents(forest, at, parent) == [parent] + inner + others;
    }
  }

  lemma {:induction false} ParentsJoined(
    forest: seq<Node>, below: seq<Node>, rest: seq<Node>, inner: seq<Option<nat>>, others: seq<Option<nat>>,
    at: nat, parent: Option<nat>)
    requires forest != [] && (parent.Some? ==> parent.value < at)
    requires ParentsFit(below, inner, forest[0].children, at + 1, Some(at))
    requires ParentsFit(rest, others, forest[1..], at + 1 + |below|, parent)
    ensures ParentsFit([forest[0]] + below + rest, [parent] + inner + others, forest, at, parent)
  {
    var nodes, parents := [forest[0]] + below + rest, [parent] + inner + others;
    forall i: nat | i < |nodes| ensures ParentIs(nodes, forest, parents[i], at, parent, i) {
      if 0 < i <= |below| {
        ParentAmongBelow(forest, below, rest, inner[i - 1], at, parent, i);
      } else if i > |below| {
        ParentAmongRest(forest, below, rest, others[i - 1 - |below|], at, parent, i);
      }
    }
  }

  lemma {:induction false} ParentAmongBelow(
    forest: seq<Node>, below: seq<Node>, rest: seq<Node>, p: Option<nat>, at: nat, parent: Option<nat>, i: nat)
    requires forest != [] && (parent.Some? ==> parent.value < at) && 0 < i <= |below|
    requires ParentIs(below, forest[0].children, p, at + 1, Some(at), i - 1)
    ensures ParentIs([forest[0]] + below + rest, forest, p, at, parent, i)
  {
    var nodes := [forest[0]] + below + rest;
    assert nodes[i] == below[i - 1];
    if p != Some(at) {
      assert nodes[p.value - at] == below[p.value - at - 1];
    }
  }

  lemma {:induction false} ParentAmongRest(
    forest: seq<Node>, below: seq<Node>, rest: seq<Node>, p: Option<nat>, at: nat, parent: Option<nat>, i: nat)
    requires forest != [] && (parent.Some? ==> parent.value < at) && |below| < i <= |below| + |rest|
    requires ParentIs(rest, forest[1..], p, at + 1 + |below|, parent, i - 1 - |below|)
    ensures ParentIs([forest[0]] + below + rest, forest, p, at, parent, i)
  {
    var nodes := [forest[0]] + below + rest;
    assert nodes[i] == rest[i - 1 - |below|];
    if p != parent {
      assert nodes[p.value - at] == rest[p.value - at - 1 - |below|];
    }
  }

  lemma {:induction false} UrlLessGrows(nodes: seq<Node>, i: nat, j: nat)
    requires i < j <= |nodes| && nodes[i].url == ""
    ensures UrlLess(nodes, i) < UrlLess(nodes, j)
  {
    if i < j - 1 {
      UrlLessGrows(nodes, i, j - 1);
    }
  }

  lemma {:induction false} GeneratedUrlOf(entries: seq<NavigationWithName>, nodes: seq<Node>, i: nat)
    requires ShowsAll(entries, nodes, 0) && i < |nodes| && nodes[i].url == ""
    ensures entries[i].nav.url == Generated(UrlLess(nodes, i) + 1)
  {
    assert ShownIn(entries, nodes, 0, i);
  }

  /** The text of the k-th generated url: /d/dash- and the decimal number k. */
  lemma {:induction false} GeneratedUrlReads(k: nat)
    ensures |Render(Generated(k))| > 8 && Render(Generated(k))[..8] == "/d/dash-"
    ensures Value(Render(Generated(k))[8..]) == k
    ensures forall d | 8 <= d < |Render(Generated(k))| :: '0' <= Render(Generated(k))[d] <= '9'
  {
    DecimalDenotes(k);
    DecimalIsDigits(k);
    assert Render(Generated(k))[8..] == Decimal(k);
    forall d | 8 <= d < |Render(Generated(k))| ensures '0' <= Render(Generated(k))[d] <= '9' {
      assert Render(Generated(k))[d] == Decimal(k)[d - 8];
    }
  }

  lemma {:induction false} DecimalIsDigits(n: nat)
    ensures |Decimal(n)| > 0 && forall k | 0 <= k < |Decimal(n)| :: '0' <= Decimal(n)[k] <= '9'
  {
    if n >= 10 {
      DecimalIsDigits(n / 10);
    }
  }

  /** No two generated urls are the same, over all roots. */
  lemma {:induction false} GeneratedUrlsAreDistinct(roots: seq<Node>, i: nat, j: nat)
    requires i < j < |Preorder(roots)|
    requires Preorder(roots)[i].url == "" && Preorder(roots)[j].url == ""
    ensures |Flatten(roots, "", 0)| == |Preorder(roots)|
    ensures Render(Flatten(roots, "", 0)[i].nav.url) != Render(Flatten(roots, "", 0)[j].nav.url)
  {
    FlattenShowsPreorder(roots, "", 0);
    GeneratedUrlOf(Flatten(roots, "", 0), Preorder(roots), i);
    GeneratedUrlOf(Flatten(roots, "", 0), Preorder(roots), j);
    UrlLessGrows(Preorder(roots), i, j);
    GeneratedUrlsDiffer(UrlLess(Preorder(roots), i) + 1, UrlLess(Preorder(roots), j) + 1);
  }

  predicate AllScoped(entries: seq<NavigationWithName>) {
    forall i | 0 <= i < |entries| :: entries[i].nav.scope != ""
  }

  lemma {:induction false} AllScopedJoined(a: seq<NavigationWithName>, b: seq<NavigationWithName>)
    ensures AllScoped(a + b) <==> AllScoped(a) && AllScoped(b)
  {
    if AllScoped(a + b) {
      assert forall i | 0 <= i < |a| :: (a + b)[i] == a[i];
      forall i | 0 <= i < |b| ensures b[i].nav.scope != "" {
        assert (a + b)[|a| + i] == b[i];
      }
    }
  }

  /** Every entry has a scope exactly when every root of the forest has one or inherits one. */
  lemma {:induction false} AllScopedIff(forest: seq<Node>, inherited: string, count: nat)
    ensures AllScoped(Flatten(forest, inherited, count)) <==>
              forall k | 0 <= k < |forest| :: forest[k].scope != "" || inherited != ""
    decreases forest
  {
    if forest != [] {
      var n := forest[0];
      var scope := Effective(n, inherited);
      var first := [EntryOf(n, scope, count)];
      var below := Flatten(n.children, ForChildren(n, scope), count + Bit(n.url == ""));
      var rest := Flatten(forest[1..], inherited, count + TreeMissing(n));
      AllScopedIff(forest[1..], inherited, count + TreeMissing(n));
      AllScopedJoined(first + below, rest);
      AllScopedJoined(first, below);
      assert AllScoped(first) <==> scope != "" by {
        assert first[0].nav.scope == scope;
      }
      if scope != "" {
        AllScopedIff(n.children, ForChildren(n, scope), count + Bit(n.url == ""));
      }
      assert forall k | 1 <= k < |forest| :: forest[1..][k - 1] == forest[k];
    }
  }
}
