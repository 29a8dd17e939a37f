/**
 The request-parameter access policy: two layers of allow / deny rules. The regex engine
 and the action glob are the parameters `full` (a pattern matches the whole value),
 `compiles` and `glob`; every theorem holds for all of them.
 */
module AccessPolicy {
  import opened Wrappers
  import opened Seqs

  datatype Action =
    | NodeCordon | NodeUncordon | NodeDrain | NodeLabel | NodeAnnotate | NodeTaint
    | NamespaceCreate | NamespaceLabel | NamespaceAnnotate

  datatype Param = Cluster | NodeName | NamespaceName

  const ACTIONS: set<Action> := {
    NodeCordon, NodeUncordon, NodeDrain, NodeLabel, NodeAnnotate, NodeTaint,
    NamespaceCreate, NamespaceLabel, NamespaceAnnotate}

  function ActionName(a: Action): string {
    match a
    case NodeCordon => "node.cordon"
    case NodeUncordon => "node.uncordon"
    case NodeDrain => "node.drain"
    case NodeLabel => "node.label"
    case NodeAnnotate => "node.annotate"
    case NodeTaint => "node.taint"
    case NamespaceCreate => "namespace.create"
    case NamespaceLabel => "namespace.label"
    case NamespaceAnnotate => "namespace.annotate"
  }

  function ParamNamed(key: string): Option<Param> {
    if key == "cluster" then Some(Cluster)
    else if key == "node" then Some(NodeName)
    else if key == "namespace" then Some(NamespaceName)
    else None
  }

  /** The parameters a request for the action carries. */
  function ParamsOf(a: Action): set<Param> {
    match a
    case NamespaceCreate => {Cluster, NamespaceName}
    case NamespaceLabel => {Cluster, NamespaceName}
    case NamespaceAnnotate => {Cluster, NamespaceName}
    case _ => {Cluster, NodeName}
  }

  datatype Effect = Allow | Deny

  /** A rule as written in the file; `match_` lists its keys in file order, each once. */
  datatype RawRule = RawRule(id: string, actions: seq<string>, effect: Effect, match_: seq<(string, string)>)

  datatype Rule = Rule(id: string, effect: Effect, targets: set<Action>, patterns: map<Param, string>)

  datatype RuleError = UnknownAction(pattern: string) | UnknownKey(key: string) | BadRegex(key: string)

  type Params = map<Param, Option<string>>

  type Matcher = (string, string) -> bool

  datatype Layer = Global | User

  /** `ruleId` is the deny rule that fired; None for a request no allow rule admits. */
  datatype Decision = Decision(allowed: bool, layer: Option<Layer>, ruleId: Option<string>)

  const ALLOWED := Decision(true, None, None)

  /******* Reading a rule *******/

  function Hits(pattern: string, glob: Matcher): set<Action> {
    set a | a in ACTIONS && glob(ActionName(a), pattern)
  }

  function AllHits(patterns: seq<string>, glob: Matcher): set<Action> {
    set a, i | 0 <= i < |patterns| && a in Hits(patterns[i], glob) :: a
  }

  function ParamsOfAll(actions: set<Action>): set<Param> {
    set a, p | a in actions && p in ParamsOf(a) :: p
  }

  predicate KeyKnown(key: string, params: set<Param>) {
    ParamNamed(key).Some? && ParamNamed(key).value in params
  }

  predicate Accepted(raw: RawRule, glob: Matcher, compiles: string -> bool) {
    && (forall i :: 0 <= i < |raw.actions| ==> Hits(raw.actions[i], glob) != {})
    && (forall i :: 0 <= i < |raw.match_| ==> KeyKnown(raw.match_[i].0, ParamsOfAll(AllHits(raw.actions, glob))))
    && (forall i :: 0 <= i < |raw.match_| ==> compiles(raw.match_[i].1))
  }

  function PatternMap(entries: seq<(string, string)>): map<Param, string> {
    if entries == [] then map[]
    else
      var front := PatternMap(entries[..|entries| - 1]);
      var (key, regex) := entries[|entries| - 1];
      match ParamNamed(key)
      case Some(p) => front[p := regex]
      case None => front
  }

  /** Pattern i is the first that hits no action. */
  ghost predicate FirstIdle(actions: seq<string>, glob: Matcher, i: int) {
    && 0 <= i < |actions| && Hits(actions[i], glob) == {}
    && forall k :: 0 <= k < i ==> Hits(actions[k], glob) != {}
  }

  /** Key i is the first that none of the actions carries. */
  ghost predicate FirstForeign(entries: seq<(string, string)>, params: set<Param>, i: int) {
    && 0 <= i < |entries| && !KeyKnown(entries[i].0, params)
    && forall k :: 0 <= k < i ==> KeyKnown(entries[k].0, params)
  }

  /** Expression i is the first that does not compile. */
  ghost predicate FirstBroken(entries: seq<(string, string)>, compiles: string -> bool, i: int) {
    && 0 <= i < |entries| && !compiles(entries[i].1) && forall k :: 0 <= k < i ==> compiles(entries[k].1)
  }

  /** Patterns are looked at before keys and keys before expressions; the first that is wrong is reported. */
  ghost predicate Explains(raw: RawRule, glob: Matcher, compiles: string -> bool, e: RuleError) {
    var params := ParamsOfAll(AllHits(raw.actions, glob));
    match e
    case UnknownAction(p) => exists i :: FirstIdle(raw.actions, glob, i) && raw.actions[i] == p
    case UnknownKey(key) =>
      && (forall i :: 0 <= i < |raw.actions| ==> Hits(raw.actions[i], glob) != {})
      && exists i :: FirstForeign(raw.match_, params, i) && raw.match_[i].0 == key
    case BadRegex(key) =>
      && (forall i :: 0 <= i < |raw.actions| ==> Hits(raw.actions[i], glob) != {})
      && (forall i :: 0 <= i < |raw.match_| ==> KeyKnown(raw.match_[i].0, params))
      && exists i :: FirstBroken(raw.match_, compiles, i) && raw.match_[i].0 == key
  }

  method ResolveTargets(actions: seq<string>, glob: Matcher) returns (r: Result<set<Action>, RuleError>)
    ensures r.Ok? <==> forall i :: 0 <= i < |actions| ==> Hits(actions[i], glob) != {}
    ensures r.Ok? ==> r.value == AllHits(actions, glob)
    ensures r.Err? ==> exists i :: FirstIdle(actions, glob, i) && r.error == UnknownAction(actions[i])
  {
    var targets: set<Action> := {};
    for i := 0 to |actions|
      invariant targets == AllHits(actions[..i], glob)
      invariant forall k :: 0 <= k < i ==> Hits(actions[k], glob) != {}
    {
      var hits := Hits(actions[i], glob);
      if hits == {} {
        assert FirstIdle(actions, glob, i);
        return Err(UnknownAction(actions[i]));
      }
      targets := targets + hits;
    }
    assert actions[..|actions|] == actions;
    r := Ok(targets);
  }

  method CompilePatterns(entries: seq<(string, string)>, compiles: string -> bool)
      returns (r: Result<map<Param, string>, RuleError>)
    requires forall i :: 0 <= i < |entries| ==> ParamNamed(entries[i].0).Some?
    ensures r.Ok? <==> forall i :: 0 <= i < |entries| ==> compiles(entries[i].1)
    ensures r.Ok? ==> r.value == PatternMap(entries)
    ensures r.Err? ==> exists i :: FirstBroken(entries, compiles, i) && r.error == BadRegex(entries[i].0)
  {
    var patterns: map<Param, string> := map[];
    for i := 0 to |entries|
      invariant patterns == PatternMap(entries[..i])
      invariant forall k :: 0 <= k < i ==> compiles(entries[k].1)
    {
      if !compiles(entries[i].1) {
        assert FirstBroken(entries, compiles, i);
        return Err(BadRegex(entries[i].0));
      }
      assert entries[..i + 1][..i] == entries[..i];
      patterns := patterns[ParamNamed(entries[i].0).value := entries[i].1];
    }
    assert entries[..|entries|] == entries;
    r := Ok(patterns);
  }

  method Resolve(raw: RawRule, glob: Matcher, compiles: string -> bool) returns (r: Result<Rule, RuleError>)
    ensures r.Ok? <==> Accepted(raw, glob, compiles)
    ensures r.Ok? ==> r.value == Rule(raw.id, raw.effect, AllHits(raw.actions, glob), PatternMap(raw.match_))
    ensures r.Err? ==> Explains(raw, glob, compiles, r.error)
  {
    var targets := ResolveTargets(raw.actions, glob);
    if targets.Err? {
      return Err(targets.error);
    }
    var params := ParamsOfAll(targets.value);
    for i := 0 to |raw.match_|
      invariant forall k :: 0 <= k < i ==> KeyKnown(raw.match_[k].0, params)
    {
      if !KeyKnown(raw.match_[i].0, params) {
        assert FirstForeign(raw.match_, params, i);
        return Err(UnknownKey(raw.match_[i].0));
      }
    }
    var patterns := CompilePatterns(raw.match_, compiles);
    if patterns.Err? {
      return Err(patterns.error);
    }
    r := Ok(Rule(raw.id, raw.effect, targets.value, patterns.value));
  }

  /******* Judging a request *******/

  predicate Admits(patterns: map<Param, string>, params: Params, full: Matcher) {
    forall key :: key in patterns ==> key in params && params[key].Some? && full(patterns[key], params[key].value)
  }

  predicate Matches(r: Rule, params: Params, full: Matcher) {
    Admits(r.patterns, params, full)
  }

  predicate Hit(r: Rule, effect: Effect, action: Action, params: Params, full: Matcher) {
    r.effect == effect && action in r.targets && Matches(r, params, full)
  }

  /** What a layer means, without an order: no deny matches, and if it has allow rules one of them does. */
  ghost predicate LayerAllows(rules: seq<Rule>, action: Action, params: Params, full: Matcher) {
    && (forall r :: r in rules && r.effect == Deny && action in r.targets ==> Misses(r, params, full))
    && ((exists r :: r in rules && r.effect == Allow && action in r.targets)
        ==> exists r :: r in rules && r.effect == Allow && action in r.targets && !Misses(r, params, full))
  }

  /** Some key of the rule is absent from the request, has no value in it, or has one its pattern does not match. */
  ghost predicate Misses(r: Rule, params: Params, full: Matcher) {
    exists key :: key in r.patterns
      && (key !in params || params[key] == None || !full(r.patterns[key], params[key].value))
  }

  lemma HitMeans(r: Rule, effect: Effect, action: Action, params: Params, full: Matcher)
    ensures Hit(r, effect, action, params, full)
        <==> r.effect == effect && action in r.targets && !Misses(r, params, full)
  {
  }

  method RuleMatches(r: Rule, params: Params, full: Matcher) returns (b: bool)
    ensures b == Matches(r, params, full)
  {
    var todo := r.patterns.Keys;
    while todo != {}
      invariant todo <= r.patterns.Keys
      invariant Admits(r.patterns - todo, params, full)
    {
      var key :| key in todo;
      if key !in params || params[key] == None || !full(r.patterns[key], params[key].value) {
        return false;
      }
      todo := todo - {key};
    }
    assert r.patterns - {} == r.patterns;
    return true;
  }

  /** Index of the first rule of that effect that matches, or the number of rules. */
  function FirstHit(rules: seq<Rule>, effect: Effect, action: Action, params: Params, full: Matcher): (i: nat)
    ensures i <= |rules|
    ensures i < |rules| ==> Hit(rules[i], effect, action, params, full)
    ensures forall k :: 0 <= k < i ==> !Hit(rules[k], effect, action, params, full)
  {
    if rules == [] || Hit(rules[0], effect, action, params, full) then 0
    else 1 + FirstHit(rules[1..], effect, action, params, full)
  }

  lemma {:induction false} FirstHitIs(rules: seq<Rule>, effect: Effect, action: Action, params: Params, full: Matcher,
                                      i: nat)
    requires i <= |rules| && (forall k :: 0 <= k < i ==> !Hit(rules[k], effect, action, params, full))
    requires i < |rules| ==> Hit(rules[i], effect, action, params, full)
    ensures FirstHit(rules, effect, action, params, full) == i
  {
  }

  predicate HasAllow(rules: seq<Rule>, action: Action) {
    exists i :: 0 <= i < |rules| && rules[i].effect == Allow && action in rules[i].targets
  }

  function LayerDecision(rules: seq<Rule>, layer: Layer, action: Action, params: Params, full: Matcher): Decision {
    var deny := FirstHit(rules, Deny, action, params, full);
    if deny < |rules| then Decision(false, Some(layer), Some(rules[deny].id))
    else if HasAllow(rules, action) && FirstHit(rules, Allow, action, params, full) == |rules| then
      Decision(false, Some(layer), None)
    else ALLOWED
  }

  method FirstMatching(rules: seq<Rule>, effect: Effect, action: Action, params: Params, full: Matcher) returns (i: nat)
    ensures i == FirstHit(rules, effect, action, params, full)
  {
    i := 0;
    while i < |rules|
      invariant i <= |rules|
      invariant forall k :: 0 <= k < i ==> !Hit(rules[k], effect, action, params, full)
    {
      if rules[i].effect == effect && action in rules[i].targets {
        var hit := RuleMatches(rules[i], params, full);
        if hit {
          FirstHitIs(rules, effect, action, params, full, i);
          return;
        }
      }
      i := i + 1;
    }
    FirstHitIs(rules, effect, action, params, full, i);
  }

  method EvaluateLayer(rules: seq<Rule>, layer: Layer, action: Action, params: Params,
                       full: Matcher) returns (d: Decision)
    ensures d == LayerDecision(rules, layer, action, params, full)
    ensures d.allowed <==> LayerAllows(rules, action, params, full)
  {
    LayerDecisionMeans(rules, layer, action, params, full);
    var deny := FirstMatching(rules, Deny, action, params, full);
    if deny < |rules| {
      return Decision(false, Some(layer), Some(rules[deny].id));
    }
    if HasAllow(rules, action) {
      var allow := FirstMatching(rules, Allow, action, params, full);
      if allow == |rules| {
        return Decision(false, Some(layer), None);
      }
    }
    return ALLOWED;
  }

  function Judged(globalRules: seq<Rule>, userRules: seq<Rule>, action: Action, params: Params,
                  full: Matcher): Decision {
    var g := LayerDecision(globalRules, Global, action, params, full);
    if !g.allowed then g else LayerDecision(userRules, User, action, params, full)
  }

  method Evaluate(globalRules: seq<Rule>, userRules: seq<Rule>, action: Action, params: Params,
                  full: Matcher) returns (d: Decision)
    ensures d == Judged(globalRules, userRules, action, params, full)
    ensures d.allowed
        <==> LayerAllows(globalRules, action, params, full) && LayerAllows(userRules, action, params, full)
  {
    d := EvaluateLayer(globalRules, Global, action, params, full);
    if d.allowed {
      d := EvaluateLayer(userRules, User, action, params, full);
    }
  }

  /******* What the policy means *******/

  lemma LayerDecisionMeans(rules: seq<Rule>, layer: Layer, action: Action, params: Params, full: Matcher)
    ensures LayerDecision(rules, layer, action, params, full).allowed <==> LayerAllows(rules, action, params, full)
  {
    NoHitMeans(rules, Deny, action, params, full);
    if FirstHit(rules, Deny, action, params, full) == |rules| {
      NoHitMeans(rules, Allow, action, params, full);
      HasAllowMeans(rules, action);
    }
  }

  lemma HasAllowMeans(rules: seq<Rule>, action: Action)
    ensures HasAllow(rules, action) <==> exists r :: r in rules && r.effect == Allow && action in r.targets
  {
  }

  lemma NoHitMeans(rules: seq<Rule>, effect: Effect, action: Action, params: Params, full: Matcher)
    ensures FirstHit(rules, effect, action, params, full) == |rules|
        <==> forall r :: r in rules && r.effect == effect && action in r.targets ==> Misses(r, params, full)
  {
    forall r | r in rules
      ensures Hit(r, effect, action, params, full)
          <==> r.effect == effect && action in r.targets && !Misses(r, params, full)
    {
      HitMeans(r, effect, action, params, full);
    }
    var i := FirstHit(rules, effect, action, params, full);
    if i < |rules| {
      assert rules[i] in rules;
    }
  }

  /** A user rule can only tighten: the request passes exactly when each layer alone passes it. */
  lemma UserRulesOnlyTighten(g: seq<Rule>, u: seq<Rule>, action: Action, params: Params, full: Matcher)
    ensures Judged(g, u, action, params, full).allowed
        <==> Judged(g, [], action, params, full).allowed && Judged([], u, action, params, full).allowed
  {
  }

  /** The order of the rules inside a layer does not change the verdict. */
  lemma VerdictIgnoresRuleOrder(g: seq<Rule>, g': seq<Rule>, u: seq<Rule>, u': seq<Rule>, action: Action,
                                params: Params, full: Matcher)
    requires multiset(g) == multiset(g') && multiset(u) == multiset(u')
    ensures Judged(g, u, action, params, full).allowed <==> Judged(g', u', action, params, full).allowed
  {
    LayerIgnoresOrder(g, g', Global, action, params, full);
    LayerIgnoresOrder(u, u', User, action, params, full);
  }

  lemma LayerIgnoresOrder(rules: seq<Rule>, rules': seq<Rule>, layer: Layer, action: Action, params: Params,
                          full: Matcher)
    requires multiset(rules) == multiset(rules')
    ensures LayerDecision(rules, layer, action, params, full).allowed
        <==> LayerDecision(rules', layer, action, params, full).allowed
  {
    LayerDecisionMeans(rules, layer, action, params, full);
    LayerDecisionMeans(rules', layer, action, params, full);
    assert forall r :: r in rules <==> r in multiset(rules);
    assert forall r :: r in rules' <==> r in multiset(rules');
  }

  /** Adding deny rules takes away exactly the requests one of them matches. */
  lemma DeniesAreAntitone(rules: seq<Rule>, denies: seq<Rule>, layer: Layer, action: Action, params: Params,
                          full: Matcher)
    requires forall r :: r in denies ==> r.effect == Deny
    ensures LayerDecision(rules + denies, layer, action, params, full).allowed
        <==> LayerDecision(rules, layer, action, params, full).allowed
             && forall r :: r in denies ==> !Hit(r, Deny, action, params, full)
  {
    LayerDecisionMeans(rules + denies, layer, action, params, full);
    LayerDecisionMeans(rules, layer, action, params, full);
  }

  /** Adding a rule lets a refused request through in one case only: the rule is a matching allow,
      no deny matches, and the layer was already an allow list the request was not on. */
  lemma AddedRuleWidensIff(rules: seq<Rule>, added: Rule, layer: Layer, action: Action, params: Params, full: Matcher)
    ensures !LayerDecision(rules, layer, action, params, full).allowed
            && LayerDecision(rules + [added], layer, action, params, full).allowed
        <==> Hit(added, Allow, action, params, full) && HasAllow(rules, action)
             && FirstHit(rules, Allow, action, params, full) == |rules|
             && FirstHit(rules, Deny, action, params, full) == |rules|
  {
    FirstHitAppends(rules, added, Deny, action, params, full);
    FirstHitAppends(rules, added, Allow, action, params, full);
    HasAllowAppends(rules, added, action);
  }

  lemma HasAllowAppends(rules: seq<Rule>, added: Rule, action: Action)
    ensures HasAllow(rules + [added], action)
        <==> HasAllow(rules, action) || (added.effect == Allow && action in added.targets)
  {
    var more := rules + [added];
    assert more[|rules|] == added && forall k :: 0 <= k < |rules| ==> more[k] == rules[k];
  }

  lemma {:induction false} FirstHitAppends(rules: seq<Rule>, added: Rule, effect: Effect, action: Action,
                                           params: Params, full: Matcher)
    ensures var i := FirstHit(rules, effect, action, params, full);
            FirstHit(rules + [added], effect, action, params, full)
              == if i < |rules| then i else if Hit(added, effect, action, params, full) then |rules| else |rules| + 1
  {
    if rules == [] {
      assert rules + [added] == [added];
    } else {
      assert (rules + [added])[1..] == rules[1..] + [added];
      FirstHitAppends(rules[1..], added, effect, action, params, full);
    }
  }

  /** A second allow rule does widen a layer: this one lets in a request the first rule kept out. */
  lemma SecondAllowWidens(full: Matcher, p: string, q: string, v: string)
    requires !full(p, v) && full(q, v)
    ensures var first := Rule("a", Allow, {NodeDrain}, map[NodeName := p]);
            var second := Rule("b", Allow, {NodeDrain}, map[NodeName := q]);
            var params: Params := map[NodeName := Some(v)];
            !LayerDecision([first], Global, NodeDrain, params, full).allowed
            && LayerDecision([first] + [second], Global, NodeDrain, params, full).allowed
  {
    var first := Rule("a", Allow, {NodeDrain}, map[NodeName := p]);
    var second := Rule("b", Allow, {NodeDrain}, map[NodeName := q]);
    var params: Params := map[NodeName := Some(v)];
    assert [first][0].effect == Allow && NodeDrain in [first][0].targets;
    assert NodeName in first.patterns;
    AddedRuleWidensIff([first], second, Global, NodeDrain, params, full);
  }

  ghost predicate UniqueIds(rules: seq<Rule>) {
    forall i, j :: 0 <= i < j < |rules| ==> rules[i].id != rules[j].id
  }

  /** With unique ids a reported rule id names one rule: the first matching deny of the first layer
      that refuses. No id is reported exactly when the refusing layer has only missed its allow list. */
  lemma ReportedRuleIsTheFirstDeny(g: seq<Rule>, u: seq<Rule>, action: Action, params: Params, full: Matcher, i: nat)
    requires UniqueIds(g + u) && i < |g + u|
    ensures var d := Judged(g, u, action, params, full);
            d.ruleId == Some((g + u)[i].id) <==>
              && Hit((g + u)[i], Deny, action, params, full)
              && (i < |g| ==> forall k :: 0 <= k < i ==> !Hit(g[k], Deny, action, params, full))
              && (i >= |g| ==> LayerAllows(g, action, params, full)
                               && forall k :: 0 <= k < i - |g| ==> !Hit(u[k], Deny, action, params, full))
  {
    LayerDecisionMeans(g, Global, action, params, full);
    var all := g + u;
    var dg, du := FirstHit(g, Deny, action, params, full), FirstHit(u, Deny, action, params, full);
    assert dg < |g| ==> all[dg].id == g[dg].id && g[dg] in g;
    assert du < |u| ==> all[|g| + du].id == u[du].id;
  }

  /** What a refusal reports: the first layer that refuses, and a rule id unless that layer denied nothing
      and the request was only on none of its allow lists. */
  lemma RefusalNamesItsLayer(g: seq<Rule>, u: seq<Rule>, action: Action, params: Params, full: Matcher)
    ensures var d := Judged(g, u, action, params, full);
            var layer := if LayerAllows(g, action, params, full) then u else g;
            && (d.layer == Some(Global) <==> !LayerAllows(g, action, params, full))
            && (d.layer == Some(User)
                <==> LayerAllows(g, action, params, full) && !LayerAllows(u, action, params, full))
            && (d.ruleId.Some? <==>
                 exists r :: r in layer && r.effect == Deny && action in r.targets && !Misses(r, params, full))
  {
    LayerDecisionMeans(g, Global, action, params, full);
    LayerDecisionMeans(u, User, action, params, full);
    NoHitMeans(g, Deny, action, params, full);
    NoHitMeans(u, Deny, action, params, full);
  }

  /** Each action by its own name, and nothing else, when a pattern is read as a plain name. */
  lemma PlainNamesTargetTheirAction(glob: Matcher, name: string)
    requires forall a, b :: glob(a, b) <==> a == b
    ensures Hits("node.cordon", glob) == {NodeCordon} && Hits("node.uncordon", glob) == {NodeUncordon}
    ensures Hits("node.drain", glob) == {NodeDrain} && Hits("node.taint", glob) == {NodeTaint}
    ensures Hits("node.label", glob) == {NodeLabel} && Hits("node.annotate", glob) == {NodeAnnotate}
    ensures Hits("namespace.create", glob) == {NamespaceCreate}
    ensures Hits("namespace.label", glob) == {NamespaceLabel}
    ensures Hits("namespace.annotate", glob) == {NamespaceAnnotate}
    ensures |Hits(name, glob)| <= 1
  {
    NamesDiffer();
    EachHitsItself(glob);
    if Hits(name, glob) != {} {
      var a :| a in Hits(name, glob);
      assert Hits(name, glob) == {a};
    }
  }

  lemma EachHitsItself(glob: Matcher)
    requires forall a, b :: glob(a, b) <==> a == b
    ensures forall a: Action :: Hits(ActionName(a), glob) == {a}
  {
    NamesDiffer();
    forall a: Action ensures Hits(ActionName(a), glob) == {a} {
      EveryActionIsListed(a);
      assert forall b :: b in Hits(ActionName(a), glob) <==> b == a;
    }
  }

  lemma NamesDiffer()
    ensures forall a, b: Action :: ActionName(a) == ActionName(b) ==> a == b
  {
    forall a, b: Action | ActionName(a) == ActionName(b) ensures a == b {
      var x, y := ActionName(a), ActionName(b);
      assert |x| == |y| && x[|x| - 1] == y[|y| - 1];
    }
  }

  /** Every action can be named, by the pattern that matches everything too. */
  lemma StarTargetsEveryAction(glob: Matcher, a: Action)
    requires forall name :: glob(name, "*")
    ensures a in Hits("*", glob)
  {
  }

  /** The keys a rule on one action may match on: the cluster, and the kind of thing the action is on. */
  lemma KeysOfAnAction(a: Action, key: string)
    ensures KeyKnown(key, ParamsOf(a)) <==>
              key == "cluster" || (key == "node" && "node." <= ActionName(a))
              || (key == "namespace" && "namespace." <= ActionName(a))
    ensures "node." <= ActionName(a) || "namespace." <= ActionName(a)
  {
    var onNode := NodeName in ParamsOf(a);
    assert "node."[1] == 'o' && "namespace."[1] == 'a';
    assert ActionName(a)[1] == if onNode then 'o' else 'a';
    assert onNode ==> ActionName(a)[..5] == "node.";
    assert !onNode ==> ActionName(a)[..10] == "namespace.";
  }

  /** Some pattern of the rule hits the action. */
  ghost predicate Targeted(raw: RawRule, glob: Matcher, a: Action) {
    exists i :: 0 <= i < |raw.actions| && glob(ActionName(a), raw.actions[i])
  }

  ghost predicate NamesSomeAction(pattern: string, glob: Matcher) {
    exists a: Action :: glob(ActionName(a), pattern)
  }

  /** Some action of the rule can be matched on by the key. */
  ghost predicate KeyOfTheRule(raw: RawRule, glob: Matcher, key: string) {
    exists a :: Targeted(raw, glob, a) && KeyKnown(key, ParamsOf(a))
  }

  /** A rule is accepted exactly when every pattern hits some action, every key is one of some action the rule
      targets, and every expression compiles. */
  lemma AcceptedIff(raw: RawRule, glob: Matcher, compiles: string -> bool)
    ensures Accepted(raw, glob, compiles) <==>
              && (forall i :: 0 <= i < |raw.actions| ==> NamesSomeAction(raw.actions[i], glob))
              && (forall i :: 0 <= i < |raw.match_| ==> KeyOfTheRule(raw, glob, raw.match_[i].0))
              && forall i :: 0 <= i < |raw.match_| ==> compiles(raw.match_[i].1)
  {
    forall i | 0 <= i < |raw.actions|
      ensures Hits(raw.actions[i], glob) != {} <==> NamesSomeAction(raw.actions[i], glob)
    {
      HitsSome(raw.actions[i], glob);
    }
    forall i | 0 <= i < |raw.match_|
      ensures KeyKnown(raw.match_[i].0, ParamsOfAll(AllHits(raw.actions, glob)))
          <==> KeyOfTheRule(raw, glob, raw.match_[i].0)
    {
      KeyOfSome(raw.match_[i].0, AllHits(raw.actions, glob));
      forall a ensures a in AllHits(raw.actions, glob) <==> Targeted(raw, glob, a) {
        AllHitsMeans(raw, glob, a);
      }
    }
  }

  lemma AllHitsMeans(raw: RawRule, glob: Matcher, a: Action)
    ensures a in AllHits(raw.actions, glob) <==> Targeted(raw, glob, a)
  {
    EveryActionIsListed(a);
    if Targeted(raw, glob, a) {
      var i :| 0 <= i < |raw.actions| && glob(ActionName(a), raw.actions[i]);
      assert a in Hits(raw.actions[i], glob);
    }
  }

  lemma EveryActionIsListed(a: Action)
    ensures a in ACTIONS
  {
  }

  lemma HitsSome(pattern: string, glob: Matcher)
    ensures Hits(pattern, glob) != {} <==> NamesSomeAction(pattern, glob)
  {
    if NamesSomeAction(pattern, glob) {
      var a: Action :| glob(ActionName(a), pattern);
      EveryActionIsListed(a);
      assert a in Hits(pattern, glob);
    }
  }

  lemma KeyOfSome(key: string, actions: set<Action>)
    ensures KeyKnown(key, ParamsOfAll(actions)) <==> exists a :: a in actions && KeyKnown(key, ParamsOf(a))
  {
    if KeyKnown(key, ParamsOfAll(actions)) {
      var a :| a in actions && ParamNamed(key).value in ParamsOf(a);
      assert KeyKnown(key, ParamsOf(a));
    }
  }

  /** The last entry of a key is the one that counts, under the parameter the key names. */
  lemma {:induction false} PatternMapMeans(entries: seq<(string, string)>, i: nat)
    requires i < |entries| && forall j :: i < j < |entries| ==> entries[j].0 != entries[i].0
    ensures var m := PatternMap(entries);
            && (entries[i].0 == "cluster" ==> Cluster in m && m[Cluster] == entries[i].1)
            && (entries[i].0 == "node" ==> NodeName in m && m[NodeName] == entries[i].1)
            && (entries[i].0 == "namespace" ==> NamespaceName in m && m[NamespaceName] == entries[i].1)
    decreases |entries|
  {
    if i < |entries| - 1 {
      var front := entries[..|entries| - 1];
      assert front[i] == entries[i] && entries[|entries| - 1].0 != entries[i].0;
      PatternMapMeans(front, i);
    }
  }

  lemma {:induction false} PatternMapHoldsNoMore(entries: seq<(string, string)>)
    ensures var m := PatternMap(entries);
            && (Cluster in m ==> exists i :: 0 <= i < |entries| && entries[i].0 == "cluster")
            && (NodeName in m ==> exists i :: 0 <= i < |entries| && entries[i].0 == "node")
            && (NamespaceName in m ==> exists i :: 0 <= i < |entries| && entries[i].0 == "namespace")
    decreases |entries|
  {
    if entries != [] {
      var n := |entries| - 1;
      PatternMapHoldsNoMore(entries[..n]);
      assert forall i :: 0 <= i < n ==> entries[..n][i] == entries[i];
      assert entries[n].0 == entries[|entries| - 1].0;
    }
  }

  /** A rule can match a request for the action exactly when the action carries every key the rule
      matches on and each regex matches something. */
  lemma CanMatchIff(r: Rule, action: Action, full: Matcher)
    ensures (exists params: Params :: params.Keys == ParamsOf(action) && Matches(r, params, full))
        <==> r.patterns.Keys <= ParamsOf(action)
             && forall key :: key in r.patterns ==> exists v :: full(r.patterns[key], v)
  {
    if r.patterns.Keys <= ParamsOf(action) && forall key :: key in r.patterns ==> exists v :: full(r.patterns[key], v) {
      var params: Params := map key | key in ParamsOf(action) ::
        if key in r.patterns then Some(Witness(r.patterns[key], full)) else None;
      assert params.Keys == ParamsOf(action) && Matches(r, params, full);
    }
    if exists params: Params :: params.Keys == ParamsOf(action) && Matches(r, params, full) {
      var params: Params :| params.Keys == ParamsOf(action) && Matches(r, params, full);
      forall key | key in r.patterns ensures key in ParamsOf(action) && exists v :: full(r.patterns[key], v) {
        assert key in params && full(r.patterns[key], params[key].value);
      }
    }
  }

  /** Some request, of whatever action, makes the rule fire. */
  ghost predicate CanFire(r: Rule, full: Matcher) {
    exists action: Action, params: Params :: params.Keys == ParamsOf(action) && Hit(r, r.effect, action, params, full)
  }

  /** A rule can fire exactly when one of the actions it targets carries every key the rule matches on
      (the keys were only checked against all its targets together) and each regex matches something. */
  lemma CanFireIff(r: Rule, full: Matcher)
    ensures CanFire(r, full)
        <==> (exists action :: action in r.targets && r.patterns.Keys <= ParamsOf(action))
             && forall key :: key in r.patterns ==> exists v :: full(r.patterns[key], v)
  {
    if CanFire(r, full) {
      var action: Action, params: Params :|
        params.Keys == ParamsOf(action) && Hit(r, r.effect, action, params, full);
      CanMatchIff(r, action, full);
    }
    if (exists action :: action in r.targets && r.patterns.Keys <= ParamsOf(action))
       && forall key :: key in r.patterns ==> exists v :: full(r.patterns[key], v) {
      var action :| action in r.targets && r.patterns.Keys <= ParamsOf(action);
      CanMatchIff(r, action, full);
      var params: Params :| params.Keys == ParamsOf(action) && Matches(r, params, full);
      assert Hit(r, r.effect, action, params, full);
    }
  }

  ghost function Witness(pattern: string, full: Matcher): (v: string)
    requires exists v :: full(pattern, v)
    ensures full(pattern, v)
  {
    var v :| full(pattern, v); v
  }

  /** Acceptance does not promise that: a rule on every action that names both a node and a
      namespace is accepted, and no request of any action can make it match. */
  lemma AcceptedRuleThatNeverFires(glob: Matcher, compiles: string -> bool, full: Matcher)
    requires forall a :: glob(ActionName(a), "*")
    requires compiles(".*")
    ensures var raw := RawRule("dead", ["*"], Deny, [("node", ".*"), ("namespace", ".*")]);
            && Accepted(raw, glob, compiles)
            && forall action: Action, params: Params | params.Keys == ParamsOf(action) ::
                 !Matches(Rule(raw.id, raw.effect, AllHits(raw.actions, glob), PatternMap(raw.match_)), params, full)
  {
    var raw := RawRule("dead", ["*"], Deny, [("node", ".*"), ("namespace", ".*")]);
    var all := AllHits(raw.actions, glob);
    assert NodeDrain in Hits(raw.actions[0], glob) && NamespaceCreate in Hits(raw.actions[0], glob);
    assert NodeDrain in all && NamespaceCreate in all;
    assert NodeName in ParamsOf(NodeDrain) && NamespaceName in ParamsOf(NamespaceCreate);
    var patterns := PatternMap(raw.match_);
    assert raw.match_[..1] == [("node", ".*")] && raw.match_[..1][..0] == [];
    assert NodeName in patterns && NamespaceName in patterns;
  }

  /******* The users document: where the uniqueness of ids comes from *******/

  datatype UserEntry = UserEntry(account: string, rules: seq<Rule>)

  datatype UsersDocument = UsersDocument(policies: seq<Rule>, users: seq<UserEntry>)

  function RulesOf(users: seq<UserEntry>): seq<Rule> {
    if users == [] then [] else users[0].rules + RulesOf(users[1..])
  }

  function RuleIds(rules: seq<Rule>): seq<string> {
    Map(rules, (r: Rule) => r.id)
  }

  /** The values that occur more than once. */
  function Dupes(values: seq<string>): set<string> {
    set v | v in values && multiset(values)[v] > 1
  }

  predicate DocumentAccepted(doc: UsersDocument) {
    && Dupes(Map(doc.users, (u: UserEntry) => u.account)) == {}
    && Dupes(RuleIds(doc.policies + RulesOf(doc.users))) == {}
  }

  lemma {:induction false} NoDupesIff(values: seq<string>)
    ensures Dupes(values) == {} <==> NoDuplicates(values)
  {
    if values != [] {
      var rest := values[1..];
      NoDupesIff(rest);
      NoDuplicatesHead(values);
      assert values == [values[0]] + rest;
      assert multiset(values) == multiset{values[0]} + multiset(rest);
      if values[0] in rest {
        assert values[0] in Dupes(values);
      } else if Dupes(rest) != {} {
        var v :| v in Dupes(rest);
        assert v in Dupes(values);
      }
    }
  }

  /** A document is accepted exactly when no account and no rule id occurs twice in it. */
  lemma DocumentAcceptedIff(doc: UsersDocument)
    ensures DocumentAccepted(doc)
        <==> (forall i, j :: 0 <= i < j < |doc.users| ==> doc.users[i].account != doc.users[j].account)
             && UniqueIds(doc.policies + RulesOf(doc.users))
  {
    var accounts, all := Map(doc.users, (u: UserEntry) => u.account), doc.policies + RulesOf(doc.users);
    NoDupesIff(accounts);
    NoDupesIff(RuleIds(all));
    assert forall i :: 0 <= i < |doc.users| ==> accounts[i] == doc.users[i].account;
    assert forall i :: 0 <= i < |all| ==> RuleIds(all)[i] == all[i].id;
  }

  /** In an accepted document the rules that apply to any one account have unique ids. */
  lemma AcceptedDocumentHasUniqueIds(doc: UsersDocument, k: nat)
    requires DocumentAccepted(doc) && k < |doc.users|
    ensures UniqueIds(doc.policies + doc.users[k].rules)
  {
    var all := doc.policies + RulesOf(doc.users);
    NoDupesIff(RuleIds(all));
    var at := RulesAt(doc.users, k);
    var mine := doc.policies + doc.users[k].rules;
    forall i, j | 0 <= i < j < |mine| ensures mine[i].id != mine[j].id {
      var i' := if i < |doc.policies| then i else i + at;
      var j' := if j < |doc.policies| then j else j + at;
      assert mine[i] == all[i'] && mine[j] == all[j'];
      assert RuleIds(all)[i'] != RuleIds(all)[j'];
    }
  }

  lemma {:induction false} RulesAt(users: seq<UserEntry>, k: nat) returns (at: nat)
    requires k < |users|
    ensures at + |users[k].rules| <= |RulesOf(users)|
    ensures RulesOf(users)[at..at + |users[k].rules|] == users[k].rules
  {
    if k == 0 {
      at := 0;
    } else {
      var rest := RulesAt(users[1..], k - 1);
      at := |users[0].rules| + rest;
    }
  }
}
