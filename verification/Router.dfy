/** The route table of the web layer: compiled batches of dynamic rules, searched
    after the static rules of the same method. Regular expressions are abstract. */
module Router {
  import opened Basics

  type Method = string
  type Path = string
  type Pattern = string
  type Target = int
  type Matching = (Pattern, Path) -> bool
  type Validity = Pattern -> bool

  /** A rule after tokenizing: `path` is what the URL builder makes of a static
      rule, `pattern` the flattened expression; `compiles` tells whether the
      expression with its named groups is valid. */
  datatype Rule = Rule(isStatic: bool, path: Path, pattern: Pattern, compiles: bool)

  /** An accepted registration. */
  datatype Reg =
    | StaticReg(m: Method, path: Path, target: Target)
    | DynaReg(m: Method, pattern: Pattern, target: Target)

  /** ReError is raised when the flattened expressions are compiled, after the rule
      has been entered. */
  datatype AddOutcome = Added | RouteSyntaxError | RouteBuildError | ReError

  datatype Response =
    | Found(target: Target)
    | MethodNotAllowed(allow: set<Method>)
    | NotFound

  // ----- What the table promises, in terms of the registrations alone -----

  /** The pattern that was registered first among those that match. */
  function Earliest(f: Matching, log: seq<Reg>, m: Method, path: Path): Option<Pattern> {
    if log == [] then None
    else
      var last, before := log[|log| - 1], Earliest(f, log[..|log| - 1], m, path);
      if before == None && last.DynaReg? && last.m == m && f(last.pattern, path) then Some(last.pattern) else before
  }

  /** The target that was registered last for a pattern. */
  function Latest(log: seq<Reg>, m: Method, pattern: Pattern): Option<Target> {
    if log == [] then None
    else
      var last := log[|log| - 1];
      if last.DynaReg? && last.m == m && last.pattern == pattern then Some(last.target)
      else Latest(log[..|log| - 1], m, pattern)
  }

  function LatestStatic(log: seq<Reg>, m: Method, path: Path): Option<Target> {
    if log == [] then None
    else
      var last := log[|log| - 1];
      if last.StaticReg? && last.m == m && last.path == path then Some(last.target)
      else LatestStatic(log[..|log| - 1], m, path)
  }

  /** What the registrations of one method promise for a path. */
  function Promised(f: Matching, log: seq<Reg>, m: Method, path: Path): Option<Target> {
    var p := Earliest(f, log, m, path);
    if p == None then None else Latest(log, m, p.value)
  }

  // ----- The rule list of one method -----

  datatype Entry = Entry(pattern: Pattern, target: Target)

  /** Replaces the entry of a pattern in place, or appends one. */
  function Put(rules: seq<Entry>, e: Entry): seq<Entry> {
    if rules == [] then [e]
    else if rules[0].pattern == e.pattern then [e] + rules[1..]
    else [rules[0]] + Put(rules[1..], e)
  }

  function Rules(log: seq<Reg>, m: Method): seq<Entry> {
    if log == [] then []
    else
      var last, before := log[|log| - 1], Rules(log[..|log| - 1], m);
      if last.DynaReg? && last.m == m then Put(before, Entry(last.pattern, last.target)) else before
  }

  /** The linear scan. */
  function Scan(f: Matching, rules: seq<Entry>, path: Path): Option<Entry> {
    if rules == [] then None
    else if f(rules[0].pattern, path) then Some(rules[0])
    else Scan(f, rules[1..], path)
  }

  function TargetOf(e: Option<Entry>): Option<Target> { if e == None then None else Some(e.value.target) }

  // ----- Which rules are compiled -----

  /** The first rule whose flattened expression is refused. */
  function FirstBad(ok: Validity, rules: seq<Entry>): (n: nat)
    ensures n <= |rules| && (n < |rules| ==> !ok(rules[n].pattern))
    ensures forall j :: 0 <= j < n ==> ok(rules[j].pattern)
  {
    if rules == [] || !ok(rules[0].pattern) then 0 else 1 + FirstBad(ok, rules[1..])
  }

  predicate Compiles(ok: Validity, rules: seq<Entry>) { FirstBad(ok, rules) == |rules| }

  /** Compilation stops at the batch with the first refused expression. */
  function LiveCount(ok: Validity, rules: seq<Entry>): (n: nat)
    ensures n <= |rules| && (Compiles(ok, rules) ==> n == |rules|)
  {
    var bad := FirstBad(ok, rules);
    if bad == |rules| then |rules| else bad - bad % 99
  }

  function Live(ok: Validity, rules: seq<Entry>): seq<Entry> { rules[..LiveCount(ok, rules)] }

  // ----- The answer to a request -----

  function DynamicTarget(
    f: Matching, ok: Validity, log: seq<Reg>, m: Method, path: Path): Option<Target>
  {
    TargetOf(Scan(f, Live(ok, Rules(log, m)), path))
  }

  /** Static before dynamic. */
  function MethodTarget(f: Matching, ok: Validity, log: seq<Reg>, m: Method, path: Path): Option<Target> {
    var s := LatestStatic(log, m, path);
    if s.Some? then s else DynamicTarget(f, ok, log, m, path)
  }

  function FirstTarget(f: Matching, ok: Validity, log: seq<Reg>, methods: seq<Method>, path: Path): Option<Target> {
    if methods == [] then None
    else
      var t := MethodTarget(f, ok, log, methods[0], path);
      if t.Some? then t else FirstTarget(f, ok, log, methods[1..], path)
  }

  function MethodsFor(verb: Method): seq<Method> {
    if verb == "HEAD" then ["PROXY", verb, "GET", "ANY"] else ["PROXY", verb, "ANY"]
  }

  function Known(log: seq<Reg>): set<Method> { set r | r in log :: r.m }

  /** The Allow header as it is computed: a static match contributes the request's own verb. */
  function AllowHeader(f: Matching, ok: Validity, log: seq<Reg>, verb: Method, path: Path): set<Method> {
    var others := Known(log) - Elements(MethodsFor(verb));
    (if exists m :: m in others && LatestStatic(log, m, path).Some? then {verb} else {})
    + set m | m in others && DynamicTarget(f, ok, log, m, path).Some?
  }

  function Elements(methods: seq<Method>): set<Method> { set m | m in methods }

  /** An empty path stands for the root. */
  function Effective(given: Path): Path { if given == "" then "/" else given }

  function Route(f: Matching, ok: Validity, log: seq<Reg>, verb: Method, given: Path): Response {
    var path := Effective(given);
    var t := FirstTarget(f, ok, log, MethodsFor(verb), path);
    if t.Some? then Found(t.value)
    else if AllowHeader(f, ok, log, verb, path) != {} then MethodNotAllowed(AllowHeader(f, ok, log, verb, path))
    else NotFound
  }

  // ----- Properties of the rule list -----

  lemma {:induction false} PutAt(rules: seq<Entry>, e: Entry, i: nat)
    requires i < |rules| && rules[i].pattern == e.pattern
    requires forall j :: 0 <= j < i ==> rules[j].pattern != e.pattern
    ensures Put(rules, e) == rules[i := e]
  {
    if i > 0 {
      PutAt(rules[1..], e, i - 1);
    }
  }

  lemma {:induction false} PutNew(rules: seq<Entry>, e: Entry)
    requires forall j :: 0 <= j < |rules| ==> rules[j].pattern != e.pattern
    ensures Put(rules, e) == rules + [e]
  {
    if rules != [] {
      PutNew(rules[1..], e);
    }
  }

  predicate Distinct(rules: seq<Entry>) {
    forall i, j :: 0 <= i < j < |rules| ==> rules[i].pattern != rules[j].pattern
  }

  /** Scanning after a put: a known pattern keeps its place, a new one comes last. */
  lemma {:induction false} ScanPut(f: Matching, rules: seq<Entry>, e: Entry, path: Path)
    ensures var found := Scan(f, rules, path);
      Scan(f, Put(rules, e), path)
      == if found == None && f(e.pattern, path) then Some(e)
         else if found.Some? && found.value.pattern == e.pattern then Some(e) else found
  {
    if rules != [] {
      var tail := rules[1..];
      if rules[0].pattern == e.pattern {
        assert ([e] + tail)[1..] == tail;
        if !f(e.pattern, path) {
          ScanMatches(f, tail, path);
        }
      } else {
        ScanPut(f, tail, e, path);
        assert ([rules[0]] + Put(tail, e))[1..] == Put(tail, e);
      }
    }
  }

  lemma {:induction false} ScanMatches(f: Matching, rules: seq<Entry>, path: Path)
    ensures Scan(f, rules, path).Some? ==> f(Scan(f, rules, path).value.pattern, path)
    ensures Scan(f, rules, path).Some? ==> Scan(f, rules, path).value in rules
  {
    if rules != [] {
      ScanMatches(f, rules[1..], path);
    }
  }

  /** The list is the registrations in order of first appearance with their latest targets. */
  lemma {:induction false} RulesAre(f: Matching, log: seq<Reg>, m: Method, path: Path)
    ensures Distinct(Rules(log, m))
    ensures forall e :: e in Rules(log, m) ==> Latest(log, m, e.pattern) == Some(e.target)
    ensures Scan(f, Rules(log, m), path)
            == var p := Earliest(f, log, m, path);
               if p == None || Latest(log, m, p.value) == None then None
               else Some(Entry(p.value, Latest(log, m, p.value).value))
    ensures Earliest(f, log, m, path).Some? ==> Latest(log, m, Earliest(f, log, m, path).value).Some?
  {
    if log != [] {
      var front, last := log[..|log| - 1], log[|log| - 1];
      RulesAre(f, front, m, path);
      if last.DynaReg? && last.m == m {
        var e := Entry(last.pattern, last.target);
        ScanPut(f, Rules(front, m), e, path);
        PutKeeps(Rules(front, m), e);
      }
    }
  }

  lemma ScanIsPromised(f: Matching, log: seq<Reg>, m: Method, path: Path)
    ensures TargetOf(Scan(f, Rules(log, m), path)) == Promised(f, log, m, path)
  {
    RulesAre(f, log, m, path);
  }

  lemma PutKeeps(rules: seq<Entry>, e: Entry)
    requires Distinct(rules)
    ensures Distinct(Put(rules, e))
    ensures forall x :: x in Put(rules, e) ==> x == e || (x in rules && x.pattern != e.pattern)
  {
    if i :| 0 <= i < |rules| && rules[i].pattern == e.pattern {
      PutAt(rules, e, i);
    } else {
      PutNew(rules, e);
    }
  }

  // ----- Batches -----

  /** A combined expression and the targets of its groups. */
  datatype Batch = Batch(patterns: seq<Pattern>, targets: seq<Target>) {
    predicate Ok() { |patterns| == |targets| && 0 < |patterns| <= 99 }

    function Entries(): seq<Entry>
      requires Ok()
    {
      Zip(patterns, targets)
    }
  }

  function Zip(patterns: seq<Pattern>, targets: seq<Target>): seq<Entry>
    requires |patterns| == |targets|
  {
    seq(|patterns|, i requires 0 <= i < |patterns| => Entry(patterns[i], targets[i]))
  }

  /** Matching `(^p1$)|(^p2$)|...`: the number of the group that matched last,
      which is the first alternative that matches. */
  function LastIndex(f: Matching, patterns: seq<Pattern>, path: Path): (g: Option<nat>)
    ensures g.Some? ==> 1 <= g.value <= |patterns|
  {
    if patterns == [] then None
    else if f(patterns[0], path) then Some(1)
    else
      var g := LastIndex(f, patterns[1..], path);
      if g == None then None else Some(g.value + 1)
  }

  predicate AllOk(batches: seq<Batch>) { forall b :: b in batches ==> b.Ok() }

  function Flat(batches: seq<Batch>): seq<Entry>
    requires AllOk(batches)
  {
    if batches == [] then [] else Flat(batches[..|batches| - 1]) + batches[|batches| - 1].Entries()
  }

  lemma {:induction false} GroupIsScan(
    f: Matching, patterns: seq<Pattern>, targets: seq<Target>, path: Path)
    requires |patterns| == |targets|
    ensures var g := LastIndex(f, patterns, path);
      Scan(f, Zip(patterns, targets), path)
      == if g == None then None else Some(Entry(patterns[g.value - 1], targets[g.value - 1]))
  {
    if patterns != [] {
      assert Zip(patterns, targets)[1..] == Zip(patterns[1..], targets[1..]);
      GroupIsScan(f, patterns[1..], targets[1..], path);
    }
  }

  lemma {:induction false} ScanAppend(f: Matching, a: seq<Entry>, b: seq<Entry>, path: Path)
    ensures Scan(f, a + b, path) == if Scan(f, a, path).Some? then Scan(f, a, path) else Scan(f, b, path)
  {
    if a == [] {
      assert a + b == b;
    } else {
      assert (a + b)[1..] == a[1..] + b;
      ScanAppend(f, a[1..], b, path);
    }
  }

  // ----- The router -----

  function Lookup(statics: map<Method, map<Path, Target>>, m: Method, path: Path): Option<Target> {
    if m in statics && path in statics[m] then Some(statics[m][path]) else None
  }

  ghost predicate StaticsOk(statics: map<Method, map<Path, Target>>, log: seq<Reg>) {
    forall m, path {:trigger Lookup(statics, m, path)} :: Lookup(statics, m, path) == LatestStatic(log, m, path)
  }

  function RoutesAt(routes: map<Method, seq<Entry>>, m: Method): seq<Entry> {
    if m in routes then routes[m] else []
  }

  ghost predicate RoutesOk(routes: map<Method, seq<Entry>>, groups: map<(Pattern, Method), nat>, log: seq<Reg>) {
    forall m :: RouteOk(routes, groups, log, m)
  }

  /** One method's rules and their index. */
  ghost predicate RouteOk(
    routes: map<Method, seq<Entry>>, groups: map<(Pattern, Method), nat>, log: seq<Reg>, m: Method)
  {
    && RoutesAt(routes, m) == Rules(log, m)
    && GroupsOk(groups, RoutesAt(routes, m), m)
    && (m in routes ==> routes[m] != [])
  }

  predicate CompiledOk(batches: seq<Batch>, ok: Validity, rules: seq<Entry>) {
    AllOk(batches) && Flat(batches) == Live(ok, rules)
  }

  lemma StaticAdded(statics: map<Method, map<Path, Target>>, log: seq<Reg>, m: Method, path: Path, target: Target)
    requires StaticsOk(statics, log) && m in statics
    ensures StaticsOk(statics[m := statics[m][path := target]], log + [StaticReg(m, path, target)])
  {
    var table := statics[m := statics[m][path := target]];
    assert (log + [StaticReg(m, path, target)])[..|log|] == log;
    forall n, p
      ensures Lookup(table, n, p) == LatestStatic(log + [StaticReg(m, path, target)], n, p)
    {
      assert Lookup(statics, n, p) == LatestStatic(log, n, p);
    }
  }

  lemma StaticsKept(statics: map<Method, map<Path, Target>>, log: seq<Reg>, reg: Reg)
    requires StaticsOk(statics, log) && reg.DynaReg?
    ensures StaticsOk(statics, log + [reg])
  {
    assert (log + [reg])[..|log|] == log;
    forall n, p
      ensures Lookup(statics, n, p) == LatestStatic(log + [reg], n, p)
    {
      assert Lookup(statics, n, p) == LatestStatic(log, n, p);
    }
  }

  lemma RoutesKept(routes: map<Method, seq<Entry>>, groups: map<(Pattern, Method), nat>, log: seq<Reg>, reg: Reg)
    requires RoutesOk(routes, groups, log) && reg.StaticReg?
    ensures RoutesOk(routes, groups, log + [reg])
  {
    assert (log + [reg])[..|log|] == log;
    forall m
      ensures RouteOk(routes, groups, log + [reg], m)
    {
      assert RouteOk(routes, groups, log, m);
    }
  }

  /** Replacing a known pattern's rule. */
  lemma RouteReplaced(
    routes: map<Method, seq<Entry>>, groups: map<(Pattern, Method), nat>, log: seq<Reg>, m: Method, e: Entry)
    requires RoutesOk(routes, groups, log) && (e.pattern, m) in groups
    ensures m in routes && groups[(e.pattern, m)] < |routes[m]|
    ensures RoutesOk(routes[m := routes[m][groups[(e.pattern, m)] := e]],
              groups, log + [DynaReg(m, e.pattern, e.target)])
  {
    var rules, i, log' := RoutesAt(routes, m), groups[(e.pattern, m)], log + [DynaReg(m, e.pattern, e.target)];
    assert RouteOk(routes, groups, log, m);
    GroupsReplace(groups, rules, m, i, e);
    var routes' := routes[m := rules[i := e]];
    forall n
      ensures RouteOk(routes', groups, log', n)
    {
      assert RouteOk(routes, groups, log, n);
      RulesSnoc(log, DynaReg(m, e.pattern, e.target), n);
    }
  }

  /** Appending a rule for a new pattern. */
  lemma RouteAppended(
    routes: map<Method, seq<Entry>>, groups: map<(Pattern, Method), nat>, log: seq<Reg>, m: Method, e: Entry)
    requires RoutesOk(routes, groups, log) && (e.pattern, m) !in groups
    ensures var rules := RoutesAt(routes, m);
      RoutesOk(routes[m := rules + [e]], groups[(e.pattern, m) := |rules|], log + [DynaReg(m, e.pattern, e.target)])
  {
    var rules, log' := RoutesAt(routes, m), log + [DynaReg(m, e.pattern, e.target)];
    var routes', groups' := routes[m := rules + [e]], groups[(e.pattern, m) := |rules|];
    forall n
      ensures RouteOk(routes', groups', log', n)
    {
      assert RouteOk(routes, groups, log, n);
      RulesSnoc(log, DynaReg(m, e.pattern, e.target), n);
      if n == m {
        GroupsAppend(groups, rules, m, e);
      } else {
        GroupsElsewhere(groups, RoutesAt(routes, n), n, (e.pattern, m), |rules|);
      }
    }
  }

  lemma GroupsElsewhere(groups: map<(Pattern, Method), nat>, rules: seq<Entry>, n: Method, g: (Pattern, Method), i: nat)
    requires GroupsOk(groups, rules, n) && g.1 != n
    ensures GroupsOk(groups[g := i], rules, n)
  {
  }

  /** The index of one method's patterns. */
  ghost predicate GroupsOk(groups: map<(Pattern, Method), nat>, rules: seq<Entry>, m: Method) {
    && (forall i :: 0 <= i < |rules| ==> (rules[i].pattern, m) in groups && groups[(rules[i].pattern, m)] == i)
    && (forall p :: (p, m) in groups ==> groups[(p, m)] < |rules| && rules[groups[(p, m)]].pattern == p)
  }

  lemma GroupsReplace(groups: map<(Pattern, Method), nat>, rules: seq<Entry>, m: Method, i: nat, e: Entry)
    requires GroupsOk(groups, rules, m) && (e.pattern, m) in groups && i == groups[(e.pattern, m)]
    ensures i < |rules| && Put(rules, e) == rules[i := e] && GroupsOk(groups, rules[i := e], m)
  {
    PutAt(rules, e, i);
  }

  lemma GroupsAppend(groups: map<(Pattern, Method), nat>, rules: seq<Entry>, m: Method, e: Entry)
    requires GroupsOk(groups, rules, m) && (e.pattern, m) !in groups
    ensures Put(rules, e) == rules + [e] && GroupsOk(groups[(e.pattern, m) := |rules|], rules + [e], m)
  {
    PutNew(rules, e);
  }

  class Router {
    const strictOrder: bool
    const matches: Matching
    /** Which flattened expressions compile inside a combined one. */
    const flatCompiles: Validity
    var groups: map<(Pattern, Method), nat>
    var statics: map<Method, map<Path, Target>>
    var dynaRoutes: map<Method, seq<Entry>>
    var dynaRegexes: map<Method, seq<Batch>>
    /** All accepted registrations so far. */
    ghost var log: seq<Reg>

    ghost predicate Valid()
      reads this
    {
      StaticsOk(statics, log) && RoutesOk(dynaRoutes, groups, log)
      && dynaRegexes.Keys == dynaRoutes.Keys
      && forall m :: m in dynaRegexes ==> CompiledOk(dynaRegexes[m], flatCompiles, dynaRoutes[m])
    }

    constructor (strict: bool, f: Matching, ok: Validity)
      ensures Valid() && log == [] && strictOrder == strict && matches == f && flatCompiles == ok
    {
      strictOrder, matches, flatCompiles := strict, f, ok;
      groups, statics, dynaRoutes, dynaRegexes := map[], map[], map[], map[];
      log := [];
    }

    method Add(rule: Rule, m: Method, target: Target) returns (outcome: AddOutcome)
      requires Valid()
      modifies this
      ensures Valid()
      ensures log == old(log) + Accepted(strictOrder, rule, m, target)
      ensures outcome == if Accepted(strictOrder, rule, m, target) == [] then
                           if Fixed(strictOrder, rule) then RouteBuildError else RouteSyntaxError
                         else if Fixed(strictOrder, rule) || Compiles(flatCompiles, Rules(log, m)) then Added
                         else ReError
    {
      if rule.isStatic && !strictOrder {
        if m !in statics {
          ghost var before := statics;
          statics := statics[m := map[]];
          assert forall n, p :: Lookup(statics, n, p) == Lookup(before, n, p);
        }
        if rule.path == "" {
          return RouteBuildError;
        }
        StaticAdded(statics, log, m, rule.path, target);
        RoutesKept(dynaRoutes, groups, log, StaticReg(m, rule.path, target));
        statics := statics[m := statics[m][rule.path := target]];
        log := log + [StaticReg(m, rule.path, target)];
        return Added;
      }
      if !rule.compiles {
        return RouteSyntaxError;
      }
      StaticsKept(statics, log, DynaReg(m, rule.pattern, target));
      AddDynamic(rule.pattern, m, target);
      assert RouteOk(dynaRoutes, groups, log, m);
      var raised := Compile(m);
      outcome := if raised then ReError else Added;
    }

    /** The table update of `add`, before the expressions are recompiled. */
    method AddDynamic(pattern: Pattern, m: Method, target: Target)
      requires RoutesOk(dynaRoutes, groups, log)
      modifies this`groups, this`dynaRoutes, this`log
      ensures RoutesOk(dynaRoutes, groups, log) && dynaRoutes.Keys == old(dynaRoutes.Keys) + {m}
      ensures log == old(log) + [DynaReg(m, pattern, target)]
      ensures forall n :: n in old(dynaRoutes) && n != m ==> dynaRoutes[n] == old(dynaRoutes)[n]
    {
      var e := Entry(pattern, target);
      if (pattern, m) in groups {
        RouteReplaced(dynaRoutes, groups, log, m, e);
        dynaRoutes := dynaRoutes[m := dynaRoutes[m][groups[(pattern, m)] := e]];
      } else {
        RouteAppended(dynaRoutes, groups, log, m, e);
        var rules := RoutesAt(dynaRoutes, m);
        dynaRoutes := dynaRoutes[m := rules + [e]];
        groups := groups[(pattern, m) := |rules|];
      }
      log := log + [DynaReg(m, pattern, target)];
    }

    /** _compile; `raised` if a combined expression is refused, which leaves the
        batches before it. */
    method Compile(m: Method) returns (raised: bool)
      requires m in dynaRoutes
      modifies this`dynaRegexes
      ensures dynaRegexes.Keys == old(dynaRegexes.Keys) + {m}
      ensures CompiledOk(dynaRegexes[m], flatCompiles, dynaRoutes[m])
      ensures forall n :: n in old(dynaRegexes) && n != m ==> dynaRegexes[n] == old(dynaRegexes)[n]
      ensures raised <==> !Compiles(flatCompiles, dynaRoutes[m])
    {
      var comborules: seq<Batch>;
      comborules, raised := Combine(dynaRoutes[m]);
      dynaRegexes := dynaRegexes[m := comborules];
    }

    /** The loop of _compile. */
    method Combine(allRules: seq<Entry>) returns (comborules: seq<Batch>, raised: bool)
      ensures CompiledOk(comborules, flatCompiles, allRules)
      ensures raised <==> !Compiles(flatCompiles, allRules)
    {
      comborules := [];
      var x := 0;
      while x < |allRules|
        invariant 0 <= x <= |allRules| && (x % 99 == 0 || x == |allRules|)
        invariant x <= FirstBad(flatCompiles, allRules) && BatchesUpTo(comborules, allRules, x)
      {
        var end := if x + 99 < |allRules| then x + 99 else |allRules|;
        if i :| x <= i < end && !flatCompiles(allRules[i].pattern) {
          BadInBatch(flatCompiles, allRules, x, i);
          return comborules, true;
        }
        NextBatch(comborules, allRules, x, end);
        comborules := comborules + [BatchOf(allRules[x..end])];
        x := end;
      }
      raised := false;
    }

    /** The batches of one method, searched in order. */
    method MatchDynamic(m: Method, path: Path) returns (t: Option<Target>)
      requires Valid()
      ensures t == DynamicTarget(matches, flatCompiles, log, m, path)
    {
      assert RouteOk(dynaRoutes, groups, log, m);
      if m !in dynaRegexes {
        return None;
      }
      t := Search(dynaRegexes[m], path);
    }

    method Search(batches: seq<Batch>, path: Path) returns (t: Option<Target>)
      requires AllOk(batches)
      ensures t == TargetOf(Scan(matches, Flat(batches), path))
    {
      var k := 0;
      while k < |batches|
        invariant 0 <= k <= |batches| && AllOk(batches[..k])
        invariant Scan(matches, Flat(batches[..k]), path) == None
      {
        var b := batches[k];
        assert b in batches;
        var g := LastIndex(matches, b.patterns, path);
        FlatNext(matches, batches, k, path);
        GroupIsScan(matches, b.patterns, b.targets, path);
        if g.Some? {
          FlatFound(matches, batches, k + 1, path);
          return Some(b.targets[g.value - 1]);
        }
        k := k + 1;
      }
      assert batches[..k] == batches;
      t := None;
    }

    method Match(verb: Method, given: Path) returns (response: Response)
      requires Valid()
      ensures response == Route(matches, flatCompiles, log, verb, given)
    {
      var path := Effective(given);
      var methods := MethodsFor(verb);
      var i := 0;
      while i < |methods|
        invariant 0 <= i <= |methods|
        invariant FirstTarget(matches, flatCompiles, log, methods, path) ==
                  FirstTarget(matches, flatCompiles, log, methods[i..], path)
      {
        var m := methods[i];
        assert methods[i..][1..] == methods[i + 1..];
        assert Lookup(statics, m, path) == LatestStatic(log, m, path);
        if m in statics && path in statics[m] {
          return Found(statics[m][path]);
        }
        var t := MatchDynamic(m, path);
        if t.Some? {
          return Found(t.value);
        }
        i := i + 1;
      }
      var allowed := Alternatives(verb, methods, path);
      response := if allowed != {} then MethodNotAllowed(allowed) else NotFound;
    }

    /** The Allow header of a 405 response. */
    method Alternatives(verb: Method, methods: seq<Method>, path: Path) returns (allowed: set<Method>)
      requires Valid() && methods == MethodsFor(verb)
      ensures allowed == AllowHeader(matches, flatCompiles, log, verb, path)
    {
      allowed := StaticAlternatives(statics.Keys - Elements(methods), verb, path);
      VerbIsTried(verb);
      var todo := dynaRegexes.Keys - allowed - Elements(methods);
      assert todo == dynaRoutes.Keys - Elements(methods);
      var more := DynamicAlternatives(todo, path);
      allowed := allowed + more;
      HeaderFromTables(matches, flatCompiles, statics, dynaRoutes, groups, log, verb, path);
    }

    /** Its first loop: any hit adds the request's own verb. */
    method StaticAlternatives(others: set<Method>, verb: Method, path: Path) returns (allowed: set<Method>)
      requires others <= statics.Keys
      ensures allowed == if StaticHit(statics, others, path) then {verb} else {}
    {
      allowed := {};
      var todo := others;
      while todo != {}
        invariant todo <= others
        invariant allowed == if StaticHit(statics, others - todo, path) then {verb} else {}
        decreases todo
      {
        var m :| m in todo;
        assert others - (todo - {m}) == others - todo + {m};
        if path in statics[m] {
          allowed := allowed + {verb};
        }
        todo := todo - {m};
      }
      assert others - {} == others;
    }

    /** Its second loop: the methods with a matching dynamic rule. */
    method DynamicAlternatives(others: set<Method>, path: Path) returns (allowed: set<Method>)
      requires Valid()
      ensures allowed == DynamicHits(matches, flatCompiles, log, others, path)
    {
      allowed := {};
      var todo := others;
      while todo != {}
        invariant todo <= others
        invariant allowed == DynamicHits(matches, flatCompiles, log, others - todo, path)
        decreases todo
      {
        var m :| m in todo;
        var t := MatchDynamic(m, path);
        assert others - (todo - {m}) == others - todo + {m};
        if t.Some? {
          allowed := allowed + {m};
        }
        todo := todo - {m};
      }
      assert others - {} == others;
    }
  }

  /** A static rule that goes into the table of static paths. */
  predicate Fixed(strict: bool, rule: Rule) { rule.isStatic && !strict }

  /** What is registered by adding a rule: nothing if it is refused at once. */
  function Accepted(strict: bool, rule: Rule, m: Method, target: Target): seq<Reg> {
    if Fixed(strict, rule) then if rule.path == "" then [] else [StaticReg(m, rule.path, target)]
    else if rule.compiles then [DynaReg(m, rule.pattern, target)] else []
  }

  lemma BatchStart(x: nat, bad: nat)
    requires x % 99 == 0 && x <= bad < x + 99
    ensures bad - bad % 99 == x
  {
  }

  lemma BadInBatch(ok: Validity, rules: seq<Entry>, x: nat, i: nat)
    requires x % 99 == 0 && x <= i < |rules| && i < x + 99 && x <= FirstBad(ok, rules)
    requires !ok(rules[i].pattern)
    ensures LiveCount(ok, rules) == x && !Compiles(ok, rules)
  {
    BatchStart(x, FirstBad(ok, rules));
  }

  /** One combined expression for some rules. */
  function BatchOf(some: seq<Entry>): Batch {
    Batch(seq(|some|, i requires 0 <= i < |some| => some[i].pattern),
          seq(|some|, i requires 0 <= i < |some| => some[i].target))
  }

  predicate BatchesUpTo(batches: seq<Batch>, rules: seq<Entry>, x: nat)
    requires x <= |rules|
  {
    AllOk(batches) && Flat(batches) == rules[..x]
  }

  lemma NextBatch(batches: seq<Batch>, rules: seq<Entry>, x: nat, end: nat)
    requires x < end <= |rules| && end <= x + 99 && BatchesUpTo(batches, rules, x)
    ensures BatchesUpTo(batches + [BatchOf(rules[x..end])], rules, end)
  {
    var batch := BatchOf(rules[x..end]);
    assert (batches + [batch])[..|batches|] == batches;
    assert batch.Entries() == rules[x..end];
    assert rules[..end] == rules[..x] + rules[x..end];
  }

  predicate StaticHit(statics: map<Method, map<Path, Target>>, methods: set<Method>, path: Path) {
    exists m :: m in methods && Lookup(statics, m, path).Some?
  }

  function DynamicHits(f: Matching, ok: Validity, log: seq<Reg>, methods: set<Method>, path: Path): set<Method> {
    set m | m in methods && DynamicTarget(f, ok, log, m, path).Some?
  }

  lemma HeaderFromTables(
    f: Matching, ok: Validity, statics: map<Method, map<Path, Target>>, routes: map<Method, seq<Entry>>,
    groups: map<(Pattern, Method), nat>, log: seq<Reg>, verb: Method, path: Path)
    requires StaticsOk(statics, log) && RoutesOk(routes, groups, log)
    ensures var skip := Elements(MethodsFor(verb));
      AllowHeader(f, ok, log, verb, path)
      == (if StaticHit(statics, statics.Keys - skip, path) then {verb} else {})
         + DynamicHits(f, ok, log, routes.Keys - skip, path)
  {
    var skip := Elements(MethodsFor(verb));
    forall m
      ensures m in statics.Keys && Lookup(statics, m, path).Some?
              <==> m in Known(log) && LatestStatic(log, m, path).Some?
      ensures m in routes && DynamicTarget(f, ok, log, m, path).Some?
              <==> m in Known(log) && DynamicTarget(f, ok, log, m, path).Some?
    {
      assert Lookup(statics, m, path) == LatestStatic(log, m, path);
      assert RouteOk(routes, groups, log, m);
      StaticIsKnown(log, m, path);
      RulesKnown(log, m);
    }
  }

  lemma RulesSnoc(log: seq<Reg>, reg: Reg, m: Method)
    ensures Rules(log + [reg], m)
            == if reg.DynaReg? && reg.m == m then Put(Rules(log, m), Entry(reg.pattern, reg.target)) else Rules(log, m)
  {
    assert (log + [reg])[..|log|] == log;
  }

  lemma FlatNext(f: Matching, batches: seq<Batch>, k: nat, path: Path)
    requires k < |batches| && AllOk(batches)
    ensures AllOk(batches[..k]) && AllOk(batches[..k + 1])
    ensures Scan(f, Flat(batches[..k]), path) == None ==>
              Scan(f, Flat(batches[..k + 1]), path) == Scan(f, batches[k].Entries(), path)
  {
    assert batches[..k + 1][..k] == batches[..k];
    ScanAppend(f, Flat(batches[..k]), batches[k].Entries(), path);
  }

  /** What an initial run of batches finds is what all of them find. */
  lemma {:induction false} FlatFound(f: Matching, batches: seq<Batch>, k: nat, path: Path)
    requires k <= |batches| && AllOk(batches) && AllOk(batches[..k]) && Scan(f, Flat(batches[..k]), path).Some?
    ensures Scan(f, Flat(batches), path) == Scan(f, Flat(batches[..k]), path)
  {
    if k == |batches| {
      assert batches[..k] == batches;
    } else {
      var front := batches[..|batches| - 1];
      assert front[..k] == batches[..k];
      FlatFound(f, front, k, path);
      ScanAppend(f, Flat(front), batches[|batches| - 1].Entries(), path);
    }
  }

  lemma {:induction false} StaticIsKnown(log: seq<Reg>, m: Method, path: Path)
    ensures LatestStatic(log, m, path).Some? ==> m in Known(log)
    ensures LatestStatic(log, m, path).Some? <==> exists r :: r in log && r.StaticReg? && r.m == m && r.path == path
  {
    if log != [] {
      var front, last := log[..|log| - 1], log[|log| - 1];
      StaticIsKnown(front, m, path);
      assert log == front + [last];
    }
  }

  lemma {:induction false} RulesKnown(log: seq<Reg>, m: Method)
    ensures Rules(log, m) != [] ==> m in Known(log)
  {
    if log != [] {
      RulesKnown(log[..|log| - 1], m);
      assert log[|log| - 1] in log;
    }
  }

  // ----- Results -----

  /** With every expression compiled, a method answers what its registrations
      promise. */
  lemma CompiledKeepsPromise(f: Matching, ok: Validity, log: seq<Reg>, m: Method, path: Path)
    requires Compiles(ok, Rules(log, m))
    ensures DynamicTarget(f, ok, log, m, path) == Promised(f, log, m, path)
  {
    assert Live(ok, Rules(log, m)) == Rules(log, m);
    ScanIsPromised(f, log, m, path);
  }

  lemma {:induction false} ScanFinds(f: Matching, rules: seq<Entry>, path: Path)
    ensures Scan(f, rules, path).Some? <==> exists e :: e in rules && f(e.pattern, path)
  {
    if rules != [] {
      ScanFinds(f, rules[1..], path);
      assert rules == [rules[0]] + rules[1..];
    }
  }

  /** In general, exactly if nothing is promised or some rule compiled before the
      first refused batch matches. */
  lemma PromiseKeptExactly(f: Matching, ok: Validity, log: seq<Reg>, m: Method, path: Path)
    ensures DynamicTarget(f, ok, log, m, path) == Promised(f, log, m, path)
            <==> Promised(f, log, m, path) == None || exists e :: e in Live(ok, Rules(log, m)) && f(e.pattern, path)
  {
    var rules, n := Rules(log, m), LiveCount(ok, Rules(log, m));
    ScanIsPromised(f, log, m, path);
    assert rules == rules[..n] + rules[n..];
    ScanAppend(f, rules[..n], rules[n..], path);
    ScanFinds(f, rules[..n], path);
  }

  /** A rule whose flattened expression is refused hides the rules after it. */
  lemma RefusedHides()
    ensures var f: Matching, ok: Validity := (q, p) => q == "good", q => q != "bad";
      var log := [DynaReg("GET", "bad", 1), DynaReg("GET", "good", 2)];
      Promised(f, log, "GET", "/") == Some(2) && DynamicTarget(f, ok, log, "GET", "/") == None
  {
    var f: Matching, ok: Validity := (q, p) => q == "good", q => q != "bad";
    var one: seq<Reg> := [DynaReg("GET", "bad", 1)];
    var log := one + [DynaReg("GET", "good", 2)];
    assert log == [DynaReg("GET", "bad", 1), DynaReg("GET", "good", 2)] && log[..1] == one && one[..0] == [];
    assert Rules(one, "GET") == [Entry("bad", 1)];
    assert [Entry("bad", 1)][1..] == [];
    assert Rules(log, "GET") == [Entry("bad", 1), Entry("good", 2)];
    assert Live(ok, Rules(log, "GET")) == [];
  }

  /** Some accepted registration of method `m` is in its table and matches. */
  predicate Matches(f: Matching, ok: Validity, log: seq<Reg>, m: Method, path: Path) {
    || (exists r :: r in log && r.StaticReg? && r.m == m && r.path == path)
    || (exists e :: e in Live(ok, Rules(log, m)) && f(e.pattern, path))
  }

  /** With every expression compiled that is: some accepted registration matches. */
  lemma MatchesRegistered(f: Matching, ok: Validity, log: seq<Reg>, m: Method, path: Path)
    requires Compiles(ok, Rules(log, m))
    ensures Matches(f, ok, log, m, path) <==>
              exists r :: r in log && r.m == m && if r.StaticReg? then r.path == path else f(r.pattern, path)
  {
    assert Live(ok, Rules(log, m)) == Rules(log, m);
    ScanFinds(f, Rules(log, m), path);
    RulesAre(f, log, m, path);
    EarliestExactly(f, log, m, path);
  }

  lemma {:induction false} EarliestExactly(f: Matching, log: seq<Reg>, m: Method, path: Path)
    ensures Earliest(f, log, m, path).Some? <==>
              exists r :: r in log && r.DynaReg? && r.m == m && f(r.pattern, path)
  {
    if log != [] {
      var front, last := log[..|log| - 1], log[|log| - 1];
      EarliestExactly(f, front, m, path);
      assert log == front + [last];
    }
  }

  lemma MatchesExactly(f: Matching, ok: Validity, log: seq<Reg>, m: Method, path: Path)
    ensures MethodTarget(f, ok, log, m, path).Some? <==> Matches(f, ok, log, m, path)
    ensures Matches(f, ok, log, m, path) ==> m in Known(log)
  {
    StaticIsKnown(log, m, path);
    RulesKnown(log, m);
    ScanFinds(f, Live(ok, Rules(log, m)), path);
  }

  lemma {:induction false} FirstTargetExactly(
    f: Matching, ok: Validity, log: seq<Reg>, methods: seq<Method>, path: Path)
    ensures FirstTarget(f, ok, log, methods, path).Some? <==>
              exists m :: m in methods && Matches(f, ok, log, m, path)
  {
    if methods != [] {
      MatchesExactly(f, ok, log, methods[0], path);
      FirstTargetExactly(f, ok, log, methods[1..], path);
      assert methods == [methods[0]] + methods[1..];
    }
  }

  /** The header is empty exactly if no method that was not tried has a match. */
  lemma HeaderEmptyExactly(f: Matching, ok: Validity, log: seq<Reg>, verb: Method, path: Path)
    ensures AllowHeader(f, ok, log, verb, path) == {} <==>
              forall m :: m !in MethodsFor(verb) ==> !Matches(f, ok, log, m, path)
  {
    forall m
      ensures Matches(f, ok, log, m, path) <==>
                LatestStatic(log, m, path).Some? || DynamicTarget(f, ok, log, m, path).Some?
      ensures Matches(f, ok, log, m, path) ==> m in Known(log)
    {
      MatchesExactly(f, ok, log, m, path);
    }
    if m :| m !in MethodsFor(verb) && Matches(f, ok, log, m, path) {
      assert m in Known(log) - Elements(MethodsFor(verb));
      assert LatestStatic(log, m, path).Some? ==> verb in AllowHeader(f, ok, log, verb, path);
      assert DynamicTarget(f, ok, log, m, path).Some? ==> m in AllowHeader(f, ok, log, verb, path);
    }
  }

  /** 404 exactly when no method has a matching rule; a target exactly when one
      of the methods tried has. */
  lemma NotFoundExactly(f: Matching, ok: Validity, log: seq<Reg>, verb: Method, given: Path)
    ensures Route(f, ok, log, verb, given) == NotFound <==> forall m :: !Matches(f, ok, log, m, Effective(given))
    ensures Route(f, ok, log, verb, given).Found? <==>
              exists m :: m in MethodsFor(verb) && Matches(f, ok, log, m, Effective(given))
  {
    FirstTargetExactly(f, ok, log, MethodsFor(verb), Effective(given));
    HeaderEmptyExactly(f, ok, log, verb, Effective(given));
  }

  /** The Allow header names the methods that would have matched exactly when none
      of them matched a static rule: those put the refused verb in instead. */
  lemma AllowExactly(f: Matching, ok: Validity, log: seq<Reg>, verb: Method, given: Path)
    requires Route(f, ok, log, verb, given).MethodNotAllowed?
    ensures (forall m :: m in Route(f, ok, log, verb, given).allow <==> Matches(f, ok, log, m, Effective(given)))
            <==> (forall m :: m !in MethodsFor(verb) ==> LatestStatic(log, m, Effective(given)) == None)
  {
    var path := Effective(given);
    var allow := AllowHeader(f, ok, log, verb, path);
    FirstTargetExactly(f, ok, log, MethodsFor(verb), path);
    forall m
      ensures Matches(f, ok, log, m, path) <==>
                LatestStatic(log, m, path).Some? || DynamicTarget(f, ok, log, m, path).Some?
      ensures Matches(f, ok, log, m, path) ==> m in Known(log)
    {
      MatchesExactly(f, ok, log, m, path);
    }
    VerbIsTried(verb);
    if m :| m !in MethodsFor(verb) && LatestStatic(log, m, path).Some? {
      assert m in Known(log) - Elements(MethodsFor(verb));
      assert verb in allow && !Matches(f, ok, log, verb, path);
    }
  }

  lemma VerbIsTried(verb: Method)
    ensures verb in MethodsFor(verb)
  {
    assert MethodsFor(verb)[1] == verb;
  }

  /** A GET of a static path registered for POST is told to use GET. */
  lemma WrongAllowHeader()
    ensures var f: Matching, ok: Validity := (q, p) => false, q => true;
      Route(f, ok, [StaticReg("POST", "/a", 1)], "GET", "/a") == MethodNotAllowed({"GET"})
  {
    var f: Matching, ok: Validity := (q, p) => false, q => true;
    var log: seq<Reg> := [StaticReg("POST", "/a", 1)];
    forall m
      ensures Rules(log, m) == [] && (LatestStatic(log, m, "/a").Some? <==> m == "POST")
    {
      assert log[..0] == [];
      assert Rules(log[..0], m) == [] && LatestStatic(log[..0], m, "/a") == None;
    }
    assert FirstTarget(f, ok, log, MethodsFor("GET"), "/a") == None by {
      FirstTargetExactly(f, ok, log, MethodsFor("GET"), "/a");
      assert "POST" !in MethodsFor("GET");
    }
    assert AllowHeader(f, ok, log, "GET", "/a") == {"GET"} by {
      assert log[0] in log && "POST" in Known(log) - Elements(MethodsFor("GET"));
    }
  }
}
