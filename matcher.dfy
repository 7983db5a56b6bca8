/** The request-routing decision procedure: `has`/`missing` conditions,
    config-header injection, first-match rewrites, the trailing-slash and
    rule-based redirects, `_next/data` normalisation and the `fallback: false`
    404 rewrite.

    Regular expressions, `path-to-regexp`'s `match`/`compile`, URL parsing
    and the helpers of the routing `util` module are not interpreted: they
    are the fields of a `Lib` value every operation receives. */
module Matcher {
  import opened Common
  import opened OpenNextTypes

  /** Parameters bound by a `path-to-regexp` match. */
  type Params = map<string, string>

  datatype UrlParts = UrlParts(pathname: Option<string>, protocol: string, hostname: string)

  datatype Lib = Lib(
    /** `new RegExp(pattern).test(input)` */
    regexTest: (string, string) -> bool,
    /** `new URL(url, "http://localhost").host` */
    urlHost: string -> string,
    /** `match(source)(path)`: the bound parameters, or no match */
    pathMatch: (string, string) -> Option<Params>,
    /** `compile(template)` does not throw */
    compiles: string -> bool,
    /** `compile(template)(params)`, `None` when it throws */
    toPath: (string, Params) -> Option<string>,
    isExternal: Option<string> -> bool,
    getUrlParts: (string, bool) -> UrlParts,
    escapeRegex: string -> string,
    unescapeRegex: string -> string,
    /** `convertToQueryString(query)`: `""` or `?` followed by the query */
    queryString: Query -> string)

  datatype I18n = I18n(locales: seq<string>, defaultLocale: string)

  /** The parts of the Next.js configuration the matcher reads. */
  datatype RoutingConfig = RoutingConfig(
    trailingSlash: bool,
    skipTrailingSlashRedirect: bool,
    i18n: Option<I18n>)

  /** The value of a condition: normally one pattern; the query case also
      accepts a list of patterns. */
  datatype HasValue = Pattern(p: string) | Patterns(ps: seq<string>)

  /** One `has`/`missing` condition; `kind` is `header`, `cookie`, `query`,
      `host` or anything else. */
  datatype RouteHas = RouteHas(kind: string, key: string, value: Option<HasValue>)

  /** A rewrite or redirect rule; `internal` and `statusCode` only matter for
      redirects. */
  datatype Rule = Rule(
    source: string,
    destination: string,
    regex: string,
    has: Option<seq<RouteHas>>,
    missing: Option<seq<RouteHas>>,
    internal: bool,
    statusCode: Option<int>)

  datatype HeaderPair = HeaderPair(key: string, value: string)

  datatype HeaderRule = HeaderRule(
    source: string,
    regex: string,
    has: Option<seq<RouteHas>>,
    missing: Option<seq<RouteHas>>,
    headers: seq<HeaderPair>)

  datatype DynamicRoute = DynamicRoute(fallbackIsFalse: bool, routeRegex: string)

  datatype PrerenderManifest = PrerenderManifest(
    dynamicRoutes: seq<DynamicRoute>,
    routes: set<string>)

  datatype RewriteResult = RewriteResult(
    internalEvent: InternalEvent,
    rewrite: Option<Rule>,
    isExternalRewrite: bool)

  /** What `fixDataPage` returns: the event to continue with, or a response. */
  datatype EventOrResult = Continue(event: InternalEvent) | Respond(result: InternalResult)

  // ---------------------------------------------------------------------------
  // Conditions
  // ---------------------------------------------------------------------------

  /** The text `new RegExp(value ?? "")` compiles: a list is joined with `,`. */
  function PatternText(v: Option<HasValue>): string {
    if v.None? then ""
    else if v.value.Pattern? then v.value.p
    else Join(v.value.ps, ",")
  }

  /** The text a regular expression sees for a query value. */
  function QueryText(v: QueryValue): string {
    match v
    case Single(s) => s
    case Multi(items) => Join(items, ",")
  }

  predicate QueryTruthy(v: QueryValue) {
    v.Single? ==> v.s != ""
  }

  /** `routeHasMatcher(headers, cookies, query)(c)`. A missing `host` header
      is tested as the text `undefined`, which is what `RegExp.test` does. */
  predicate ConditionHolds(lib: Lib, ev: InternalEvent, c: RouteHas) {
    if c.kind == "header" then
      var k := Lower(c.key);
      k in ev.headers && ev.headers[k] != "" && lib.regexTest(PatternText(c.value), ev.headers[k])
    else if c.kind == "cookie" then
      c.key in ev.cookies && Truthy(ev.cookies[c.key]) &&
      lib.regexTest(PatternText(c.value), ev.cookies[c.key].value)
    else if c.kind == "query" then
      if c.key in ev.query && QueryTruthy(ev.query[c.key]) && c.value.Some? && c.value.value.Patterns? then
        exists i :: 0 <= i < |c.value.value.ps| &&
          lib.regexTest(c.value.value.ps[i], QueryText(ev.query[c.key]))
      else
        lib.regexTest(PatternText(c.value), if c.key in ev.query then QueryText(ev.query[c.key]) else "")
    else if c.kind == "host" then
      if "host" in ev.headers then
        ev.headers["host"] != "" && lib.regexTest(PatternText(c.value), ev.headers["host"])
      else lib.regexTest(PatternText(c.value), "undefined")
    else false
  }

  /** The outcomes of a condition: a header or cookie that is absent or
      empty fails, a header without a value tests the empty pattern, an
      empty `host` fails, and an unknown kind fails. */
  lemma ConditionOutcomes(lib: Lib, ev: InternalEvent, c: RouteHas)
    ensures c.kind == "header" && !Truthy(Lookup(ev.headers, Lower(c.key))) ==> !ConditionHolds(lib, ev, c)
    ensures c.kind == "header" && Truthy(Lookup(ev.headers, Lower(c.key))) && c.value.None? ==>
              (ConditionHolds(lib, ev, c) <==> lib.regexTest("", ev.headers[Lower(c.key)]))
    ensures c.kind == "cookie" && !(c.key in ev.cookies && Truthy(ev.cookies[c.key])) ==> !ConditionHolds(lib, ev, c)
    ensures c.kind == "cookie" && c.key in ev.cookies && Truthy(ev.cookies[c.key]) ==>
              (ConditionHolds(lib, ev, c) <==> lib.regexTest(PatternText(c.value), ev.cookies[c.key].value))
    ensures c.kind == "host" && Lookup(ev.headers, "host") == Some("") ==> !ConditionHolds(lib, ev, c)
    ensures c.kind !in {"header", "cookie", "query", "host"} ==> !ConditionHolds(lib, ev, c)
  {
  }

  /** The `reduce` of `checkHas`: once the accumulator is false it stays false;
      otherwise it becomes the (possibly negated) test of the next condition. */
  function HasFold(lib: Lib, ev: InternalEvent, acc: bool, conds: seq<RouteHas>, inverted: bool): bool
    decreases |conds|
  {
    if conds == [] then acc
    else
      var next := if !acc then false
                  else if inverted then !ConditionHolds(lib, ev, conds[0])
                  else ConditionHolds(lib, ev, conds[0]);
      HasFold(lib, ev, next, conds[1..], inverted)
  }

  lemma {:induction false} HasFoldIsConjunction(lib: Lib, ev: InternalEvent, acc: bool, conds: seq<RouteHas>, inverted: bool)
    ensures HasFold(lib, ev, acc, conds, inverted) <==>
            acc && forall i :: 0 <= i < |conds| ==> ConditionHolds(lib, ev, conds[i]) != inverted
    decreases |conds|
  {
    if conds != [] {
      var next := acc && ConditionHolds(lib, ev, conds[0]) != inverted;
      HasFoldIsConjunction(lib, ev, next, conds[1..], inverted);
      var rest := conds[1..];
      assert (forall i :: 0 <= i < |conds| ==> ConditionHolds(lib, ev, conds[i]) != inverted) <==>
             ConditionHolds(lib, ev, conds[0]) != inverted &&
             (forall i :: 0 <= i < |rest| ==> ConditionHolds(lib, ev, rest[i]) != inverted)
      by {
        assert forall i :: 0 <= i < |rest| ==> rest[i] == conds[i + 1];
      }
    }
  }

  /** A false accumulator is never revived by later conditions. */
  lemma {:induction false} HasFoldStaysFalse(lib: Lib, ev: InternalEvent, conds: seq<RouteHas>, inverted: bool)
    ensures !HasFold(lib, ev, false, conds, inverted)
    decreases |conds|
  {
    if conds != [] {
      HasFoldStaysFalse(lib, ev, conds[1..], inverted);
    }
  }

  /** `checkHas(matcher, has, inverted)`: an absent list passes; otherwise every
      condition must hold (`has`) or every condition must fail (`missing`). */
  function CheckHas(lib: Lib, ev: InternalEvent, has: Option<seq<RouteHas>>, inverted: bool): (r: bool)
    ensures has.None? ==> r
    ensures has.Some? ==> (r <==> forall i :: 0 <= i < |has.value| ==>
                                    ConditionHolds(lib, ev, has.value[i]) != inverted)
  {
    if has.None? then true
    else
      HasFoldIsConjunction(lib, ev, true, has.value, inverted);
      HasFold(lib, ev, true, has.value, inverted)
  }

  /** The test every rule table applies: the rule's regex matches `rawPath`,
      its `has` conditions hold and its `missing` conditions fail. */
  predicate RuleApplies(lib: Lib, ev: InternalEvent, regex: string,
                        has: Option<seq<RouteHas>>, missing: Option<seq<RouteHas>>)
  {
    lib.regexTest(regex, ev.rawPath) && CheckHas(lib, ev, has, false) && CheckHas(lib, ev, missing, true)
  }

  // ---------------------------------------------------------------------------
  // Config headers
  // ---------------------------------------------------------------------------

  /** `convertMatch`: substitute the bound parameters when there are any,
      otherwise keep the literal template; `None` when substitution throws. */
  function ConvertMatch(lib: Lib, m: Option<Params>, template: string): (r: Option<string>)
    ensures (m.None? || |m.value| == 0) ==> r == Some(template)
  {
    if m.Some? && |m.value| > 0 then lib.toPath(template, m.value) else Some(template)
  }

  /** The pair one `try` block writes: the substituted key and value, or the
      literal key and value when compiling or substituting either throws. */
  function HeaderEntry(lib: Lib, m: Option<Params>, h: HeaderPair): (string, string)
  {
    if lib.compiles(h.key) && lib.compiles(h.value) then
      var k := ConvertMatch(lib, m, h.key);
      var v := ConvertMatch(lib, m, h.value);
      if k.Some? && v.Some? then (k.value, v.value) else (h.key, h.value)
    else (h.key, h.value)
  }

  function HeaderEntries(lib: Lib, m: Option<Params>, hs: seq<HeaderPair>): (r: seq<(string, string)>)
    ensures |r| == |hs|
    ensures forall j :: 0 <= j < |hs| ==> r[j] == HeaderEntry(lib, m, hs[j])
  {
    seq(|hs|, j requires 0 <= j < |hs| => HeaderEntry(lib, m, hs[j]))
  }

  /** What one rule contributes, each entry written once. */
  function ApplyHeaderRule(lib: Lib, ev: InternalEvent, acc: map<string, string>, rule: HeaderRule): map<string, string>
  {
    if RuleApplies(lib, ev, rule.regex, rule.has, rule.missing) then
      WriteAll(acc, HeaderEntries(lib, lib.pathMatch(rule.source, ev.rawPath), rule.headers))
    else acc
  }

  /** The request headers the rules in `rules` add, applied in declaration order. */
  function ConfigHeaders(lib: Lib, ev: InternalEvent, rules: seq<HeaderRule>): map<string, string>
  {
    if rules == [] then map[]
    else ApplyHeaderRule(lib, ev, ConfigHeaders(lib, ev, rules[..|rules| - 1]), rules[|rules| - 1])
  }

  /** `addNextConfigHeaders`. The source writes each entry twice (two identical
      `try` blocks); the result is that of writing it once. */
  method AddNextConfigHeaders(lib: Lib, ev: InternalEvent, configHeaders: Option<seq<HeaderRule>>)
    returns (requestHeaders: map<string, string>)
    ensures configHeaders.None? ==> requestHeaders == map[]
    ensures configHeaders.Some? ==> requestHeaders == ConfigHeaders(lib, ev, configHeaders.value)
  {
    requestHeaders := map[];
    if configHeaders.None? {
      return;
    }
    var rules := configHeaders.value;
    var i := 0;
    while i < |rules|
      invariant 0 <= i <= |rules|
      invariant requestHeaders == ConfigHeaders(lib, ev, rules[..i])
    {
      var rule := rules[i];
      assert rules[..i + 1][..i] == rules[..i];
      if lib.regexTest(rule.regex, ev.rawPath) && CheckHas(lib, ev, rule.has, false) && CheckHas(lib, ev, rule.missing, true) {
        var m := lib.pathMatch(rule.source, ev.rawPath);
        ghost var entries := HeaderEntries(lib, m, rule.headers);
        ghost var before := requestHeaders;
        var j := 0;
        while j < |rule.headers|
          invariant 0 <= j <= |rule.headers|
          invariant requestHeaders == WriteAll(before, entries[..j])
        {
          var h := rule.headers[j];
          var e := HeaderEntry(lib, m, h);
          requestHeaders := requestHeaders[e.0 := e.1];
          // the duplicated block writes the same pair again
          e := HeaderEntry(lib, m, h);
          requestHeaders := requestHeaders[e.0 := e.1];
          assert entries[..j + 1][..j] == entries[..j];
          j := j + 1;
        }
        assert entries[..j] == entries;
      }
      i := i + 1;
    }
    assert rules[..i] == rules;
  }

  /** A rule that does not apply adds nothing. */
  lemma NonMatchingHeaderRuleAddsNothing(lib: Lib, ev: InternalEvent, rules: seq<HeaderRule>, rule: HeaderRule)
    requires !RuleApplies(lib, ev, rule.regex, rule.has, rule.missing)
    ensures ConfigHeaders(lib, ev, rules + [rule]) == ConfigHeaders(lib, ev, rules)
  {
    assert (rules + [rule])[..|rules|] == rules;
  }

  /** The value of a header key is the one written by the last applicable rule
      that writes it; earlier rules lose. */
  lemma {:induction false} LaterHeaderRuleWins(lib: Lib, ev: InternalEvent, rules: seq<HeaderRule>, i: nat, j: nat)
    requires i < |rules| && j < |rules[i].headers|
    requires RuleApplies(lib, ev, rules[i].regex, rules[i].has, rules[i].missing)
    requires var m := lib.pathMatch(rules[i].source, ev.rawPath);
             forall j' :: j < j' < |rules[i].headers| ==>
               HeaderEntry(lib, m, rules[i].headers[j']).0 != HeaderEntry(lib, m, rules[i].headers[j]).0
    requires var k := HeaderEntry(lib, lib.pathMatch(rules[i].source, ev.rawPath), rules[i].headers[j]).0;
             forall i' :: i < i' < |rules| && RuleApplies(lib, ev, rules[i'].regex, rules[i'].has, rules[i'].missing) ==>
               forall j' :: 0 <= j' < |rules[i'].headers| ==>
                 HeaderEntry(lib, lib.pathMatch(rules[i'].source, ev.rawPath), rules[i'].headers[j']).0 != k
    ensures var e := HeaderEntry(lib, lib.pathMatch(rules[i].source, ev.rawPath), rules[i].headers[j]);
            e.0 in ConfigHeaders(lib, ev, rules) && ConfigHeaders(lib, ev, rules)[e.0] == e.1
    decreases |rules|
  {
    var n := |rules| - 1;
    var last := rules[n];
    var m := lib.pathMatch(last.source, ev.rawPath);
    var prev := ConfigHeaders(lib, ev, rules[..n]);
    var e := HeaderEntry(lib, lib.pathMatch(rules[i].source, ev.rawPath), rules[i].headers[j]);
    if i == n {
      var entries := HeaderEntries(lib, m, last.headers);
      WriteAllLastWins(prev, entries, e.0);
    } else {
      LaterHeaderRuleWins(lib, ev, rules[..n], i, j);
      if RuleApplies(lib, ev, last.regex, last.has, last.missing) {
        var entries := HeaderEntries(lib, m, last.headers);
        WriteAllLastWins(prev, entries, e.0);
      }
    }
  }

  // ---------------------------------------------------------------------------
  // Rewrites
  // ---------------------------------------------------------------------------

  predicate RewriteApplies(lib: Lib, ev: InternalEvent, r: Rule) {
    RuleApplies(lib, ev, r.regex, r.has, r.missing)
  }

  /** `rewrites.find(...)` from position `from` on: the index of the first rule
      that applies. */
  function FindRule(lib: Lib, ev: InternalEvent, rules: seq<Rule>, from: nat): (r: Option<nat>)
    requires from <= |rules|
    ensures r.Some? ==> from <= r.value < |rules| && RewriteApplies(lib, ev, rules[r.value]) &&
                        forall j :: from <= j < r.value ==> !RewriteApplies(lib, ev, rules[j])
    ensures r.None? ==> forall j :: from <= j < |rules| ==> !RewriteApplies(lib, ev, rules[j])
    decreases |rules| - from
  {
    if from == |rules| then None
    else if RewriteApplies(lib, ev, rules[from]) then Some(from)
    else FindRule(lib, ev, rules, from + 1)
  }

  /** The compiled destination of a rule: its path, escaped. */
  function Template(lib: Lib, rule: Rule): string {
    lib.escapeRegex(lib.getUrlParts(rule.destination, lib.isExternal(Some(rule.destination))).pathname.GetOr(""))
  }

  /** What the rule's escaped source binds on the event's path, if it matches. */
  function SourceMatch(lib: Lib, ev: InternalEvent, rule: Rule): Option<Params> {
    lib.pathMatch(lib.escapeRegex(rule.source), ev.rawPath)
  }

  /** `handleRewrites`. The first applicable rule is selected; `rawPath` becomes
      its destination (with the bound parameters substituted when there are
      any), and `url` is always recomputed from `rawPath` and the query.
      `compile` and the substitution are not guarded in the source, so their
      failure is an `Err`. */
  function HandleRewrites(lib: Lib, ev: InternalEvent, rules: seq<Rule>): (r: Result<RewriteResult, string>)
    ensures r.Ok? ==>
              r.value.internalEvent ==
                ev.(rawPath := r.value.internalEvent.rawPath,
                    url := r.value.internalEvent.rawPath + lib.queryString(ev.query))
    ensures FindRule(lib, ev, rules, 0).None? ==>
              r.Ok? && r.value.rewrite.None? && r.value.internalEvent.rawPath == ev.rawPath
    ensures r.Ok? ==> r.value.rewrite == (var k := FindRule(lib, ev, rules, 0);
                                          if k.Some? then Some(rules[k.value]) else None)
    ensures var k := FindRule(lib, ev, rules, 0);
            k.Some? ==>
              (r.Ok? <==>
                 lib.compiles(Template(lib, rules[k.value])) &&
                 (var m := SourceMatch(lib, ev, rules[k.value]);
                  m.None? || |m.value| == 0 || lib.toPath(Template(lib, rules[k.value]), m.value).Some?))
    ensures var k := FindRule(lib, ev, rules, 0);
            k.Some? && SourceMatch(lib, ev, rules[k.value]).None? && r.Ok? ==>
              r.value.internalEvent.rawPath == ev.rawPath
    ensures var k := FindRule(lib, ev, rules, 0);
            k.Some? && r.Ok? ==> r.value.isExternalRewrite == lib.isExternal(Some(rules[k.value].destination))
    ensures FindRule(lib, ev, rules, 0).None? ==> r.Ok? && r.value.isExternalRewrite == lib.isExternal(None)
  {
    var k := FindRule(lib, ev, rules, 0);
    var rewrite := if k.Some? then Some(rules[k.value]) else None;
    var isExternalRewrite := lib.isExternal(if k.Some? then Some(rules[k.value].destination) else None);
    if k.None? then
      Ok(RewriteResult(ev.(url := ev.rawPath + lib.queryString(ev.query)), None, isExternalRewrite))
    else
      var rule := rules[k.value];
      var parts := lib.getUrlParts(rule.destination, isExternalRewrite);
      var template := Template(lib, rule);
      if !lib.compiles(template) then Err("compile")
      else
        var m := SourceMatch(lib, ev, rule);
        var rewritten :=
          if m.None? then Ok(ev.rawPath)
          else if |m.value| > 0 then
            match lib.toPath(template, m.value)
            case None => Err("compile")
            case Some(p) =>
              var path := lib.unescapeRegex(p);
              Ok(if isExternalRewrite then parts.protocol + "//" + parts.hostname + path else path)
          else Ok(rule.destination);
        match rewritten
        case Err(e) => Err(e)
        case Ok(url) =>
          Ok(RewriteResult(ev.(rawPath := url, url := url + lib.queryString(ev.query)), rewrite, isExternalRewrite))
  }

  /** A selected rule whose source binds no parameter rewrites to its literal
      destination. */
  lemma RewriteWithoutParams(lib: Lib, ev: InternalEvent, rules: seq<Rule>, k: nat)
    requires FindRule(lib, ev, rules, 0) == Some(k)
    requires lib.compiles(lib.escapeRegex(lib.getUrlParts(rules[k].destination,
               lib.isExternal(Some(rules[k].destination))).pathname.GetOr("")))
    requires lib.pathMatch(lib.escapeRegex(rules[k].source), ev.rawPath) == Some(map[])
    ensures HandleRewrites(lib, ev, rules).Ok?
    ensures HandleRewrites(lib, ev, rules).value.internalEvent.rawPath == rules[k].destination
  {
  }

  /** A selected external rule whose source binds parameters rewrites to the
      destination's protocol and host followed by the substituted path. */
  lemma ExternalRewriteWithParams(lib: Lib, ev: InternalEvent, rules: seq<Rule>, k: nat, params: Params, p: string)
    requires FindRule(lib, ev, rules, 0) == Some(k)
    requires lib.isExternal(Some(rules[k].destination))
    requires var template := lib.escapeRegex(lib.getUrlParts(rules[k].destination, true).pathname.GetOr(""));
             lib.compiles(template) && lib.toPath(template, params) == Some(p)
    requires lib.pathMatch(lib.escapeRegex(rules[k].source), ev.rawPath) == Some(params) && |params| > 0
    ensures HandleRewrites(lib, ev, rules).Ok?
    ensures var parts := lib.getUrlParts(rules[k].destination, true);
            HandleRewrites(lib, ev, rules).value.internalEvent.rawPath ==
              parts.protocol + "//" + parts.hostname + lib.unescapeRegex(p)
  {
  }

  /** A selected internal rule whose source binds parameters rewrites to the
      unescaped substituted path. */
  lemma InternalRewriteWithParams(lib: Lib, ev: InternalEvent, rules: seq<Rule>, k: nat, params: Params, p: string)
    requires FindRule(lib, ev, rules, 0) == Some(k)
    requires !lib.isExternal(Some(rules[k].destination))
    requires lib.compiles(Template(lib, rules[k])) && lib.toPath(Template(lib, rules[k]), params) == Some(p)
    requires SourceMatch(lib, ev, rules[k]) == Some(params) && |params| > 0
    ensures HandleRewrites(lib, ev, rules).Ok?
    ensures HandleRewrites(lib, ev, rules).value.internalEvent.rawPath == lib.unescapeRegex(p)
  {
  }

  /** A request whose `url` is already its path and query, and that no rule
      matches, passes through field for field. */
  lemma RewriteIdempotentWhenNoRuleMatches(lib: Lib, ev: InternalEvent, rules: seq<Rule>)
    requires forall j :: 0 <= j < |rules| ==> !RewriteApplies(lib, ev, rules[j])
    requires ev.url == ev.rawPath + lib.queryString(ev.query)
    ensures HandleRewrites(lib, ev, rules) == Ok(RewriteResult(ev, None, lib.isExternal(None)))
  {
  }

  // ---------------------------------------------------------------------------
  // Redirects
  // ---------------------------------------------------------------------------

  /** The file-like test `/[\w-]+\.[\w]+$/`, computed from the end of the path:
      a non-empty run of word characters, preceded by `.`, preceded by a word
      character or `-`. */
  function TrailingWordRun(p: string): (n: nat)
    ensures n <= |p|
    ensures forall j :: |p| - n <= j < |p| ==> IsWordChar(p[j])
    ensures n < |p| ==> !IsWordChar(p[|p| - n - 1])
  {
    if p == [] || !IsWordChar(p[|p| - 1]) then 0 else TrailingWordRun(p[..|p| - 1]) + 1
  }

  predicate IsFileLike(p: string) {
    var n := TrailingWordRun(p);
    n >= 1 && n + 2 <= |p| && p[|p| - n - 1] == '.' &&
    (IsWordChar(p[|p| - n - 2]) || p[|p| - n - 2] == '-')
  }

  /** A `.` with a word character or `-` before it and only word characters,
      at least one, after it: the regular expression read directly. */
  predicate ExtensionAt(p: string, d: int) {
    1 <= d < |p| - 1 && p[d] == '.' && (IsWordChar(p[d - 1]) || p[d - 1] == '-') &&
    forall j :: d < j < |p| ==> IsWordChar(p[j])
  }

  /** The computed test agrees with the regular expression read directly. */
  lemma FileLikeMeansExtension(p: string)
    ensures IsFileLike(p) ==> ExtensionAt(p, |p| - TrailingWordRun(p) - 1)
    ensures forall d :: ExtensionAt(p, d) ==> IsFileLike(p) && d == |p| - TrailingWordRun(p) - 1
  {
    var n := TrailingWordRun(p);
    forall d | ExtensionAt(p, d)
      ensures IsFileLike(p) && d == |p| - n - 1
    {
      assert !IsWordChar(p[d]);
    }
  }

  /** `url.split("?")[1] ? "?" + it : ""` */
  function QuerySuffix(parts: seq<string>): string {
    if |parts| > 1 && parts[1] != "" then "?" + parts[1] else ""
  }

  /** `s.replace(/\/$/, "")` */
  function DropTrailingSlash(s: string): (r: string)
    ensures EndsWith(s, "/") ==> r == s[..|s| - 1]
    ensures !EndsWith(s, "/") ==> r == s
  {
    if |s| > 0 && s[|s| - 1] == '/' then s[..|s| - 1] else s
  }

  function Redirect308(kind: string, location: string): InternalResult {
    InternalResult(kind, 308, map["Location" := HOne(location)], TextBody(""), false)
  }

  /** `handleTrailingSlashRedirect`; `None` stands for `false`. */
  function TrailingSlashRedirect(lib: Lib, cfg: RoutingConfig, ev: InternalEvent): (r: Option<InternalResult>)
    ensures (lib.urlHost(ev.url) != "localhost" || cfg.skipTrailingSlashRedirect ||
             StartsWith(ev.rawPath, "/api/")) ==> r.None?
    ensures r.Some? ==> r.value.statusCode == 308 && r.value.body == TextBody("") &&
                        !r.value.isBase64Encoded && r.value.headers.Keys == {"Location"}
    ensures r.Some? <==> AddsTrailingSlash(lib, cfg, ev) || StripsTrailingSlash(lib, cfg, ev)
  {
    if lib.urlHost(ev.url) != "localhost" || cfg.skipTrailingSlashRedirect || StartsWith(ev.rawPath, "/api/") then
      None
    else if cfg.trailingSlash && !Truthy(Lookup(ev.headers, "x-nextjs-data")) &&
            !EndsWith(ev.rawPath, "/") && !IsFileLike(ev.rawPath) then
      var parts := Split(ev.url, '?');
      Some(Redirect308(ev.kind, parts[0] + "/" + QuerySuffix(parts)))
    else if !cfg.trailingSlash && EndsWith(ev.rawPath, "/") && ev.rawPath != "/" then
      var parts := Split(ev.url, '?');
      Some(Redirect308(ev.kind, DropTrailingSlash(parts[0]) + QuerySuffix(parts)))
    else None
  }

  /** The conditions under which the slash-appending redirect is produced. */
  predicate AddsTrailingSlash(lib: Lib, cfg: RoutingConfig, ev: InternalEvent) {
    lib.urlHost(ev.url) == "localhost" && !cfg.skipTrailingSlashRedirect &&
    !StartsWith(ev.rawPath, "/api/") && cfg.trailingSlash &&
    !Truthy(Lookup(ev.headers, "x-nextjs-data")) && !EndsWith(ev.rawPath, "/") && !IsFileLike(ev.rawPath)
  }

  /** The conditions under which the slash-removing redirect is produced. */
  predicate StripsTrailingSlash(lib: Lib, cfg: RoutingConfig, ev: InternalEvent) {
    lib.urlHost(ev.url) == "localhost" && !cfg.skipTrailingSlashRedirect &&
    !StartsWith(ev.rawPath, "/api/") && !cfg.trailingSlash &&
    EndsWith(ev.rawPath, "/") && ev.rawPath != "/"
  }

  /** With `trailingSlash` on, a path that ends in a file extension is never
      redirected, nor is a data request or a path already ending in `/`. */
  lemma NoSlashAddedToFiles(lib: Lib, cfg: RoutingConfig, ev: InternalEvent, d: int)
    requires cfg.trailingSlash
    requires ExtensionAt(ev.rawPath, d) || Truthy(Lookup(ev.headers, "x-nextjs-data")) || EndsWith(ev.rawPath, "/")
    ensures TrailingSlashRedirect(lib, cfg, ev).None?
  {
    FileLikeMeansExtension(ev.rawPath);
  }

  /** With `trailingSlash` off, neither `/` nor a path without a trailing `/`
      is redirected. */
  lemma NoSlashStrippedWithoutOne(lib: Lib, cfg: RoutingConfig, ev: InternalEvent)
    requires !cfg.trailingSlash
    requires ev.rawPath == "/" || !EndsWith(ev.rawPath, "/")
    ensures TrailingSlashRedirect(lib, cfg, ev).None?
  {
  }

  /** With `trailingSlash` on, the redirect puts `/` between the path and the
      query: `/a?x=1` becomes `/a/?x=1`. */
  lemma TrailingSlashAppended(lib: Lib, cfg: RoutingConfig, ev: InternalEvent, path: string, q: string)
    requires AddsTrailingSlash(lib, cfg, ev)
    requires '?' !in path && '?' !in q && q != ""
    requires ev.url == path + "?" + q
    ensures TrailingSlashRedirect(lib, cfg, ev) == Some(Redirect308(ev.kind, path + "/?" + q))
  {
    SplitAtFirst(path, '?', q);
    SplitWithoutSeparator(q, '?');
    assert path + "?" + q == path + ['?'] + q;
    var parts := Split(ev.url, '?');
    assert parts == [path, q];
    assert QuerySuffix(parts) == "?" + q;
    assert parts[0] + "/" + QuerySuffix(parts) == path + "/?" + q;
  }

  /** Without a query the redirect is the URL with one `/` appended. */
  lemma TrailingSlashAppendedNoQuery(lib: Lib, cfg: RoutingConfig, ev: InternalEvent)
    requires AddsTrailingSlash(lib, cfg, ev)
    requires '?' !in ev.url
    ensures TrailingSlashRedirect(lib, cfg, ev) == Some(Redirect308(ev.kind, ev.url + "/"))
  {
    SplitWithoutSeparator(ev.url, '?');
    var parts := Split(ev.url, '?');
    assert parts == [ev.url];
    assert QuerySuffix(parts) == "";
    assert parts[0] + "/" + QuerySuffix(parts) == ev.url + "/";
  }

  /** With `trailingSlash` off, a path ending in `/` (other than `/`) is
      redirected to itself without that slash, the query kept. */
  lemma TrailingSlashStripped(lib: Lib, cfg: RoutingConfig, ev: InternalEvent, path: string, q: string)
    requires lib.urlHost(ev.url) == "localhost" && !cfg.skipTrailingSlashRedirect && !cfg.trailingSlash
    requires !StartsWith(ev.rawPath, "/api/") && EndsWith(ev.rawPath, "/") && ev.rawPath != "/"
    requires '?' !in path && '?' !in q && q != "" && EndsWith(path, "/")
    requires ev.url == path + "?" + q
    ensures TrailingSlashRedirect(lib, cfg, ev) == Some(Redirect308(ev.kind, path[..|path| - 1] + "?" + q))
  {
    SplitAtFirst(path, '?', q);
    SplitWithoutSeparator(q, '?');
    assert path + "?" + q == path + ['?'] + q;
    var parts := Split(ev.url, '?');
    assert parts == [path, q];
    assert QuerySuffix(parts) == "?" + q;
    assert DropTrailingSlash(parts[0]) == path[..|path| - 1];
    assert DropTrailingSlash(parts[0]) + QuerySuffix(parts) == path[..|path| - 1] + "?" + q;
  }

  /** Without a query, the slash-removing redirect is the URL minus its last
      character. */
  lemma TrailingSlashStrippedNoQuery(lib: Lib, cfg: RoutingConfig, ev: InternalEvent)
    requires StripsTrailingSlash(lib, cfg, ev)
    requires '?' !in ev.url && EndsWith(ev.url, "/")
    ensures TrailingSlashRedirect(lib, cfg, ev) == Some(Redirect308(ev.kind, ev.url[..|ev.url| - 1]))
  {
    SplitWithoutSeparator(ev.url, '?');
    var parts := Split(ev.url, '?');
    assert parts == [ev.url];
    assert QuerySuffix(parts) == "";
    assert DropTrailingSlash(parts[0]) + QuerySuffix(parts) == ev.url[..|ev.url| - 1];
  }

  /** `redirects.filter((r) => !r.internal)` */
  function NonInternal(rules: seq<Rule>): (r: seq<Rule>)
    ensures forall x :: x in r ==> x in rules && !x.internal
    ensures forall x :: x in rules && !x.internal ==> x in r
  {
    if rules == [] then []
    else if rules[0].internal then NonInternal(rules[1..])
    else [rules[0]] + NonInternal(rules[1..])
  }

  /** `handleRedirects`: `Ok(None)` stands for `undefined`. */
  function HandleRedirects(lib: Lib, cfg: RoutingConfig, ev: InternalEvent, redirects: seq<Rule>)
    : (r: Result<Option<InternalResult>, string>)
    ensures TrailingSlashRedirect(lib, cfg, ev).Some? ==> r == Ok(TrailingSlashRedirect(lib, cfg, ev))
    ensures TrailingSlashRedirect(lib, cfg, ev).None? && r.Ok? && r.value.Some? ==>
              HandleRewrites(lib, ev, NonInternal(redirects)).Ok? &&
              exists rule :: rule in redirects && !rule.internal &&
                r.value.value.statusCode == rule.statusCode.GetOr(308) &&
                r.value.value.headers == map["Location" := HOne(HandleRewrites(lib, ev, NonInternal(redirects)).value.internalEvent.url)]
    ensures TrailingSlashRedirect(lib, cfg, ev).None? && r.Ok? && r.value.None? ==>
              FindRule(lib, ev, NonInternal(redirects), 0).None?
    ensures TrailingSlashRedirect(lib, cfg, ev).None? ==>
              (r.Ok? <==> HandleRewrites(lib, ev, NonInternal(redirects)).Ok?)
    ensures var rs := NonInternal(redirects);
            var k := FindRule(lib, ev, rs, 0);
            TrailingSlashRedirect(lib, cfg, ev).None? && r.Ok? ==>
              (r.value.Some? <==> k.Some?) &&
              (k.Some? ==>
                 r.value.value ==
                   InternalResult(ev.kind, rs[k.value].statusCode.GetOr(308),
                                  map["Location" := HOne(HandleRewrites(lib, ev, rs).value.internalEvent.url)],
                                  TextBody(""), false))
  {
    var ts := TrailingSlashRedirect(lib, cfg, ev);
    if ts.Some? then Ok(ts)
    else
      var rs := NonInternal(redirects);
      match HandleRewrites(lib, ev, rs)
      case Err(e) => Err(e)
      case Ok(rr) =>
        assert rr.rewrite.Some? ==> rr.rewrite.value in rs;
        if rr.rewrite.Some? && !rr.rewrite.value.internal then
          Ok(Some(InternalResult(ev.kind, rr.rewrite.value.statusCode.GetOr(308),
                                 map["Location" := HOne(rr.internalEvent.url)], TextBody(""), false)))
        else Ok(None)
  }

  /** The rule a redirect comes from is the first non-internal rule that applies. */
  lemma RedirectUsesFirstNonInternalRule(lib: Lib, cfg: RoutingConfig, ev: InternalEvent, redirects: seq<Rule>)
    requires TrailingSlashRedirect(lib, cfg, ev).None?
    requires HandleRedirects(lib, cfg, ev, redirects).Ok?
    requires HandleRedirects(lib, cfg, ev, redirects).value.Some?
    ensures var rs := NonInternal(redirects);
            var k := FindRule(lib, ev, rs, 0);
            k.Some? && !rs[k.value].internal &&
            HandleRedirects(lib, cfg, ev, redirects).value.value.statusCode == rs[k.value].statusCode.GetOr(308)
  {
    var rs := NonInternal(redirects);
    var k := FindRule(lib, ev, rs, 0);
    if k.Some? {
      assert rs[k.value] in rs;
    }
  }

  // ---------------------------------------------------------------------------
  // Data pages and fallback: false
  // ---------------------------------------------------------------------------

  /** `s.replace(/\.json$/, "")` */
  function DropJsonSuffix(s: string): (r: string)
    ensures EndsWith(s, ".json") ==> r == s[..|s| - 5]
    ensures !EndsWith(s, ".json") ==> r == s
  {
    if EndsWith(s, ".json") then s[..|s| - 5] else s
  }

  function NotFoundJson(kind: string): InternalResult {
    InternalResult(kind, 404, map["Content-Type" := HOne("application/json")], TextBody("{}"), false)
  }

  /** `fixDataPage`. The query gains `__nextDataReq = "1"` (the source writes it
      into the caller's query object). */
  function FixDataPage(lib: Lib, ev: InternalEvent, buildId: string): (r: EventOrResult)
    ensures StartsWith(ev.rawPath, "/_next/data") && !StartsWith(ev.rawPath, "/_next/data/" + buildId) ==>
              r == Respond(NotFoundJson(ev.kind))
    ensures !StartsWith(ev.rawPath, "/_next/data/" + buildId) && !StartsWith(ev.rawPath, "/_next/data") ==>
              r == Continue(ev)
    ensures StartsWith(ev.rawPath, "/_next/data/" + buildId) && !EndsWith(ev.rawPath, ".json") ==>
              r == Continue(ev)
    ensures StartsWith(ev.rawPath, "/_next/data/" + buildId) && EndsWith(ev.rawPath, ".json") ==>
              r.Continue? &&
              r.event == ev.(rawPath := r.event.rawPath,
                             query := ev.query["__nextDataReq" := Single("1")],
                             url := r.event.rawPath + lib.queryString(ev.query["__nextDataReq" := Single("1")]))
  {
    var dataPattern := "/_next/data/" + buildId;
    if StartsWith(ev.rawPath, "/_next/data") && !StartsWith(ev.rawPath, dataPattern) then
      Respond(NotFoundJson(ev.kind))
    else if StartsWith(ev.rawPath, dataPattern) && EndsWith(ev.rawPath, ".json") then
      var stripped := DropJsonSuffix(ReplaceFirst(ev.rawPath, dataPattern, ""));
      var newPath := if stripped == "/index" then "/" else stripped;
      var query := ev.query["__nextDataReq" := Single("1")];
      Continue(ev.(rawPath := newPath, query := query, url := newPath + lib.queryString(query)))
    else Continue(ev)
  }

  /** A data request for the current build is served from the page it names:
      `/_next/data/<buildId>/foo.json` becomes `/foo`, `/index.json` becomes `/`. */
  lemma DataPagePath(lib: Lib, ev: InternalEvent, buildId: string, page: string)
    requires ev.rawPath == "/_next/data/" + buildId + page + ".json"
    ensures FixDataPage(lib, ev, buildId).Continue?
    ensures FixDataPage(lib, ev, buildId).event.rawPath == (if page == "/index" then "/" else page)
    ensures FixDataPage(lib, ev, buildId).event.query == ev.query["__nextDataReq" := Single("1")]
  {
    var dataPattern := "/_next/data/" + buildId;
    var file := page + ".json";
    assert ev.rawPath == dataPattern + file;
    assert StartsWith(ev.rawPath, dataPattern);
    assert ev.rawPath[|dataPattern|..] == file;
    var stripped := ReplaceFirst(ev.rawPath, dataPattern, "");
    assert stripped == file;
    assert file[|file| - 5..] == ".json";
    assert EndsWith(ev.rawPath, ".json") by {
      assert ev.rawPath[|ev.rawPath| - 5..] == file[|file| - 5..];
    }
    assert file[..|file| - 5] == page;
    assert DropJsonSuffix(stripped) == page;
  }

  /** `rawPath.split("/")[1]`, `undefined` when there is no `/`. */
  function FirstSegment(rawPath: string): Option<string> {
    var parts := Split(rawPath, '/');
    if |parts| > 1 then Some(parts[1]) else None
  }

  /** The path looked up among the prerendered routes: `rawPath` itself when
      locales are not configured or the first segment is a locale, otherwise
      `rawPath` under the default locale. */
  function LocalizedPath(cfg: RoutingConfig, rawPath: string): string {
    if cfg.i18n.None? then rawPath
    else
      var seg := FirstSegment(rawPath);
      if seg.Some? && seg.value in cfg.i18n.value.locales then rawPath
      else "/" + cfg.i18n.value.defaultLocale + rawPath
  }

  /** Some dynamic route with `fallback: false` matches the path. */
  predicate FallbackFalseMatches(lib: Lib, manifest: PrerenderManifest, rawPath: string) {
    exists i :: 0 <= i < |manifest.dynamicRoutes| && manifest.dynamicRoutes[i].fallbackIsFalse &&
                lib.regexTest(manifest.dynamicRoutes[i].routeRegex, rawPath)
  }

  function Rewrite404(ev: InternalEvent): InternalEvent {
    ev.(rawPath := "/404", url := "/404", headers := ev.headers["x-invoke-status" := "404"])
  }

  /** `handleFallbackFalse` */
  function HandleFallbackFalse(lib: Lib, cfg: RoutingConfig, ev: InternalEvent, manifest: PrerenderManifest)
    : (r: InternalEvent)
    ensures r == ev || r == Rewrite404(ev)
    ensures r != ev ==> FallbackFalseMatches(lib, manifest, ev.rawPath) &&
                        LocalizedPath(cfg, ev.rawPath) !in manifest.routes
    ensures FallbackFalseMatches(lib, manifest, ev.rawPath) && LocalizedPath(cfg, ev.rawPath) !in manifest.routes ==>
              r.rawPath == "/404" && r.url == "/404" &&
              "x-invoke-status" in r.headers && r.headers["x-invoke-status"] == "404" &&
              forall h :: h in ev.headers && h != "x-invoke-status" ==> h in r.headers && r.headers[h] == ev.headers[h]
  {
    if FallbackFalseMatches(lib, manifest, ev.rawPath) && LocalizedPath(cfg, ev.rawPath) !in manifest.routes then
      Rewrite404(ev)
    else ev
  }

  /** Applying the fallback check to its own output changes nothing more. */
  lemma FallbackFalseIdempotent(lib: Lib, cfg: RoutingConfig, ev: InternalEvent, manifest: PrerenderManifest)
    ensures var once := HandleFallbackFalse(lib, cfg, ev, manifest);
            HandleFallbackFalse(lib, cfg, once, manifest) == once
  {
    var once := HandleFallbackFalse(lib, cfg, ev, manifest);
    if once != ev {
      assert Rewrite404(once) == once by {
        assert once.headers["x-invoke-status" := "404"] == once.headers;
      }
    }
  }

  /** Without locales the lookup path is the request path; a path under a
      known locale is looked up as is; any other path is looked up under the
      default locale. */
  lemma LocalizedPathCases(cfg: RoutingConfig, locale: string, rest: string)
    requires cfg.i18n.Some?
    requires '/' !in locale
    ensures locale in cfg.i18n.value.locales ==> LocalizedPath(cfg, "/" + locale + "/" + rest) == "/" + locale + "/" + rest
    ensures locale !in cfg.i18n.value.locales ==>
              LocalizedPath(cfg, "/" + locale + "/" + rest) == "/" + cfg.i18n.value.defaultLocale + "/" + locale + "/" + rest
  {
    var p := "/" + locale + "/" + rest;
    assert p == "" + ['/'] + (locale + "/" + rest);
    SplitAtFirst("", '/', locale + "/" + rest);
    assert locale + "/" + rest == locale + ['/'] + rest;
    SplitAtFirst(locale, '/', rest);
  }
}
