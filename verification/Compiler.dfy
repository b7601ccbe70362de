/** SQLCompiler.compile of dmDjango3.0/src/compiler.py: the first-match
    dispatch that sends JSON lookups, ordering and EXISTS comparisons to
    DM-specific renderers and every other node to Django's own `as_sql`.
    Everything Django computes for a node (its `as_sql`, `process_lhs`, the
    JSON path, `json.loads`, `select_format`) is a function the model is
    given, bundled in `Upstream`. */
module Compiler {
  import opened Text
  import opened SqlTypes
  import Operations

  /** The Django expression classes the dispatch tests for; `Other` is every
      class it does not name. */
  datatype Kind =
    | KeyTransform | KeyTextTransform | KeyTransformExact | KeyTransformIsNull
    | HasKey | HasKeys | HasAnyKeys | OrderBy | Exact | Exists | DataContains | Other

  /** isinstance over the part of Django's class tree the dispatch sees:
      KeyTextTransform is a KeyTransform, KeyTransformExact an Exact lookup,
      HasAnyKeys a HasKeys lookup. */
  predicate IsInstance(k: Kind, cls: Kind) {
    || k == cls
    || (cls == KeyTransform && k == KeyTextTransform)
    || (cls == Exact && k == KeyTransformExact)
    || (cls == HasKeys && k == HasAnyKeys)
  }

  /** A lookup's operand: another expression, or a plain Python value. */
  datatype Operand = Expr(kind: Kind) | Value(v: Param)

  /** An expression node: its class, whether it defines the backend's
      vendor hook (`as_<vendor>`), and its operands. `id` tells apart nodes
      that agree on everything else. */
  datatype Node = Node(id: nat, kind: Kind, vendorHook: bool, lhs: Operand, rhs: Operand)

  /** What `preprocess_lhs` of a key transform returns: the column SQL, its
      params and the chain of keys. */
  datatype KeyPath = KeyPath(sql: string, params: seq<Param>, keys: seq<string>)

  /** The Django behaviour the dispatch calls into, each as a function of the
      node. `lhsKeySql` is `HasKey(node.lhs.lhs, node.lhs.key_name).as_sql`
      with the given template, `lhsPreprocess` is `node.lhs.preprocess_lhs`;
      `jsonLoads` gives the decoded text when its input is a JSON string. */
  datatype Upstream = Upstream(
    vendorSql: Node -> Result<Compiled>,
    asSql: (Node, Option<string>) -> Result<Compiled>,
    asOracle: Node -> Result<Compiled>,
    preprocessLhs: Node -> Result<KeyPath>,
    lhsKeySql: (Node, string) -> Result<Compiled>,
    lhsPreprocess: Node -> Result<KeyPath>,
    processLhs: Node -> Result<Compiled>,
    processRhs: Node -> Result<Compiled>,
    compileJsonPath: seq<string> -> string,
    jsonLoads: string -> Option<string>,
    selectFormat: (Node, Compiled) -> Result<Compiled>)

  /** The renderers of the dispatch, in the order it tries them. */
  datatype Rule =
    | VendorRule | CastRule | ExactRewriteRule | IsNullRule | AnyKeysRule
    | HasKeyRule | OrderByRule | ExistsAndRule | ContainsRule | DefaultRule

  function Rank(r: Rule): nat {
    match r
    case VendorRule => 0
    case CastRule => 1
    case ExactRewriteRule => 2
    case IsNullRule => 3
    case AnyKeysRule => 4
    case HasKeyRule => 5
    case OrderByRule => 6
    case ExistsAndRule => 7
    case ContainsRule => 8
    case DefaultRule => 9
  }

  predicate IsExists(o: Operand) {
    o.Expr? && IsInstance(o.kind, Exists)
  }

  /** The guard of each renderer, taken on its own. */
  predicate Applies(r: Rule, n: Node) {
    match r
    case VendorRule => n.vendorHook
    case CastRule => IsInstance(n.kind, KeyTransform)
    case ExactRewriteRule => IsInstance(n.kind, KeyTransformExact)
    case IsNullRule => IsInstance(n.kind, KeyTransformIsNull)
    case AnyKeysRule => IsInstance(n.kind, HasAnyKeys)
    case HasKeyRule => IsInstance(n.kind, HasKey) || IsInstance(n.kind, HasKeys)
    case OrderByRule => IsInstance(n.kind, OrderBy)
    case ExistsAndRule => IsInstance(n.kind, Exact) && IsExists(n.lhs) && IsExists(n.rhs)
    case ContainsRule => IsInstance(n.kind, DataContains)
    case DefaultRule => true
  }

  /** The renderer the dispatch picks: the first one, by rank, whose guard
      holds. */
  function SelectRule(n: Node): (r: Rule)
    ensures Applies(r, n)
    ensures forall q :: Rank(q) < Rank(r) ==> !Applies(q, n)
  {
    if n.vendorHook then VendorRule
    else if IsInstance(n.kind, KeyTransform) then CastRule
    else if IsInstance(n.kind, KeyTransformExact) then ExactRewriteRule
    else if IsInstance(n.kind, KeyTransformIsNull) then IsNullRule
    else if IsInstance(n.kind, HasAnyKeys) then AnyKeysRule
    else if IsInstance(n.kind, HasKey) || IsInstance(n.kind, HasKeys) then HasKeyRule
    else if IsInstance(n.kind, OrderBy) then OrderByRule
    else if IsInstance(n.kind, Exact) && IsExists(n.lhs) && IsExists(n.rhs) then ExistsAndRule
    else if IsInstance(n.kind, DataContains) then ContainsRule
    else DefaultRule
  }

  /** The selection is the least-ranked renderer that applies: no two
      renderers share a rank, so that renderer is unique. */
  lemma SelectRuleIsFirstMatch(n: Node, r: Rule)
    requires Applies(r, n)
    requires forall q :: Rank(q) < Rank(r) ==> !Applies(q, n)
    ensures SelectRule(n) == r
  {
  }

  // Templates handed to Django's has-key lookups: the first `%s` is the
  // column, the escaped `%%s` becomes the placeholder of the JSON path.
  const AnyKeysTemplate: string := "JSON_VALUE(%s, %%s) IS NOT NULL"
  const HasKeyTemplate: string := "JSON_QUERY(%s, %%s WITH WRAPPER) IS NOT NULL"

  /** as_cast_type: a key transform reads the value at its JSON path as text. */
  function AsCastType(n: Node, up: Upstream): (r: Result<Compiled>)
    ensures r.Err? <==> up.preprocessLhs(n).Err?
    ensures r.Ok? ==>
      var pre := up.preprocessLhs(n).value;
      && r.value.params == pre.params
      && r.value.sql == "CAST(JSON_EXTRACT(" + pre.sql + ", '" + up.compileJsonPath(pre.keys) + "') AS VARCHAR(32767))"
  {
    var pre :- up.preprocessLhs(n);
    Ok(Compiled("CAST(JSON_EXTRACT(" + pre.sql + ", '" + up.compileJsonPath(pre.keys) + "') AS VARCHAR(32767))",
                pre.params))
  }

  /** as_containt: JSON_CONTAINS over the two processed sides. */
  function AsContains(n: Node, up: Upstream): (r: Result<Compiled>)
    ensures r.Err? <==> up.processLhs(n).Err? || up.processRhs(n).Err?
    ensures r.Ok? ==>
      var lhs := up.processLhs(n).value;
      var rhs := up.processRhs(n).value;
      r.value == Compiled("JSON_CONTAINS(" + lhs.sql + ", " + rhs.sql + ")", lhs.params + rhs.params)
  {
    var lhs :- up.processLhs(n);
    var rhs :- up.processRhs(n);
    Ok(Compiled("JSON_CONTAINS(" + lhs.sql + ", " + rhs.sql + ")", lhs.params + rhs.params))
  }

  /** as_sql_for_Exact: `Exists(...) = Exists(...)` becomes a conjunction of
      the two sides, parameters in the same order. */
  function AsExistsAnd(n: Node, up: Upstream): (r: Result<Compiled>)
    ensures r.Err? <==> up.processLhs(n).Err? || up.processRhs(n).Err?
    ensures r.Ok? ==>
      var lhs := up.processLhs(n).value;
      var rhs := up.processRhs(n).value;
      r.value == Compiled(lhs.sql + " AND " + rhs.sql, lhs.params + rhs.params)
  {
    var lhs :- up.processLhs(n);
    var rhs :- up.processRhs(n);
    Ok(Compiled(lhs.sql + " " + ("AND " + rhs.sql), lhs.params + rhs.params))
  }

  /** The literal character class `[\\u4e00-\\u9fa5]`: in a raw string it is
      the range '0'..'\' together with the letters u, e, f and a. */
  predicate InParamClass(c: char) {
    ('0' <= c <= '\\') || c == 'u' || c == 'e' || c == 'f' || c == 'a'
  }

  predicate HasClassChar(s: string) {
    exists i :: 0 <= i < |s| && InParamClass(s[i])
  }

  /** One parameter of a KeyTransformExact lookup: a `str` that holds a
      character of the class and decodes as a JSON string is replaced by the
      decoded text, its double quotes backslash-escaped, in double quotes;
      anything else, or a failed decode, keeps the parameter. */
  function RewriteParam(p: Param, jsonLoads: string -> Option<string>): Param {
    if p.PStr? && HasClassChar(p.s) && jsonLoads(p.s).Some? then
      PStr("\"" + EscapeQuotes(jsonLoads(p.s).value) + "\"")
    else
      p
  }

  function RewriteParams(ps: seq<Param>, jsonLoads: string -> Option<string>): (r: seq<Param>)
    ensures |r| == |ps|
    ensures forall i :: 0 <= i < |ps| ==> r[i] == RewriteParam(ps[i], jsonLoads)
  {
    seq(|ps|, i requires 0 <= i < |ps| => RewriteParam(ps[i], jsonLoads))
  }

  /** A parameter changes only when all three conditions hold, and then the
      decoded text is recoverable from the new one. */
  lemma RewriteParamChangesOnlyDecodedText(p: Param, jsonLoads: string -> Option<string>)
    ensures RewriteParam(p, jsonLoads) != p ==>
      p.PStr? && HasClassChar(p.s) && jsonLoads(p.s).Some?
    ensures p.PStr? && HasClassChar(p.s) && jsonLoads(p.s).Some? ==>
      var q := RewriteParam(p, jsonLoads);
      && q.PStr? && |q.s| >= 2 && q.s[0] == '"' && q.s[|q.s| - 1] == '"'
      && UnescapeQuotes(q.s[1..|q.s| - 1]) == jsonLoads(p.s).value
      && (forall i :: 1 <= i < |q.s| - 1 && q.s[i] == '"' ==> i >= 2 && q.s[i - 1] == '\\')
  {
    if p.PStr? && HasClassChar(p.s) && jsonLoads(p.s).Some? {
      var d := jsonLoads(p.s).value;
      var q := RewriteParam(p, jsonLoads);
      var e := EscapeQuotes(d);
      assert q.s == "\"" + e + "\"";
      assert q.s[1..|q.s| - 1] == e;
      UnescapeEscapeQuotes(d);
      forall i | 1 <= i < |q.s| - 1 && q.s[i] == '"'
        ensures i >= 2 && q.s[i - 1] == '\\'
      {
        assert e[i - 1] == q.s[i];
        EscapedQuotesArePreceded(d, i - 1);
        assert e[i - 2] == q.s[i - 1];
      }
    }
  }

  /** KeyTransformExact: Django's SQL with the parameters rewritten. */
  function AsKeyExact(n: Node, up: Upstream): (r: Result<Compiled>)
    ensures r.Err? <==> up.asSql(n, None).Err?
    ensures r.Ok? ==>
      && r.value.sql == up.asSql(n, None).value.sql
      && r.value.params == RewriteParams(up.asSql(n, None).value.params, up.jsonLoads)
  {
    var c :- up.asSql(n, None);
    Ok(Compiled(c.sql, RewriteParams(c.params, up.jsonLoads)))
  }

  /** Python truthiness of `node.rhs`; an expression object is truthy. */
  predicate RhsTruthy(o: Operand) {
    match o
    case Expr(_) => true
    case Value(p) => Truthy(p)
  }

  /** KeyTransformIsNull: `isnull=False` asks that the key exist; a truthy
      rhs asks that it be missing or the column be NULL. */
  function AsKeyIsNull(n: Node, up: Upstream): (r: Result<Compiled>)
    ensures up.lhsKeySql(n, HasKeyTemplate).Err? ==> r == up.lhsKeySql(n, HasKeyTemplate)
    ensures up.lhsKeySql(n, HasKeyTemplate).Ok? && !RhsTruthy(n.rhs) ==> r == up.lhsKeySql(n, HasKeyTemplate)
    ensures up.lhsKeySql(n, HasKeyTemplate).Ok? && RhsTruthy(n.rhs) ==>
      && (r.Err? <==> up.lhsPreprocess(n).Err?)
      && (r.Ok? ==>
            var key := up.lhsKeySql(n, HasKeyTemplate).value;
            var lhs := up.lhsPreprocess(n).value;
            r.value == Compiled("(NOT " + key.sql + " OR " + lhs.sql + " IS NULL)", key.params + lhs.params))
  {
    var key :- up.lhsKeySql(n, HasKeyTemplate);
    if !RhsTruthy(n.rhs) then
      Ok(key)
    else
      var lhs :- up.lhsPreprocess(n);
      Ok(Compiled("(NOT " + key.sql + " OR " + lhs.sql + " IS NULL)", key.params + lhs.params))
  }

  /** The SQL of one renderer, before `select_format`. */
  function RenderWith(rule: Rule, n: Node, up: Upstream): Result<Compiled> {
    match rule
    case VendorRule => up.vendorSql(n)
    case CastRule => AsCastType(n, up)
    case ExactRewriteRule => AsKeyExact(n, up)
    case IsNullRule => AsKeyIsNull(n, up)
    case AnyKeysRule => up.asSql(n, Some(AnyKeysTemplate))
    case HasKeyRule => up.asSql(n, Some(HasKeyTemplate))
    case OrderByRule => up.asOracle(n)
    case ExistsAndRule => AsExistsAnd(n, up)
    case ContainsRule => AsContains(n, up)
    case DefaultRule => up.asSql(n, None)
  }

  /** compile(node, select_format): the selected renderer's SQL, passed
      through the output field's `select_format` when asked for outside a
      subquery; the KeyTransformIsNull renderer returns before that step. */
  function Compile(n: Node, up: Upstream, selectFormat: bool, subquery: bool): (r: Result<Compiled>)
    ensures SelectRule(n) == IsNullRule ==> r == AsKeyIsNull(n, up)
    ensures SelectRule(n) != IsNullRule && (!selectFormat || subquery) ==> r == RenderWith(SelectRule(n), n, up)
    ensures RenderWith(SelectRule(n), n, up).Err? ==> r == RenderWith(SelectRule(n), n, up)
    ensures SelectRule(n) != IsNullRule && selectFormat && !subquery && RenderWith(SelectRule(n), n, up).Ok? ==>
      r == up.selectFormat(n, RenderWith(SelectRule(n), n, up).value)
  {
    var rule := SelectRule(n);
    if rule == IsNullRule then
      AsKeyIsNull(n, up)
    else
      var c :- RenderWith(rule, n, up);
      if selectFormat && !subquery then up.selectFormat(n, c) else Ok(c)
  }

  /** A node with the backend's vendor hook (`as_<vendor>`) is rendered by
      that hook, whatever its class. */
  lemma VendorHookWins(n: Node, up: Upstream)
    requires n.vendorHook
    ensures Compile(n, up, false, false) == up.vendorSql(n)
  {
  }

  /** HasAnyKeys is also a HasKeys lookup, but it is caught first and tests
      scalar values with JSON_VALUE. */
  lemma AnyKeysUseJsonValue(n: Node, up: Upstream)
    requires n.kind == HasAnyKeys && !n.vendorHook
    ensures Applies(HasKeyRule, n)
    ensures Compile(n, up, false, false) == up.asSql(n, Some(AnyKeysTemplate))
  {
  }

  /** A node of no class the backend singles out compiles exactly as Django's
      base compiler compiles it. */
  lemma PlainNodeAsDjango(n: Node, up: Upstream, selectFormat: bool, subquery: bool)
    requires !n.vendorHook
    requires n.kind == Other || n.kind == Exists || (n.kind == Exact && !(IsExists(n.lhs) && IsExists(n.rhs)))
    ensures Compile(n, up, selectFormat, subquery) ==
      (var c :- up.asSql(n, None);
       if selectFormat && !subquery then up.selectFormat(n, c) else Ok(c))
  {
  }

  // ---- Placeholders stay aligned with parameters ----

  /** Every `%s` placeholder of the SQL has its parameter, in order. */
  predicate Aligned(c: Compiled) {
    Operations.PlaceholderCount(c.sql) == |c.params|
  }

  /** What the model needs of Django for alignment: each upstream result is
      aligned, `select_format` keeps alignment, and a JSON path has no percent
      sign (the path is written into the SQL, not bound). */
  ghost predicate UpstreamAligned(up: Upstream) {
    && (forall n :: up.vendorSql(n).Ok? ==> Aligned(up.vendorSql(n).value))
    && (forall n, t :: up.asSql(n, t).Ok? ==> Aligned(up.asSql(n, t).value))
    && (forall n :: up.asOracle(n).Ok? ==> Aligned(up.asOracle(n).value))
    && (forall n, t :: up.lhsKeySql(n, t).Ok? ==> Aligned(up.lhsKeySql(n, t).value))
    && (forall n :: up.processLhs(n).Ok? ==> Aligned(up.processLhs(n).value))
    && (forall n :: up.processRhs(n).Ok? ==> Aligned(up.processRhs(n).value))
    && (forall n :: up.preprocessLhs(n).Ok? ==>
          Operations.PlaceholderCount(up.preprocessLhs(n).value.sql) == |up.preprocessLhs(n).value.params|)
    && (forall n :: up.lhsPreprocess(n).Ok? ==>
          Operations.PlaceholderCount(up.lhsPreprocess(n).value.sql) == |up.lhsPreprocess(n).value.params|)
    && (forall n, c :: Aligned(c) && up.selectFormat(n, c).Ok? ==> Aligned(up.selectFormat(n, c).value))
    && (forall keys :: Operations.NoPercent(up.compileJsonPath(keys)))
  }

  /** Text between two fragments: no placeholder is spelled across either
      boundary because the literal side starts or ends with neither '%' nor 's'. */
  lemma CountAround(before: string, x: string, after: string)
    requires Operations.NoPercent(before) && Operations.NoPercent(after)
    requires after == [] || after[0] != 's'
    ensures Operations.PlaceholderCount(before + x + after) == Operations.PlaceholderCount(x)
  {
    Operations.PlaceholderCountAppend(x, after);
    Operations.PlaceholderCountSkip(after, []);
    assert after + [] == after;
    Operations.PlaceholderCountSkip(before, x + after);
    assert before + x + after == before + (x + after);
  }

  /** Two pieces joined by percent-free text that starts with neither '%'
      nor 's' hold the placeholders of both. */
  lemma CountJoin(x: string, mid: string, y: string)
    requires Operations.NoPercent(mid) && mid != [] && mid[0] != 's'
    ensures Operations.PlaceholderCount(x + mid + y) == Operations.PlaceholderCount(x) + Operations.PlaceholderCount(y)
  {
    Operations.PlaceholderCountAppend(x, mid + y);
    assert (mid + y)[0] == mid[0];
    Operations.PlaceholderCountSkip(mid, y);
    assert x + mid + y == x + (mid + y);
  }

  /** The fixed text of the CAST(JSON_EXTRACT …) wrapper holds no `%`. */
  lemma CastTextNoPercent()
    ensures Operations.NoPercent("CAST(JSON_EXTRACT(")
    ensures Operations.NoPercent(", '")
    ensures Operations.NoPercent("') AS VARCHAR(32767))")
  {
  }

  lemma AsCastTypeAligned(n: Node, up: Upstream)
    requires UpstreamAligned(up)
    ensures AsCastType(n, up).Ok? ==> Aligned(AsCastType(n, up).value)
  {
    if up.preprocessLhs(n).Ok? {
      var pre := up.preprocessLhs(n).value;
      var path := up.compileJsonPath(pre.keys);
      var close := "') AS VARCHAR(32767))";
      var tail := ", '" + path + close;
      CastTextNoPercent();
      Operations.NoPercentConcat(", '", path);
      Operations.NoPercentConcat(", '" + path, close);
      CountAround("CAST(JSON_EXTRACT(", pre.sql, tail);
      assert AsCastType(n, up).value.sql == "CAST(JSON_EXTRACT(" + pre.sql + tail;
    }
  }

  /** The fixed text of JSON_CONTAINS holds no `%`. */
  lemma ContainsTextNoPercent()
    ensures Operations.NoPercent("JSON_CONTAINS(")
    ensures Operations.NoPercent(", ") && Operations.NoPercent(")")
  {
  }

  lemma AsContainsAligned(n: Node, up: Upstream)
    requires UpstreamAligned(up)
    ensures AsContains(n, up).Ok? ==> Aligned(AsContains(n, up).value)
  {
    if AsContains(n, up).Ok? {
      var lhs := up.processLhs(n).value;
      var rhs := up.processRhs(n).value;
      var inner := lhs.sql + ", " + rhs.sql;
      ContainsTextNoPercent();
      CountJoin(lhs.sql, ", ", rhs.sql);
      CountAround("JSON_CONTAINS(", inner, ")");
      assert AsContains(n, up).value.sql == "JSON_CONTAINS(" + inner + ")";
    }
  }

  lemma AsExistsAndAligned(n: Node, up: Upstream)
    requires UpstreamAligned(up)
    ensures AsExistsAnd(n, up).Ok? ==> Aligned(AsExistsAnd(n, up).value)
  {
    if AsExistsAnd(n, up).Ok? {
      CountJoin(up.processLhs(n).value.sql, " AND ", up.processRhs(n).value.sql);
    }
  }

  lemma AsKeyIsNullAligned(n: Node, up: Upstream)
    requires UpstreamAligned(up)
    ensures AsKeyIsNull(n, up).Ok? ==> Aligned(AsKeyIsNull(n, up).value)
  {
    if AsKeyIsNull(n, up).Ok? && RhsTruthy(n.rhs) {
      var key := up.lhsKeySql(n, HasKeyTemplate).value;
      var lhs := up.lhsPreprocess(n).value;
      CountJoin(key.sql, " OR ", lhs.sql);
      CountAround("(NOT ", key.sql + " OR " + lhs.sql, " IS NULL)");
      assert "(NOT " + key.sql + " OR " + lhs.sql + " IS NULL)" == "(NOT " + (key.sql + " OR " + lhs.sql) + " IS NULL)";
    }
  }

  /** Whatever renderer the dispatch picks, the SQL it returns has exactly as
      many placeholders as parameters, provided Django's own pieces do. */
  lemma CompileAligned(n: Node, up: Upstream, selectFormat: bool, subquery: bool)
    requires UpstreamAligned(up)
    ensures Compile(n, up, selectFormat, subquery).Ok? ==> Aligned(Compile(n, up, selectFormat, subquery).value)
  {
    var rule := SelectRule(n);
    match rule
    case CastRule => AsCastTypeAligned(n, up);
    case IsNullRule => AsKeyIsNullAligned(n, up);
    case ExistsAndRule => AsExistsAndAligned(n, up);
    case ContainsRule => AsContainsAligned(n, up);
    case _ =>
  }
}
