/** SQLInsertCompiler of dmDjango3.0/src/compiler.py. An INSERT that supplies
    the identity column itself, or one with no columns at all, is wrapped in
    SET IDENTITY_INSERT ... ON/OFF so DM accepts explicit identity values;
    `field_as_sql` picks the placeholder and parameters of one value. */
module InsertCompiler {
  import opened Text
  import opened SqlTypes
  import Compiler

  /** The model's auto (identity) field: its attribute column and its
      optional explicit `db_column`. */
  datatype AutoField = AutoField(column: string, dbColumn: Option<string>)

  /** The part of a model's `_meta` the insert compiler reads. */
  datatype Meta = Meta(dbTable: string, autoField: Option<AutoField>)

  /** A concrete field of the INSERT: its column and whether it defines
      `get_placeholder`. `id` tells apart fields that agree otherwise. */
  datatype Field = Field(id: nat, column: string, hasPlaceholder: bool)

  /** `db_column or column`: an empty or missing db_column falls back. */
  function AutoColumn(a: AutoField): (c: string)
    ensures a.dbColumn.Some? && a.dbColumn.value != [] ==> c == a.dbColumn.value
    ensures a.dbColumn.None? || a.dbColumn.value == [] ==> c == a.column
  {
    match a.dbColumn
    case Some(d) => if d != [] then d else a.column
    case None => a.column
  }

  function Columns(fields: seq<Field>): (cs: seq<string>)
    ensures |cs| == |fields|
    ensures forall i :: 0 <= i < |fields| ==> cs[i] == fields[i].column
  {
    seq(|fields|, i requires 0 <= i < |fields| => fields[i].column)
  }

  const IdentityOnTail: string := " ON WITH REPLACE NULL; "
  const IdentityOffHead: string := "; SET IDENTITY_INSERT "

  /** The statement wrapped between the identity switches for `table`. */
  function IdentityInsert(table: string, sql: string): string {
    "SET IDENTITY_INSERT " + table + IdentityOnTail + sql + IdentityOffHead + table + " OFF;"
  }

  /** Takes a wrapped statement apart again, given the table. */
  function UnwrapIdentityInsert(table: string, s: string): Option<string> {
    var head := "SET IDENTITY_INSERT " + table + IdentityOnTail;
    var tail := IdentityOffHead + table + " OFF;";
    if |s| >= |head| + |tail| && s[..|head|] == head && s[|s| - |tail|..] == tail then
      Some(s[|head|..|s| - |tail|])
    else
      None
  }

  /** The wrap keeps the statement verbatim between an ON and an OFF switch
      that name the same table. */
  lemma IdentityInsertRoundTrip(table: string, sql: string)
    ensures UnwrapIdentityInsert(table, IdentityInsert(table, sql)) == Some(sql)
  {
    var head := "SET IDENTITY_INSERT " + table + IdentityOnTail;
    var tail := IdentityOffHead + table + " OFF;";
    var s := IdentityInsert(table, sql);
    assert s == head + sql + tail;
    assert s[..|head|] == head;
    assert s[|s| - |tail|..] == tail;
    assert s[|head|..|s| - |tail|] == sql;
  }

  /** When fix_auto wraps: there is an auto field, and either the INSERT
      names its column or it names no column and the auto column is not empty. */
  predicate WrapsIdentity(meta: Meta, fields: seq<Field>) {
    && meta.autoField.Some?
    && (|| (fields != [] && AutoColumn(meta.autoField.value) in Columns(fields))
        || (fields == [] && AutoColumn(meta.autoField.value) != []))
  }

  /** fix_auto: the statement, wrapped exactly when WrapsIdentity holds, the
      table quoted by `qn`. */
  function FixAuto(sql: string, meta: Meta, fields: seq<Field>, qn: string -> string): (r: string)
    ensures WrapsIdentity(meta, fields) ==> UnwrapIdentityInsert(qn(meta.dbTable), r) == Some(sql)
    ensures !WrapsIdentity(meta, fields) ==> r == sql
  {
    match meta.autoField
    case None => sql
    case Some(auto) =>
      var column := AutoColumn(auto);
      var columns := Columns(fields);
      if (column in columns && fields != []) || (fields == [] && column != []) then
        IdentityInsertRoundTrip(qn(meta.dbTable), sql);
        IdentityInsert(qn(meta.dbTable), sql)
      else
        sql
  }

  /** The `for sql, params in result` loop of as_sql, for any fix step: every
      pair is fixed in turn, the last one is kept; a failing step fails it. */
  function FixLast(base: seq<Compiled>, fix: string -> Result<string>): (r: Result<Compiled>)
    requires base != []
    ensures (forall i :: 0 <= i < |base| ==> fix(base[i].sql).Ok?) ==>
      r == Ok(Compiled(fix(base[|base| - 1].sql).value, base[|base| - 1].params))
    ensures (exists i :: 0 <= i < |base| && fix(base[i].sql).Err?) ==> r.Err?
    decreases |base|
  {
    var sql :- fix(base[0].sql);
    if |base| == 1 then Ok(Compiled(sql, base[0].params)) else FixLast(base[1..], fix)
  }

  /** as_sql around a fix step: one pair built from the last pair of the base
      compiler; with no pair at all Python finds `sql` unbound. */
  function AsSqlWith(base: seq<Compiled>, fix: string -> Result<string>): (r: Result<seq<Compiled>>)
    ensures base == [] ==> r.Err? && r.error.UnboundLocalError?
    ensures r.Ok? ==> |r.value| == 1
  {
    if base == [] then
      Err(UnboundLocalError("local variable 'sql' referenced before assignment"))
    else
      var last :- FixLast(base, fix);
      Ok([last])
  }

  /** as_sql: the last base pair with its statement passed through fix_auto. */
  function AsSql(base: seq<Compiled>, meta: Meta, fields: seq<Field>, qn: string -> string): (r: Result<seq<Compiled>>)
    ensures base == [] ==> r.Err? && r.error.UnboundLocalError?
    ensures base != [] ==>
      r == Ok([Compiled(FixAuto(base[|base| - 1].sql, meta, fields, qn), base[|base| - 1].params)])
  {
    AsSqlWith(base, s => Ok(FixAuto(s, meta, fields, qn)))
  }

  /** Only the last pair of the base compiler reaches the result. */
  lemma AsSqlKeepsLast(base: seq<Compiled>, c: Compiled, meta: Meta, fields: seq<Field>, qn: string -> string)
    ensures AsSql(base + [c], meta, fields, qn) == AsSql([c], meta, fields, qn)
  {
  }

  /** The value handed to field_as_sql: an expression (it has `as_sql`) or a
      plain Python value. */
  datatype InsertValue = Expression(node: Compiler.Node) | Plain(p: Param)

  /** field_as_sql for a given compile step, `get_placeholder` hook and
      `modify_insert_params` hook. A missing field means the value is raw
      SQL; only a text value can be raw SQL, so any other raw value is a
      type error. */
  function FieldAsSqlWith(field: Option<Field>, val: InsertValue,
                          compile: Compiler.Node -> Result<Compiled>,
                          getPlaceholder: (Field, Param) -> string,
                          modifyParams: (string, seq<Param>) -> seq<Param>): (r: Result<Compiled>)
    ensures field.None? && val.Plain? && val.p.PStr? ==> r == Ok(Compiled(val.p.s, modifyParams(val.p.s, [])))
    ensures field.None? && !(val.Plain? && val.p.PStr?) ==> r.Err? && r.error.TypeError?
    ensures field.Some? && val.Expression? ==>
      && (r.Err? <==> compile(val.node).Err?)
      && (r.Ok? ==> r.value.sql == compile(val.node).value.sql
                    && r.value.params == modifyParams(r.value.sql, compile(val.node).value.params))
    ensures field.Some? && val.Plain? && field.value.hasPlaceholder ==>
      r == Ok(Compiled(getPlaceholder(field.value, val.p), modifyParams(getPlaceholder(field.value, val.p), [val.p])))
    ensures field.Some? && val.Plain? && !field.value.hasPlaceholder ==> r == Ok(Compiled("?", modifyParams("?", [val.p])))
  {
    match field
    case None =>
      if val.Plain? && val.p.PStr? then Ok(Compiled(val.p.s, modifyParams(val.p.s, [])))
      else Err(TypeError("raw insert value is not SQL text"))
    case Some(f) =>
      match val
      case Expression(node) =>
        var c :- compile(node);
        Ok(Compiled(c.sql, modifyParams(c.sql, c.params)))
      case Plain(p) =>
        var sql := if f.hasPlaceholder then getPlaceholder(f, p) else "?";
        Ok(Compiled(sql, modifyParams(sql, [p])))
  }

  /** field_as_sql of the 3.0 compiler, whose compile step is the DM
      dispatch without select_format: raw SQL for a missing field, the
      compiled expression, the field's own placeholder, or `?`, in that order
      of precedence. */
  function FieldAsSql(field: Option<Field>, val: InsertValue, up: Compiler.Upstream,
                      getPlaceholder: (Field, Param) -> string,
                      modifyParams: (string, seq<Param>) -> seq<Param>): (r: Result<Compiled>)
    ensures field.None? && val.Plain? && val.p.PStr? ==> r == Ok(Compiled(val.p.s, modifyParams(val.p.s, [])))
    ensures field.None? && !(val.Plain? && val.p.PStr?) ==> r.Err? && r.error.TypeError?
    ensures field.Some? && val.Expression? ==>
      var c := Compiler.Compile(val.node, up, false, false);
      && (r.Err? <==> c.Err?)
      && (r.Ok? ==> r.value == Compiled(c.value.sql, modifyParams(c.value.sql, c.value.params)))
    ensures field.Some? && val.Plain? && field.value.hasPlaceholder ==>
      r == Ok(Compiled(getPlaceholder(field.value, val.p), modifyParams(getPlaceholder(field.value, val.p), [val.p])))
    ensures field.Some? && val.Plain? && !field.value.hasPlaceholder ==> r == Ok(Compiled("?", modifyParams("?", [val.p])))
  {
    FieldAsSqlWith(field, val, n => Compiler.Compile(n, up, false, false), getPlaceholder, modifyParams)
  }

  /** With the identity `modify_insert_params`, an expression inserted into
      a field keeps one parameter per `%s`, given Django pieces that do. */
  lemma ExpressionValueAligned(field: Option<Field>, val: InsertValue, up: Compiler.Upstream,
                               getPlaceholder: (Field, Param) -> string)
    requires Compiler.UpstreamAligned(up)
    requires field.Some? && val.Expression?
    ensures var r := FieldAsSql(field, val, up, getPlaceholder, (s: string, ps: seq<Param>) => ps);
      r.Ok? ==> Compiler.Aligned(r.value)
  {
    Compiler.CompileAligned(val.node, up, false, false);
  }

  /** With the identity `modify_insert_params`, a plain value always travels
      as exactly one parameter, and a raw SQL value as none. */
  lemma PlainValueIsOneParam(field: Option<Field>, val: InsertValue, up: Compiler.Upstream,
                             getPlaceholder: (Field, Param) -> string)
    requires val.Plain?
    ensures var r := FieldAsSql(field, val, up, getPlaceholder, (s: string, ps: seq<Param>) => ps);
      && (field.Some? ==> r.Ok? && r.value.params == [val.p])
      && (field.None? && val.p.PStr? ==> r.Ok? && r.value.params == [])
  {
  }
}
