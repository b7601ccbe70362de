/** SQLInsertCompiler of dmDjango2.0/src/compiler.py. Its fix_auto has an
    older guard: an INSERT with no columns always enters the identity branch,
    which reads the auto field even when the model has none. as_sql and
    field_as_sql are the 3.0 ones, over Django's own compile step. */
module LegacyInsertCompiler {
  import opened SqlTypes
  import Operations
  import Compiler
  import InsertCompiler

  /** fix_auto of the 2.0 compiler, with the table quoted by the backend's
      quote_name. */
  function FixAuto(sql: string, meta: InsertCompiler.Meta, fields: seq<InsertCompiler.Field>,
                   truncate: Operations.Truncator): (r: Result<string>)
    ensures fields == [] && meta.autoField.None? ==> r.Err? && r.error.AttributeError?
    ensures !(fields == [] && meta.autoField.None?) ==>
      r == Ok(InsertCompiler.FixAuto(sql, meta, fields, t => Operations.QuoteName(t, truncate)))
  {
    if (meta.autoField.Some? && fields != []) || fields == [] then
      match meta.autoField
      case None => Err(AttributeError("'NoneType' object has no attribute 'db_column'"))
      case Some(auto) =>
        var column := InsertCompiler.AutoColumn(auto);
        var columns := InsertCompiler.Columns(fields);
        if (column in columns && fields != []) || (fields == [] && column != []) then
          var table := Operations.QuoteName(meta.dbTable, truncate);
          Ok(InsertCompiler.IdentityInsert(table, sql))
        else
          Ok(sql)
    else
      Ok(sql)
  }

  /** With columns and an auto field, the statement is wrapped iff the auto
      column is one of them; with columns and no auto field it is kept; with
      no columns a non-empty auto column wraps. */
  lemma FixAutoCases(sql: string, meta: InsertCompiler.Meta, fields: seq<InsertCompiler.Field>,
                     truncate: Operations.Truncator)
    ensures fields != [] && meta.autoField.None? ==> FixAuto(sql, meta, fields, truncate) == Ok(sql)
    ensures fields != [] && meta.autoField.Some? ==>
      var column := InsertCompiler.AutoColumn(meta.autoField.value);
      FixAuto(sql, meta, fields, truncate).Ok?
      && (FixAuto(sql, meta, fields, truncate).value != sql <== column in InsertCompiler.Columns(fields))
      && (column !in InsertCompiler.Columns(fields) ==> FixAuto(sql, meta, fields, truncate).value == sql)
    ensures fields == [] && meta.autoField.Some? && InsertCompiler.AutoColumn(meta.autoField.value) != [] ==>
      FixAuto(sql, meta, fields, truncate) ==
        Ok(InsertCompiler.IdentityInsert(Operations.QuoteName(meta.dbTable, truncate), sql))
  {
    if fields != [] && meta.autoField.Some? && InsertCompiler.AutoColumn(meta.autoField.value) in InsertCompiler.Columns(fields) {
      var w := InsertCompiler.IdentityInsert(Operations.QuoteName(meta.dbTable, truncate), sql);
      assert |w| > |sql|;
    }
  }

  /** as_sql: as in the 3.0 compiler, but a failing fix_auto fails it. */
  function AsSql(base: seq<Compiled>, meta: InsertCompiler.Meta, fields: seq<InsertCompiler.Field>,
                 truncate: Operations.Truncator): (r: Result<seq<Compiled>>)
    ensures base == [] ==> r.Err? && r.error.UnboundLocalError?
    ensures base != [] && fields == [] && meta.autoField.None? ==> r.Err? && r.error.AttributeError?
    ensures base != [] && !(fields == [] && meta.autoField.None?) ==>
      r == InsertCompiler.AsSql(base, meta, fields, t => Operations.QuoteName(t, truncate))
  {
    InsertCompiler.AsSqlWith(base, s => FixAuto(s, meta, fields, truncate))
  }

  /** field_as_sql of the 2.0 compiler: the shared four-way rule over
      Django's own compile step, which is given. */
  function FieldAsSql(field: Option<InsertCompiler.Field>, val: InsertCompiler.InsertValue,
                      compile: Compiler.Node -> Result<Compiled>,
                      getPlaceholder: (InsertCompiler.Field, Param) -> string,
                      modifyParams: (string, seq<Param>) -> seq<Param>): (r: Result<Compiled>)
    ensures field.Some? && val.Plain? ==>
      r.Ok? && r.value.params == modifyParams(r.value.sql, [val.p])
    ensures field.Some? && val.Plain? && !field.value.hasPlaceholder ==> r.value.sql == "?"
    ensures field.Some? && val.Plain? && field.value.hasPlaceholder ==>
      r.value.sql == getPlaceholder(field.value, val.p)
    ensures field.Some? && val.Expression? ==>
      && (r.Err? <==> compile(val.node).Err?)
      && (r.Ok? ==> r.value == Compiled(compile(val.node).value.sql,
                                        modifyParams(compile(val.node).value.sql, compile(val.node).value.params)))
    ensures field.None? ==> (r.Ok? <==> val.Plain? && val.p.PStr?)
    ensures field.None? && r.Ok? ==> r.value == Compiled(val.p.s, modifyParams(val.p.s, []))
  {
    InsertCompiler.FieldAsSqlWith(field, val, compile, getPlaceholder, modifyParams)
  }
}
