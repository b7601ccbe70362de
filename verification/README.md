# dmDjango dialect layer in Dafny

This project models the SQL-dialect layer of dmDjango, the Django database
backend for the DM (Dameng) database. Nearly all of that layer builds strings,
and the model does the same. It covers:

- **`operations.py` (2.0):** the fragment generators. These are identifier
  quoting, date and datetime extraction and truncation, time-zone conversion
  with its zone-name check, interval literals, connector lowering, sequence
  names, lookup templates, the multi-row `SELECT … FROM DUAL UNION ALL …`
  insert, and the cascade-safe `sql_flush` plan.
- **`compiler.py` (3.0):** the compile dispatch that sends JSON lookups,
  ordering and EXISTS comparisons to DM-specific renderers. It also has the
  insert compiler's identity-insert wrap (`fix_auto`), its one-pair `as_sql`
  and `field_as_sql`.
- **`compiler.py` (2.0):** the older insert compiler, whose `fix_auto` guard
  differs.
- **`vector.py` (3.0):** the VECTOR column type and its system checks, the
  dimension check of `encode_vector`, and the IVF and HNSW vector indexes:
  constructor validation, their own `quote_name`, and the
  `CREATE VECTOR INDEX` statement.

Modules:

| file | module | models |
|---|---|---|
| SqlTypes.dfy | SqlTypes | bound parameters, the `(sql, params)` pair, Python exceptions as `Result` errors |
| Text.dfy | Text | ASCII upper-casing, quote doubling, backslash-escaping, `str.join`, decimal rendering and parsing |
| Operations.dfy | Operations | `DatabaseOperations` fragment generators |
| Flush.dfy | Flush | `sql_flush` |
| Compiler.dfy | Compiler | `SQLCompiler.compile` and its helper renderers |
| InsertCompiler.dfy | InsertCompiler | the 3.0 `SQLInsertCompiler` |
| LegacyInsertCompiler.dfy | LegacyInsertCompiler | the 2.0 `SQLInsertCompiler` |
| Vector.dfy | Vector | `vector.py` |

Some code the backend calls is not part of this model. Each such call is a
function-typed parameter the model is given:

- Django's `truncate_name`. Lemmas that need it assume only
  `TruncatesLikeDjango`: a name that already fits is kept whole, and a name
  without `"` comes back at most `n` long. A name holding `"` is split on
  `"."` and stripped of quotes before its length is compared, so it may come
  back longer than `n`.
- The generic `combine_expression`.
- The `style.SQL_*` colouring.
- The foreign-key catalog query.
- Every node method in `Compiler.Upstream`.
- `get_placeholder` and `modify_insert_params`.
- The element rendering of `encode_vector`.

Two behaviours of the code worth noting:

- **KeyTransformIsNull:** the lookup negates the has-key test when its right
  side is truthy (`isnull=True`), not when it is falsy.
- **Insert `as_sql`:** it never refuses several base pairs. It fixes each pair
  in turn and keeps only the last one. Only an empty base result fails, and it
  fails because `sql` is unbound.

## Model

| member | source | states |
|---|---|---|
| Operations.QuoteName | dmDjango2.0/src/operations.py:295-304 | a name that starts and ends with `"` is returned unchanged; every result starts and ends with `"` |
| Operations.QuoteNameIdempotent | dmDjango2.0/src/operations.py:300-304 | quoting a quoted name again changes nothing, so quote_name is idempotent |
| Operations.QuoteNameRoundTrip | dmDjango2.0/src/operations.py:300-304 | the quoted form of a name without `"` is at most 130 characters long; when the doubled name fits in 128, stripping the outer quotes and undoubling gives back the upper-cased name |
| Operations.QuotedNameExceedsLimit | dmDjango2.0/src/operations.py:300-302 | a leading `"` and 128 letters quote to 132 characters under a truncator that keeps names holding `"`, so the 130 bound needs its guard |
| Operations.DateExtractSql | dmDjango2.0/src/operations.py:75-91 | week_day, iso_week_day, week, quarter and iso_year use their own TO_CHAR/CAST templates; every other lookup becomes `EXTRACT(<UPPER(lookup)> FROM f)` |
| Operations.ClockOf | dmDjango2.0/src/operations.py:97-98 | the two divmod steps give hours, minutes and seconds with h*3600+m*60+s = seconds, m < 60, s < 60 |
| Operations.DateIntervalSql | dmDjango2.0/src/operations.py:93-103 | the interval literal comes with no parameters |
| Operations.DateIntervalDenotesTimedelta | dmDjango2.0/src/operations.py:97-103 | the literal's fields read back as the timedelta: days as the signed day count, HH:MM:SS as the seconds of the day, the 6-digit fraction as the microseconds, and DAY(p) with p the length of the day text including any minus sign |
| Operations.DateTruncSql | dmDjango2.0/src/operations.py:105-114 | only year and month get a format argument; every other lookup truncates to the day |
| Operations.TzNameHasNoQuote | dmDjango2.0/src/operations.py:116-124 | a zone name the check accepts holds no `'`, so it cannot end the SQL literal it is pasted into |
| Operations.TzNameMatchesExamples | dmDjango2.0/src/operations.py:116-122 | the `^…+$` check accepts `UTC` followed by a newline (Python's `$` matches before a final newline) and `Asia/Shanghai`; it rejects the empty name, a lone newline and a name with a quote |
| Operations.ConvertFieldToTz | dmDjango2.0/src/operations.py:118-131 | with USE_TZ off it returns the field unchanged; otherwise it fails with a ValueError exactly when the zone name does not match, and else nests FROM_TZ…AT TIME ZONE, TO_CHAR, TO_DATE and CAST AS TIMESTAMP |
| Operations.DatetimeCastDateSql | dmDjango2.0/src/operations.py:133-139 | TRUNC of the zone-converted field with no parameters; it fails exactly when the conversion fails |
| Operations.DatetimeExtractSql | dmDjango2.0/src/operations.py:141-149 | date_extract_sql applied to the zone-converted field, with no parameters; it fails exactly when the zone conversion fails |
| Operations.DatetimeTruncOf | dmDjango2.0/src/operations.py:159-170 | year/month/week/hour/minute truncate with YEAR/MONTH/IW/HH24/MI, day truncates plainly, anything else becomes CAST AS DATETIME |
| Operations.DatetimeTruncSql | dmDjango2.0/src/operations.py:151-171 | the truncation of the zone-converted field, with no parameters; it fails exactly when the zone conversion fails |
| Operations.DatetimeAgreesWithDate | dmDjango2.0/src/operations.py:141-164 | with USE_TZ off, datetime extraction equals date extraction for every lookup, and datetime truncation equals date truncation for year, month and day |
| Operations.CombineExpression | dmDjango2.0/src/operations.py:559-566 | `%%`, `&` and `^` become MOD, BITAND and POWER over the comma-joined operands; other connectors go to the generic combiner |
| Operations.SequenceName | dmDjango2.0/src/operations.py:568-570 | every sequence name ends in `_SQ` |
| Operations.SequenceNameFits | dmDjango2.0/src/operations.py:568-570 | the sequence name of a table without `"` never exceeds 128 characters, and a table name of at most 125 characters is kept whole and upper-cased |
| Operations.SchemaTableExceedsLimit | dmDjango2.0/src/operations.py:568-570 | a schema-qualified table `"S…S"."T"` with a 130-letter schema gives a 139-character sequence name under a truncator that keeps names holding `"` |
| Operations.RegexLookup | dmDjango2.0/src/operations.py:312-325 | `regex` gives a case-sensitive REGEXP_LIKE and every other lookup a case-insensitive one; both hold two placeholders |
| Operations.LookupCast | dmDjango2.0/src/operations.py:235-243 | the four case-insensitive lookups give `UPPER(%s)` and all others `%s`; both hold one placeholder |
| Operations.FieldCastSql | dmDjango2.0/src/operations.py:195-205 | a column type ending in LOB is read through DBMS_LOB.SUBSTR; a missing type or any other type gives `%s`; both hold one placeholder |
| Operations.BulkInsertPieces | dmDjango2.0/src/operations.py:577-581 | one `SELECT <row joined by ", "> FROM DUAL` piece per row, in row order |
| Operations.BulkInsertSql | dmDjango2.0/src/operations.py:577-581 | no rows give the empty text and one row gives its piece alone |
| Operations.BulkInsertLayout | dmDjango2.0/src/operations.py:577-581 | the i-th row's piece sits at its offset, followed by ` UNION ALL ` unless it is the last row, and the last piece ends the statement |
| Flush.CollectFlushTargets | dmDjango2.0/src/operations.py:384-391 | the constraints are listed without repeats and are exactly the ones the lookup reports for the requested tables, cascade or not; the tables to truncate are listed without repeats and are the upper-cased requested tables plus, only with cascade, every table that holds a reported constraint |
| Flush.SqlFlush | dmDjango2.0/src/operations.py:380-420 | an empty table list gives no statements; otherwise the output is a flush plan over exactly those constraint and table sets, followed by the sequence-reset lines |
| Flush.FlushLinesShape | dmDjango2.0/src/operations.py:392-418 | the k-th DISABLE line is at position k, the k-th TRUNCATE line after all DISABLE lines, the k-th ENABLE line after all TRUNCATE lines, and the reset lines come last |
| Flush.FlushPlanOrder | dmDjango2.0/src/operations.py:392-418 | a plan has 2·(distinct constraints) + (tables) + (reset lines) statements; the first group holds only DISABLE statements for the reported constraints, the second only TRUNCATE statements for the tables, the third only ENABLE statements for the constraints, and the resets close it |
| Flush.FlushPlanCovers | dmDjango2.0/src/operations.py:392-418 | every constraint is disabled in the first group and enabled in the third, and every table is truncated in the second |
| Flush.DistinctCardinality | dmDjango2.0/src/operations.py:384-385 | a listing without repeats has as many entries as its set, so the DISABLE and ENABLE groups each have one line per distinct constraint |
| Compiler.SelectRule | dmDjango3.0/src/compiler.py:31-72 | the chosen renderer's guard holds, and no renderer tried earlier has a guard that holds |
| Compiler.SelectRuleIsFirstMatch | dmDjango3.0/src/compiler.py:31-72 | the least-ranked renderer whose guard holds is the one chosen, so the choice is unique |
| Compiler.VendorHookWins | dmDjango3.0/src/compiler.py:31-34 | a node with the backend's vendor hook (`as_<vendor>`) is rendered by it whatever its class |
| Compiler.AnyKeysUseJsonValue | dmDjango3.0/src/compiler.py:61-64 | a HasAnyKeys node also passes the HasKey/HasKeys guard, but it is rendered with the JSON_VALUE template |
| Compiler.PlainNodeAsDjango | dmDjango3.0/src/compiler.py:71-77 | a node of no class the backend singles out is compiled as Django's `as_sql` compiles it, then passed through select_format when asked for outside a subquery |
| Compiler.AsCastType | dmDjango3.0/src/compiler.py:79-85 | a key transform becomes `CAST(JSON_EXTRACT(lhs, 'path') AS VARCHAR(32767))` with the lhs params unchanged; it fails exactly when preprocess_lhs fails |
| Compiler.AsContains | dmDjango3.0/src/compiler.py:87-91 | `JSON_CONTAINS(lhs, rhs)` with params lhs ++ rhs; it fails exactly when either side fails |
| Compiler.AsExistsAnd | dmDjango3.0/src/compiler.py:93-98 | `lhs AND rhs` with params lhs ++ rhs; it fails exactly when either side fails |
| Compiler.RewriteParams | dmDjango3.0/src/compiler.py:41-51 | the rewrite keeps the number of params and their order, and treats each one on its own |
| Compiler.RewriteParamChangesOnlyDecodedText | dmDjango3.0/src/compiler.py:43-47 | a param changes only if it is an exact `str`, holds a character of the class `[\\u4e00-\\u9fa5]` (taken literally) and decodes as a JSON string; then the new param is the decoded text in double quotes, un-escaping its inside gives the decoded text back, and every quote inside is preceded by a backslash. Backslashes already in the decoded text are not escaped, so a reader that takes `\\` as one backslash can still end the string early: the decoded text `\"0` becomes `"\\"0"` |
| Compiler.AsKeyExact | dmDjango3.0/src/compiler.py:37-51 | Django's SQL is kept and only its params are rewritten |
| Compiler.AsKeyIsNull | dmDjango3.0/src/compiler.py:52-60 | a falsy rhs gives the has-key test `JSON_QUERY(…, … WITH WRAPPER) IS NOT NULL` with its params; a truthy rhs gives `(NOT <test> OR <lhs> IS NULL)` with params test ++ lhs |
| Compiler.Compile | dmDjango3.0/src/compiler.py:30-77 | a KeyTransformIsNull node returns its renderer's result before select_format; for every other node a successful render goes through select_format when that is asked for outside a subquery and is returned unchanged otherwise; a renderer's failure is passed on |
| Compiler.CompileAligned | dmDjango3.0/src/compiler.py:30-98 | if Django's pieces have one param per `%s` and the JSON path has no `%`, every compiled result also has exactly one param per `%s` |
| Compiler.AsCastTypeAligned | dmDjango3.0/src/compiler.py:79-85 | the CAST(JSON_EXTRACT …) wrapper adds no placeholder |
| Compiler.AsContainsAligned | dmDjango3.0/src/compiler.py:87-91 | JSON_CONTAINS holds the placeholders of both sides, in param order |
| Compiler.AsExistsAndAligned | dmDjango3.0/src/compiler.py:93-98 | the AND conjunction holds the placeholders of both sides, in param order |
| Compiler.AsKeyIsNullAligned | dmDjango3.0/src/compiler.py:56-60 | the `(NOT … OR … IS NULL)` form holds the placeholders of the test and then of the lhs, matching params test ++ lhs |
| InsertCompiler.AutoColumn | dmDjango3.0/src/compiler.py:107 | `db_column or column`: a missing or empty db_column falls back to the column |
| InsertCompiler.IdentityInsertRoundTrip | dmDjango3.0/src/compiler.py:111-113 | the wrap embeds the statement verbatim between an ON and an OFF switch that name the same table, and can be taken apart again |
| InsertCompiler.FixAuto | dmDjango3.0/src/compiler.py:105-115 | the statement is wrapped exactly when there is an auto field and either the INSERT names its column, or it names no column and the auto column is non-empty; otherwise it is unchanged |
| InsertCompiler.FixLast | dmDjango3.0/src/compiler.py:119-124 | when every fix step succeeds the last pair survives with its fixed statement; a failing step on any pair fails the whole |
| InsertCompiler.AsSqlWith | dmDjango3.0/src/compiler.py:117-126 | an empty base result fails with UnboundLocalError; a success is always exactly one pair |
| InsertCompiler.AsSql | dmDjango3.0/src/compiler.py:117-126 | one pair: the last base pair's statement through fix_auto, with that pair's params; an empty base fails |
| InsertCompiler.AsSqlKeepsLast | dmDjango3.0/src/compiler.py:119-126 | the pairs before the last one have no effect on the result |
| InsertCompiler.FieldAsSqlWith | dmDjango3.0/src/compiler.py:137-153 | a missing field makes a text value raw SQL with no params; an expression is compiled; a field with get_placeholder uses it with `[val]`; otherwise `?` with `[val]`; modify_insert_params always sees the chosen SQL and params |
| InsertCompiler.FieldAsSql | dmDjango3.0/src/compiler.py:128-153 | with the DM compile step (no select_format): raw text SQL for a missing field and a TypeError for a non-text raw value; an expression is compiled by the DM dispatch, failing exactly when it fails; a plain value gives the field's get_placeholder SQL or `?`, with `[val]`; all through modify_insert_params |
| InsertCompiler.ExpressionValueAligned | dmDjango3.0/src/compiler.py:141-143 | with the identity modify_insert_params, an expression inserted into a field keeps one param per `%s`, provided Django's pieces do |
| InsertCompiler.PlainValueIsOneParam | dmDjango3.0/src/compiler.py:143-151 | with identity params handling, a plain value on a field travels as exactly one param and raw SQL as none |
| LegacyInsertCompiler.FixAuto | dmDjango2.0/src/compiler.py:20-33 | with no columns and no auto field it fails with AttributeError; in every other case it agrees with the 3.0 fix_auto, quoting the table with the backend's quote_name |
| LegacyInsertCompiler.FixAutoCases | dmDjango2.0/src/compiler.py:21-31 | with columns and no auto field the statement is kept; with columns and an auto field it is wrapped iff the auto column is among them; with no columns a non-empty auto column wraps |
| LegacyInsertCompiler.AsSql | dmDjango2.0/src/compiler.py:35-44 | an empty base fails with UnboundLocalError; no columns and no auto field fail with AttributeError; otherwise the result equals the 3.0 as_sql |
| LegacyInsertCompiler.FieldAsSql | dmDjango2.0/src/compiler.py:46-71 | the same four-way rule as 3.0: a missing field accepts exactly text values, as raw SQL with no params; an expression on a field is compiled, failing exactly when compiling fails; a plain value gives `[val]` with the field's get_placeholder SQL, or `?` without one; all params pass through modify_insert_params |
| Vector.DbType | dmDjango3.0/src/vector.py:51-57 | `VECTOR` without a dimension, `VECTOR(dim, FLOAT32)` without a format, else `VECTOR(dim, format)` |
| Vector.CheckDimensions | dmDjango3.0/src/vector.py:96-112 | no error exactly when dim is an int (bools included) within [1, 65535]; at most one error |
| Vector.BoolDimension | dmDjango3.0/src/vector.py:97-105 | `dim=True` passes as 1, `dim=False` fails as 0 |
| Vector.CheckFormat | dmDjango3.0/src/vector.py:114-131 | a missing format becomes FLOAT32 and any other is kept; no error exactly when the format is then one of INT8, FLOAT32, FLOAT64 |
| Vector.CheckFormatKeepsDbType | dmDjango3.0/src/vector.py:114-116 | setting the missing format to FLOAT32 does not change the column type |
| Vector.Check | dmDjango3.0/src/vector.py:89-94 | the vector checks report nothing exactly when the dimension is valid and the format is missing or allowed; the dimension is not touched |
| Vector.EncodeVector | dmDjango3.0/src/vector.py:11-24 | None passes through; it fails with ValueError exactly when a dimension is given and the length differs; otherwise the rendering of the value |
| Vector.IndexFields | dmDjango3.0/src/vector.py:147-161 | the empty tuple is refused as "must be specified"; a string `s` gives `[s]`, the empty string included; a list or tuple must hold exactly one exact `str`; other types are refused; always a ValueError. HnswVectorIndex repeats this code |
| Vector.IndexFieldsAcceptance | dmDjango3.0/src/vector.py:147-161 | exactly the one-column forms are accepted; `[]` is refused and `""` accepted |
| Vector.IndexName | dmDjango3.0/src/vector.py:162-168 | no name gives `ivf_ind`/`hnsw_ind` followed by the column; a text name is kept; any other name is refused |
| Vector.NewIndex | dmDjango3.0/src/vector.py:133-174 | construction succeeds exactly when both checks pass, and then keeps the column and the tuning values; a given text name is kept and a missing one becomes the prefix followed by the column; a given metric and accuracy are kept, and omitted ones default to `COSINE` and 90 |
| Vector.QuoteName | dmDjango3.0/src/vector.py:176-181 | an already quoted name is only upper-cased; any other has its quotes doubled, is upper-cased, truncated to 128 characters, wrapped in quotes and upper-cased again; every result is quoted and upper-case |
| Vector.QuoteNameRoundTrip | dmDjango3.0/src/vector.py:176-181 | an unquoted name without `"` gives at most 130 characters; when nothing is truncated the result equals the backend's quote_name and un-doubling its inside gives the upper-cased name back |
| Vector.QuoteNameUpperIdempotent | dmDjango3.0/src/vector.py:176-181 | quoting the index quote_name's result again changes nothing |
| Vector.CreateSql | dmDjango3.0/src/vector.py:183-211 | the exact statement: `CREATE VECTOR INDEX <name> on <table>(<column>) ORGANIZATION PARTITIONS` for IVF or `ORGANIZATION GRAPH` for HNSW, a newline, `DISTANCE <metric> WITH TARGET ACCURACY <percentage>`, then the PARAMETERS clause; every identifier goes through the index quote_name |
| Vector.CreateSqlFrame | dmDjango3.0/src/vector.py:191-192 | for either method the statement starts `CREATE VECTOR INDEX <name> on <table>(` and ends with the accuracy value followed directly, without a separator, by the PARAMETERS clause |
| Vector.ParametersClause | dmDjango3.0/src/vector.py:279-287 | the clause is empty exactly when no tuning value is given; otherwise it starts `PARAMETERS(TYPE HNSW, ` (or `PARAMETERS(TYPE IVF, ` for the IVF form of lines 194-195) and ends with `);` |
| Vector.IvfParametersRoundTrip | dmDjango3.0/src/vector.py:194-195 | the IVF clause is empty without a partition count, and otherwise reads back as the count it was built from |
| Vector.HnswParametersRoundTrip | dmDjango3.0/src/vector.py:279-287 | in each of its four shapes the HNSW clause reads back as the neighbour count and construction width it was built from, absent values included |

## Left out

- The foreign-key catalog query and its cache (`__foreign_key_constraints`) are not modelled. The flush takes the lookup as a function.
- `sequence_reset_by_name_sql` is not modelled, because it calls names the file neither defines nor imports. The flush takes its output lines as an input.
- Python set iteration order inside each `sql_flush` group is not modelled. The plan is stated for some listing of each set, without repeats.
- The value converters and adapters are not modelled: LOB reads, time-zone make_aware/make_naive, UUIDs and driver types. Neither are `last_insert_id`, `fetch_returned_insert_id` and `last_executed_query`; they are driver I/O.
- The remaining `DatabaseOperations` members are not part of this model. These are the constant-returning ones such as `deferrable_sql`, `max_in_list_size`, the savepoint statements and `tablespace_sql`, plus `drop_sequence_sql` and `_get_trigger_name`.
- `dmDjango3.0/src/utils.py` and `dmDjango3.0/src/__init__.py` are not part of this model. They hold driver cursor variables and re-exports.
- Upper-casing covers ASCII letters only. Python's full Unicode case mapping is not modelled.
- `\w` in the zone-name pattern is taken as ASCII word characters. Python's Unicode word class is not modelled.
- `truncate_name` is a parameter. Only its length behaviour is assumed, where a lemma needs it.
- Operations.QuoteNameRoundTrip: the 130-character bound is stated only for names without `"`. For a name holding `"`, Django's `truncate_name` may keep the doubled name whole, and `QuotedNameExceedsLimit` shows the bound failing.
- Operations.SequenceNameFits: the 128-character bound is stated only for table names without `"`. A schema-qualified table is kept whole by `truncate_name`, and `SchemaTableExceedsLimit` shows the bound failing.
- Vector.QuoteNameRoundTrip: the 130-character bound is stated only for names without `"`, for the same reason as the backend's quote_name.
- Django's node methods are given functions (`Compiler.Upstream`), not modelled: `as_sql`, `as_oracle`, `preprocess_lhs`, `process_lhs`/`process_rhs`, `compile_json_path`, `select_format`. Neither is the nested compile they perform.
- `json.loads` is a given function. It returns the decoded text when the input is a JSON string; a non-string result or a decode error both keep the param, as the source's `except` does.
- Compiler.CompileAligned: it holds only if the JSON path text has no `%`, because the path is written into the SQL rather than bound.
- Operations.PlaceholderCount counts every `%s`, including one preceded by an escaping `%`.
- Compiler.AsExistsAnd: it treats the lhs params as a list. The source's `params.extend` would fail if `process_lhs` returned a tuple.
- InsertCompiler.FieldAsSqlWith: a raw value that is not text is reported at once as a TypeError. Python returns it and fails later, when the statement is assembled.
- Vector.Str: a text inside a list or tuple is shown in single quotes, without Python's escaping of quotes and backslashes.
- Numpy is not modelled: `decode_vector`, the ndarray rendering and `ndim` check of `encode_vector`, and the conversions in `to_python`, `validate` and the form widget. `encode_vector` takes the rendering as a parameter.
- `distance_func` and its subclasses, `VectorWidget` and `VectorFormField` are not modelled. They build RawSQL and user-interface objects.
- Vector.Check: Django's own `Field.check()` results, which come before the vector checks, are not modelled.
- Vector.NewIndex: Django's `Index.__init__` validation, `skip_existing`, `include` and extra keyword arguments are not modelled. The metric is taken as optional text and the accuracy as an optional integer, `None` standing for an omitted argument; an explicit `None` passed in Python is not told apart from an omitted one.
- Vector.CreateSql: the column is passed in already resolved, standing for `model._meta.get_field(...).column`. Django's `Statement`, `Table`, `IndexName` and `Columns` are reduced to the text they render for one column without suffixes.
- Operations.DateIntervalSql: it requires the normalised form Python's `timedelta` always has (0 ≤ seconds < 86400, 0 ≤ microseconds < 10^6).
