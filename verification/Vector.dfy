/** dmDjango3.0/src/vector.py: the VECTOR column type, its system checks,
    vector encoding, and the IVF and HNSW vector indexes with their
    CREATE VECTOR INDEX statements. Python values a caller may pass in any
    type are `PyValue`s, so the type errors the source raises are modelled. */
module Vector {
  import opened Text
  import opened SqlTypes
  import Operations

  /** A Python value as far as the vector code inspects it. `PyObject`
      carries the text `str()` gives for it. */
  datatype PyValue =
    | PyNone
    | PyBool(b: bool)
    | PyInt(i: int)
    | PyStr(s: string)
    | PyList(items: seq<PyValue>)
    | PyTuple(items: seq<PyValue>)
    | PyObject(text: string)

  /** Python's str() of a value; a text inside a list is shown in single
      quotes. */
  function Str(v: PyValue): string {
    match v
    case PyNone => "None"
    case PyBool(b) => if b then "True" else "False"
    case PyInt(i) => IntToString(i)
    case PyStr(s) => s
    case PyList(items) => "[" + Join(Reprs(items), ", ") + "]"
    case PyTuple(items) => "(" + Join(Reprs(items), ", ") + (if |items| == 1 then ",)" else ")")
    case PyObject(text) => text
  }

  function Reprs(items: seq<PyValue>): seq<string>
    decreases items
  {
    if items == [] then []
    else [if items[0].PyStr? then "'" + items[0].s + "'" else Str(items[0])] + Reprs(items[1..])
  }

  const MinDim: int := 1
  const MaxDim: int := 65535

  // ---- VectorField ----

  /** A VectorField's declared dimension and element format. */
  datatype VectorField = VectorField(dim: PyValue, format: PyValue)

  /** db_type: the column type DDL uses. */
  function DbType(f: VectorField): (r: string)
    ensures f.dim == PyNone ==> r == "VECTOR"
    ensures f.dim != PyNone && f.format == PyNone ==> r == "VECTOR(" + Str(f.dim) + ", FLOAT32)"
    ensures f.dim != PyNone && f.format != PyNone ==> r == "VECTOR(" + Str(f.dim) + ", " + Str(f.format) + ")"
  {
    if f.dim == PyNone then "VECTOR"
    else if f.format == PyNone then "VECTOR(" + Str(f.dim) + ", FLOAT32)"
    else "VECTOR(" + Str(f.dim) + ", " + Str(f.format) + ")"
  }

  /** isinstance(v, int): a bool is an int in Python. */
  predicate IsPyInt(v: PyValue) {
    v.PyInt? || v.PyBool?
  }

  function IntOf(v: PyValue): int
    requires IsPyInt(v)
  {
    if v.PyInt? then v.i else if v.b then 1 else 0
  }

  /** _check_dimensions: the errors the system check reports for `dim`. */
  function CheckDimensions(dim: PyValue): (errors: seq<string>)
    ensures |errors| <= 1
    ensures errors == [] <==> IsPyInt(dim) && MinDim <= IntOf(dim) <= MaxDim
  {
    if dim == PyNone || !IsPyInt(dim) then
      ["Dimension must be of type integer and cannot be None"]
    else if IntOf(dim) < MinDim || IntOf(dim) > MaxDim then
      ["Vector dimensions must be in the range [1, 65535]"]
    else
      []
  }

  /** A bool passes the dimension check as 1 or 0: `dim=True` is a valid
      one-dimensional vector and `dim=False` is out of range. */
  lemma BoolDimension()
    ensures CheckDimensions(PyBool(true)) == []
    ensures CheckDimensions(PyBool(false)) != []
  {
  }

  const Formats: seq<string> := ["INT8", "FLOAT32", "FLOAT64"]

  /** _check_format: the format after a missing one is set to FLOAT32, and
      the errors the system check reports for it. */
  function CheckFormat(format: PyValue): (r: (PyValue, seq<string>))
    ensures format == PyNone ==> r.0 == PyStr("FLOAT32")
    ensures format != PyNone ==> r.0 == format
    ensures |r.1| <= 1
    ensures r.1 == [] <==> r.0.PyStr? && r.0.s in Formats
  {
    var f := if format == PyNone then PyStr("FLOAT32") else format;
    if !f.PyStr? then
      (f, ["Format must be a string type or None"])
    else if f.s !in Formats then
      (f, ["Vector format must be in ['INT8', 'FLOAT32', 'FLOAT64']"])
    else
      (f, [])
  }

  /** The check's own change to the field does not change its column type. */
  lemma CheckFormatKeepsDbType(f: VectorField)
    ensures DbType(VectorField(f.dim, CheckFormat(f.format).0)) == DbType(f)
  {
  }

  /** The vector part of `check()`: dimension errors, then format errors,
      and the field as the check leaves it. */
  function Check(f: VectorField): (r: (VectorField, seq<string>))
    ensures r.1 == [] <==>
      && IsPyInt(f.dim) && MinDim <= IntOf(f.dim) <= MaxDim
      && (f.format == PyNone || (f.format.PyStr? && f.format.s in Formats))
    ensures r.0.dim == f.dim
  {
    var (format, formatErrors) := CheckFormat(f.format);
    (VectorField(f.dim, format), CheckDimensions(f.dim) + formatErrors)
  }

  /** encode_vector with the element rendering given: nothing stays nothing,
      a vector of the wrong length is refused when a dimension is asked for. */
  function EncodeVector<T>(value: Option<seq<T>>, dim: Option<int>, render: seq<T> -> string): (r: Result<Option<string>>)
    ensures value.None? ==> r == Ok(None)
    ensures r.Err? <==> value.Some? && dim.Some? && |value.value| != dim.value
    ensures r.Err? ==> r.error.ValueError?
    ensures r.Ok? && value.Some? ==> r.value == Some(render(value.value))
  {
    match value
    case None => Ok(None)
    case Some(v) =>
      if dim.Some? && |v| != dim.value then
        Err(ValueError("expected " + IntToString(dim.value) + " dimensions, but got " + IntToString(|v|)))
      else
        Ok(Some(render(v)))
  }

  // ---- Vector indexes ----

  /** The two index organisations and their optional tuning parameters. */
  datatype IndexMethod =
    | Ivf(partitions: Option<int>)
    | Hnsw(maxConnection: Option<int>, efConstruction: Option<int>)

  /** A constructed vector index: one column, its name, the distance metric
      and the target accuracy. */
  datatype VectorIndex = VectorIndex(organization: IndexMethod, field: string, name: string, metric: string, percentage: int)

  /** The `fields` argument: exactly one column, given as a string or as a
      one-element list or tuple of a string. */
  function IndexFields(fields: PyValue): (r: Result<seq<string>>)
    ensures fields == PyTuple([]) ==> r == Err(ValueError("The index column must be specified"))
    ensures r.Ok? ==> |r.value| == 1
    ensures fields.PyStr? ==> r == Ok([fields.s])
    ensures (fields.PyList? || fields.PyTuple?) && |fields.items| == 1 && fields.items[0].PyStr? ==>
      r == Ok([fields.items[0].s])
    ensures r.Err? ==> r.error.ValueError?
  {
    if fields == PyTuple([]) then
      Err(ValueError("The index column must be specified"))
    else if fields.PyStr? then
      Ok([fields.s])
    else if fields.PyList? || fields.PyTuple? then
      if |fields.items| != 1 || !fields.items[0].PyStr? then
        Err(ValueError("The index column is only allowed to be one column and must be declared as string"))
      else
        Ok([fields.items[0].s])
    else
      Err(ValueError("Index.fields must be a list, a tuple or a string"))
  }

  /** Exactly the single-column forms are accepted; an empty list is refused
      like an empty tuple, and an empty string is accepted. */
  lemma IndexFieldsAcceptance(fields: PyValue)
    ensures IndexFields(fields).Ok? <==>
      || fields.PyStr?
      || ((fields.PyList? || fields.PyTuple?) && |fields.items| == 1 && fields.items[0].PyStr?)
    ensures IndexFields(PyList([])).Err? && IndexFields(PyStr("")) == Ok([""])
  {
  }

  function NamePrefix(m: IndexMethod): string {
    if m.Ivf? then "ivf_ind" else "hnsw_ind"
  }

  /** The `name` argument: the given text, or the method prefix followed by
      the column when none is given. */
  function IndexName(m: IndexMethod, field: string, name: PyValue): (r: Result<string>)
    ensures name == PyNone ==> r == Ok(NamePrefix(m) + field)
    ensures name.PyStr? ==> r == Ok(name.s)
    ensures r.Err? <==> !(name == PyNone || name.PyStr?)
  {
    match name
    case PyNone => Ok(NamePrefix(m) + field)
    case PyStr(s) => Ok(s)
    case _ => Err(ValueError("Index name must be a string"))
  }

  const DefaultMetric: string := "COSINE"
  const DefaultPercentage: int := 90

  /** IvfVectorIndex(...) and HnswVectorIndex(...): validate `fields`, then
      `name`. An omitted `metric_name` or `percentage_value` (`None` here)
      takes the constructor's default, COSINE and 90. */
  function NewIndex(m: IndexMethod, fields: PyValue, name: PyValue, metric: Option<string>, percentage: Option<int>)
    : (r: Result<VectorIndex>)
    ensures r.Ok? <==> IndexFields(fields).Ok? && IndexName(m, IndexFields(fields).value[0], name).Ok?
    ensures r.Ok? ==>
      && r.value.organization == m && [r.value.field] == IndexFields(fields).value
      && (name == PyNone ==> r.value.name == NamePrefix(m) + r.value.field)
      && (name.PyStr? ==> r.value.name == name.s)
      && (metric.Some? ==> r.value.metric == metric.value)
      && (metric.None? ==> r.value.metric == "COSINE")
      && (percentage.Some? ==> r.value.percentage == percentage.value)
      && (percentage.None? ==> r.value.percentage == 90)
  {
    var fs :- IndexFields(fields);
    var n :- IndexName(m, fs[0], name);
    var metricName := if metric.Some? then metric.value else DefaultMetric;
    var percentageValue := if percentage.Some? then percentage.value else DefaultPercentage;
    Ok(VectorIndex(m, fs[0], n, metricName, percentageValue))
  }

  /** The index's own quote_name: the backend's quoting, then upper-cased
      once more. A name that is already quoted is only upper-cased; any
      other has its quotes doubled, is upper-cased, truncated to 128
      characters, wrapped in quotes and upper-cased again (the truncation
      may append lower-case text). The result is always quoted and
      upper-case. */
  function QuoteName(name: string, truncate: Operations.Truncator): (r: string)
    ensures Operations.IsQuoted(name) ==> r == Upper(name)
    ensures !Operations.IsQuoted(name) ==>
      r == "\"" + Upper(truncate(Upper(DoubleQuotes(name)), Operations.MaxNameLength)) + "\""
    ensures Operations.IsQuoted(r) && IsUpperText(r)
  {
    var q := Operations.QuoteName(name, truncate);
    UpperKeepsQuotes(q);
    UpperIsUpperText(q);
    Upper(q)
  }

  /** For a name that is not yet quoted and holds no '"', the index
      quote_name is at most 130 characters long. When nothing is truncated
      it agrees with the backend's quote_name, and un-doubling its inside
      gives the upper-cased name back. */
  lemma QuoteNameRoundTrip(name: string, truncate: Operations.Truncator)
    requires Operations.TruncatesLikeDjango(truncate)
    requires !Operations.IsQuoted(name)
    ensures '"' !in name ==> |QuoteName(name, truncate)| <= Operations.MaxNameLength + 2
    ensures |DoubleQuotes(name)| <= Operations.MaxNameLength ==>
      && QuoteName(name, truncate) == Operations.QuoteName(name, truncate)
      && UndoubleQuotes(QuoteName(name, truncate)[1..|QuoteName(name, truncate)| - 1]) == Upper(name)
  {
    var q := Operations.QuoteName(name, truncate);
    Operations.QuoteNameRoundTrip(name, truncate);
    UpperIsUpperText(q);
    if |DoubleQuotes(name)| <= Operations.MaxNameLength {
      var body := Upper(DoubleQuotes(name));
      assert truncate(body, Operations.MaxNameLength) == body;
      assert q == "\"" + body + "\"";
      UpperIsUpperText(DoubleQuotes(name));
      assert IsUpperText(q) by {
        forall i | 0 <= i < |q|
          ensures !IsLowerChar(q[i])
        {
          if 0 < i < |q| - 1 {
            assert q[i] == body[i - 1];
          }
        }
      }
      UpperOfUpperText(q);
    }
  }

  lemma UpperKeepsQuotes(s: string)
    requires Operations.IsQuoted(s)
    ensures Operations.IsQuoted(Upper(s))
  {
  }

  /** Quoting the index quote_name again changes nothing. */
  lemma QuoteNameUpperIdempotent(name: string, truncate: Operations.Truncator)
    ensures QuoteName(QuoteName(name, truncate), truncate) == QuoteName(name, truncate)
  {
    UpperIdempotent(Operations.QuoteName(name, truncate));
  }

  const IvfParameters: string := "PARAMETERS(TYPE IVF, NEIGHBOR PARTITIONS "
  const HnswNeighbor: string := "PARAMETERS(TYPE HNSW, NEIGHBOR "
  const HnswEf: string := "PARAMETERS(TYPE HNSW, EFCONSTRUCTION "
  const EfSeparator: string := ", EFCONSTRUCTION "

  /** The PARAMETERS clause of the statement, empty when no tuning value is
      given. */
  function ParametersClause(m: IndexMethod): (r: string)
    ensures r == [] <==> m == Ivf(None) || m == Hnsw(None, None)
    ensures r != [] ==> EndsWith(r, ");")
    ensures m.Ivf? && r != [] ==> StartsWith(r, "PARAMETERS(TYPE IVF, ")
    ensures m.Hnsw? && r != [] ==> StartsWith(r, "PARAMETERS(TYPE HNSW, ")
  {
    match m
    case Ivf(None) => ""
    case Ivf(Some(p)) => Clause(IvfParameters, IntToString(p), "PARAMETERS(TYPE IVF, ")
    case Hnsw(None, None) => ""
    case Hnsw(Some(c), None) => Clause(HnswNeighbor, IntToString(c), "PARAMETERS(TYPE HNSW, ")
    case Hnsw(Some(c), Some(e)) =>
      Clause(HnswNeighbor, IntToString(c) + EfSeparator + IntToString(e), "PARAMETERS(TYPE HNSW, ")
    case Hnsw(None, Some(e)) => Clause(HnswEf, IntToString(e), "PARAMETERS(TYPE HNSW, ")
  }

  /** `head + body + ");"`, where `head` begins with `kind`. */
  function Clause(head: string, body: string, kind: string): (r: string)
    requires StartsWith(head, kind)
    ensures r == head + body + ");"
    ensures StartsWith(r, kind) && EndsWith(r, ");")
  {
    ConcatAffixes(head + body, ");");
    assert (head + body + ");")[..|kind|] == head[..|kind|];
    head + body + ");"
  }

  /** The text between the column list and the metric name. */
  function OrganizationText(m: IndexMethod): string {
    if m.Ivf? then ") ORGANIZATION PARTITIONS\nDISTANCE " else ") ORGANIZATION GRAPH\nDISTANCE "
  }

  /** create_sql: the CREATE VECTOR INDEX statement for `column` of `table`,
      every identifier through the index quote_name, an IVF index organised
      by PARTITIONS and an HNSW index by GRAPH, the metric after DISTANCE on
      the next line, and the PARAMETERS clause written straight after the
      accuracy value. */
  function CreateSql(idx: VectorIndex, table: string, column: string, truncate: Operations.Truncator): (r: string)
    ensures idx.organization.Ivf? ==>
      r == "CREATE VECTOR INDEX " + QuoteName(idx.name, truncate) + " on " + QuoteName(table, truncate)
           + "(" + QuoteName(column, truncate) + ") ORGANIZATION PARTITIONS\nDISTANCE " + idx.metric
           + " WITH TARGET ACCURACY " + IntToString(idx.percentage) + ParametersClause(idx.organization)
    ensures idx.organization.Hnsw? ==>
      r == "CREATE VECTOR INDEX " + QuoteName(idx.name, truncate) + " on " + QuoteName(table, truncate)
           + "(" + QuoteName(column, truncate) + ") ORGANIZATION GRAPH\nDISTANCE " + idx.metric
           + " WITH TARGET ACCURACY " + IntToString(idx.percentage) + ParametersClause(idx.organization)
  {
    "CREATE VECTOR INDEX " + QuoteName(idx.name, truncate) + " on " + QuoteName(table, truncate)
    + "(" + QuoteName(column, truncate) + OrganizationText(idx.organization) + idx.metric
    + " WITH TARGET ACCURACY " + IntToString(idx.percentage) + ParametersClause(idx.organization)
  }

  /** The statement opens with the quoted index and table names and closes
      with the accuracy value and the PARAMETERS clause, whatever the method. */
  lemma CreateSqlFrame(idx: VectorIndex, table: string, column: string, truncate: Operations.Truncator)
    ensures StartsWith(CreateSql(idx, table, column, truncate),
                       "CREATE VECTOR INDEX " + QuoteName(idx.name, truncate) + " on " + QuoteName(table, truncate) + "(")
    ensures EndsWith(CreateSql(idx, table, column, truncate),
                     " WITH TARGET ACCURACY " + IntToString(idx.percentage) + ParametersClause(idx.organization))
  {
    var head := "CREATE VECTOR INDEX " + QuoteName(idx.name, truncate) + " on " + QuoteName(table, truncate) + "(";
    var s1 := head + QuoteName(column, truncate);
    var s2 := s1 + OrganizationText(idx.organization);
    var s3 := s2 + idx.metric;
    var s4 := s3 + " WITH TARGET ACCURACY ";
    var s5 := s4 + IntToString(idx.percentage);
    assert CreateSql(idx, table, column, truncate) == s5 + ParametersClause(idx.organization);
    ConcatAffixes(head, QuoteName(column, truncate));
    StartsWithAppend(s1, OrganizationText(idx.organization), head);
    StartsWithAppend(s2, idx.metric, head);
    StartsWithAppend(s3, " WITH TARGET ACCURACY ", head);
    StartsWithAppend(s4, IntToString(idx.percentage), head);
    StartsWithAppend(s5, ParametersClause(idx.organization), head);
    EndsWithLastThree(s3, " WITH TARGET ACCURACY ", IntToString(idx.percentage), ParametersClause(idx.organization));
  }

  // ---- Reading the PARAMETERS clause back ----

  predicate IsNumberChar(c: char) {
    c == '-' || '0' <= c <= '9'
  }

  /** The length of the run of sign and digit characters at the front. */
  function NumberSpan(s: string): (k: nat)
    ensures k <= |s|
  {
    if s == [] || !IsNumberChar(s[0]) then 0 else 1 + NumberSpan(s[1..])
  }

  predicate IsIntText(s: string) {
    IsDigits(s) || (|s| > 0 && s[0] == '-' && IsDigits(s[1..]))
  }

  lemma {:induction false} NumberSpanStops(a: string, t: string)
    requires forall i :: 0 <= i < |a| ==> IsNumberChar(a[i])
    requires t == [] || !IsNumberChar(t[0])
    ensures NumberSpan(a + t) == |a|
  {
    if a == [] {
      assert a + t == t;
    } else {
      assert (a + t)[1..] == a[1..] + t;
      NumberSpanStops(a[1..], t);
    }
  }

  lemma IntTextOfInt(i: int)
    ensures IsIntText(IntToString(i)) && ParseInt(IntToString(i)) == i
    ensures forall k :: 0 <= k < |IntToString(i)| ==> IsNumberChar(IntToString(i)[k])
  {
    IntToStringRoundTrip(i);
    NatToStringRoundTrip(if i < 0 then -i else i);
    if i < 0 {
      assert IntToString(i)[1..] == NatToString(-i);
    }
  }

  function ReadInt(s: string): Option<int> {
    if IsIntText(s) then Some(ParseInt(s)) else None
  }

  /** The text of a clause between its head and the closing ");". */
  function Between(s: string, head: string): Option<string> {
    if |s| >= |head| + 2 && s[..|head|] == head && s[|s| - 2..] == ");" then Some(s[|head|..|s| - 2]) else None
  }

  lemma BetweenOf(head: string, body: string)
    ensures Between(head + body + ");", head) == Some(body)
  {
    var s := head + body + ");";
    assert s[..|head|] == head;
    assert s[|s| - 2..] == ");";
    assert s[|head|..|s| - 2] == body;
  }

  /** Reads the IVF tuning value back from a PARAMETERS clause. */
  function ReadIvfParameters(clause: string): Option<Option<int>> {
    if clause == [] then Some(None)
    else
      match Between(clause, IvfParameters)
      case None => None
      case Some(body) => if IsIntText(body) then Some(Some(ParseInt(body))) else None
  }

  /** Reads `<neighbours>[, EFCONSTRUCTION <width>]`, the text after the
      NEIGHBOR keyword. */
  function ReadHnswBody(body: string): Option<(Option<int>, Option<int>)> {
    var k := NumberSpan(body);
    var first := ReadInt(body[..k]);
    if first.None? then None
    else if k == |body| then Some((Some(first.value), None))
    else if |body| - k > |EfSeparator| && body[k..k + |EfSeparator|] == EfSeparator
            && ReadInt(body[k + |EfSeparator|..]).Some? then
      Some((Some(first.value), Some(ReadInt(body[k + |EfSeparator|..]).value)))
    else None
  }

  /** Reads the HNSW tuning values back from a PARAMETERS clause. */
  function ReadHnswParameters(clause: string): Option<(Option<int>, Option<int>)> {
    if clause == [] then Some((None, None))
    else if Between(clause, HnswNeighbor).Some? then
      ReadHnswBody(Between(clause, HnswNeighbor).value)
    else
      match Between(clause, HnswEf)
      case None => None
      case Some(body) => match ReadInt(body) case None => None case Some(e) => Some((None, Some(e)))
  }

  /** The IVF clause names the partition count it was built from. */
  lemma IvfParametersRoundTrip(partitions: Option<int>)
    ensures ReadIvfParameters(ParametersClause(Ivf(partitions))) == Some(partitions)
  {
    if partitions.Some? {
      IntTextOfInt(partitions.value);
      BetweenOf(IvfParameters, IntToString(partitions.value));
    }
  }

  lemma HnswNeighborRoundTrip(c: int)
    ensures ReadHnswParameters(ParametersClause(Hnsw(Some(c), None))) == Some((Some(c), None))
  {
    var m := IntToString(c);
    IntTextOfInt(c);
    BetweenOf(HnswNeighbor, m);
    NumberSpanStops(m, []);
    assert m + [] == m;
  }

  lemma HnswBodyRoundTrip(c: int, e: int)
    ensures ReadHnswBody(IntToString(c) + EfSeparator + IntToString(e)) == Some((Some(c), Some(e)))
  {
    var m := IntToString(c);
    var rest := EfSeparator + IntToString(e);
    var body := m + rest;
    assert body == IntToString(c) + EfSeparator + IntToString(e);
    IntTextOfInt(c);
    IntTextOfInt(e);
    NumberSpanStops(m, rest);
    assert body[..|m|] == m;
    assert body[|m|..|m| + |EfSeparator|] == EfSeparator;
    assert body[|m| + |EfSeparator|..] == IntToString(e);
  }

  lemma HnswBothRoundTrip(c: int, e: int)
    ensures ReadHnswParameters(ParametersClause(Hnsw(Some(c), Some(e)))) == Some((Some(c), Some(e)))
  {
    var body := IntToString(c) + EfSeparator + IntToString(e);
    assert ParametersClause(Hnsw(Some(c), Some(e))) == HnswNeighbor + body + ");";
    BetweenOf(HnswNeighbor, body);
    HnswBodyRoundTrip(c, e);
  }

  lemma HnswEfRoundTrip(e: int)
    ensures ReadHnswParameters(ParametersClause(Hnsw(None, Some(e)))) == Some((None, Some(e)))
  {
    var clause := ParametersClause(Hnsw(None, Some(e)));
    IntTextOfInt(e);
    BetweenOf(HnswEf, IntToString(e));
    assert clause[22] == 'E' && HnswNeighbor[22] == 'N';
    assert Between(clause, HnswNeighbor).None?;
  }

  /** The HNSW clause names the neighbour count and construction width it was
      built from, in each of its four shapes. */
  lemma HnswParametersRoundTrip(maxConnection: Option<int>, efConstruction: Option<int>)
    ensures ReadHnswParameters(ParametersClause(Hnsw(maxConnection, efConstruction))) == Some((maxConnection, efConstruction))
  {
    match (maxConnection, efConstruction)
    case (None, None) =>
    case (Some(c), None) => HnswNeighborRoundTrip(c);
    case (Some(c), Some(e)) => HnswBothRoundTrip(c, e);
    case (None, Some(e)) => HnswEfRoundTrip(e);
  }
}
