/** sql_flush of dmDjango2.0/src/operations.py: the statements that empty a
    set of tables while foreign keys point at them. Every constraint that
    references a flushed table is disabled first, then the tables are
    truncated, then the constraints are enabled again, then the sequence
    reset statements follow. The catalog query that finds the constraints is
    an input of the model. */
module Flush {
  import opened Text
  import opened SqlTypes
  import Operations

  /** style.SQL_KEYWORD and style.SQL_FIELD, the output colouring hooks. */
  datatype Style = Style(keyword: string -> string, field: string -> string)

  /** A foreign-key constraint: the table it belongs to and its name. */
  type Constraint = (string, string)

  /** The catalog lookup _foreign_key_constraints(table, recursive): the
      (referencing table, constraint name) rows the query returns. */
  type ForeignKeyLookup = (string, bool) -> seq<Constraint>

  function Elems<T>(s: seq<T>): set<T> {
    set x | x in s
  }

  predicate Distinct<T(==)>(s: seq<T>) {
    forall i, j :: 0 <= i < j < |s| ==> s[i] != s[j]
  }

  /** A sequence without repetitions has as many elements as its set. */
  lemma {:induction false} DistinctCardinality<T>(s: seq<T>)
    requires Distinct(s)
    ensures |Elems(s)| == |s|
  {
    if s != [] {
      var last := s[|s| - 1];
      var init := s[..|s| - 1];
      assert Distinct(init);
      DistinctCardinality(init);
      forall k | 0 <= k < |init|
        ensures init[k] != last
      {
        assert init[k] == s[k];
      }
      assert s == init + [last];
      assert Elems(s) == Elems(init) + {last};
    }
  }

  lemma ElemsSnoc<T>(s: seq<T>, x: T)
    ensures Elems(s + [x]) == Elems(s) + {x}
  {
    assert forall y :: y in s + [x] <==> y in s || y == x;
  }

  lemma DistinctSnoc<T>(s: seq<T>, x: T)
    requires Distinct(s) && x !in s
    ensures Distinct(s + [x])
  {
    forall i, j | 0 <= i < j < |s + [x]|
      ensures (s + [x])[i] != (s + [x])[j]
    {
      if j == |s| {
        assert (s + [x])[i] == s[i];
      } else {
        assert (s + [x])[i] == s[i] && (s + [x])[j] == s[j];
      }
    }
  }

  /** The requested tables as sql_flush names them, upper-cased. */
  ghost function UpperSet(tables: seq<string>): set<string> {
    set t | t in tables :: Upper(t)
  }

  lemma UpperSetSnoc(tables: seq<string>, t: string)
    ensures UpperSet(tables + [t]) == UpperSet(tables) + {Upper(t)}
  {
    assert forall u :: u in tables + [t] <==> u in tables || u == t;
  }

  /** Every constraint the catalog reports for a requested table; collected
      whether or not the flush cascades. */
  ghost function ConstraintSet(tables: seq<string>, fk: ForeignKeyLookup, cascade: bool): set<Constraint> {
    set t, c | t in tables && c in fk(t, cascade) :: c
  }

  /** The requested tables, upper-cased, plus the tables that hold a reported
      constraint when the flush cascades. */
  ghost function TruncatedSet(tables: seq<string>, fk: ForeignKeyLookup, cascade: bool): set<string> {
    UpperSet(tables) + (if cascade then set c | c in ConstraintSet(tables, fk, cascade) :: c.0 else {})
  }

  lemma ConstraintSetSnoc(tables: seq<string>, t: string, fk: ForeignKeyLookup, cascade: bool)
    ensures ConstraintSet(tables + [t], fk, cascade) == ConstraintSet(tables, fk, cascade) + Elems(fk(t, cascade))
  {
    var whole := tables + [t];
    forall c | c in ConstraintSet(whole, fk, cascade)
      ensures c in ConstraintSet(tables, fk, cascade) + Elems(fk(t, cascade))
    {
      var u :| u in whole && c in fk(u, cascade);
      if u != t {
        assert u in tables;
      }
    }
  }

  /** The grouping loop of sql_flush: the distinct constraints and the distinct
      tables to truncate, each set listed once in a fixed order. */
  method CollectFlushTargets(tables: seq<string>, fk: ForeignKeyLookup, cascade: bool)
    returns (constraints: seq<Constraint>, truncated: seq<string>)
    ensures Distinct(constraints) && Elems(constraints) == ConstraintSet(tables, fk, cascade)
    ensures Distinct(truncated) && Elems(truncated) == TruncatedSet(tables, fk, cascade)
  {
    truncated := [];
    var k := 0;
    while k < |tables|
      invariant 0 <= k <= |tables|
      invariant Distinct(truncated)
      invariant Elems(truncated) == UpperSet(tables[..k])
    {
      var u := Upper(tables[k]);
      assert tables[..k + 1] == tables[..k] + [tables[k]];
      UpperSetSnoc(tables[..k], tables[k]);
      if u !in truncated {
        DistinctSnoc(truncated, u);
        ElemsSnoc(truncated, u);
        truncated := truncated + [u];
      }
      k := k + 1;
    }
    assert tables[..k] == tables;
    ghost var requested := Elems(truncated);

    constraints := [];
    var i := 0;
    while i < |tables|
      invariant 0 <= i <= |tables|
      invariant Distinct(constraints) && Distinct(truncated)
      invariant Elems(constraints) == ConstraintSet(tables[..i], fk, cascade)
      invariant Elems(truncated) == requested +
        (if cascade then set c | c in ConstraintSet(tables[..i], fk, cascade) :: c.0 else {})
    {
      var found := fk(tables[i], cascade);
      var j := 0;
      while j < |found|
        invariant 0 <= j <= |found|
        invariant Distinct(constraints) && Distinct(truncated)
        invariant Elems(constraints) == ConstraintSet(tables[..i], fk, cascade) + Elems(found[..j])
        invariant Elems(truncated) == requested +
          (if cascade then set c | c in ConstraintSet(tables[..i], fk, cascade) + Elems(found[..j]) :: c.0 else {})
      {
        var c := found[j];
        assert found[..j + 1] == found[..j] + [c];
        ElemsSnoc(found[..j], c);
        if cascade && c.0 !in truncated {
          DistinctSnoc(truncated, c.0);
          ElemsSnoc(truncated, c.0);
          truncated := truncated + [c.0];
        }
        if c !in constraints {
          DistinctSnoc(constraints, c);
          ElemsSnoc(constraints, c);
          constraints := constraints + [c];
        }
        j := j + 1;
      }
      assert found[..j] == found;
      assert tables[..i + 1] == tables[..i] + [tables[i]];
      ConstraintSetSnoc(tables[..i], tables[i], fk, cascade);
      i := i + 1;
    }
    assert tables[..i] == tables;
  }

  /** ALTER TABLE <table> DISABLE CONSTRAINT <name>; */
  function DisableLine(style: Style, truncate: Operations.Truncator, c: Constraint): string {
    style.keyword("ALTER") + " " + style.keyword("TABLE") + " " + style.field(Operations.QuoteName(c.0, truncate)) + " "
    + style.keyword("DISABLE") + " " + style.keyword("CONSTRAINT") + " " + style.field(Operations.QuoteName(c.1, truncate)) + ";"
  }

  /** TRUNCATE TABLE <table>; */
  function TruncateLine(style: Style, truncate: Operations.Truncator, table: string): string {
    style.keyword("TRUNCATE") + " " + style.keyword("TABLE") + " " + style.field(Operations.QuoteName(table, truncate)) + ";"
  }

  /** ALTER TABLE <table> ENABLE CONSTRAINT <name>; */
  function EnableLine(style: Style, truncate: Operations.Truncator, c: Constraint): string {
    style.keyword("ALTER") + " " + style.keyword("TABLE") + " " + style.field(Operations.QuoteName(c.0, truncate)) + " "
    + style.keyword("ENABLE") + " " + style.keyword("CONSTRAINT") + " " + style.field(Operations.QuoteName(c.1, truncate)) + ";"
  }

  /** The four groups of the plan, in the order they must run. */
  function FlushLines(style: Style, truncate: Operations.Truncator, constraints: seq<Constraint>,
                      truncated: seq<string>, resetLines: seq<string>): seq<string>
  {
    seq(|constraints|, i requires 0 <= i < |constraints| => DisableLine(style, truncate, constraints[i]))
    + seq(|truncated|, i requires 0 <= i < |truncated| => TruncateLine(style, truncate, truncated[i]))
    + seq(|constraints|, i requires 0 <= i < |constraints| => EnableLine(style, truncate, constraints[i]))
    + resetLines
  }

  /** `sql` disables every constraint of `cs` once, then truncates every table
      of `ts` once, then enables the same constraints, then runs `resetLines`;
      the order inside each group is the order of some listing of the set. */
  ghost predicate IsFlushPlan(sql: seq<string>, style: Style, truncate: Operations.Truncator,
                              cs: set<Constraint>, ts: set<string>, resetLines: seq<string>)
  {
    exists constraints: seq<Constraint>, truncated: seq<string> ::
      && Distinct(constraints) && Elems(constraints) == cs
      && Distinct(truncated) && Elems(truncated) == ts
      && sql == FlushLines(style, truncate, constraints, truncated, resetLines)
  }

  /** sql_flush: nothing for an empty table list; otherwise the disable,
      truncate, enable and sequence-reset groups over the constraints and
      tables the catalog reports. `resetLines` stands for the output of
      sequence_reset_by_name_sql, which is not part of this model. */
  method SqlFlush(style: Style, tables: seq<string>, resetLines: seq<string>, allowCascade: bool,
                  fk: ForeignKeyLookup, truncate: Operations.Truncator) returns (sql: seq<string>)
    ensures |tables| == 0 ==> sql == []
    ensures |tables| > 0 ==>
      IsFlushPlan(sql, style, truncate, ConstraintSet(tables, fk, allowCascade),
                  TruncatedSet(tables, fk, allowCascade), resetLines)
  {
    if |tables| == 0 {
      return [];
    }
    var constraints, truncated := CollectFlushTargets(tables, fk, allowCascade);
    sql := FlushLines(style, truncate, constraints, truncated, resetLines);
  }

  /** Where each statement of a plan sits: the DISABLE group at 0, the
      TRUNCATE group after it, the ENABLE group after that, the resets last. */
  lemma FlushLinesShape(style: Style, truncate: Operations.Truncator, constraints: seq<Constraint>,
                        truncated: seq<string>, resetLines: seq<string>)
    ensures var r := FlushLines(style, truncate, constraints, truncated, resetLines);
      var n := |constraints|;
      var m := |truncated|;
      && |r| == 2 * n + m + |resetLines|
      && (forall k :: 0 <= k < n ==> r[k] == DisableLine(style, truncate, constraints[k]))
      && (forall k :: 0 <= k < m ==> r[n + k] == TruncateLine(style, truncate, truncated[k]))
      && (forall k :: 0 <= k < n ==> r[n + m + k] == EnableLine(style, truncate, constraints[k]))
      && r[2 * n + m..] == resetLines
  {
  }

  /** The DISABLE, TRUNCATE and ENABLE statements for a set of constraints
      or tables. */
  function DisableLines(style: Style, truncate: Operations.Truncator, cs: set<Constraint>): set<string> {
    set c | c in cs :: DisableLine(style, truncate, c)
  }

  function TruncateLines(style: Style, truncate: Operations.Truncator, ts: set<string>): set<string> {
    set t | t in ts :: TruncateLine(style, truncate, t)
  }

  function EnableLines(style: Style, truncate: Operations.Truncator, cs: set<Constraint>): set<string> {
    set c | c in cs :: EnableLine(style, truncate, c)
  }

  /** For one listing, each DISABLE statement disables a listed constraint. */
  lemma DisableGroup(style: Style, truncate: Operations.Truncator, constraints: seq<Constraint>,
      truncated: seq<string>, resetLines: seq<string>, r: seq<string>)
    requires r == FlushLines(style, truncate, constraints, truncated, resetLines)
    ensures forall k :: 0 <= k < |constraints| ==> r[k] in DisableLines(style, truncate, Elems(constraints))
  {
    FlushLinesShape(style, truncate, constraints, truncated, resetLines);
    forall k | 0 <= k < |constraints|
      ensures r[k] in DisableLines(style, truncate, Elems(constraints))
    {
      assert constraints[k] in Elems(constraints);
    }
  }

  /** For one listing, each TRUNCATE statement truncates a listed table. */
  lemma TruncateGroup(style: Style, truncate: Operations.Truncator, constraints: seq<Constraint>,
      truncated: seq<string>, resetLines: seq<string>, r: seq<string>)
    requires r == FlushLines(style, truncate, constraints, truncated, resetLines)
    ensures forall k :: |constraints| <= k < |constraints| + |truncated| ==>
      r[k] in TruncateLines(style, truncate, Elems(truncated))
  {
    var n := |constraints|;
    FlushLinesShape(style, truncate, constraints, truncated, resetLines);
    forall k | n <= k < n + |truncated|
      ensures r[k] in TruncateLines(style, truncate, Elems(truncated))
    {
      assert truncated[k - n] in Elems(truncated);
      assert r[n + (k - n)] == TruncateLine(style, truncate, truncated[k - n]);
    }
  }

  /** For one listing, each ENABLE statement enables a listed constraint. */
  lemma EnableGroup(style: Style, truncate: Operations.Truncator, constraints: seq<Constraint>,
      truncated: seq<string>, resetLines: seq<string>, r: seq<string>)
    requires r == FlushLines(style, truncate, constraints, truncated, resetLines)
    ensures forall k :: |constraints| + |truncated| <= k < 2 * |constraints| + |truncated| ==>
      r[k] in EnableLines(style, truncate, Elems(constraints))
  {
    var n := |constraints|;
    var m := |truncated|;
    FlushLinesShape(style, truncate, constraints, truncated, resetLines);
    forall k | n + m <= k < 2 * n + m
      ensures r[k] in EnableLines(style, truncate, Elems(constraints))
    {
      assert constraints[k - n - m] in Elems(constraints);
      assert r[n + m + (k - n - m)] == EnableLine(style, truncate, constraints[k - n - m]);
    }
  }

  /** A flush plan has one DISABLE and one ENABLE statement per distinct
      constraint and one TRUNCATE per table; every DISABLE comes before every
      TRUNCATE, every TRUNCATE before every ENABLE, and the resets come last. */
  lemma FlushPlanOrder(sql: seq<string>, style: Style, truncate: Operations.Truncator,
                       cs: set<Constraint>, ts: set<string>, resetLines: seq<string>)
    requires IsFlushPlan(sql, style, truncate, cs, ts, resetLines)
    ensures |sql| == 2 * |cs| + |ts| + |resetLines|
    ensures forall k :: 0 <= k < |cs| ==> sql[k] in DisableLines(style, truncate, cs)
    ensures forall k :: |cs| <= k < |cs| + |ts| ==> sql[k] in TruncateLines(style, truncate, ts)
    ensures forall k :: |cs| + |ts| <= k < 2 * |cs| + |ts| ==> sql[k] in EnableLines(style, truncate, cs)
    ensures sql[2 * |cs| + |ts|..] == resetLines
  {
    var constraints, truncated :| && Distinct(constraints) && Elems(constraints) == cs
                                  && Distinct(truncated) && Elems(truncated) == ts
                                  && sql == FlushLines(style, truncate, constraints, truncated, resetLines);
    DistinctCardinality(constraints);
    DistinctCardinality(truncated);
    FlushLinesShape(style, truncate, constraints, truncated, resetLines);
    DisableGroup(style, truncate, constraints, truncated, resetLines, sql);
    TruncateGroup(style, truncate, constraints, truncated, resetLines, sql);
    EnableGroup(style, truncate, constraints, truncated, resetLines, sql);
  }

  /** For one listing, every listed constraint is disabled in the first
      group. */
  lemma DisableCovered(style: Style, truncate: Operations.Truncator, constraints: seq<Constraint>,
                       truncated: seq<string>, resetLines: seq<string>, r: seq<string>)
    requires r == FlushLines(style, truncate, constraints, truncated, resetLines)
    ensures forall c :: c in constraints ==>
      exists k :: 0 <= k < |constraints| && r[k] == DisableLine(style, truncate, c)
  {
    FlushLinesShape(style, truncate, constraints, truncated, resetLines);
    forall c | c in constraints
      ensures exists k :: 0 <= k < |constraints| && r[k] == DisableLine(style, truncate, c)
    {
      var k :| 0 <= k < |constraints| && constraints[k] == c;
      assert r[k] == DisableLine(style, truncate, c);
    }
  }

  /** For one listing, every listed constraint is enabled in the third
      group. */
  lemma EnableCovered(style: Style, truncate: Operations.Truncator, constraints: seq<Constraint>,
                      truncated: seq<string>, resetLines: seq<string>, r: seq<string>)
    requires r == FlushLines(style, truncate, constraints, truncated, resetLines)
    ensures forall c :: c in constraints ==>
      exists k :: |constraints| + |truncated| <= k < 2 * |constraints| + |truncated|
                  && r[k] == EnableLine(style, truncate, c)
  {
    var n := |constraints|;
    var m := |truncated|;
    forall c | c in constraints
      ensures exists k :: n + m <= k < 2 * n + m && r[k] == EnableLine(style, truncate, c)
    {
      var k :| 0 <= k < n && constraints[k] == c;
      EnableAt(style, truncate, constraints, truncated, resetLines, r, k);
    }
  }

  /** The ENABLE line of the k-th constraint sits after every DISABLE and TRUNCATE line. */
  lemma EnableAt(style: Style, truncate: Operations.Truncator, constraints: seq<Constraint>,
                 truncated: seq<string>, resetLines: seq<string>, r: seq<string>, k: nat)
    requires r == FlushLines(style, truncate, constraints, truncated, resetLines)
    requires k < |constraints|
    ensures |constraints| + |truncated| + k < |r|
    ensures r[|constraints| + |truncated| + k] == EnableLine(style, truncate, constraints[k])
  {
    FlushLinesShape(style, truncate, constraints, truncated, resetLines);
  }

  /** For one listing, every listed table is truncated in the second group. */
  lemma TablesCovered(style: Style, truncate: Operations.Truncator, constraints: seq<Constraint>,
                      truncated: seq<string>, resetLines: seq<string>, r: seq<string>)
    requires r == FlushLines(style, truncate, constraints, truncated, resetLines)
    ensures forall t :: t in truncated ==>
      exists k :: |constraints| <= k < |constraints| + |truncated| && r[k] == TruncateLine(style, truncate, t)
  {
    var n := |constraints|;
    var m := |truncated|;
    FlushLinesShape(style, truncate, constraints, truncated, resetLines);
    forall t | t in truncated
      ensures exists k :: n <= k < n + m && r[k] == TruncateLine(style, truncate, t)
    {
      var k :| 0 <= k < m && truncated[k] == t;
      assert r[n + k] == TruncateLine(style, truncate, t);
    }
  }

  /** A flush plan leaves nothing out: every constraint is disabled in the
      first group and enabled in the third, every table truncated in the
      second. */
  lemma FlushPlanCovers(sql: seq<string>, style: Style, truncate: Operations.Truncator,
                        cs: set<Constraint>, ts: set<string>, resetLines: seq<string>)
    requires IsFlushPlan(sql, style, truncate, cs, ts, resetLines)
    ensures |sql| == 2 * |cs| + |ts| + |resetLines|
    ensures forall c :: c in cs ==> exists k :: 0 <= k < |cs| && sql[k] == DisableLine(style, truncate, c)
    ensures forall t :: t in ts ==> exists k :: |cs| <= k < |cs| + |ts| && sql[k] == TruncateLine(style, truncate, t)
    ensures forall c :: c in cs ==>
      exists k :: |cs| + |ts| <= k < 2 * |cs| + |ts| && sql[k] == EnableLine(style, truncate, c)
  {
    var constraints, truncated :| && Distinct(constraints) && Elems(constraints) == cs
                                  && Distinct(truncated) && Elems(truncated) == ts
                                  && sql == FlushLines(style, truncate, constraints, truncated, resetLines);
    DistinctCardinality(constraints);
    DistinctCardinality(truncated);
    FlushLinesShape(style, truncate, constraints, truncated, resetLines);
    DisableCovered(style, truncate, constraints, truncated, resetLines, sql);
    EnableCovered(style, truncate, constraints, truncated, resetLines, sql);
    TablesCovered(style, truncate, constraints, truncated, resetLines, sql);
    var n := |constraints|;
    var m := |truncated|;
    assert |cs| == n && |ts| == m;
    forall c | c in cs
      ensures exists k :: 0 <= k < n && sql[k] == DisableLine(style, truncate, c)
      ensures exists k :: n + m <= k < 2 * n + m && sql[k] == EnableLine(style, truncate, c)
    {
      assert c in constraints;
    }
    forall t | t in ts
      ensures exists k :: n <= k < n + m && sql[k] == TruncateLine(style, truncate, t)
    {
      assert t in truncated;
    }
  }
}
