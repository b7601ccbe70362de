/** The backend's scalar SQL fragment generators (DatabaseOperations in
    dmDjango2.0/src/operations.py): identifier quoting, date/time extraction
    and truncation, time-zone conversion, interval literals, connector
    lowering, multi-row insert assembly and the small lookup templates. */
module Operations {
  import opened Text
  import opened SqlTypes

  /** max_name_length(): the engine's identifier limit. */
  const MaxNameLength: nat := 128

  /** django.db.backends.utils.truncate_name(identifier, length), which lives
      outside this backend. */
  type Truncator = (string, nat) -> string

  /** All this model assumes of truncate_name: a name that already fits is
      kept whole, and a name without '"' is cut down to the requested length
      (its last 4 characters become a hash, so the length must leave room
      for them). A name holding '"' is split on `"."` and stripped of quotes
      before its length is compared, so it may come back longer than `n`. */
  ghost predicate TruncatesLikeDjango(truncate: Truncator) {
    forall s: string, n: nat {:trigger truncate(s, n)} ::
      && (|s| <= n ==> truncate(s, n) == s)
      && (4 <= n && '"' !in s ==> |truncate(s, n)| <= n)
  }

  /** A name counts as already quoted when it starts and ends with '"'. */
  predicate IsQuoted(name: string) {
    StartsWith(name, "\"") && EndsWith(name, "\"")
  }

  /** quote_name: an unquoted name has its quotes doubled, is upper-cased,
      truncated to the identifier limit and wrapped in quotes; a quoted name
      is returned as it is. */
  function QuoteName(name: string, truncate: Truncator): (r: string)
    ensures IsQuoted(name) ==> r == name
    ensures IsQuoted(r)
  {
    if !IsQuoted(name) then "\"" + truncate(Upper(DoubleQuotes(name)), MaxNameLength) + "\""
    else name
  }

  /** Quoting an already quoted identifier is a no-op, so quote_name is
      idempotent. */
  lemma QuoteNameIdempotent(name: string, truncate: Truncator)
    ensures QuoteName(QuoteName(name, truncate), truncate) == QuoteName(name, truncate)
  {
  }

  /** The quoted form of a name that fits the limit reads back, after removing
      the outer quotes and un-doubling, as the upper-cased name; and the
      quoted form of a name without '"' is no longer than the limit plus its
      two quotes. */
  lemma QuoteNameRoundTrip(name: string, truncate: Truncator)
    requires TruncatesLikeDjango(truncate)
    requires !IsQuoted(name)
    ensures '"' !in name ==> |QuoteName(name, truncate)| <= MaxNameLength + 2
    ensures |DoubleQuotes(name)| <= MaxNameLength ==>
      var q := QuoteName(name, truncate);
      UndoubleQuotes(q[1..|q| - 1]) == Upper(name)
  {
    var body := Upper(DoubleQuotes(name));
    if '"' !in name {
      DoubleQuotesWithoutQuotes(name);
      UpperKeepsQuoteFree(name);
      assert |truncate(body, MaxNameLength)| <= MaxNameLength;
    }
    if |DoubleQuotes(name)| <= MaxNameLength {
      var q := QuoteName(name, truncate);
      assert truncate(body, MaxNameLength) == body;
      assert q[1..|q| - 1] == body;
      DoubleQuotesUpper(name);
      UndoubleDoubleQuotes(Upper(name));
    }
  }

  /** A truncator that, like Django's truncate_name on a name holding '"',
      keeps such a name whole whatever its length. */
  function KeepQuotedNames(s: string, n: nat): string {
    if '"' in s || |s| <= n then s else s[..n]
  }

  /** The length bound of QuoteNameRoundTrip needs its '"' guard: a leading
      quote followed by 128 letters is doubled to 130 characters, which the
      truncator keeps, so the quoted result is 132 characters long. */
  lemma QuotedNameExceedsLimit()
    ensures TruncatesLikeDjango(KeepQuotedNames)
    ensures var name := "\"" + seq(128, i => 'A');
      && !IsQuoted(name)
      && |QuoteName(name, KeepQuotedNames)| == MaxNameLength + 4
  {
    var letters := seq(128, i => 'A');
    var name := "\"" + letters;
    assert !EndsWith(name, "\"") by {
      assert name[|name| - 1] == 'A';
    }
    assert '"' !in letters;
    DoubleQuotesWithoutQuotes(letters);
    assert DoubleQuotes(name) == "\"\"" + letters by {
      assert name[0] == '"' && name[1..] == letters;
    }
    var body := Upper(DoubleQuotes(name));
    assert body[0] == '"';
    assert KeepQuotedNames(body, MaxNameLength) == body;
  }

  /** A template with one hole for the field expression. */
  datatype Wrapper = Wrapper(before: string, after: string) {
    function Around(x: string): string {
      before + x + after
    }
  }

  /** The lookups date_extract_sql renders with a fixed TO_CHAR/CAST template. */
  const ExtractTemplates: map<string, Wrapper> := map[
    "week_day" := Wrapper("TO_CHAR(", ", 'D')"),
    "iso_week_day" := Wrapper("TO_CHAR(", " - 1, 'D')"),
    "week" := Wrapper("CAST(TO_CHAR(", ", 'IW') AS INT)"),
    "quarter" := Wrapper("TO_CHAR(", ", 'Q')"),
    "iso_year" := Wrapper("TO_CHAR(", ", 'IYYY')")
  ]

  /** date_extract_sql: five lookups have their own template; every other
      lookup becomes EXTRACT(<LOOKUP> FROM field). */
  function DateExtractSql(lookupType: string, fieldName: string): (r: string)
    ensures lookupType == "week_day" ==> r == "TO_CHAR(" + fieldName + ", 'D')"
    ensures lookupType == "iso_week_day" ==> r == "TO_CHAR(" + fieldName + " - 1, 'D')"
    ensures lookupType == "week" ==> r == "CAST(TO_CHAR(" + fieldName + ", 'IW') AS INT)"
    ensures lookupType == "quarter" ==> r == "TO_CHAR(" + fieldName + ", 'Q')"
    ensures lookupType == "iso_year" ==> r == "TO_CHAR(" + fieldName + ", 'IYYY')"
    ensures lookupType !in {"week_day", "iso_week_day", "week", "quarter", "iso_year"} ==>
      r == "EXTRACT(" + Upper(lookupType) + " FROM " + fieldName + ")"
  {
    if lookupType in ExtractTemplates then ExtractTemplates[lookupType].Around(fieldName)
    else Wrapper("EXTRACT(" + Upper(lookupType) + " FROM ", ")").Around(fieldName)
  }

  /** A Python datetime.timedelta, which normalises itself so that only the
      day count can be negative. */
  datatype Timedelta = Timedelta(days: int, seconds: int, microseconds: int) {
    predicate Valid() {
      0 <= seconds < 86400 && 0 <= microseconds < 1000000
    }
  }

  /** The two divmod steps of date_interval_sql: hours, minutes and seconds of
      the time of day. */
  function ClockOf(seconds: nat): (hms: (nat, nat, nat))
    requires seconds < 86400
    ensures hms.0 * 3600 + hms.1 * 60 + hms.2 == seconds
    ensures hms.0 < 24 && hms.1 < 60 && hms.2 < 60
  {
    var minutes := seconds / 60;
    (minutes / 60, minutes % 60, seconds % 60)
  }

  /** date_interval_sql: INTERVAL '<days> HH:MM:SS.ffffff' DAY(<width of days>)
      TO SECOND(6), with no parameters. */
  function DateIntervalSql(td: Timedelta): (r: Compiled)
    requires td.Valid()
    ensures r.params == []
  {
    var hms := ClockOf(td.seconds);
    var days := IntToString(td.days);
    Compiled("INTERVAL '" + days + " " + ZeroPad(hms.0, 2) + ":" + ZeroPad(hms.1, 2) + ":" + ZeroPad(hms.2, 2)
             + "." + ZeroPad(td.microseconds, 6) + "' DAY(" + NatToString(|days|) + ") TO SECOND(6)", [])
  }

  /** The shape of an interval literal with its fields spelled out. */
  predicate IsIntervalLiteral(sql: string, days: string, hh: string, mm: string, ss: string, frac: string, precision: string) {
    sql == "INTERVAL '" + days + " " + hh + ":" + mm + ":" + ss + "." + frac + "' DAY(" + precision + ") TO SECOND(6)"
  }

  /** A decimal field of exactly `width` digits. */
  predicate IsField(s: string, width: nat) {
    |s| == width && IsDigits(s)
  }

  /** The interval literal denotes exactly the timedelta: its day field reads
      back as the day count, its clock fields as the seconds of the day, its
      fraction as the microseconds, and DAY(...) gives the width of the day
      field including any minus sign. */
  lemma DateIntervalDenotesTimedelta(td: Timedelta)
    requires td.Valid()
    ensures exists days, hh, mm, ss, frac, precision ::
      && IsIntervalLiteral(DateIntervalSql(td).sql, days, hh, mm, ss, frac, precision)
      && (IsDigits(days) || (|days| > 0 && days[0] == '-' && IsDigits(days[1..])))
      && ParseInt(days) == td.days
      && IsField(hh, 2) && IsField(mm, 2) && IsField(ss, 2) && IsField(frac, 6)
      && ParseNat(hh) * 3600 + ParseNat(mm) * 60 + ParseNat(ss) == td.seconds
      && ParseNat(mm) < 60 && ParseNat(ss) < 60
      && ParseNat(frac) == td.microseconds
      && IsDigits(precision) && ParseNat(precision) == |days|
  {
    var hms := ClockOf(td.seconds);
    var days := IntToString(td.days);
    IntToStringRoundTrip(td.days);
    assert Pow10(2) == 100;
    assert Pow10(6) == 1000000;
    ZeroPadRoundTrip(hms.0, 2);
    ZeroPadRoundTrip(hms.1, 2);
    ZeroPadRoundTrip(hms.2, 2);
    ZeroPadRoundTrip(td.microseconds, 6);
    NatToStringRoundTrip(|days|);
    assert IsIntervalLiteral(DateIntervalSql(td).sql, days, ZeroPad(hms.0, 2), ZeroPad(hms.1, 2), ZeroPad(hms.2, 2),
                             ZeroPad(td.microseconds, 6), NatToString(|days|));
  }

  /** date_trunc_sql: year and month keep a format argument, every other
      lookup truncates to the day. */
  function DateTruncSql(lookupType: string, fieldName: string): (r: string)
    ensures lookupType == "year" ==> r == "TRUNC(" + fieldName + ", 'YEAR')"
    ensures lookupType == "month" ==> r == "TRUNC(" + fieldName + ", 'MONTH')"
    ensures lookupType !in {"year", "month"} ==> r == "TRUNC(" + fieldName + ")"
  {
    if lookupType in {"year", "month"} then Wrapper("TRUNC(", ", '" + Upper(lookupType) + "')").Around(fieldName)
    else Wrapper("TRUNC(", ")").Around(fieldName)
  }

  /** One character of the class [\w/:+-], \w taken as ASCII word characters. */
  predicate IsTzNameChar(c: char) {
    ('a' <= c <= 'z') || ('A' <= c <= 'Z') || ('0' <= c <= '9') || c == '_' || c == '/' || c == ':' || c == '+' || c == '-'
  }

  predicate AllTzNameChars(s: string) {
    forall i :: 0 <= i < |s| ==> IsTzNameChar(s[i])
  }

  /** re.match(r'^[\w/:+-]+$', tzname). Python's `$` also matches just before
      a final newline, so one trailing "\n" is let through. */
  predicate TzNameMatches(tzname: string) {
    || (|tzname| > 0 && AllTzNameChars(tzname))
    || (|tzname| > 1 && tzname[|tzname| - 1] == '\n' && AllTzNameChars(tzname[..|tzname| - 1]))
  }

  /** A zone name that passes the check cannot close the SQL string literal it
      is pasted into: it holds no single quote. */
  lemma TzNameHasNoQuote(tzname: string)
    requires TzNameMatches(tzname)
    ensures forall i :: 0 <= i < |tzname| ==> tzname[i] != '\''
  {
    if !AllTzNameChars(tzname) {
      forall i | 0 <= i < |tzname|
        ensures tzname[i] != '\''
      {
        if i < |tzname| - 1 {
          assert tzname[..|tzname| - 1][i] == tzname[i];
        }
      }
    }
  }

  /** The check accepts a zone name with a trailing newline and rejects the
      empty name. */
  lemma TzNameMatchesExamples()
    ensures TzNameMatches("UTC\n") && !AllTzNameChars("UTC\n")
    ensures TzNameMatches("Asia/Shanghai")
    ensures !TzNameMatches("") && !TzNameMatches("\n") && !TzNameMatches("UTC'")
  {
    var utc := "UTC\n";
    assert utc[..3] == "UTC";
    assert AllTzNameChars("UTC") by {
      forall i | 0 <= i < 3 ensures IsTzNameChar("UTC"[i]) {
        assert "UTC"[i] in {'U', 'T', 'C'};
      }
    }
    assert !IsTzNameChar(utc[3]);
    var zone := "Asia/Shanghai";
    forall i | 0 <= i < |zone| ensures IsTzNameChar(zone[i]) {
      assert zone[i] in {'A', 's', 'i', 'a', '/', 'S', 'h', 'n', 'g'};
    }
    assert !IsTzNameChar("\n"[0]);
    assert !IsTzNameChar("UTC'"[3]);
  }

  /** _convert_field_to_tz: the identity when USE_TZ is off; otherwise the zone
      name is checked and the field is converted from UTC to the zone, then
      round-tripped through text to drop the zone, then cast to TIMESTAMP. */
  function ConvertFieldToTz(fieldName: string, tzname: string, useTz: bool): (r: Result<string>)
    ensures !useTz ==> r == Ok(fieldName)
    ensures useTz ==> (r.Err? <==> !TzNameMatches(tzname))
    ensures r.Err? ==> r.error.ValueError?
    ensures useTz && r.Ok? ==> (r.value ==
      "CAST(" + ("TO_DATE(" + ("TO_CHAR(" + ("(FROM_TZ(" + fieldName + ", '0:00') AT TIME ZONE '" + tzname + "')")
                                 + ", 'YYYY-MM-DD HH24:MI:SS')") + ", 'YYYY-MM-DD HH24:MI:SS')") + " AS TIMESTAMP)")
  {
    if !useTz then Ok(fieldName)
    else if !TzNameMatches(tzname) then Err(ValueError("Invalid time zone name: " + tzname))
    else
      var atZone := "(FROM_TZ(" + fieldName + ", '0:00') AT TIME ZONE '" + tzname + "')";
      var toText := Wrapper("TO_CHAR(", ", 'YYYY-MM-DD HH24:MI:SS')");
      var toDate := Wrapper("TO_DATE(", ", 'YYYY-MM-DD HH24:MI:SS')");
      var toTimestamp := Wrapper("CAST(", " AS TIMESTAMP)");
      Ok(toTimestamp.Around(toDate.Around(toText.Around(atZone))))
  }

  /** datetime_cast_date_sql: TRUNC of the zone-converted field. */
  function DatetimeCastDateSql(fieldName: string, tzname: string, useTz: bool): (r: Result<Compiled>)
    ensures r.Ok? <==> ConvertFieldToTz(fieldName, tzname, useTz).Ok?
    ensures r.Ok? ==> r.value == Compiled("TRUNC(" + ConvertFieldToTz(fieldName, tzname, useTz).value + ")", [])
  {
    var converted :- ConvertFieldToTz(fieldName, tzname, useTz);
    Ok(Compiled(Wrapper("TRUNC(", ")").Around(converted), []))
  }

  /** datetime_extract_sql: date extraction applied to the zone-converted field. */
  function DatetimeExtractSql(lookupType: string, fieldName: string, tzname: string, useTz: bool): (r: Result<Compiled>)
    ensures r.Ok? <==> ConvertFieldToTz(fieldName, tzname, useTz).Ok?
    ensures r.Ok? ==> r.value.params == []
    ensures r.Ok? ==> r.value.sql == DateExtractSql(lookupType, ConvertFieldToTz(fieldName, tzname, useTz).value)
  {
    var converted :- ConvertFieldToTz(fieldName, tzname, useTz);
    Ok(Compiled(DateExtractSql(lookupType, converted), []))
  }

  /** The templates datetime_trunc_sql adds to the date ones. */
  const DatetimeTruncFormats: map<string, string> := map["week" := "IW", "hour" := "HH24", "minute" := "MI"]

  /** The truncation expression of datetime_trunc_sql for an already
      converted field: year/month/week/hour/minute truncate with a format,
      day truncates to the day, anything else casts to DATETIME. */
  function DatetimeTruncOf(lookupType: string, f: string): (r: string)
    ensures lookupType == "year" ==> r == "TRUNC(" + f + ", 'YEAR')"
    ensures lookupType == "month" ==> r == "TRUNC(" + f + ", 'MONTH')"
    ensures lookupType == "week" ==> r == "TRUNC(" + f + ", 'IW')"
    ensures lookupType == "day" ==> r == "TRUNC(" + f + ")"
    ensures lookupType == "hour" ==> r == "TRUNC(" + f + ", 'HH24')"
    ensures lookupType == "minute" ==> r == "TRUNC(" + f + ", 'MI')"
    ensures lookupType !in {"year", "month", "week", "day", "hour", "minute"} ==>
      r == "CAST(" + f + " AS DATETIME)"
  {
    if lookupType in {"year", "month", "day"} then DateTruncSql(lookupType, f)
    else if lookupType in DatetimeTruncFormats then Wrapper("TRUNC(", ", '" + DatetimeTruncFormats[lookupType] + "')").Around(f)
    else Wrapper("CAST(", " AS DATETIME)").Around(f)
  }

  /** datetime_trunc_sql: the truncation of the zone-converted field, never
      with parameters; it fails exactly when the conversion fails. */
  function DatetimeTruncSql(lookupType: string, fieldName: string, tzname: string, useTz: bool): (r: Result<Compiled>)
    ensures r.Ok? <==> ConvertFieldToTz(fieldName, tzname, useTz).Ok?
    ensures r.Ok? ==> r.value == Compiled(DatetimeTruncOf(lookupType, ConvertFieldToTz(fieldName, tzname, useTz).value), [])
  {
    var f :- ConvertFieldToTz(fieldName, tzname, useTz);
    Ok(Compiled(DatetimeTruncOf(lookupType, f), []))
  }

  /** With USE_TZ off the datetime variants agree with the date ones on the
      lookups they share, and extraction agrees on every lookup. */
  lemma DatetimeAgreesWithDate(lookupType: string, fieldName: string, tzname: string)
    ensures lookupType in {"year", "month", "day"} ==>
      DatetimeTruncSql(lookupType, fieldName, tzname, false) == Ok(Compiled(DateTruncSql(lookupType, fieldName), []))
    ensures DatetimeExtractSql(lookupType, fieldName, tzname, false) == Ok(Compiled(DateExtractSql(lookupType, fieldName), []))
  {
  }

  /** combine_expression: the modulo, bitwise-and and power connectors become
      MOD, BITAND and POWER calls; other connectors go to the generic combiner,
      which is not part of this model. */
  function CombineExpression(connector: string, subExpressions: seq<string>,
                             generic: (string, seq<string>) -> string): (r: string)
    ensures connector == "%%" ==> r == "MOD(" + Join(subExpressions, ",") + ")"
    ensures connector == "&" ==> r == "BITAND(" + Join(subExpressions, ",") + ")"
    ensures connector == "^" ==> r == "POWER(" + Join(subExpressions, ",") + ")"
    ensures connector !in {"%%", "&", "^"} ==> r == generic(connector, subExpressions)
  {
    var lowered := map["%%" := "MOD", "&" := "BITAND", "^" := "POWER"];
    if connector in lowered then lowered[connector] + "(" + Join(subExpressions, ",") + ")"
    else generic(connector, subExpressions)
  }

  /** _get_sequence_name: the table name cut to leave room for the suffix,
      upper-cased, followed by _SQ. */
  function SequenceName(table: string, truncate: Truncator): (r: string)
    ensures EndsWith(r, "_SQ")
  {
    Upper(truncate(table, MaxNameLength - 3)) + "_SQ"
  }

  /** The bound of SequenceNameFits needs its '"' guard: a schema-qualified
      table `"S…S"."T"` with a 130-letter schema holds '"', so the truncator
      keeps it whole and the sequence name is 139 characters long. */
  lemma SchemaTableExceedsLimit()
    ensures TruncatesLikeDjango(KeepQuotedNames)
    ensures |SequenceName("\"" + seq(130, i => 'S') + "\".\"T\"", KeepQuotedNames)| == MaxNameLength + 11
  {
    var table := "\"" + seq(130, i => 'S') + "\".\"T\"";
    assert table[0] == '"';
    assert KeepQuotedNames(table, MaxNameLength - 3) == table;
  }

  /** A sequence name built from a table name without '"' fits the
      identifier limit, and a table name that leaves room for the suffix is
      kept whole. */
  lemma SequenceNameFits(table: string, truncate: Truncator)
    requires TruncatesLikeDjango(truncate)
    ensures '"' !in table ==> |SequenceName(table, truncate)| <= MaxNameLength
    ensures |table| <= MaxNameLength - 3 ==> SequenceName(table, truncate) == Upper(table) + "_SQ"
  {
    if '"' !in table {
      assert |truncate(table, MaxNameLength - 3)| <= MaxNameLength - 3;
    }
  }

  /** How many "%s" placeholders a template holds. */
  function PlaceholderCount(s: string): nat {
    if |s| < 2 then 0 else (if s[0] == '%' && s[1] == 's' then 1 else 0) + PlaceholderCount(s[1..])
  }

  predicate NoPercent(s: string) {
    forall i :: 0 <= i < |s| ==> s[i] != '%'
  }

  lemma NoPercentConcat(a: string, b: string)
    requires NoPercent(a) && NoPercent(b)
    ensures NoPercent(a + b)
  {
    forall i | 0 <= i < |a + b|
      ensures (a + b)[i] != '%'
    {
      if i < |a| { assert (a + b)[i] == a[i]; } else { assert (a + b)[i] == b[i - |a|]; }
    }
  }

  /** Text without a percent sign adds no placeholder in front of anything. */
  lemma {:induction false} PlaceholderCountSkip(a: string, b: string)
    requires NoPercent(a)
    ensures PlaceholderCount(a + b) == PlaceholderCount(b)
  {
    if a != [] {
      assert NoPercent(a[1..]) by {
        forall i | 0 <= i < |a| - 1 ensures a[1..][i] != '%' {
          assert a[1..][i] == a[i + 1];
        }
      }
      PlaceholderCountSkip(a[1..], b);
      assert (a + b)[0] == a[0];
      assert (a + b)[1..] == a[1..] + b;
    } else {
      assert a + b == b;
    }
  }

  /** Joining two texts adds their placeholders, unless the join itself
      spells a new `%s`. */
  lemma {:induction false} PlaceholderCountAppend(a: string, b: string)
    requires a == [] || b == [] || a[|a| - 1] != '%' || b[0] != 's'
    ensures PlaceholderCount(a + b) == PlaceholderCount(a) + PlaceholderCount(b)
  {
    if |a| == 0 {
      assert a + b == b;
    } else if |a| == 1 {
      assert (a + b)[1..] == b;
    } else {
      PlaceholderCountAppend(a[1..], b);
      assert (a + b)[1..] == a[1..] + b;
    }
  }

  lemma PlaceholderCountHole(b: string)
    ensures PlaceholderCount("%s" + b) == 1 + PlaceholderCount(b)
  {
    assert ("%s" + b)[1..] == "s" + b;
    assert NoPercent("s");
    PlaceholderCountSkip("s", b);
  }

  /** A template with one hole between percent-free text holds one placeholder. */
  lemma PlaceholderCountAround(before: string, after: string)
    requires NoPercent(before) && NoPercent(after)
    ensures PlaceholderCount(before + "%s" + after) == 1
  {
    PlaceholderCountSkip(before, "%s" + after);
    PlaceholderCountHole(after);
    PlaceholderCountSkip(after, "");
    assert before + "%s" + after == before + ("%s" + after);
    assert after + "" == after;
  }

  /** A template with two holes between percent-free text holds two placeholders. */
  lemma PlaceholderCountTwoHoles(a: string, b: string, c: string)
    requires NoPercent(a) && NoPercent(b) && NoPercent(c)
    ensures PlaceholderCount(a + "%s" + b + "%s" + c) == 2
  {
    PlaceholderCountAround(b, c);
    PlaceholderCountSkip(a, "%s" + (b + "%s" + c));
    PlaceholderCountHole(b + "%s" + c);
    assert a + "%s" + b + "%s" + c == a + ("%s" + (b + "%s" + c));
  }

  /** A REGEXP_LIKE template holds two placeholders. */
  lemma RegexTemplate(option: string)
    requires option == "'c'" || option == "'i'"
    ensures PlaceholderCount("REGEXP_LIKE(%s, %s, " + option + ")") == 2
  {
    var tail := ", " + option + ")";
    assert NoPercent("REGEXP_LIKE(") && NoPercent(", ") && NoPercent(tail);
    PlaceholderCountTwoHoles("REGEXP_LIKE(", ", ", tail);
    assert "REGEXP_LIKE(" + "%s" + ", " + "%s" + tail == "REGEXP_LIKE(%s, %s, " + option + ")";
  }

  /** regex_lookup: a case-sensitive REGEXP_LIKE for 'regex' and an
      insensitive one for every other lookup; two placeholders either way. */
  function RegexLookup(lookupType: string): (r: string)
    ensures lookupType == "regex" ==> r == "REGEXP_LIKE(%s, %s, 'c')"
    ensures lookupType != "regex" ==> r == "REGEXP_LIKE(%s, %s, 'i')"
    ensures PlaceholderCount(r) == 2
  {
    var option := if lookupType == "regex" then "'c'" else "'i'";
    RegexTemplate(option);
    "REGEXP_LIKE(%s, %s, " + option + ")"
  }

  /** A call wrapped around the column holds one placeholder. */
  lemma ColumnTemplate(call: string)
    requires NoPercent(call)
    ensures PlaceholderCount(call + "%s)") == 1
  {
    assert NoPercent(")");
    PlaceholderCountAround(call, ")");
    assert call + "%s" + ")" == call + "%s)";
  }

  /** lookup_cast: the case-insensitive lookups compare upper-cased text; the
      result holds exactly one placeholder for the column. */
  function LookupCast(lookupType: string): (r: string)
    ensures lookupType in {"iexact", "icontains", "istartswith", "iendswith"} ==> r == "UPPER(%s)"
    ensures lookupType !in {"iexact", "icontains", "istartswith", "iendswith"} ==> r == "%s"
    ensures PlaceholderCount(r) == 1
  {
    if lookupType in {"iexact", "icontains", "istartswith", "iendswith"} then
      assert NoPercent("UPPER(");
      ColumnTemplate("UPPER(");
      "UPPER(" + "%s)"
    else
      PlaceholderCountAround("", "");
      "%s"
  }

  /** field_cast_sql: a column whose type ends in LOB is read through
      DBMS_LOB.SUBSTR; the result holds exactly one placeholder. */
  function FieldCastSql(dbType: Option<string>, internalType: string): (r: string)
    ensures dbType.Some? && EndsWith(dbType.value, "LOB") ==> r == "DBMS_LOB.SUBSTR(%s)"
    ensures !(dbType.Some? && EndsWith(dbType.value, "LOB")) ==> r == "%s"
    ensures PlaceholderCount(r) == 1
  {
    if dbType.Some? && dbType.value != [] && EndsWith(dbType.value, "LOB") then
      LobTemplate();
      "DBMS_LOB.SUBSTR(%s)"
    else
      PlaceholderCountAround("", "");
      "%s"
  }

  /** The LOB cast wraps exactly one placeholder. */
  lemma LobTemplate()
    ensures PlaceholderCount("DBMS_LOB.SUBSTR(%s)") == 1
  {
    assert NoPercent("DBMS_LOB.SUBSTR(");
    ColumnTemplate("DBMS_LOB.SUBSTR(");
    assert "DBMS_LOB.SUBSTR(" + "%s)" == "DBMS_LOB.SUBSTR(%s)";
  }

  /** One SELECT ... FROM DUAL per row of placeholders. */
  function BulkInsertPiece(row: seq<string>): string {
    "SELECT " + Join(row, ", ") + " FROM DUAL"
  }

  function BulkInsertPieces(rows: seq<seq<string>>): (pieces: seq<string>)
    ensures |pieces| == |rows|
    ensures forall i :: 0 <= i < |rows| ==> pieces[i] == BulkInsertPiece(rows[i])
  {
    seq(|rows|, i requires 0 <= i < |rows| => BulkInsertPiece(rows[i]))
  }

  /** bulk_insert_sql: the rows as SELECT ... FROM DUAL pieces joined with
      UNION ALL, since the engine takes one value tuple per INSERT ... VALUES. */
  function BulkInsertSql(fields: seq<string>, placeholderRows: seq<seq<string>>): (r: string)
    ensures |placeholderRows| == 0 ==> r == ""
    ensures |placeholderRows| == 1 ==> r == BulkInsertPiece(placeholderRows[0])
  {
    Join(BulkInsertPieces(placeholderRows), UnionAll)
  }

  const UnionAll: string := " UNION ALL "

  /** Where the i-th row's SELECT starts: every earlier piece plus one
      " UNION ALL " after each. */
  function RowOffset(rows: seq<seq<string>>, i: nat): nat
    requires i <= |rows|
  {
    PieceOffset(BulkInsertPieces(rows), UnionAll, i)
  }

  /** The statement holds one SELECT ... FROM DUAL piece per row, in row order,
      with exactly one " UNION ALL " between neighbours and nothing before the
      first or after the last. */
  lemma BulkInsertLayout(fields: seq<string>, rows: seq<seq<string>>, i: nat)
    requires i < |rows|
    ensures RowOffset(rows, i) + |BulkInsertPiece(rows[i])| <= |BulkInsertSql(fields, rows)|
    ensures BulkInsertSql(fields, rows)[RowOffset(rows, i)..RowOffset(rows, i) + |BulkInsertPiece(rows[i])|]
            == BulkInsertPiece(rows[i])
    ensures i + 1 < |rows| ==>
      && RowOffset(rows, i) + |BulkInsertPiece(rows[i])| + |UnionAll| <= |BulkInsertSql(fields, rows)|
      && BulkInsertSql(fields, rows)[RowOffset(rows, i) + |BulkInsertPiece(rows[i])|..RowOffset(rows, i) + |BulkInsertPiece(rows[i])| + |UnionAll|]
         == UnionAll
    ensures i + 1 == |rows| ==> RowOffset(rows, i) + |BulkInsertPiece(rows[i])| == |BulkInsertSql(fields, rows)|
  {
    var pieces := BulkInsertPieces(rows);
    assert pieces[i] == BulkInsertPiece(rows[i]);
    JoinLayout(pieces, UnionAll, i);
  }
}
