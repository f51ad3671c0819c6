/** The query's text, spelled out: what Where and the terms put into it, character for character. */
module SqlText {
  import opened Prelude
  import opened Rows
  import opened Filter
  import Sql
  import D = Doubles

  // ---------------------------------------------------------------- the text meant

  function ListText(values: seq<string>): string {
    if values == [] then "" else if |values| == 1 then Sql.Quote(values[0]) else Sql.Quote(values[0]) + (", " + ListText(values[1..]))
  }

  function InText(column: string, values: seq<string>): string {
    if |values| == 1 then column + (" = " + Sql.Quote(values[0])) else column + (" IN (" + ListText(values) + ")")
  }

  function FieldText(field: Field): string {
    match field
    case Ns => "ns"
    case User => "user_id"
    case Anon => "anon_id"
    case Tenant => "tenant_id"
    case Country => "country"
    case Request => "request_id"
  }

  function SignText(op: Sql.Op): string {
    match op
    case Eq => " = "
    case Gt => " > "
    case Ge => " >= "
    case Lt => " < "
    case Le => " <= "
  }

  function NumText(p: Sql.Printer, n: D.Double): string {
    match n
    case Finite(x) => p.number(x)
    case Infinite(positive) => if positive then "+Inf" else "-Inf"
    case NaN => "NaN"
  }

  lemma NumberIs(p: Sql.Printer, n: D.Double)
    ensures Sql.NumberText(p, n) == NumText(p, n)
  {
  }

  function Keyed(key: string, values: seq<string>): seq<string> {
    if values == [] then [] else [key + ":" + values[0]] + Keyed(key, values[1..])
  }

  function CondText(p: Sql.Printer, h: Host, cond: Cond): string {
    match cond
    case EventIs(values) => InText("event", values)
    case EventPrefix(prefix) => "starts_with(event, " + Sql.Quote(prefix) + ")"
    case FieldIs(field, values) => InText(FieldText(field), values)
    case ValueIs(op, n) => "value" + (SignText(op) + NumText(p, n))
    case TagIs(key, values) => "list_has_any(tags, [" + ListText(Keyed(key, values)) + "])"
    case TagKey(key) => "len(list_filter(tags, lambda t: starts_with(t, " + Sql.Quote(key + ":") + "))) > 0"
    case LabelIs(values) => "list_has_any(tags, [" + ListText(values) + "])"
    case DataIs(path, values) => InText("json_extract_string(data, " + Sql.Quote("$." + path) + ")", values)
    case DataCompares(path, op, n) =>
      "TRY_CAST(json_extract_string(data, " + Sql.Quote("$." + path) + ") AS DOUBLE)" + (SignText(op) + NumText(p, n))
    case TextHas(text) => "contains(lower(msg), " + Sql.Quote(h.lower(text)) + ")"
  }

  function TermText(p: Sql.Printer, h: Host, t: Term): string {
    if t.negated then "NOT coalesce(" + CondText(p, h, t.cond) + ", false)" else CondText(p, h, t.cond)
  }

  function SinceText(p: Sql.Printer, since: int): string {
    var start := "now() - to_seconds(" + p.whole(since / 1_000_000_000) + ")";
    "ts >= " + start + " AND date >= CAST(" + start + " AS DATE) - 1"
  }

  function FromText(p: Sql.Printer, from: int): string {
    "ts >= TIMESTAMPTZ " + Sql.Quote(p.instant(from / 1_000_000 * 1_000_000)) + " AND date >= DATE " + Sql.Quote(p.day(DateOf(from)))
  }

  function ToText(p: Sql.Printer, to: int): string {
    "ts < TIMESTAMPTZ " + Sql.Quote(p.instant(to / 1_000_000 * 1_000_000)) + " AND date <= DATE " + Sql.Quote(p.day(DateOf(to)))
  }

  function BoundTexts(p: Sql.Printer, f: Filter): seq<string> {
    (if f.since > 0 then [SinceText(p, f.since)] else []) +
    (match f.from case Some(t) => [FromText(p, t)] case None => []) +
    (match f.to case Some(t) => [ToText(p, t)] case None => [])
  }

  function TermTexts(p: Sql.Printer, h: Host, terms: seq<Term>): seq<string> {
    if terms == [] then [] else TermTexts(p, h, terms[..|terms| - 1]) + [TermText(p, h, terms[|terms| - 1])]
  }

  function AndText(parts: seq<string>): string {
    if parts == [] then "true" else if |parts| == 1 then parts[0] else AndText(parts[..|parts| - 1]) + (" AND " + parts[|parts| - 1])
  }

  // ---------------------------------------------------------------- rendering

  function Of(p: Sql.Printer, e: Sql.Expr): string {
    Sql.Render(Sql.Show(p, e))
  }

  lemma {:induction false} RenderAppend(a: seq<Sql.Piece>, b: seq<Sql.Piece>)
    ensures Sql.Render(a + b) == Sql.Render(a) + Sql.Render(b)
  {
    if a == [] {
      assert a + b == b;
    } else {
      assert (a + b)[1..] == a[1..] + b;
      RenderAppend(a[1..], b);
    }
  }

  lemma RenderOne(piece: Sql.Piece)
    ensures Sql.Render([piece]) == match piece case Code(t) => t case Literal(t) => Sql.Quote(t)
  {
    assert [piece][1..] == [];
  }

  lemma RenderTwo(code: string, value: string)
    ensures Sql.Render([Sql.Code(code), Sql.Literal(value)]) == code + Sql.Quote(value)
  {
    RenderOne(Sql.Code(code));
    RenderOne(Sql.Literal(value));
    RenderAppend([Sql.Code(code)], [Sql.Literal(value)]);
    assert [Sql.Code(code)] + [Sql.Literal(value)] == [Sql.Code(code), Sql.Literal(value)];
  }

  lemma RenderThree(before: string, value: string, after: string)
    ensures Sql.Render([Sql.Code(before), Sql.Literal(value), Sql.Code(after)]) == before + Sql.Quote(value) + after
  {
    RenderTwo(before, value);
    RenderOne(Sql.Code(after));
    RenderAppend([Sql.Code(before), Sql.Literal(value)], [Sql.Code(after)]);
    assert [Sql.Code(before), Sql.Literal(value)] + [Sql.Code(after)] == [Sql.Code(before), Sql.Literal(value), Sql.Code(after)];
  }

  lemma MergeOne(x: seq<Sql.Piece>, left: string, right: string, y: seq<Sql.Piece>)
    ensures Sql.Render(x + [Sql.Code(left + right)] + y) == Sql.Render(x + [Sql.Code(left)]) + Sql.Render([Sql.Code(right)] + y)
  {
    hide Sql.Render;
    RenderAppend(x, [Sql.Code(left)]);
    RenderAppend([Sql.Code(right)], y);
    RenderAppend(x, [Sql.Code(left + right)]);
    RenderAppend(x + [Sql.Code(left + right)], y);
    RenderOne(Sql.Code(left));
    RenderOne(Sql.Code(right));
    RenderOne(Sql.Code(left + right));
    Regroup(Sql.Render(x), left, right, Sql.Render(y));
  }

  lemma Regroup(a: string, b: string, c: string, d: string)
    ensures a + (b + c) + d == (a + b) + (c + d)
  {
  }

  lemma NoText()
    ensures Sql.Render([]) == ""
  {
  }

  /** Joining adjacent code does not change the text. */
  lemma RenderJoin(a: seq<Sql.Piece>, b: seq<Sql.Piece>)
    ensures Sql.Render(Sql.Join(a, b)) == Sql.Render(a) + Sql.Render(b)
  {
    hide Sql.Render;
    if a != [] && b != [] && a[|a| - 1].Code? && b[0].Code? {
      var x, y := a[..|a| - 1], b[1..];
      var last, first := a[|a| - 1].text, b[0].text;
      MergeOne(x, last, first, y);
      assert x + [Sql.Code(last)] == a;
      assert [Sql.Code(first)] + y == b;
    } else {
      RenderAppend(a, b);
      NoText();
    }
  }

  lemma RenderWrap(before: string, inner: seq<Sql.Piece>, after: seq<Sql.Piece>)
    ensures Sql.Render(Sql.Wrap(before, inner, after)) == before + Sql.Render(inner) + Sql.Render(after)
  {
    hide Sql.Join, Sql.Render;
    RenderJoin([Sql.Code(before)], inner);
    RenderJoin(Sql.Join([Sql.Code(before)], inner), after);
    RenderOne(Sql.Code(before));
  }

  lemma {:induction false} RenderCommas(values: seq<string>)
    ensures Sql.Render(Sql.Commas(values)) == ListText(values)
  {
    if |values| == 1 {
      RenderOne(Sql.Literal(values[0]));
    } else if |values| > 1 {
      RenderCommas(values[1..]);
      RenderAppend([Sql.Literal(values[0]), Sql.Code(", ")], Sql.Commas(values[1..]));
      RenderOne(Sql.Literal(values[0]));
      RenderOne(Sql.Code(", "));
      RenderAppend([Sql.Literal(values[0])], [Sql.Code(", ")]);
      assert [Sql.Literal(values[0])] + [Sql.Code(", ")] == [Sql.Literal(values[0]), Sql.Code(", ")];
    }
  }

  lemma RenderListed(before: string, values: seq<string>, after: string)
    ensures Sql.Render(Sql.Listed(before, values, after)) == before + ListText(values) + after
  {
    hide Sql.Join, Sql.Render, ListText;
    RenderJoin([Sql.Code(before)], Sql.Commas(values));
    RenderJoin(Sql.Join([Sql.Code(before)], Sql.Commas(values)), [Sql.Code(after)]);
    RenderCommas(values);
    RenderOne(Sql.Code(before));
    RenderOne(Sql.Code(after));
  }

  // ---------------------------------------------------------------- expressions

  lemma ColText(p: Sql.Printer, c: Sql.Column, name: string)
    requires Sql.ColumnName(c) == name
    ensures Of(p, Sql.Col(c)) == name
  {
    RenderOne(Sql.Code(name));
  }

  lemma CompareText(p: Sql.Printer, op: Sql.Op, l: Sql.Expr, r: Sql.Expr)
    ensures Of(p, Sql.Compare(op, l, r)) == Of(p, l) + (SignText(op) + Of(p, r))
  {
    hide Sql.Join, Sql.Render;
    RenderJoin(Sql.Show(p, l), [Sql.Code(Sql.OpText(op))]);
    RenderJoin(Sql.Join(Sql.Show(p, l), [Sql.Code(Sql.OpText(op))]), Sql.Show(p, r));
    RenderOne(Sql.Code(Sql.OpText(op)));
  }

  lemma AndExprText(p: Sql.Printer, l: Sql.Expr, r: Sql.Expr)
    ensures Of(p, Sql.And(l, r)) == Of(p, l) + (" AND " + Of(p, r))
  {
    hide Sql.Join, Sql.Render;
    RenderJoin(Sql.Show(p, l), [Sql.Code(" AND ")]);
    RenderJoin(Sql.Join(Sql.Show(p, l), [Sql.Code(" AND ")]), Sql.Show(p, r));
    RenderOne(Sql.Code(" AND "));
  }

  lemma LeafTexts(p: Sql.Printer, s: string, n: D.Double, t: int, d: int)
    ensures Of(p, Sql.Text(s)) == Sql.Quote(s) && Of(p, Sql.Number(n)) == NumText(p, n)
    ensures Of(p, Sql.Timestamp(t)) == "TIMESTAMPTZ " + Sql.Quote(p.instant(t)) && Of(p, Sql.DateLit(d)) == "DATE " + Sql.Quote(p.day(d))
    ensures Of(p, Sql.True) == "true" && Of(p, Sql.Now) == "now()"
  {
    hide Sql.Render, Sql.Quote, Sql.NumberText, NumText;
    NumberIs(p, n);
    RenderOne(Sql.Literal(s));
    RenderOne(Sql.Code(Sql.NumberText(p, n)));
    RenderTwo("TIMESTAMPTZ ", p.instant(t));
    RenderTwo("DATE ", p.day(d));
    RenderOne(Sql.Code("true"));
    RenderOne(Sql.Code("now()"));
  }

  lemma InExprText(p: Sql.Printer, e: Sql.Expr, column: string, values: seq<string>)
    requires Of(p, e) == column
    ensures Of(p, InSql(e, values)) == InText(column, values)
  {
    hide Sql.Join, Sql.Render, ListText, Sql.Listed, Sql.Quote;
    if |values| == 1 {
      CompareText(p, D.Eq, e, Sql.Text(values[0]));
      LeafTexts(p, values[0], D.NaN, 0, 0);
    } else {
      RenderJoin(Sql.Show(p, e), Sql.Listed(" IN (", values, ")"));
      RenderListed(" IN (", values, ")");
    }
  }

  lemma {:induction false} KeyedIs(key: string, values: seq<string>)
    ensures Keyed(key, values) == Tagged(key, values)
  {
    if values == [] {
    } else {
      KeyedIs(key, values[1..]);
      assert Tagged(key, values) == [key + ":" + values[0]] + Tagged(key, values[1..]);
    }
  }

  lemma HasAnyText(p: Sql.Printer, values: seq<string>)
    ensures Of(p, Sql.HasAny(Sql.Col(Sql.Tags), values)) == "list_has_any(tags, [" + ListText(values) + "])"
  {
    hide Sql.Wrap, Sql.Render, ListText, Sql.Listed;
    RenderWrap("list_has_any(", Sql.Show(p, Sql.Col(Sql.Tags)), Sql.Listed(", [", values, "])"));
    RenderListed(", [", values, "])");
    ColText(p, Sql.Tags, "tags");
    assert "list_has_any(" + "tags" + (", [" + ListText(values) + "])") == "list_has_any(tags, [" + ListText(values) + "])";
  }

  /** A call around a column with a literal and an end. */
  lemma CallText(p: Sql.Printer, before: string, c: Sql.Column, name: string, comma: string, value: string, after: string)
    requires Sql.ColumnName(c) == name
    ensures Sql.Render(Sql.Wrap(before, Sql.Show(p, Sql.Col(c)), [Sql.Code(comma), Sql.Literal(value), Sql.Code(after)])) ==
      (before + name + comma) + Sql.Quote(value) + after
  {
    hide Sql.Wrap, Sql.Render, Sql.Quote, Sql.Show;
    ColText(p, c, name);
    RenderWrap(before, Sql.Show(p, Sql.Col(c)), [Sql.Code(comma), Sql.Literal(value), Sql.Code(after)]);
    RenderThree(comma, value, after);
    Regroup(before + name, comma, Sql.Quote(value), after);
    Regroup(before + name, comma, Sql.Quote(value) + after, "");
  }

  lemma DataExprText(p: Sql.Printer, path: string)
    ensures Of(p, DataText(path)) == "json_extract_string(data, " + Sql.Quote("$." + path) + ")"
  {
    hide Sql.Wrap, Sql.Render, Sql.Quote;
    CallText(p, "json_extract_string(", Sql.Data, "data", ", ", "$." + path, ")");
    assert "json_extract_string(" + "data" + ", " == "json_extract_string(data, ";
  }

  lemma TryText(p: Sql.Printer, e: Sql.Expr)
    ensures Of(p, Sql.TryDouble(e)) == "TRY_CAST(" + Of(p, e) + " AS DOUBLE)"
  {
    hide Sql.Wrap, Sql.Render;
    RenderWrap("TRY_CAST(", Sql.Show(p, e), [Sql.Code(" AS DOUBLE)")]);
    RenderOne(Sql.Code(" AS DOUBLE)"));
  }

  lemma DataCompareText(p: Sql.Printer, path: string, op: Sql.Op, n: D.Double)
    ensures Of(p, Sql.Compare(op, Sql.TryDouble(DataText(path)), Sql.Number(n))) ==
      "TRY_CAST(json_extract_string(data, " + Sql.Quote("$." + path) + ") AS DOUBLE)" + (SignText(op) + NumText(p, n))
  {
    hide Of, Sql.Quote, NumText, SignText, DataText;
    CompareText(p, op, Sql.TryDouble(DataText(path)), Sql.Number(n));
    TryText(p, DataText(path));
    DataExprText(p, path);
    LeafTexts(p, "", n, 0, 0);
    CastText(Sql.Quote("$." + path));
  }

  lemma Gather(a: string, b: string, c: string, d: string, e: string)
    ensures a + (b + c + d) + e == (a + b) + c + (d + e)
  {
  }

  lemma CastText(q: string)
    ensures "TRY_CAST(" + ("json_extract_string(data, " + q + ")") + " AS DOUBLE)" == "TRY_CAST(json_extract_string(data, " + q + ") AS DOUBLE)"
  {
    Gather("TRY_CAST(", "json_extract_string(data, ", q, ")", " AS DOUBLE)");
    assert "TRY_CAST(" + "json_extract_string(data, " == "TRY_CAST(json_extract_string(data, ";
    assert ")" + " AS DOUBLE)" == ") AS DOUBLE)";
  }

  lemma PrefixText(p: Sql.Printer, s: string)
    ensures Of(p, Sql.StartsWith(Sql.Col(Sql.Event), s)) == "starts_with(event, " + Sql.Quote(s) + ")"
  {
    hide Sql.Wrap, Sql.Render, Sql.Quote;
    CallText(p, "starts_with(", Sql.Event, "event", ", ", s, ")");
    assert "starts_with(" + "event" + ", " == "starts_with(event, ";
  }

  lemma ContainsText(p: Sql.Printer, s: string)
    ensures Of(p, Sql.ContainsLower(Sql.Col(Sql.Msg), s)) == "contains(lower(msg), " + Sql.Quote(s) + ")"
  {
    hide Sql.Wrap, Sql.Render, Sql.Quote;
    CallText(p, "contains(lower(", Sql.Msg, "msg", "), ", s, ")");
    assert "contains(lower(" + "msg" + "), " == "contains(lower(msg), ";
  }

  lemma TagsText()
    ensures "len(list_filter(" + "tags" + ", lambda t: starts_with(t, " == "len(list_filter(tags, lambda t: starts_with(t, "
  {
    assert "len(list_filter(" + "tags" == "len(list_filter(tags";
    assert "len(list_filter(tags" + ", lambda t: starts_with(t, " == "len(list_filter(tags, lambda t: starts_with(t, ";
  }

  lemma AnyTagText(p: Sql.Printer, s: string)
    ensures Of(p, Sql.AnyStartsWith(Sql.Col(Sql.Tags), s)) == "len(list_filter(tags, lambda t: starts_with(t, " + Sql.Quote(s) + "))) > 0"
  {
    hide Sql.Wrap, Sql.Render, Sql.Quote;
    CallText(p, "len(list_filter(", Sql.Tags, "tags", ", lambda t: starts_with(t, ", s, "))) > 0");
    TagsText();
  }

  lemma FieldColText(p: Sql.Printer, field: Field)
    ensures Of(p, Sql.Col(FieldColumn(field))) == FieldText(field)
  {
    ColText(p, FieldColumn(field), FieldText(field));
  }

  lemma CondTextIs(p: Sql.Printer, h: Host, cond: Cond)
    ensures Of(p, CondSql(h, cond)) == CondText(p, h, cond)
  {
    hide Of, Sql.Quote, NumText, SignText, ListText, InText, InSql, DataText, Tagged, Keyed, FieldText, FieldColumn;
    match cond
    case EventIs(values) => ColText(p, Sql.Event, "event"); InExprText(p, Sql.Col(Sql.Event), "event", values);
    case EventPrefix(prefix) => PrefixText(p, prefix);
    case FieldIs(field, values) => FieldColText(p, field); InExprText(p, Sql.Col(FieldColumn(field)), FieldText(field), values);
    case ValueIs(op, n) =>
      CompareText(p, op, Sql.Col(Sql.Value), Sql.Number(n)); ColText(p, Sql.Value, "value"); LeafTexts(p, "", n, 0, 0);
    case TagIs(key, values) => KeyedIs(key, values); HasAnyText(p, Tagged(key, values));
    case TagKey(key) => AnyTagText(p, key + ":");
    case LabelIs(values) => HasAnyText(p, values);
    case DataIs(path, values) =>
      DataExprText(p, path); InExprText(p, DataText(path), "json_extract_string(data, " + Sql.Quote("$." + path) + ")", values);
    case DataCompares(path, op, n) => DataCompareText(p, path, op, n);
    case TextHas(text) => ContainsText(p, h.lower(text));
  }

  lemma TermTextIs(p: Sql.Printer, h: Host, t: Term)
    ensures Of(p, TermSql(h, t)) == TermText(p, h, t)
  {
    hide Sql.Wrap, Sql.Render, CondText, CondSql;
    CondTextIs(p, h, t.cond);
    RenderWrap("NOT coalesce(", Sql.Show(p, CondSql(h, t.cond)), [Sql.Code(", false)")]);
    RenderOne(Sql.Code(", false)"));
  }

  // ---------------------------------------------------------------- bounds

  lemma StartText(p: Sql.Printer, n: int)
    ensures Of(p, Sql.MinusSeconds(Sql.Now, n)) == "now()" + (" - to_seconds(" + p.whole(n) + ")")
  {
    hide Sql.Join, Sql.Render;
    LeafTexts(p, "", D.NaN, 0, 0);
    RenderJoin(Sql.Show(p, Sql.Now), [Sql.Code(" - to_seconds(" + p.whole(n) + ")")]);
    RenderOne(Sql.Code(" - to_seconds(" + p.whole(n) + ")"));
  }

  lemma DayBeforeText(p: Sql.Printer, e: Sql.Expr)
    ensures Of(p, Sql.MinusDay(Sql.CastDate(e))) == "CAST(" + Of(p, e) + " AS DATE)" + " - 1"
  {
    hide Sql.Join, Sql.Render, Sql.Wrap;
    RenderWrap("CAST(", Sql.Show(p, e), [Sql.Code(" AS DATE)")]);
    RenderJoin(Sql.Show(p, Sql.CastDate(e)), [Sql.Code(" - 1")]);
    RenderOne(Sql.Code(" AS DATE)"));
    RenderOne(Sql.Code(" - 1"));
  }

  lemma SinceJoined(text: string)
    ensures
      "ts" + (" >= " + text) + (" AND " + ("date" + (" >= " + ("CAST(" + text + " AS DATE)" + " - 1")))) ==
      "ts >= " + text + " AND date >= CAST(" + text + " AS DATE) - 1"
  {
    Shift("CAST(", text, " AS DATE)", " - 1");
    assert " AS DATE)" + " - 1" == " AS DATE) - 1";
    JoinedBounds(" >= ", text, " >= ", "CAST(" + text + " AS DATE) - 1");
    Regroup("ts" + " >= " + text + " AND date" + " >= ", "CAST(", text, " AS DATE) - 1");
    assert "ts" + " >= " == "ts >= ";
    assert " AND date" + " >= " + "CAST(" == " AND date >= CAST(";
    Bracket("ts >= " + text, " AND date", " >= ", "CAST(");
    Bracket("ts >= " + text, " AND date >= CAST(", text, " AS DATE) - 1");
  }

  lemma Shift(a: string, b: string, c: string, d: string)
    ensures a + b + c + d == a + b + (c + d)
  {
  }

  lemma Bracket(a: string, b: string, c: string, d: string)
    ensures a + b + c + d == a + (b + c + d)
  {
  }

  /** Two bounds joined by AND, put together from their parts. */
  lemma JoinedBounds(first: string, a: string, second: string, b: string)
    ensures "ts" + (first + a) + (" AND " + ("date" + (second + b))) == "ts" + first + a + " AND date" + second + b
  {
    Regroup("ts", first, a, "");
    assert " AND " + ("date" + (second + b)) == " AND date" + second + b by {
      Regroup("", " AND ", "date", second + b);
      assert " AND " + "date" == " AND date";
      Shift("", " AND date", second, b);
    }
    Bracket("ts" + first + a, " AND date", second, b);
  }

  lemma SinceTextIs(p: Sql.Printer, since: int)
    ensures Of(p, SinceSql(since)) == SinceText(p, since)
  {
    hide Of;
    var n := since / 1_000_000_000;
    var start := Sql.MinusSeconds(Sql.Now, n);
    var text := "now() - to_seconds(" + p.whole(n) + ")";
    StartText(p, n);
    assert "now()" + (" - to_seconds(" + p.whole(n) + ")") == text;
    DayBeforeText(p, start);
    ColText(p, Sql.Ts, "ts");
    ColText(p, Sql.Date, "date");
    CompareText(p, D.Ge, Sql.Col(Sql.Ts), start);
    CompareText(p, D.Ge, Sql.Col(Sql.Date), Sql.MinusDay(Sql.CastDate(start)));
    AndExprText(p, Sql.Compare(D.Ge, Sql.Col(Sql.Ts), start), Sql.Compare(D.Ge, Sql.Col(Sql.Date), Sql.MinusDay(Sql.CastDate(start))));
    SinceJoined(text);
  }

  lemma MomentText(p: Sql.Printer, at: int, first: Sql.Op, second: Sql.Op)
    ensures
      var t := at / 1_000_000 * 1_000_000;
      Of(p, Sql.And(Sql.Compare(first, Sql.Col(Sql.Ts), Sql.Timestamp(t)), Sql.Compare(second, Sql.Col(Sql.Date), Sql.DateLit(DateOf(at))))) ==
      "ts" + (SignText(first) + ("TIMESTAMPTZ " + Sql.Quote(p.instant(t)))) + (" AND " + ("date" + (SignText(second) + ("DATE " + Sql.Quote(p.day(DateOf(at)))))))
  {
    hide Of, Sql.Quote, SignText;
    var t, d := at / 1_000_000 * 1_000_000, DateOf(at);
    LeafTexts(p, "", D.NaN, t, d);
    ColText(p, Sql.Ts, "ts");
    ColText(p, Sql.Date, "date");
    CompareText(p, first, Sql.Col(Sql.Ts), Sql.Timestamp(t));
    CompareText(p, second, Sql.Col(Sql.Date), Sql.DateLit(d));
    AndExprText(p, Sql.Compare(first, Sql.Col(Sql.Ts), Sql.Timestamp(t)), Sql.Compare(second, Sql.Col(Sql.Date), Sql.DateLit(d)));
  }

  lemma MomentJoined(first: string, a: string, second: string, b: string)
    ensures
      "ts" + (first + ("TIMESTAMPTZ " + a)) + (" AND " + ("date" + (second + ("DATE " + b)))) ==
      "ts" + first + "TIMESTAMPTZ " + a + " AND date" + second + "DATE " + b
  {
    JoinedBounds(first, "TIMESTAMPTZ " + a, second, "DATE " + b);
    assert "ts" + first + ("TIMESTAMPTZ " + a) == "ts" + first + "TIMESTAMPTZ " + a;
    assert "ts" + first + "TIMESTAMPTZ " + a + " AND date" + second + ("DATE " + b) ==
      "ts" + first + "TIMESTAMPTZ " + a + " AND date" + second + "DATE " + b;
  }

  lemma MomentTail(head: string, second: string, b: string)
    ensures head + " AND date" + second + "DATE " + b == head + (" AND date" + second + "DATE ") + b
  {
  }

  lemma FromTextIs(p: Sql.Printer, from: int)
    ensures Of(p, FromSql(from)) == FromText(p, from)
  {
    hide Of, Sql.Quote;
    MomentText(p, from, D.Ge, D.Ge);
    var a, b := Sql.Quote(p.instant(from / 1_000_000 * 1_000_000)), Sql.Quote(p.day(DateOf(from)));
    MomentJoined(" >= ", a, " >= ", b);
    assert "ts" + " >= " + "TIMESTAMPTZ " == "ts >= TIMESTAMPTZ ";
    MomentTail("ts >= TIMESTAMPTZ " + a, " >= ", b);
    assert " AND date" + " >= " + "DATE " == " AND date >= DATE ";
  }

  lemma ToTextIs(p: Sql.Printer, to: int)
    ensures Of(p, ToSql(to)) == ToText(p, to)
  {
    hide Of, Sql.Quote;
    MomentText(p, to, D.Lt, D.Le);
    var a, b := Sql.Quote(p.instant(to / 1_000_000 * 1_000_000)), Sql.Quote(p.day(DateOf(to)));
    MomentJoined(" < ", a, " <= ", b);
    assert "ts" + " < " + "TIMESTAMPTZ " == "ts < TIMESTAMPTZ ";
    MomentTail("ts < TIMESTAMPTZ " + a, " <= ", b);
    assert " AND date" + " <= " + "DATE " == " AND date <= DATE ";
  }

  // ---------------------------------------------------------------- the whole query

  function AllOf(p: Sql.Printer, parts: seq<Sql.Expr>): seq<string> {
    seq(|parts|, i requires 0 <= i < |parts| => Of(p, parts[i]))
  }

  lemma {:induction false} ConjunctionText(p: Sql.Printer, parts: seq<Sql.Expr>)
    ensures Of(p, Conjunction(parts)) == AndText(AllOf(p, parts))
  {
    hide Of;
    if parts == [] {
      LeafTexts(p, "", D.NaN, 0, 0);
      assert AllOf(p, parts) == [];
    } else if |parts| > 1 {
      var before, last := parts[..|parts| - 1], parts[|parts| - 1];
      ConjunctionText(p, before);
      AndExprText(p, Conjunction(before), last);
      assert AllOf(p, parts)[..|parts| - 1] == AllOf(p, before);
    } else {
      assert AllOf(p, parts) == [Of(p, parts[0])];
    }
  }

  lemma AllAppend(p: Sql.Printer, a: seq<Sql.Expr>, b: seq<Sql.Expr>)
    ensures AllOf(p, a + b) == AllOf(p, a) + AllOf(p, b)
  {
    hide Of;
  }

  lemma BoundTextsAre(p: Sql.Printer, f: Filter)
    ensures AllOf(p, TimeParts(f)) == BoundTexts(p, f)
  {
    hide Of, SinceText, FromText, ToText, SinceSql, FromSql, ToSql;
    SinceTextIs(p, f.since);
    if f.from.Some? { FromTextIs(p, f.from.value); }
    if f.to.Some? { ToTextIs(p, f.to.value); }
    var a := if f.since > 0 then [SinceSql(f.since)] else [];
    var b := if f.from.Some? then [FromSql(f.from.value)] else [];
    var c := if f.to.Some? then [ToSql(f.to.value)] else [];
    AllAppend(p, a + b, c);
    AllAppend(p, a, b);
    assert AllOf(p, a) == if f.since > 0 then [SinceText(p, f.since)] else [];
  }

  lemma {:induction false} TermTextsAre(p: Sql.Printer, h: Host, terms: seq<Term>)
    ensures AllOf(p, TermParts(h, terms)) == TermTexts(p, h, terms)
  {
    hide Of, TermText, TermSql;
    if terms == [] {
      assert AllOf(p, []) == [];
    } else {
      var before, last := terms[..|terms| - 1], terms[|terms| - 1];
      TermTextsAre(p, h, before);
      TermTextIs(p, h, last);
      AllAppend(p, TermParts(h, before), [TermSql(h, last)]);
      assert AllOf(p, [TermSql(h, last)]) == [TermText(p, h, last)];
    }
  }

  /** The text of the whole filter: its bounds and terms, each spelled out, joined by AND; nothing is true. */
  lemma WhereText(p: Sql.Printer, h: Host, f: Filter)
    ensures Sql.Render(Sql.Show(p, Where(h, f))) == AndText(BoundTexts(p, f) + TermTexts(p, h, f.terms))
  {
    hide Sql.Render, Sql.Show, AndText, TimeParts, TermParts, Conjunction;
    ConjunctionText(p, TimeParts(f) + TermParts(h, f.terms));
    AllAppend(p, TimeParts(f), TermParts(h, f.terms));
    BoundTextsAre(p, f);
    TermTextsAre(p, h, f.terms);
  }
}
