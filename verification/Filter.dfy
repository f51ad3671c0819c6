/** The filter language: parsed terms, the Go predicate and the compilation to SQL. */
module Filter {
  import opened Prelude
  import opened Rows
  import Sql
  import D = Doubles

  type Host = Sql.Host

  datatype Field = Ns | User | Anon | Tenant | Country | Request

  /** One condition without its negation; values are alternatives. */
  datatype Cond =
    | EventIs(values: seq<string>)
    | EventPrefix(prefix: string)
    | FieldIs(field: Field, values: seq<string>)
    | ValueIs(op: Sql.Op, number: D.Double)
    | TagIs(key: string, values: seq<string>)
    | TagKey(key: string)
    | LabelIs(values: seq<string>)
    | DataIs(path: string, values: seq<string>)
    | DataCompares(path: string, op: Sql.Op, number: D.Double)
    | TextHas(text: string)

  datatype Term = Term(negated: bool, cond: Cond)

  /** Times are nanoseconds; a zero `since` and a missing bound are open. */
  datatype Filter = Filter(terms: seq<Term>, since: int, from: Option<int>, to: Option<int>)

  /** The alternatives of a value: at least one, none empty. */
  predicate Alternatives(values: seq<string>) {
    values != [] && "" !in values
  }

  predicate PathChar(c: char) {
    'a' <= c <= 'z' || 'A' <= c <= 'Z' || '0' <= c <= '9' || c == '_'
  }

  /** Letters, digits and underscores separated by single dots. */
  predicate PathOk(path: string) {
    forall part :: part in Sql.SplitDots(path) ==> part != "" && forall c :: c in part ==> PathChar(c)
  }

  /** What ParseFilter guarantees of a term. */
  predicate TermOk(t: Term) {
    match t.cond
    case EventIs(values) => Alternatives(values)
    case EventPrefix(p) => p != ""
    case FieldIs(_, values) => Alternatives(values)
    case TagIs(key, values) => key != "" && Alternatives(values)
    case TagKey(key) => key != ""
    case LabelIs(values) => Alternatives(values)
    case DataIs(path, values) => PathOk(path) && Alternatives(values)
    case DataCompares(path, _, _) => PathOk(path)
    case TextHas(text) => text != ""
    case _ => true
  }

  predicate FilterOk(f: Filter) {
    f.since >= 0 && forall t :: t in f.terms ==> TermOk(t)
  }

  // ---------------------------------------------------------------- the Go predicate

  /** The window of the filter at `now`: since= only narrows from=. */
  function Range(f: Filter, now: int): (Option<int>, Option<int>) {
    var since := now - f.since;
    if f.since > 0 && (f.from.None? || since > f.from.value) then (Some(since), f.to) else (f.from, f.to)
  }

  function FieldValue(row: Row, ns: string, field: Field): string {
    match field
    case Ns => ns
    case User => row.userID
    case Anon => row.anonID
    case Tenant => row.tenantID
    case Country => row.country
    case Request => row.requestID
  }

  /** The value at a dotted path of the data object. */
  function Lookup(data: Option<map<string, Json>>, path: string): Option<Json> {
    if data.None? then None else Sql.Walk(data.value, Sql.SplitDots(path))
  }

  /** A JSON value as text: scalars bare, objects and arrays as JSON. */
  function ScalarText(h: Host, value: Json): string {
    match value
    case JString(s) => s
    case JNumber(text) => text
    case JBool(b) => if b then "true" else "false"
    case _ => h.goJson(value)
  }

  predicate Holds(h: Host, cond: Cond, row: Row, ns: string) {
    match cond
    case EventIs(values) => row.event in values
    case EventPrefix(p) => Sql.IsPrefix(p, row.event)
    case FieldIs(field, values) => FieldValue(row, ns, field) != "" && FieldValue(row, ns, field) in values
    case ValueIs(op, n) => row.value.Some? && D.Compares(op, D.Finite(row.value.value), n)
    case TagIs(key, values) => exists v :: v in values && key + ":" + v in row.tags
    case TagKey(key) => exists t :: t in row.tags && Sql.IsPrefix(key + ":", t)
    case LabelIs(values) => exists v :: v in values && v in row.tags
    case DataIs(path, values) =>
      var value := Lookup(row.data, path);
      value.Some? && !value.value.JNull? && ScalarText(h, value.value) != "" && ScalarText(h, value.value) in values
    case DataCompares(path, op, n) =>
      var value := Lookup(row.data, path);
      value.Some? && !value.value.JNull? &&
      (var parsed := h.toNumber(ScalarText(h, value.value));
       parsed.Some? && D.Compares(op, parsed.value, n))
    case TextHas(text) => Sql.HasPart(h.lower(row.msg), h.lower(text))
  }

  predicate TermMatches(h: Host, t: Term, row: Row, ns: string) {
    Holds(h, t.cond, row, ns) != t.negated
  }

  predicate InRange(range: (Option<int>, Option<int>), ts: int) {
    && (range.0.Some? ==> ts >= range.0.value)
    && (range.1.Some? ==> ts < range.1.value)
  }

  predicate Match(h: Host, f: Filter, row: Row, ns: string, now: int) {
    InRange(Range(f, now), row.ts) && forall t :: t in f.terms ==> TermMatches(h, t, row, ns)
  }

  // ---------------------------------------------------------------- the SQL expression

  function FieldColumn(field: Field): Sql.Column {
    match field
    case Ns => Sql.Ns
    case User => Sql.User
    case Anon => Sql.Anon
    case Tenant => Sql.Tenant
    case Country => Sql.Country
    case Request => Sql.Request
  }

  function InSql(e: Sql.Expr, values: seq<string>): Sql.Expr {
    if |values| == 1 then Sql.Compare(D.Eq, e, Sql.Text(values[0])) else Sql.In(e, values)
  }

  function Tagged(key: string, values: seq<string>): (tags: seq<string>)
    ensures |tags| == |values| && forall i :: 0 <= i < |values| ==> tags[i] == key + ":" + values[i]
  {
    seq(|values|, i requires 0 <= i < |values| => key + ":" + values[i])
  }

  function DataText(path: string): Sql.Expr {
    Sql.JsonText(Sql.Col(Sql.Data), "$." + path)
  }

  function CondSql(h: Host, cond: Cond): Sql.Expr {
    match cond
    case EventIs(values) => InSql(Sql.Col(Sql.Event), values)
    case EventPrefix(p) => Sql.StartsWith(Sql.Col(Sql.Event), p)
    case FieldIs(field, values) => InSql(Sql.Col(FieldColumn(field)), values)
    case ValueIs(op, n) => Sql.Compare(op, Sql.Col(Sql.Value), Sql.Number(n))
    case TagIs(key, values) => Sql.HasAny(Sql.Col(Sql.Tags), Tagged(key, values))
    case TagKey(key) => Sql.AnyStartsWith(Sql.Col(Sql.Tags), key + ":")
    case LabelIs(values) => Sql.HasAny(Sql.Col(Sql.Tags), values)
    case DataIs(path, values) => InSql(DataText(path), values)
    case DataCompares(path, op, n) => Sql.Compare(op, Sql.TryDouble(DataText(path)), Sql.Number(n))
    case TextHas(text) => Sql.ContainsLower(Sql.Col(Sql.Msg), h.lower(text))
  }

  /** A negated term is true where its condition is false or unknown. */
  function TermSql(h: Host, t: Term): Sql.Expr {
    if t.negated then Sql.NotTrue(CondSql(h, t.cond)) else CondSql(h, t.cond)
  }

  /** Whole units, rounded down, as the literals are written. */
  function Whole(t: int, unit: int): int
    requires unit > 0
  {
    t / unit
  }

  function SinceSql(since: int): Sql.Expr {
    var start := Sql.MinusSeconds(Sql.Now, Whole(since, SECOND));
    Sql.And(
      Sql.Compare(D.Ge, Sql.Col(Sql.Ts), start),
      Sql.Compare(D.Ge, Sql.Col(Sql.Date), Sql.MinusDay(Sql.CastDate(start))))
  }

  function FromSql(from: int): Sql.Expr {
    Sql.And(
      Sql.Compare(D.Ge, Sql.Col(Sql.Ts), Sql.Timestamp(Whole(from, MILLISECOND) * MILLISECOND)),
      Sql.Compare(D.Ge, Sql.Col(Sql.Date), Sql.DateLit(DateOf(from))))
  }

  function ToSql(to: int): Sql.Expr {
    Sql.And(
      Sql.Compare(D.Lt, Sql.Col(Sql.Ts), Sql.Timestamp(Whole(to, MILLISECOND) * MILLISECOND)),
      Sql.Compare(D.Le, Sql.Col(Sql.Date), Sql.DateLit(DateOf(to))))
  }

  function TimeParts(f: Filter): seq<Sql.Expr> {
    (if f.since > 0 then [SinceSql(f.since)] else []) +
    (if f.from.Some? then [FromSql(f.from.value)] else []) +
    (if f.to.Some? then [ToSql(f.to.value)] else [])
  }

  function TermParts(h: Host, terms: seq<Term>): seq<Sql.Expr> {
    if terms == [] then [] else TermParts(h, terms[..|terms| - 1]) + [TermSql(h, terms[|terms| - 1])]
  }

  /** The parts joined with AND; no part at all is true. */
  function Conjunction(parts: seq<Sql.Expr>): Sql.Expr {
    if parts == [] then Sql.True
    else if |parts| == 1 then parts[0]
    else Sql.And(Conjunction(parts[..|parts| - 1]), parts[|parts| - 1])
  }

  function Where(h: Host, f: Filter): Sql.Expr {
    Conjunction(TimeParts(f) + TermParts(h, f.terms))
  }

  /** Where's accumulation of parts as the loop it is. */
  method BuildWhere(h: Host, f: Filter) returns (e: Sql.Expr)
    ensures e == Where(h, f)
  {
    var parts: seq<Sql.Expr> := [];
    if f.since > 0 { parts := parts + [SinceSql(f.since)]; }
    if f.from.Some? { parts := parts + [FromSql(f.from.value)]; }
    if f.to.Some? { parts := parts + [ToSql(f.to.value)]; }
    assert parts == TimeParts(f);
    for i := 0 to |f.terms|
      invariant parts == TimeParts(f) + TermParts(h, f.terms[..i])
    {
      assert f.terms[..i + 1][..i] == f.terms[..i];
      parts := parts + [TermSql(h, f.terms[i])];
    }
    assert f.terms[..|f.terms|] == f.terms;
    e := Conjunction(parts);
  }
}
