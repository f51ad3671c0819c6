/** The two meanings of a filter agree, and exactly when the time bounds are written exactly. */
module FilterAgreement {
  import opened Prelude
  import opened Rows
  import opened Filter
  import Sql
  import D = Doubles

  /** The row as the view serves it: in the partition of its own day, with whole milliseconds. */
  ghost predicate Served(env: Sql.Env) {
    env.date == DateOf(env.row.ts) && env.row.ts % MILLISECOND == 0 && env.ns != "" && -DAY < env.zone < DAY
  }

  predicate Bracketed(s: string) {
    s != "" && (s[0] == '[' || s[0] == '{')
  }

  /**
   Both sides write an array or object as JSON, which starts with its bracket, and the database may write
   a number in other digits, but as a number.
   */
  ghost predicate WritesJson(h: Host) {
    && (forall v: Json :: v.JArray? || v.JObject? ==> Bracketed(h.goJson(v)) && Bracketed(h.duckJson(v)))
    && (forall t :: h.duckDigits(t) == t || (h.toNumber(t).Some? && h.duckNumber(h.duckDigits(t)).Some?))
  }

  /** The condition asks no data value to equal a text that could be an array, an object or a number. */
  predicate PlainCond(h: Host, cond: Cond) {
    cond.DataIs? ==> forall v :: v in cond.values ==> !Bracketed(v) && h.toNumber(v).None? && h.duckNumber(v).None?
  }

  predicate PlainValues(h: Host, f: Filter) {
    forall t :: t in f.terms ==> PlainCond(h, t.cond)
  }

  /** The numbers of the filter can be written as numeric literals. */
  predicate FiniteCond(cond: Cond) {
    cond.ValueIs? || cond.DataCompares? ==> cond.number.Finite?
  }

  predicate FiniteNumbers(f: Filter) {
    forall t :: t in f.terms ==> FiniteCond(t.cond)
  }

  /**
   Comparing with a number comes out alike: where both sides read the text alike, unless it is NaN at the
   left of > or >=; where they do not, when both comparisons come out the same anyway.
   */
  predicate ReadAlike(op: Sql.Op, a: Option<D.Double>, b: Option<D.Double>, n: D.Double) {
    if a == b then !(a == Some(D.NaN) && (op == D.Gt || op == D.Ge))
    else (a.Some? && D.Compares(op, a.value, n)) == (b.Some? && D.Ordered(op, b.value, n))
  }

  predicate ComparesAlike(h: Host, op: Sql.Op, value: Option<Json>, n: D.Double) {
    value.Some? && !value.value.JNull? ==>
      ReadAlike(op, h.toNumber(ScalarText(h, value.value)), h.duckNumber(Sql.DuckText(h, value.value)), n)
  }

  /** The row's data values that the condition compares with a number compare alike. */
  predicate CondAlike(h: Host, cond: Cond, row: Row) {
    cond.DataCompares? ==> ComparesAlike(h, cond.op, Lookup(row.data, cond.path), cond.number)
  }

  predicate RowAlike(h: Host, f: Filter, row: Row) {
    forall t :: t in f.terms ==> CondAlike(h, t.cond, row)
  }

  /** The bounds survive being written in whole seconds and whole milliseconds. */
  predicate ExactTimes(f: Filter) {
    && f.since % SECOND == 0
    && (f.from.Some? ==> f.from.value % MILLISECOND == 0)
    && (f.to.Some? ==> f.to.value % MILLISECOND == 0)
  }

  ghost predicate IsTrue(h: Host, env: Sql.Env, e: Sql.Expr) {
    Sql.Eval(h, env, e) == Sql.Bool(true)
  }

  // ---------------------------------------------------------------- terms

  lemma InMeaning(h: Host, env: Sql.Env, e: Sql.Expr, values: seq<string>)
    requires Alternatives(values)
    ensures
      var v := Sql.Eval(h, env, e);
      (v.Str? || v.Null?) ==> (IsTrue(h, env, InSql(e, values)) <==> v.Str? && v.s in values)
  {
    var v := Sql.Eval(h, env, e);
    if |values| == 1 {
      CompareMeaning(h, env, D.Eq, e, Sql.Text(values[0]));
      assert v.Str? ==> (v.s in values <==> v.s == values[0]);
    } else {
      assert InSql(e, values) == Sql.In(e, values);
    }
  }

  lemma CompareMeaning(h: Host, env: Sql.Env, op: Sql.Op, l: Sql.Expr, r: Sql.Expr)
    ensures Sql.Eval(h, env, Sql.Compare(op, l, r)) == Sql.CompareVal(op, Sql.Eval(h, env, l), Sql.Eval(h, env, r))
  {
  }

  lemma AndMeaning(h: Host, env: Sql.Env, l: Sql.Expr, r: Sql.Expr)
    ensures IsTrue(h, env, Sql.And(l, r)) <==> IsTrue(h, env, l) && IsTrue(h, env, r)
  {
  }

  lemma ExtractMeaning(h: Host, fields: map<string, Json>, path: string)
    ensures
      var found := Sql.Walk(fields, Sql.SplitDots(path));
      Sql.ExtractText(h, fields, "$." + path) ==
        if found.None? || found.value.JNull? then Sql.Null else Sql.Str(Sql.DuckText(h, found.value))
  {
    assert ("$." + path)[2..] == path;
  }

  /** The extracted text is the database's own writing of the value. */
  lemma DataMeaning(h: Host, env: Sql.Env, path: string)
    ensures
      var value := Lookup(env.row.data, path);
      Sql.Eval(h, env, DataText(path)) ==
        if value.None? || value.value.JNull? then Sql.Null else Sql.Str(Sql.DuckText(h, value.value))
  {
    if env.row.data.Some? {
      ExtractMeaning(h, env.row.data.value, path);
      assert Sql.Eval(h, env, Sql.Col(Sql.Data)) == Sql.Object(env.row.data.value);
    } else {
      assert Sql.Eval(h, env, Sql.Col(Sql.Data)) == Sql.Null;
    }
  }

  lemma TagMeaning(key: string, values: seq<string>, tags: seq<string>)
    ensures (exists t :: t in Tagged(key, values) && t in tags) <==> (exists v :: v in values && key + ":" + v in tags)
  {
    var tagged := Tagged(key, values);
    if exists t :: t in tagged && t in tags {
      var t :| t in tagged && t in tags;
      var i :| 0 <= i < |tagged| && tagged[i] == t;
      assert values[i] in values;
    }
    if exists v :: v in values && key + ":" + v in tags {
      var v :| v in values && key + ":" + v in tags;
      var i :| 0 <= i < |values| && values[i] == v;
      assert tagged[i] in tagged;
    }
  }

  lemma TagsValue(h: Host, env: Sql.Env)
    ensures Sql.Eval(h, env, Sql.Col(Sql.Tags)) == Sql.List(env.row.tags)
  {
  }

  lemma TagIsMeaning(h: Host, env: Sql.Env, key: string, values: seq<string>)
    ensures IsTrue(h, env, CondSql(h, TagIs(key, values))) <==> Holds(h, TagIs(key, values), env.row, env.ns)
  {
    assert Sql.Eval(h, env, Sql.Col(Sql.Tags)) == Sql.List(env.row.tags);
    TagMeaning(key, values, env.row.tags);
  }

  /** Only the empty text, which is stored as NULL, is empty in lower case. */
  ghost predicate LowerKeepsEmpty(h: Host) {
    forall s :: h.lower(s) == "" <==> s == ""
  }

  /** Both sides lower-case alike, and only the empty text, which is stored as NULL, is then empty. */
  ghost predicate LowersAlike(h: Host) {
    LowerKeepsEmpty(h) && forall s :: h.duckLower(s) == h.lower(s)
  }

  lemma TryMeaning(h: Host, env: Sql.Env, e: Sql.Expr)
    ensures
      var v := Sql.Eval(h, env, e);
      Sql.Eval(h, env, Sql.TryDouble(e)) ==
        if v.Str? && h.duckNumber(v.s).Some? then Sql.Num(h.duckNumber(v.s).value) else Sql.Null
  {
  }

  /** Equality with a data value: each side compares its own writing. */
  lemma DataIsMeaning(h: Host, env: Sql.Env, path: string, values: seq<string>)
    requires Alternatives(values)
    ensures
      var cond, value := DataIs(path, values), Lookup(env.row.data, path);
      if value.Some? && !value.value.JNull? then
        (IsTrue(h, env, CondSql(h, cond)) <==> Sql.DuckText(h, value.value) in values)
        && (Holds(h, cond, env.row, env.ns) <==> ScalarText(h, value.value) in values)
      else
        !IsTrue(h, env, CondSql(h, cond)) && !Holds(h, cond, env.row, env.ns)
  {
    DataMeaning(h, env, path);
    InMeaning(h, env, DataText(path), values);
  }

  /** Comparing a data value with a number: each side reads its own writing, and NaN is the database's greatest. */
  lemma DataComparesMeaning(h: Host, env: Sql.Env, path: string, op: Sql.Op, n: D.Double)
    requires n.Finite?
    ensures
      var cond := DataCompares(path, op, n);
      (IsTrue(h, env, CondSql(h, cond)) <==> Holds(h, cond, env.row, env.ns)) <==>
        ComparesAlike(h, op, Lookup(env.row.data, path), n)
  {
    hide D.Ordered;
    DataMeaning(h, env, path);
    CompareMeaning(h, env, op, Sql.TryDouble(DataText(path)), Sql.Number(n));
    TryMeaning(h, env, DataText(path));
    var value := Lookup(env.row.data, path);
    if value.Some? && !value.value.JNull? {
      var b := h.duckNumber(Sql.DuckText(h, value.value));
      if b.Some? { D.OrdersDifferIff(op, b.value, n.n); }
    }
  }

  /** A text that is no number and no array or object is written by both sides or by neither. */
  lemma PlainText(h: Host, v: Json, text: string)
    requires WritesJson(h) && !v.JNull? && !Bracketed(text) && h.toNumber(text).None? && h.duckNumber(text).None?
    ensures ScalarText(h, v) == text <==> Sql.DuckText(h, v) == text
  {
  }

  lemma DataCondMeaning(h: Host, env: Sql.Env, cond: Cond)
    requires WritesJson(h) && (cond.DataIs? || cond.DataCompares?) && TermOk(Term(false, cond))
    requires PlainCond(h, cond) && FiniteCond(cond) && CondAlike(h, cond, env.row)
    ensures IsTrue(h, env, CondSql(h, cond)) <==> Holds(h, cond, env.row, env.ns)
  {
    hide Sql.Eval, IsTrue, CondSql, Holds, WritesJson, Sql.DuckText, ScalarText, ReadAlike;
    if cond.DataIs? {
      DataIsMeaning(h, env, cond.path, cond.values);
      var value := Lookup(env.row.data, cond.path);
      if value.Some? && !value.value.JNull? {
        forall v | v in cond.values { PlainText(h, value.value, v); }
      }
    } else {
      DataComparesMeaning(h, env, cond.path, cond.op, cond.number);
    }
  }

  lemma TextMeaning(h: Host, env: Sql.Env, text: string)
    requires LowerKeepsEmpty(h) && text != ""
    ensures
      var cond, msg := TextHas(text), env.row.msg;
      && (IsTrue(h, env, CondSql(h, cond)) <==> msg != "" && Sql.HasPart(h.duckLower(msg), h.lower(text)))
      && (Holds(h, cond, env.row, env.ns) <==> msg != "" && Sql.HasPart(h.lower(msg), h.lower(text)))
  {
    assert h.lower(text) != "" && h.lower("") == "";
    assert !Sql.HasPart("", h.lower(text));
    assert Sql.Eval(h, env, Sql.Col(Sql.Msg)) == Sql.Optional(env.row.msg);
  }

  /** The value column holds a finite number or NULL. */
  lemma ValueMeaning(h: Host, env: Sql.Env, op: Sql.Op, n: D.Double)
    requires n.Finite?
    ensures IsTrue(h, env, CondSql(h, ValueIs(op, n))) <==> Holds(h, ValueIs(op, n), env.row, env.ns)
  {
    hide D.Ordered;
    CompareMeaning(h, env, op, Sql.Col(Sql.Value), Sql.Number(n));
    if env.row.value.Some? { D.OrdersDifferIff(op, D.Finite(env.row.value.value), n.n); }
  }

  /** A condition is TRUE in SQL exactly when the predicate holds; else it is FALSE or NULL. */
  lemma CondMeaning(h: Host, env: Sql.Env, cond: Cond)
    requires LowersAlike(h) && WritesJson(h) && env.ns != "" && TermOk(Term(false, cond))
    requires PlainCond(h, cond) && FiniteCond(cond) && CondAlike(h, cond, env.row)
    ensures IsTrue(h, env, CondSql(h, cond)) <==> Holds(h, cond, env.row, env.ns)
  {
    match cond
    case EventIs(values) => InMeaning(h, env, Sql.Col(Sql.Event), values);
    case FieldIs(field, values) => InMeaning(h, env, Sql.Col(FieldColumn(field)), values);
    case TagIs(key, values) => TagIsMeaning(h, env, key, values);
    case DataIs(_, _) => DataCondMeaning(h, env, cond);
    case DataCompares(_, _, _) => DataCondMeaning(h, env, cond);
    case TextHas(text) => TextMeaning(h, env, text);
    case ValueIs(op, n) => ValueMeaning(h, env, op, n);
    case EventPrefix(p) => assert Sql.Eval(h, env, Sql.Col(Sql.Event)) == Sql.Str(env.row.event);
    case TagKey(key) => TagsValue(h, env);
    case LabelIs(values) => TagsValue(h, env);
  }

  lemma TermMeaning(h: Host, env: Sql.Env, t: Term)
    requires LowersAlike(h) && WritesJson(h) && env.ns != "" && TermOk(t)
    requires PlainCond(h, t.cond) && FiniteCond(t.cond) && CondAlike(h, t.cond, env.row)
    ensures IsTrue(h, env, TermSql(h, t)) <==> TermMatches(h, t, env.row, env.ns)
  {
    hide PlainCond, FiniteCond, CondAlike;
    CondMeaning(h, env, t.cond);
  }

  // ---------------------------------------------------------------- time bounds

  lemma TsMeaning(h: Host, env: Sql.Env, op: Sql.Op, e: Sql.Expr, t: int)
    requires Sql.Eval(h, env, e) == Sql.Time(t)
    ensures IsTrue(h, env, Sql.Compare(op, Sql.Col(Sql.Ts), e)) <==> Sql.Ordered(op, env.row.ts, t)
  {
    CompareMeaning(h, env, op, Sql.Col(Sql.Ts), e);
  }

  lemma DateMeaning(h: Host, env: Sql.Env, op: Sql.Op, e: Sql.Expr, d: int)
    requires Sql.Eval(h, env, e) == Sql.Day(d)
    ensures IsTrue(h, env, Sql.Compare(op, Sql.Col(Sql.Date), e)) <==> Sql.Ordered(op, env.date, d)
  {
    CompareMeaning(h, env, op, Sql.Col(Sql.Date), e);
  }

  lemma StartMeaning(h: Host, env: Sql.Env, seconds: int)
    ensures
      var start, t := Sql.MinusSeconds(Sql.Now, seconds), env.now - seconds * SECOND;
      && Sql.Eval(h, env, start) == Sql.Time(t)
      && Sql.Eval(h, env, Sql.MinusDay(Sql.CastDate(start))) == Sql.Day(DateOf(t + env.zone) - 1)
  {
    var start, t := Sql.MinusSeconds(Sql.Now, seconds), env.now - seconds * SECOND;
    assert Sql.Eval(h, env, Sql.Now) == Sql.Time(env.now);
    assert Sql.Eval(h, env, start) == Sql.Time(t);
    assert Sql.Eval(h, env, Sql.CastDate(start)) == Sql.Day(DateOf(t + env.zone));
  }

  lemma SinceMeaning(h: Host, env: Sql.Env, since: int)
    requires Served(env)
    ensures IsTrue(h, env, SinceSql(since)) <==> env.row.ts >= env.now - since / SECOND * SECOND
  {
    hide IsTrue;
    var start, t := Sql.MinusSeconds(Sql.Now, since / SECOND), env.now - since / SECOND * SECOND;
    StartMeaning(h, env, since / SECOND);
    TsMeaning(h, env, D.Ge, start, t);
    DateMeaning(h, env, D.Ge, Sql.MinusDay(Sql.CastDate(start)), DateOf(t + env.zone) - 1);
    AndMeaning(h, env, Sql.Compare(D.Ge, Sql.Col(Sql.Ts), start), Sql.Compare(D.Ge, Sql.Col(Sql.Date), Sql.MinusDay(Sql.CastDate(start))));
    if env.row.ts >= t { ZoneSlack(env.row.ts, t, env.zone); }
  }

  /** A day of slack covers any session time zone offset. */
  lemma ZoneSlack(ts: int, start: int, zone: int)
    requires ts >= start && zone < DAY
    ensures DateOf(ts) >= DateOf(start + zone) - 1
  {
  }

  lemma FromMeaning(h: Host, env: Sql.Env, from: int)
    ensures IsTrue(h, env, FromSql(from)) <==> env.row.ts >= from / MILLISECOND * MILLISECOND && env.date >= DateOf(from)
  {
    hide IsTrue;
    var t := from / MILLISECOND * MILLISECOND;
    TsMeaning(h, env, D.Ge, Sql.Timestamp(t), t);
    DateMeaning(h, env, D.Ge, Sql.DateLit(DateOf(from)), DateOf(from));
    AndMeaning(h, env, Sql.Compare(D.Ge, Sql.Col(Sql.Ts), Sql.Timestamp(t)), Sql.Compare(D.Ge, Sql.Col(Sql.Date), Sql.DateLit(DateOf(from))));
  }

  lemma ToMeaning(h: Host, env: Sql.Env, to: int)
    requires Served(env)
    ensures IsTrue(h, env, ToSql(to)) <==> env.row.ts < to / MILLISECOND * MILLISECOND
  {
    hide IsTrue;
    var t := to / MILLISECOND * MILLISECOND;
    TsMeaning(h, env, D.Lt, Sql.Timestamp(t), t);
    DateMeaning(h, env, D.Le, Sql.DateLit(DateOf(to)), DateOf(to));
    AndMeaning(h, env, Sql.Compare(D.Lt, Sql.Col(Sql.Ts), Sql.Timestamp(t)), Sql.Compare(D.Le, Sql.Col(Sql.Date), Sql.DateLit(DateOf(to))));
    if env.row.ts < t { DayOrder(env.row.ts, to); }
  }

  lemma DayOrder(a: int, b: int)
    requires a <= b
    ensures DateOf(a) <= DateOf(b)
  {
  }

  /** The date bound of from= follows from its time bound: a day starts on a whole millisecond. */
  lemma FromDate(h: Host, env: Sql.Env, from: int)
    requires Served(env)
    ensures IsTrue(h, env, FromSql(from)) <==> env.row.ts >= from / MILLISECOND * MILLISECOND
  {
    FromMeaning(h, env, from);
    if env.row.ts >= from / MILLISECOND * MILLISECOND {
      DayStart(from, env.row.ts);
    }
  }

  lemma DayStart(from: int, ts: int)
    requires ts >= from / MILLISECOND * MILLISECOND
    ensures DateOf(ts) >= DateOf(from)
  {
    var first := DateOf(from) * DAY;
    assert first <= from;
    assert first == DateOf(from) * 86_400_000 * MILLISECOND;
    assert first / MILLISECOND == DateOf(from) * 86_400_000;
    assert from / MILLISECOND >= first / MILLISECOND;
    assert ts >= first;
  }

  // ---------------------------------------------------------------- the whole filter

  lemma {:induction false} ConjunctionMeaning(h: Host, env: Sql.Env, parts: seq<Sql.Expr>)
    ensures IsTrue(h, env, Conjunction(parts)) <==> forall e :: e in parts ==> IsTrue(h, env, e)
  {
    if parts == [] {
      assert Conjunction(parts) == Sql.True;
    } else if |parts| > 1 {
      hide IsTrue;
      ConjunctionMeaning(h, env, parts[..|parts| - 1]);
      AndMeaning(h, env, Conjunction(parts[..|parts| - 1]), parts[|parts| - 1]);
      assert parts == parts[..|parts| - 1] + [parts[|parts| - 1]];
    }
  }

  lemma {:induction false} TermPartsMember(h: Host, terms: seq<Term>)
    ensures forall e :: e in TermParts(h, terms) <==> exists t :: t in terms && TermSql(h, t) == e
  {
    if terms == [] {
    } else {
      TermPartsMember(h, terms[..|terms| - 1]);
      assert terms == terms[..|terms| - 1] + [terms[|terms| - 1]];
    }
  }

  lemma TermsMeaning(h: Host, env: Sql.Env, f: Filter)
    requires LowersAlike(h) && WritesJson(h) && FilterOk(f) && env.ns != ""
    requires PlainValues(h, f) && FiniteNumbers(f) && RowAlike(h, f, env.row)
    ensures
      (forall e :: e in TermParts(h, f.terms) ==> IsTrue(h, env, e)) <==>
      (forall t :: t in f.terms ==> TermMatches(h, t, env.row, env.ns))
  {
    hide IsTrue, TermSql, TermMatches, PlainCond, FiniteCond, CondAlike, TermOk;
    TermPartsMember(h, f.terms);
    forall t | t in f.terms
      ensures IsTrue(h, env, TermSql(h, t)) <==> TermMatches(h, t, env.row, env.ns)
    {
      TermMeaning(h, env, t);
    }
  }

  lemma RangeMeaning(f: Filter, now: int, ts: int)
    requires f.since >= 0
    ensures InRange(Range(f, now), ts) <==>
      (f.since > 0 ==> ts >= now - f.since) && (f.from.Some? ==> ts >= f.from.value) && (f.to.Some? ==> ts < f.to.value)
  {
  }

  lemma TimesMeaning(h: Host, env: Sql.Env, f: Filter)
    requires Served(env) && FilterOk(f)
    ensures
      (forall e :: e in TimeParts(f) ==> IsTrue(h, env, e)) <==>
      && (f.since > 0 ==> env.row.ts >= env.now - f.since / SECOND * SECOND)
      && (f.from.Some? ==> env.row.ts >= f.from.value / MILLISECOND * MILLISECOND)
      && (f.to.Some? ==> env.row.ts < f.to.value / MILLISECOND * MILLISECOND)
  {
    hide IsTrue, SinceSql, FromSql, ToSql;
    if f.since > 0 { SinceMeaning(h, env, f.since); }
    if f.from.Some? { FromDate(h, env, f.from.value); }
    if f.to.Some? { ToMeaning(h, env, f.to.value); }
    var parts := TimeParts(f);
    assert f.since > 0 ==> SinceSql(f.since) in parts;
    assert f.from.Some? ==> FromSql(f.from.value) in parts;
    assert f.to.Some? ==> ToSql(f.to.value) in parts;
  }

  /**
   For every filter, every served row, every clock and every session time zone: the SQL expression
   is TRUE if and only if the predicate matches. NULL columns, negation and the date bounds that
   only prune partitions are all covered.
   */
  lemma WhereAgrees(h: Host, f: Filter, env: Sql.Env)
    requires LowersAlike(h) && WritesJson(h) && FilterOk(f) && Served(env)
    requires ExactTimes(f) && PlainValues(h, f) && FiniteNumbers(f) && RowAlike(h, f, env.row)
    ensures IsTrue(h, env, Where(h, f)) <==> Match(h, f, env.row, env.ns, env.now)
  {
    hide IsTrue, TermMatches, Range, InRange, TimeParts, TermParts, PlainValues, FiniteNumbers, RowAlike;
    ConjunctionMeaning(h, env, TimeParts(f) + TermParts(h, f.terms));
    TermsMeaning(h, env, f);
    TimesMeaning(h, env, f);
    RangeMeaning(f, env.now, env.row.ts);
    WholeTimes(f);
  }

  lemma WholeTimes(f: Filter)
    requires ExactTimes(f)
    ensures f.since / SECOND * SECOND == f.since
    ensures f.from.Some? ==> f.from.value / MILLISECOND * MILLISECOND == f.from.value
    ensures f.to.Some? ==> f.to.value / MILLISECOND * MILLISECOND == f.to.value
  {
  }

  // ---------------------------------------------------------------- when the bounds are not exact

  function Bare(ts: int): Row {
    Row(1, ts, "e", "", [], "", "", "", "", None, "", None)
  }

  function Noon(ts: int, now: int): Sql.Env {
    Sql.Env(Bare(ts), "shop", DateOf(ts), now, 0)
  }

  function Since(since: int): Filter {
    Filter([], since, None, None)
  }

  function Bounds(from: Option<int>, to: Option<int>): Filter {
    Filter([], 0, from, to)
  }

  /** The two meanings agree on every served row, clock and time zone. */
  ghost predicate Agrees(h: Host, f: Filter) {
    forall env: Sql.Env :: Served(env) ==> (IsTrue(h, env, Where(h, f)) <==> Match(h, f, env.row, env.ns, env.now))
  }

  lemma TimesOnly(h: Host, f: Filter, env: Sql.Env)
    requires f.terms == [] && f.since >= 0 && Served(env)
    ensures IsTrue(h, env, Where(h, f)) <==>
      && (f.since > 0 ==> env.row.ts >= env.now - f.since / SECOND * SECOND)
      && (f.from.Some? ==> env.row.ts >= f.from.value / MILLISECOND * MILLISECOND)
      && (f.to.Some? ==> env.row.ts < f.to.value / MILLISECOND * MILLISECOND)
    ensures Match(h, f, env.row, env.ns, env.now) <==>
      (f.since > 0 ==> env.row.ts >= env.now - f.since) && (f.from.Some? ==> env.row.ts >= f.from.value) && (f.to.Some? ==> env.row.ts < f.to.value)
  {
    hide IsTrue, TimeParts, Range, InRange;
    ConjunctionMeaning(h, env, TimeParts(f) + TermParts(h, f.terms));
    assert TimeParts(f) + TermParts(h, f.terms) == TimeParts(f);
    TimesMeaning(h, env, f);
    RangeMeaning(f, env.now, env.row.ts);
  }

  /** since= means the same in both exactly when it is a whole number of seconds. */
  lemma SinceAgreesIff(h: Host, since: int)
    requires since > 0
    ensures Agrees(h, Since(since)) <==> since % 1_000_000_000 == 0
  {
    hide IsTrue, Where, Match;
    forall env: Sql.Env | Served(env) && since % SECOND == 0
      ensures IsTrue(h, env, Where(h, Since(since))) <==> Match(h, Since(since), env.row, env.ns, env.now)
    {
      TimesOnly(h, Since(since), env);
    }
    if since % SECOND != 0 {
      // The row is exactly `since` old: the predicate still takes it, the query no longer does.
      var env := Noon(0, since);
      TimesOnly(h, Since(since), env);
      assert 0 < since - since / SECOND * SECOND;
    }
  }

  /** from= and to= mean the same in both exactly when they are whole milliseconds. */
  lemma FromAgreesIff(h: Host, from: int)
    ensures Agrees(h, Bounds(Some(from), None)) <==> from % 1_000_000 == 0
  {
    hide IsTrue, Where, Match;
    var f := Bounds(Some(from), None);
    forall env: Sql.Env | Served(env) && from % MILLISECOND == 0
      ensures IsTrue(h, env, Where(h, f)) <==> Match(h, f, env.row, env.ns, env.now)
    {
      TimesOnly(h, f, env);
    }
    if from % MILLISECOND != 0 {
      // The millisecond the bound falls in: the query takes it, the predicate does not.
      var env := Noon(from / MILLISECOND * MILLISECOND, 0);
      TimesOnly(h, f, env);
    }
  }

  lemma ToAgreesIff(h: Host, to: int)
    ensures Agrees(h, Bounds(None, Some(to))) <==> to % 1_000_000 == 0
  {
    hide IsTrue, Where, Match;
    var f := Bounds(None, Some(to));
    forall env: Sql.Env | Served(env) && to % MILLISECOND == 0
      ensures IsTrue(h, env, Where(h, f)) <==> Match(h, f, env.row, env.ns, env.now)
    {
      TimesOnly(h, f, env);
    }
    if to % MILLISECOND != 0 {
      // The millisecond the bound falls in: the predicate takes it, the query does not.
      var env := Noon(to / MILLISECOND * MILLISECOND, 0);
      TimesOnly(h, f, env);
    }
  }

  // ---------------------------------------------------------------- the text of a filter

  /** The string literals a condition may put into the query. */
  function CondLiterals(h: Host, cond: Cond): seq<string> {
    match cond
    case EventIs(values) => values
    case EventPrefix(p) => [p]
    case FieldIs(_, values) => values
    case ValueIs(_, _) => []
    case TagIs(key, values) => Tagged(key, values)
    case TagKey(key) => [key + ":"]
    case LabelIs(values) => values
    case DataIs(path, values) => ["$." + path] + values
    case DataCompares(path, _, _) => ["$." + path]
    case TextHas(text) => [h.lower(text)]
  }

  function TermLiterals(h: Host, terms: seq<Term>): seq<string> {
    if terms == [] then []
    else TermLiterals(h, terms[..|terms| - 1]) + CondLiterals(h, terms[|terms| - 1].cond)
  }

  function TimeLiterals(p: Sql.Printer, f: Filter): seq<string> {
    (if f.from.Some? then [p.instant(f.from.value / MILLISECOND * MILLISECOND), p.day(DateOf(f.from.value))] else []) +
    (if f.to.Some? then [p.instant(f.to.value / MILLISECOND * MILLISECOND), p.day(DateOf(f.to.value))] else [])
  }

  function PartLiterals(p: Sql.Printer, parts: seq<Sql.Expr>): seq<string> {
    if parts == [] then [] else PartLiterals(p, parts[..|parts| - 1]) + Sql.LiteralsOf(p, parts[|parts| - 1])
  }

  lemma {:induction false} PartLiteralsAppend(p: Sql.Printer, a: seq<Sql.Expr>, b: seq<Sql.Expr>)
    ensures PartLiterals(p, a + b) == PartLiterals(p, a) + PartLiterals(p, b)
  {
    if b == [] {
      assert a + b == a;
    } else {
      assert (a + b)[..|a + b| - 1] == a + b[..|b| - 1];
      PartLiteralsAppend(p, a, b[..|b| - 1]);
    }
  }

  lemma {:induction false} ConjunctionLiterals(p: Sql.Printer, parts: seq<Sql.Expr>)
    ensures Sql.LiteralsOf(p, Conjunction(parts)) == PartLiterals(p, parts)
  {
    if |parts| == 1 {
      assert PartLiterals(p, parts[..0]) == [];
    } else if |parts| > 1 {
      ConjunctionLiterals(p, parts[..|parts| - 1]);
    }
  }

  lemma InLiterals(p: Sql.Printer, e: Sql.Expr, values: seq<string>)
    ensures Sql.LiteralsOf(p, InSql(e, values)) == Sql.LiteralsOf(p, e) + values
  {
    if |values| == 1 { assert values == [values[0]]; }
  }

  lemma CondSqlLiterals(p: Sql.Printer, h: Host, cond: Cond)
    ensures Sql.LiteralsOf(p, CondSql(h, cond)) == CondLiterals(h, cond)
  {
    match cond
    case EventIs(values) => InLiterals(p, Sql.Col(Sql.Event), values);
    case FieldIs(field, values) => InLiterals(p, Sql.Col(FieldColumn(field)), values);
    case DataIs(path, values) =>
      InLiterals(p, DataText(path), values);
      assert Sql.LiteralsOf(p, DataText(path)) == ["$." + path];
    case DataCompares(path, op, n) =>
      assert Sql.LiteralsOf(p, DataText(path)) == ["$." + path];
      assert Sql.LiteralsOf(p, Sql.TryDouble(DataText(path))) == ["$." + path];
    case _ =>
  }

  lemma TermLiteral(p: Sql.Printer, h: Host, t: Term)
    ensures Sql.LiteralsOf(p, TermSql(h, t)) == CondLiterals(h, t.cond)
  {
    hide CondLiterals, CondSql;
    CondSqlLiterals(p, h, t.cond);
  }

  lemma {:induction false} TermPartLiterals(p: Sql.Printer, h: Host, terms: seq<Term>)
    ensures PartLiterals(p, TermParts(h, terms)) == TermLiterals(h, terms)
  {
    if terms == [] {
    } else {
      hide CondLiterals, CondSql, TermSql, Sql.LiteralsOf;
      TermLiteral(p, h, terms[|terms| - 1]);
      TermPartLiterals(p, h, terms[..|terms| - 1]);
      PartLiteralsAppend(p, TermParts(h, terms[..|terms| - 1]), [TermSql(h, terms[|terms| - 1])]);
      OnePartLiterals(p, TermSql(h, terms[|terms| - 1]));
    }
  }

  lemma OnePartLiterals(p: Sql.Printer, e: Sql.Expr)
    ensures PartLiterals(p, [e]) == Sql.LiteralsOf(p, e)
  {
    assert PartLiterals(p, [e][..0]) == [];
  }

  lemma SinceLiterals(p: Sql.Printer, since: int)
    ensures Sql.LiteralsOf(p, SinceSql(since)) == []
  {
    var start := Sql.MinusSeconds(Sql.Now, Whole(since, SECOND));
    assert Sql.LiteralsOf(p, start) == [];
    assert Sql.LiteralsOf(p, Sql.CastDate(start)) == [];
    assert Sql.LiteralsOf(p, Sql.MinusDay(Sql.CastDate(start))) == [];
    assert Sql.LiteralsOf(p, Sql.Compare(D.Ge, Sql.Col(Sql.Ts), start)) == [];
    assert Sql.LiteralsOf(p, Sql.Compare(D.Ge, Sql.Col(Sql.Date), Sql.MinusDay(Sql.CastDate(start)))) == [];
  }

  lemma FromLiterals(p: Sql.Printer, from: int)
    ensures Sql.LiteralsOf(p, FromSql(from)) == [p.instant(from / MILLISECOND * MILLISECOND), p.day(DateOf(from))]
  {
    var first := Sql.Timestamp(from / MILLISECOND * MILLISECOND);
    assert Sql.LiteralsOf(p, Sql.Compare(D.Ge, Sql.Col(Sql.Ts), first)) == [p.instant(first.t)];
    assert Sql.LiteralsOf(p, Sql.Compare(D.Ge, Sql.Col(Sql.Date), Sql.DateLit(DateOf(from)))) == [p.day(DateOf(from))];
  }

  lemma ToLiterals(p: Sql.Printer, to: int)
    ensures Sql.LiteralsOf(p, ToSql(to)) == [p.instant(to / MILLISECOND * MILLISECOND), p.day(DateOf(to))]
  {
    var last := Sql.Timestamp(to / MILLISECOND * MILLISECOND);
    assert Sql.LiteralsOf(p, Sql.Compare(D.Lt, Sql.Col(Sql.Ts), last)) == [p.instant(last.t)];
    assert Sql.LiteralsOf(p, Sql.Compare(D.Le, Sql.Col(Sql.Date), Sql.DateLit(DateOf(to)))) == [p.day(DateOf(to))];
  }

  lemma TimePartLiterals(p: Sql.Printer, f: Filter)
    ensures PartLiterals(p, TimeParts(f)) == TimeLiterals(p, f)
  {
    hide SinceSql, FromSql, ToSql, Sql.LiteralsOf;
    var from, to := if f.from.Some? then f.from.value else 0, if f.to.Some? then f.to.value else 0;
    SinceLiterals(p, f.since);
    FromLiterals(p, from);
    ToLiterals(p, to);
    OnePartLiterals(p, SinceSql(f.since));
    OnePartLiterals(p, FromSql(from));
    OnePartLiterals(p, ToSql(to));
    var a := if f.since > 0 then [SinceSql(f.since)] else [];
    var b := if f.from.Some? then [FromSql(f.from.value)] else [];
    var c := if f.to.Some? then [ToSql(f.to.value)] else [];
    PartLiteralsAppend(p, a + b, c);
    PartLiteralsAppend(p, a, b);
  }

  /**
   The query text is read back by the database as code of the compiler's own and, in order, as
   exactly the time bounds and the terms' values, whatever quotes or brackets those contain.
   */
  lemma WhereTextReadsBack(p: Sql.Printer, h: Host, f: Filter)
    requires Sql.Plain(p)
    ensures
      var pieces := Sql.Lex(Sql.Render(Sql.Show(p, Where(h, f))));
      pieces.Some? && Sql.LiteralPieces(pieces.value) == TimeLiterals(p, f) + TermLiterals(h, f.terms)
  {
    hide Sql.Lex, Sql.Render, Sql.Show, Sql.LiteralPieces, Sql.LiteralsOf, TimeLiterals, TermLiterals, TimeParts, TermParts;
    Sql.TextReadsBack(p, Where(h, f));
    ConjunctionLiterals(p, TimeParts(f) + TermParts(h, f.terms));
    PartLiteralsAppend(p, TimeParts(f), TermParts(h, f.terms));
    TimePartLiterals(p, f);
    TermPartLiterals(p, h, f.terms);
  }
}
