/**
 Where the two meanings of a filter part over its data values, texts and numbers: the exact conditions of
 filters of one term, and rows on which they fail.
 */
module DataAgreement {
  import opened Prelude
  import opened Rows
  import opened Filter
  import opened FilterAgreement
  import Sql
  import D = Doubles

  function OneTerm(t: Term): Filter {
    Filter([t], 0, None, None)
  }

  lemma OneTermMeaning(h: Host, t: Term, env: Sql.Env)
    ensures IsTrue(h, env, Where(h, OneTerm(t))) <==> IsTrue(h, env, TermSql(h, t))
    ensures Match(h, OneTerm(t), env.row, env.ns, env.now) <==> TermMatches(h, t, env.row, env.ns)
  {
    hide IsTrue, TermSql, TermMatches;
    var f := OneTerm(t);
    ConjunctionMeaning(h, env, TimeParts(f) + TermParts(h, f.terms));
    TermPartsMember(h, f.terms);
    assert TimeParts(f) + TermParts(h, f.terms) == TermParts(h, f.terms);
  }

  /** The two meanings agree on one row. */
  ghost predicate AgreeOn(h: Host, f: Filter, env: Sql.Env) {
    IsTrue(h, env, Where(h, f)) <==> Match(h, f, env.row, env.ns, env.now)
  }

  /** A negation changes nothing about agreeing. */
  lemma TermAgrees(h: Host, t: Term, env: Sql.Env)
    ensures AgreeOn(h, OneTerm(t), env) <==> (IsTrue(h, env, CondSql(h, t.cond)) <==> Holds(h, t.cond, env.row, env.ns))
  {
    hide Where, Match, CondSql, Holds;
    OneTermMeaning(h, t, env);
  }

  // ---------------------------------------------------------------- equality with a data value

  /** Data with one value, at the end of a path. */
  function Nest(parts: seq<string>, value: Json): map<string, Json>
    requires |parts| > 0
    decreases |parts|
  {
    map[parts[0] := if |parts| == 1 then value else JObject(Nest(parts[1..], value))]
  }

  lemma {:induction false} WalkNest(parts: seq<string>, value: Json)
    requires |parts| > 0
    ensures Sql.Walk(Nest(parts, value), parts) == Some(value)
    decreases |parts|
  {
    if |parts| == 1 {
      assert Nest(parts, value)[parts[0]] == value;
    } else {
      WalkNest(parts[1..], value);
    }
  }

  /** A row whose data holds one value at a path. */
  function Holding(path: string, value: Json): Sql.Env {
    Sql.Env(Bare(0).(data := Some(Nest(Sql.SplitDots(path), value))), "shop", 0, 0, 0)
  }

  lemma HoldingValue(path: string, value: Json)
    ensures Served(Holding(path, value)) && Lookup(Holding(path, value).row.data, path) == Some(value)
  {
    WalkNest(Sql.SplitDots(path), value);
  }

  /** Both sides write the value as one of these texts, or neither does. */
  predicate WrittenAlike(h: Host, v: Json, values: seq<string>) {
    ScalarText(h, v) in values <==> Sql.DuckText(h, v) in values
  }

  lemma DataAgreesOn(h: Host, negated: bool, path: string, values: seq<string>, env: Sql.Env)
    requires Alternatives(values)
    ensures
      var value := Lookup(env.row.data, path);
      AgreeOn(h, OneTerm(Term(negated, DataIs(path, values))), env) <==>
        (value.Some? && !value.value.JNull? ==> WrittenAlike(h, value.value, values))
  {
    hide CondSql, Holds, AgreeOn, Lookup, IsTrue;
    TermAgrees(h, Term(negated, DataIs(path, values)), env);
    DataIsMeaning(h, env, path, values);
  }

  /**
   data.path=values means the same in both exactly when no value, be it a number, an array or an object,
   is written as one of the texts by one side and not by the other.
   */
  lemma DataAgreesIff(h: Host, negated: bool, path: string, values: seq<string>)
    requires Alternatives(values)
    ensures Agrees(h, OneTerm(Term(negated, DataIs(path, values)))) <==>
      forall v: Json :: !v.JNull? ==> WrittenAlike(h, v, values)
  {
    hide IsTrue, Where, Match, WrittenAlike, Served;
    var f := OneTerm(Term(negated, DataIs(path, values)));
    forall env: Sql.Env
      ensures AgreeOn(h, f, env) <==>
        var value := Lookup(env.row.data, path);
        (value.Some? && !value.value.JNull? ==> WrittenAlike(h, value.value, values))
    {
      DataAgreesOn(h, negated, path, values, env);
    }
    if Agrees(h, f) {
      forall v: Json | !v.JNull? ensures WrittenAlike(h, v, values) {
        HoldingValue(path, v);
        assert AgreeOn(h, f, Holding(path, v));
      }
    }
    if forall v: Json :: !v.JNull? ==> WrittenAlike(h, v, values) {
      forall env: Sql.Env | Served(env) ensures IsTrue(h, env, Where(h, f)) <==> Match(h, f, env.row, env.ns, env.now) {
        assert AgreeOn(h, f, env);
      }
    }
  }

  /**
   An input that fails: the daemon keeps the digits 1.50, a database that writes the number anew has 1.5,
   so data.path=1.50 finds the row in the daemon alone, and data.path=1.5 in the database alone.
   */
  lemma NumberDiffers(h: Host, path: string)
    requires h.duckDigits("1.50") == "1.5"
    ensures
      var long, short := OneTerm(Term(false, DataIs(path, ["1.50"]))), OneTerm(Term(false, DataIs(path, ["1.5"])));
      var env := Holding(path, JNumber("1.50"));
      && Served(env)
      && Match(h, long, env.row, env.ns, env.now) && !IsTrue(h, env, Where(h, long))
      && !Match(h, short, env.row, env.ns, env.now) && IsTrue(h, env, Where(h, short))
  {
    hide IsTrue, Where, Match, CondSql, Holds, Served, Lookup;
    var value := JNumber("1.50");
    var env := Holding(path, value);
    HoldingValue(path, value);
    forall text | text == "1.50" || text == "1.5"
      ensures IsTrue(h, env, Where(h, OneTerm(Term(false, DataIs(path, [text]))))) <==> text == "1.5"
      ensures Match(h, OneTerm(Term(false, DataIs(path, [text]))), env.row, env.ns, env.now) <==> text == "1.50"
    {
      OneTermMeaning(h, Term(false, DataIs(path, [text])), env);
      DataIsMeaning(h, env, path, [text]);
    }
  }

  const NUMBERS: Json := JArray([JNumber("1.50")])

  /** The same inside a list: data.path=[1.50]. */
  lemma NumberListDiffers(h: Host, path: string)
    requires h.goJson(NUMBERS) == "[1.50]" && h.duckJson(NUMBERS) == "[1.5]"
    ensures
      var f, env := OneTerm(Term(false, DataIs(path, ["[1.50]"]))), Holding(path, NUMBERS);
      Served(env) && !IsTrue(h, env, Where(h, f)) && Match(h, f, env.row, env.ns, env.now)
  {
    hide IsTrue, Where, Match, CondSql, Holds, Served, Lookup;
    HoldingValue(path, NUMBERS);
    OneTermMeaning(h, Term(false, DataIs(path, ["[1.50]"])), Holding(path, NUMBERS));
    DataIsMeaning(h, Holding(path, NUMBERS), path, ["[1.50]"]);
  }

  // ---------------------------------------------------------------- comparing a data value with a number

  lemma ComparesOn(h: Host, negated: bool, path: string, op: Sql.Op, n: D.Double, env: Sql.Env)
    requires n.Finite?
    ensures AgreeOn(h, OneTerm(Term(negated, DataCompares(path, op, n))), env) <==>
      ComparesAlike(h, op, Lookup(env.row.data, path), n)
  {
    hide CondSql, Holds, AgreeOn, Lookup, IsTrue, ComparesAlike;
    TermAgrees(h, Term(negated, DataCompares(path, op, n)), env);
    DataComparesMeaning(h, env, path, op, n);
  }

  /** A comparison means the same in both exactly when every value compares alike. */
  lemma ComparesAgreesIff(h: Host, negated: bool, path: string, op: Sql.Op, n: D.Double)
    requires n.Finite?
    ensures Agrees(h, OneTerm(Term(negated, DataCompares(path, op, n)))) <==> forall v: Json :: ComparesAlike(h, op, Some(v), n)
  {
    hide IsTrue, Where, Match, ReadAlike, Served;
    var f := OneTerm(Term(negated, DataCompares(path, op, n)));
    forall env: Sql.Env ensures AgreeOn(h, f, env) <==> ComparesAlike(h, op, Lookup(env.row.data, path), n) {
      ComparesOn(h, negated, path, op, n, env);
    }
    if Agrees(h, f) {
      forall v: Json ensures ComparesAlike(h, op, Some(v), n) {
        HoldingValue(path, v);
        assert AgreeOn(h, f, Holding(path, v));
      }
    }
    if forall v: Json :: ComparesAlike(h, op, Some(v), n) {
      forall env: Sql.Env | Served(env) ensures IsTrue(h, env, Where(h, f)) <==> Match(h, f, env.row, env.ns, env.now) {
        var value := Lookup(env.row.data, path);
        assert AgreeOn(h, f, env) <==> ComparesAlike(h, op, value, n);
        if value.Some? { assert ComparesAlike(h, op, Some(value.value), n); }
      }
    }
  }

  /**
   Both sides read a JSON number alike however the database writes it; words and brackets are no numbers;
   and they read a string alike.
   */
  ghost predicate ReadsNumbers(h: Host) {
    && (forall t :: h.toNumber(t).Some? && h.toNumber(t).value.Finite? ==> h.duckNumber(h.duckDigits(t)) == h.toNumber(t))
    && (forall s :: Bracketed(s) || s == "true" || s == "false" ==> h.toNumber(s).None? && h.duckNumber(s).None?)
  }

  /** The value is a number within the range of doubles, a word, an array or an object, or a string read alike. */
  predicate Readable(h: Host, v: Json) {
    match v
    case JNumber(t) => h.toNumber(t).Some? && h.toNumber(t).value.Finite?
    case JString(s) => h.toNumber(s) == h.duckNumber(s)
    case _ => true
  }

  /** A string that both sides read as NaN. */
  predicate ReadsNaN(h: Host, v: Json) {
    v.JString? && h.toNumber(v.s) == Some(D.NaN)
  }

  /**
   A readable value compares alike with any number exactly when it is not a string that reads as NaN at
   the left of > or >=.
   */
  lemma ComparesIffNoNaN(h: Host, op: Sql.Op, v: Json, n: D.Double)
    requires WritesJson(h) && ReadsNumbers(h) && Readable(h, v)
    ensures ComparesAlike(h, op, Some(v), n) <==> !(ReadsNaN(h, v) && (op == D.Gt || op == D.Ge))
  {
  }

  /** So data.path>5 finds {"path": "nan"} in the database, where NaN is above every number, and not in the daemon. */
  lemma NaNDiffers(h: Host, path: string)
    requires h.toNumber("nan") == h.duckNumber("nan") == Some(D.NaN)
    ensures
      var f, env := OneTerm(Term(false, DataCompares(path, D.Gt, D.Finite(5.0)))), Holding(path, JString("nan"));
      Served(env) && IsTrue(h, env, Where(h, f)) && !Match(h, f, env.row, env.ns, env.now)
  {
    hide IsTrue, Where, Match, CondSql, Served, Lookup;
    var cond, env := DataCompares(path, D.Gt, D.Finite(5.0)), Holding(path, JString("nan"));
    HoldingValue(path, JString("nan"));
    OneTermMeaning(h, Term(false, cond), env);
    DataComparesMeaning(h, env, path, D.Gt, D.Finite(5.0));
  }

  /** A string with blanks around its number is one to the database's cast and none to the daemon. */
  lemma PaddedDiffers(h: Host, path: string)
    requires h.toNumber(" 7 ") == None && h.duckNumber(" 7 ") == Some(D.Finite(7.0))
    ensures
      var f, env := OneTerm(Term(false, DataCompares(path, D.Gt, D.Finite(5.0)))), Holding(path, JString(" 7 "));
      Served(env) && IsTrue(h, env, Where(h, f)) && !Match(h, f, env.row, env.ns, env.now)
  {
    hide IsTrue, Where, Match, CondSql, Served, Lookup;
    var cond, env := DataCompares(path, D.Gt, D.Finite(5.0)), Holding(path, JString(" 7 "));
    HoldingValue(path, JString(" 7 "));
    OneTermMeaning(h, Term(false, cond), env);
    DataComparesMeaning(h, env, path, D.Gt, D.Finite(5.0));
  }

  // ---------------------------------------------------------------- numbers of the filter

  lemma InNumbers(e: Sql.Expr, values: seq<string>)
    ensures Sql.NumbersOf(InSql(e, values)) == Sql.NumbersOf(e)
  {
    if |values| == 1 {
      assert Sql.NumbersOf(Sql.Text(values[0])) == [];
    }
  }

  function CondNumbers(cond: Cond): seq<D.Double> {
    match cond
    case ValueIs(_, n) => [n]
    case DataCompares(_, _, n) => [n]
    case _ => []
  }

  lemma CondSqlNumbers(h: Host, cond: Cond)
    ensures Sql.NumbersOf(CondSql(h, cond)) == CondNumbers(cond)
  {
    assert forall c :: Sql.NumbersOf(Sql.Col(c)) == [];
    match cond
    case EventIs(values) => InNumbers(Sql.Col(Sql.Event), values);
    case FieldIs(field, values) => InNumbers(Sql.Col(FieldColumn(field)), values);
    case DataIs(path, values) => InNumbers(DataText(path), values);
    case DataCompares(path, _, n) =>
      assert Sql.NumbersOf(DataText(path)) == [];
      assert Sql.NumbersOf(Sql.TryDouble(DataText(path))) == [];
      assert Sql.NumbersOf(Sql.Number(n)) == [n];
    case ValueIs(_, n) => assert Sql.NumbersOf(Sql.Number(n)) == [n];
    case _ =>
  }

  lemma TermNumbers(h: Host, t: Term)
    ensures Sql.NumbersOf(TermSql(h, t)) == CondNumbers(t.cond)
  {
    hide CondSql, CondNumbers;
    CondSqlNumbers(h, t.cond);
  }

  lemma AndNumbers(l: Sql.Expr, r: Sql.Expr)
    ensures Sql.NumbersOf(Sql.And(l, r)) == Sql.NumbersOf(l) + Sql.NumbersOf(r)
  {
  }

  lemma {:induction false} ConjunctionNumbers(parts: seq<Sql.Expr>, x: D.Double)
    ensures x in Sql.NumbersOf(Conjunction(parts)) <==> exists e :: e in parts && x in Sql.NumbersOf(e)
  {
    if parts == [] {
      assert Sql.NumbersOf(Sql.True) == [];
    } else if |parts| > 1 {
      hide Sql.NumbersOf;
      var before, last := parts[..|parts| - 1], parts[|parts| - 1];
      ConjunctionNumbers(before, x);
      assert parts == before + [last];
      AndNumbers(Conjunction(before), last);
    } else {
      assert Conjunction(parts) == parts[0] && parts[0] in parts;
    }
  }

  lemma BoundNumbers(op: Sql.Op, column: Sql.Column, bound: Sql.Expr)
    requires Sql.NumbersOf(bound) == []
    ensures Sql.NumbersOf(Sql.Compare(op, Sql.Col(column), bound)) == []
  {
    assert Sql.NumbersOf(Sql.Col(column)) == [];
  }

  lemma BothNumbers(l: Sql.Expr, r: Sql.Expr)
    requires Sql.NumbersOf(l) == [] && Sql.NumbersOf(r) == []
    ensures Sql.NumbersOf(Sql.And(l, r)) == []
  {
  }

  lemma SinceNumbers(since: int)
    ensures Sql.NumbersOf(SinceSql(since)) == []
  {
    var start := Sql.MinusSeconds(Sql.Now, Whole(since, SECOND));
    assert Sql.NumbersOf(start) == [];
    assert Sql.NumbersOf(Sql.CastDate(start)) == [];
    var date := Sql.MinusDay(Sql.CastDate(start));
    BoundNumbers(D.Ge, Sql.Ts, start);
    BoundNumbers(D.Ge, Sql.Date, date);
    BothNumbers(Sql.Compare(D.Ge, Sql.Col(Sql.Ts), start), Sql.Compare(D.Ge, Sql.Col(Sql.Date), date));
  }

  lemma MomentNumbers(from: int)
    ensures Sql.NumbersOf(FromSql(from)) == [] && Sql.NumbersOf(ToSql(from)) == []
  {
    var moment, date := Sql.Timestamp(Whole(from, MILLISECOND) * MILLISECOND), Sql.DateLit(DateOf(from));
    BoundNumbers(D.Ge, Sql.Ts, moment);
    BoundNumbers(D.Ge, Sql.Date, date);
    BothNumbers(Sql.Compare(D.Ge, Sql.Col(Sql.Ts), moment), Sql.Compare(D.Ge, Sql.Col(Sql.Date), date));
    BoundNumbers(D.Lt, Sql.Ts, moment);
    BoundNumbers(D.Le, Sql.Date, date);
    BothNumbers(Sql.Compare(D.Lt, Sql.Col(Sql.Ts), moment), Sql.Compare(D.Le, Sql.Col(Sql.Date), date));
  }

  lemma TimeNumbers(f: Filter)
    ensures forall e :: e in TimeParts(f) ==> Sql.NumbersOf(e) == []
  {
    hide SinceSql, FromSql, ToSql, Sql.NumbersOf;
    SinceNumbers(f.since);
    if f.from.Some? { MomentNumbers(f.from.value); }
    if f.to.Some? { MomentNumbers(f.to.value); }
  }

  /** The numbers of the query are those of the terms. */
  lemma WhereNumbers(h: Host, f: Filter, x: D.Double)
    ensures x in Sql.NumbersOf(Where(h, f)) <==> exists t :: t in f.terms && x in CondNumbers(t.cond)
  {
    hide Sql.NumbersOf, TermSql, Conjunction, TimeParts, CondNumbers;
    var parts := TimeParts(f) + TermParts(h, f.terms);
    TimeNumbers(f);
    ConjunctionNumbers(parts, x);
    TermPartsMember(h, f.terms);
    forall t: Term ensures Sql.NumbersOf(TermSql(h, t)) == CondNumbers(t.cond) { TermNumbers(h, t); }
    if exists t :: t in f.terms && x in CondNumbers(t.cond) {
      var t :| t in f.terms && x in CondNumbers(t.cond);
      assert TermSql(h, t) in TermParts(h, f.terms);
      assert TermSql(h, t) in parts;
    }
  }

  /**
   The database runs the query exactly when the filter's numbers are finite; the others are written as
   +Inf, -Inf and NaN, which are names to it.
   */
  lemma WhereRunsIff(p: Sql.Printer, h: Host, f: Filter)
    requires Sql.Plain(p)
    ensures Sql.Runs(p, Where(h, f)) <==> FiniteNumbers(f)
  {
    hide Sql.NumbersOf, Where, Sql.NumberText, D.NumericLiteral, Sql.Plain;
    forall x: D.Double
      ensures D.NumericLiteral(Sql.NumberText(p, x)) <==> x.Finite?
      ensures x in Sql.NumbersOf(Where(h, f)) <==> exists t :: t in f.terms && x in CondNumbers(t.cond)
    {
      Sql.LiteralIffFinite(p, x);
      WhereNumbers(h, f, x);
    }
    if Sql.Runs(p, Where(h, f)) {
      forall t | t in f.terms ensures FiniteCond(t.cond) {
        if t.cond.ValueIs? || t.cond.DataCompares? {
          assert t.cond.number in CondNumbers(t.cond);
          assert t.cond.number in Sql.NumbersOf(Where(h, f));
        }
      }
    }
  }

  // ---------------------------------------------------------------- searching the message

  /** A text search means the same in both exactly when no message has the text in one lower case only. */
  lemma TextAgreesIff(h: Host, negated: bool, text: string)
    requires LowerKeepsEmpty(h) && text != ""
    ensures Agrees(h, OneTerm(Term(negated, TextHas(text)))) <==>
      forall s :: s != "" ==> (Sql.HasPart(h.lower(s), h.lower(text)) <==> Sql.HasPart(h.duckLower(s), h.lower(text)))
  {
    hide IsTrue, Where, Match, Sql.HasPart, Served, CondSql, Holds;
    var f := OneTerm(Term(negated, TextHas(text)));
    forall env: Sql.Env
      ensures AgreeOn(h, f, env) <==>
        var s := env.row.msg;
        (s != "" ==> (Sql.HasPart(h.lower(s), h.lower(text)) <==> Sql.HasPart(h.duckLower(s), h.lower(text))))
    {
      TermAgrees(h, Term(negated, TextHas(text)), env);
      TextMeaning(h, env, text);
    }
    if Agrees(h, f) {
      forall s | s != "" ensures Sql.HasPart(h.lower(s), h.lower(text)) <==> Sql.HasPart(h.duckLower(s), h.lower(text)) {
        SayingServed(s);
        assert AgreeOn(h, f, Saying(s));
      }
    }
  }

  function Saying(s: string): Sql.Env {
    Sql.Env(Bare(0).(msg := s), "shop", 0, 0, 0)
  }

  lemma SayingServed(s: string)
    ensures Served(Saying(s)) && Saying(s).row.msg == s
  {
  }
}
