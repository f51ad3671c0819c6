/**
 The part of DuckDB's SQL that filters compile to: expressions, their three-valued meaning over
 one row of the events view, and their text with its string literals.
 */
module Sql {
  import opened Prelude
  import opened Rows
  import D = Doubles

  type Op = D.Op

  datatype Column = Event | Ns | User | Anon | Tenant | Country | Request | Value | Msg | Tags | Data | Ts | Date

  datatype Val =
    | Null
    | Bool(b: bool)
    | Str(s: string)
    | Num(x: D.Double)
    | Time(t: int)
    | Day(d: int)
    | List(items: seq<string>)
    | Object(fields: map<string, Json>)

  datatype Expr =
    | Col(c: Column)
    | Text(s: string)
    | Number(x: D.Double)
    | Timestamp(t: int)
    | DateLit(d: int)
    | True
    | Now
    | Compare(op: Op, left: Expr, right: Expr)
    | In(e: Expr, values: seq<string>)
    | And(left: Expr, right: Expr)
    | NotTrue(e: Expr)
    | StartsWith(e: Expr, prefix: string)
    | ContainsLower(e: Expr, part: string)
    | HasAny(e: Expr, values: seq<string>)
    | AnyStartsWith(e: Expr, prefix: string)
    | JsonText(e: Expr, path: string)
    | TryDouble(e: Expr)
    | MinusSeconds(e: Expr, seconds: int)
    | CastDate(e: Expr)
    | MinusDay(e: Expr)

  /**
   What the daemon and the database take from their runtimes: lower-casing, reading a text as a double,
   and, where JSON is written as text, how the daemon writes an array or object, and the database one of
   these or a number.
   */
  datatype Host = Host(
    lower: string -> string,
    duckLower: string -> string,
    toNumber: string -> Option<D.Double>,
    duckNumber: string -> Option<D.Double>,
    goJson: Json -> string,
    duckJson: Json -> string,
    duckDigits: string -> string)

  /** One row of the view with the partition it comes from, the clock and the session time zone. */
  datatype Env = Env(row: Row, ns: string, date: int, now: int, zone: int)

  // ---------------------------------------------------------------- meaning

  /** An empty optional column is stored as NULL. */
  function Optional(s: string): Val {
    if s == "" then Null else Str(s)
  }

  function Cell(env: Env, c: Column): Val {
    match c
    case Event => Str(env.row.event)
    case Ns => Str(env.ns)
    case User => Optional(env.row.userID)
    case Anon => Optional(env.row.anonID)
    case Tenant => Optional(env.row.tenantID)
    case Country => Optional(env.row.country)
    case Request => Optional(env.row.requestID)
    case Value => if env.row.value.Some? then Num(D.Finite(env.row.value.value)) else Null
    case Msg => Optional(env.row.msg)
    case Tags => List(env.row.tags)
    case Data => if env.row.data.Some? then Object(env.row.data.value) else Null
    case Ts => Time(env.row.ts)
    case Date => Day(env.date)
  }

  function Ordered(op: Op, l: int, r: int): bool {
    match op
    case Eq => l == r
    case Gt => l > r
    case Ge => l >= r
    case Lt => l < r
    case Le => l <= r
  }

  /** A comparison with NULL is NULL. */
  function CompareVal(op: Op, l: Val, r: Val): Val {
    match (l, r)
    case (Num(a), Num(b)) => Bool(D.Ordered(op, a, b))
    case (Time(a), Time(b)) => Bool(Ordered(op, a, b))
    case (Day(a), Day(b)) => Bool(Ordered(op, a, b))
    case (Str(a), Str(b)) => if op == D.Eq then Bool(a == b) else Null
    case _ => Null
  }

  /** Kleene conjunction: FALSE wins over NULL, NULL over TRUE. */
  function AndVal(l: Val, r: Val): Val {
    if l == Bool(false) || r == Bool(false) then Bool(false)
    else if l == Bool(true) && r == Bool(true) then Bool(true)
    else Null
  }

  predicate IsPrefix(p: string, s: string) {
    |p| <= |s| && s[..|p|] == p
  }

  predicate HasPart(s: string, part: string) {
    exists i :: 0 <= i <= |s| - |part| && s[i..][..|part|] == part
  }

  lemma PrefixIff(s: string, part: string)
    ensures IsPrefix(part, s) <==> exists rest :: s == part + rest
  {
    if IsPrefix(part, s) { assert s == part + s[|part|..]; }
  }

  lemma Inside(before: string, part: string, after: string)
    ensures HasPart(before + part + after, part)
  {
    var s := before + part + after;
    assert s[|before|..] == part + after;
    assert s[|before|..][..|part|] == part;
  }

  /** What starting with a text and containing one mean. */
  lemma PartsMean(s: string, part: string)
    ensures IsPrefix(part, s) <==> exists rest :: s == part + rest
    ensures HasPart(s, part) <==> exists before, after :: s == before + part + after
  {
    PrefixIff(s, part);
    if HasPart(s, part) {
      var i :| 0 <= i <= |s| - |part| && s[i..][..|part|] == part;
      assert s == s[..i] + part + s[i..][|part|..];
    }
    hide HasPart, IsPrefix;
    if before, after :| s == before + part + after { Inside(before, part, after); }
  }

  /** The parts of a dotted path. */
  function SplitDots(path: string): (parts: seq<string>)
    ensures |parts| > 0
  {
    if path == "" then [""]
    else
      var rest := SplitDots(path[1..]);
      if path[0] == '.' then [""] + rest else [[path[0]] + rest[0]] + rest[1..]
  }

  function Walk(fields: map<string, Json>, parts: seq<string>): Option<Json>
    requires |parts| > 0
    decreases |parts|
  {
    if parts[0] !in fields then None
    else if |parts| == 1 then Some(fields[parts[0]])
    else if fields[parts[0]].JObject? then Walk(fields[parts[0]].fields, parts[1..])
    else None
  }

  /** json_extract_string: NULL for a missing key and for a JSON null, else the value as text. */
  function ExtractText(h: Host, fields: map<string, Json>, path: string): Val {
    if !IsPrefix("$.", path) then Null
    else
      var found := Walk(fields, SplitDots(path[2..]));
      if found.None? then Null
      else
        if found.value.JNull? then Null else Str(DuckText(h, found.value))
  }

  /** How the database writes a JSON value as text. */
  function DuckText(h: Host, value: Json): string {
    match value
    case JString(s) => s
    case JNumber(text) => h.duckDigits(text)
    case JBool(b) => if b then "true" else "false"
    case _ => h.duckJson(value)
  }

  function Eval(h: Host, env: Env, e: Expr): Val {
    match e
    case Col(c) => Cell(env, c)
    case Text(s) => Str(s)
    case Number(x) => Num(x)
    case Timestamp(t) => Time(t)
    case DateLit(d) => Day(d)
    case True => Bool(true)
    case Now => Time(env.now)
    case Compare(op, l, r) => CompareVal(op, Eval(h, env, l), Eval(h, env, r))
    case In(x, values) =>
      var v := Eval(h, env, x);
      if v.Str? then Bool(v.s in values) else Null
    case And(l, r) => AndVal(Eval(h, env, l), Eval(h, env, r))
    case NotTrue(x) => Bool(Eval(h, env, x) != Bool(true))
    case StartsWith(x, p) =>
      var v := Eval(h, env, x);
      if v.Str? then Bool(IsPrefix(p, v.s)) else Null
    case ContainsLower(x, p) =>
      var v := Eval(h, env, x);
      if v.Str? then Bool(HasPart(h.duckLower(v.s), p)) else Null
    case HasAny(x, values) =>
      var v := Eval(h, env, x);
      if v.List? then Bool(exists t :: t in values && t in v.items) else Null
    case AnyStartsWith(x, p) =>
      var v := Eval(h, env, x);
      if v.List? then Bool(exists t :: t in v.items && IsPrefix(p, t)) else Null
    case JsonText(x, path) =>
      var v := Eval(h, env, x);
      if v.Object? then ExtractText(h, v.fields, path) else Null
    case TryDouble(x) =>
      var v := Eval(h, env, x);
      if v.Str? && h.duckNumber(v.s).Some? then Num(h.duckNumber(v.s).value) else Null
    case MinusSeconds(x, n) =>
      var v := Eval(h, env, x);
      if v.Time? then Time(v.t - n * SECOND) else Null
    case CastDate(x) =>
      var v := Eval(h, env, x);
      if v.Time? then Day(DateOf(v.t + env.zone)) else Null
    case MinusDay(x) =>
      var v := Eval(h, env, x);
      if v.Day? then Day(v.d - 1) else Null
  }

  // ---------------------------------------------------------------- text

  /** A stretch of SQL of the compiler's own, or a string literal. */
  datatype Piece = Code(text: string) | Literal(text: string)

  /** Doubles every quote. */
  function Escape(s: string): string {
    if s == "" then "" else (if s[0] == '\'' then "''" else [s[0]]) + Escape(s[1..])
  }

  /** A DuckDB string literal. */
  function Quote(s: string): string {
    "'" + Escape(s) + "'"
  }

  function Render(pieces: seq<Piece>): string {
    if pieces == [] then ""
    else (match pieces[0] case Code(t) => t case Literal(t) => Quote(t)) + Render(pieces[1..])
  }

  datatype Scan = Scan(value: string, rest: string)

  /** Reads the inside of a literal up to its closing quote; None when it never closes. */
  function Unquote(text: string): Option<Scan> {
    if text == "" then None
    else if text[0] == '\'' then
      if |text| > 1 && text[1] == '\'' then
        var more := Unquote(text[2..]);
        if more.None? then None else Some(Scan("'" + more.value.value, more.value.rest))
      else Some(Scan("", text[1..]))
    else
      var more := Unquote(text[1..]);
      if more.None? then None else Some(Scan([text[0]] + more.value.value, more.value.rest))
  }

  /** Code up to the next quote. */
  function CodeEnd(text: string): (n: nat)
    ensures n <= |text| && '\'' !in text[..n] && (n < |text| ==> text[n] == '\'')
  {
    if text == "" || text[0] == '\'' then 0 else 1 + CodeEnd(text[1..])
  }

  /** How the database splits a text into code and literals. */
  function Lex(text: string): Option<seq<Piece>>
    decreases |text|
  {
    if text == "" then Some([])
    else if text[0] == '\'' then
      var scan := Unquote(text[1..]);
      if scan.None? || |scan.value.rest| >= |text| then None
      else
        var more := Lex(scan.value.rest);
        if more.None? then None else Some([Literal(scan.value.value)] + more.value)
    else
      var n := CodeEnd(text);
      var more := Lex(text[n..]);
      if more.None? then None else Some([Code(text[..n])] + more.value)
  }

  /** Reading a quoted string back yields it and leaves the continuation, whatever it holds. */
  lemma {:induction false} QuoteReadsBack(s: string, rest: string)
    requires rest == "" || rest[0] != '\''
    ensures Unquote(Escape(s) + "'" + rest) == Some(Scan(s, rest))
  {
    var text := Escape(s) + "'" + rest;
    if s == "" {
      assert text == "'" + rest;
      assert text[1..] == rest;
    } else {
      QuoteReadsBack(s[1..], rest);
      EscapeHead(s, rest);
      UnquoteHead(s[0], Escape(s[1..]) + "'" + rest);
      assert s == [s[0]] + s[1..];
    }
  }

  lemma EscapeHead(s: string, rest: string)
    requires s != ""
    ensures Escape(s) + "'" + rest == (if s[0] == '\'' then "''" else [s[0]]) + (Escape(s[1..]) + "'" + rest)
  {
  }

  /** One escaped character in front of a literal's tail. */
  lemma UnquoteHead(c: char, tail: string)
    requires Unquote(tail).Some?
    ensures
      var r := Unquote(tail).value;
      Unquote((if c == '\'' then "''" else [c]) + tail) == Some(Scan([c] + r.value, r.rest))
  {
    if c == '\'' {
      assert ("''" + tail)[2..] == tail;
    } else {
      assert ([c] + tail)[1..] == tail;
    }
  }

  /** Quote-free, nonempty code; no two codes and no two literals in a row. */
  ghost predicate Alternating(pieces: seq<Piece>) {
    && (forall i :: 0 <= i < |pieces| && pieces[i].Code? ==> pieces[i].text != "" && '\'' !in pieces[i].text)
    && (forall i :: 0 < i < |pieces| ==> pieces[i].Code? != pieces[i - 1].Code?)
  }

  lemma RenderHead(pieces: seq<Piece>)
    requires Alternating(pieces) && pieces != []
    ensures Render(pieces) != ""
    ensures pieces[0].Code? ==> Render(pieces)[0] != '\''
  {
    if pieces[0].Code? {
      assert pieces[0].text[0] in pieces[0].text;
    }
  }

  lemma LexLiteral(s: string, rest: string)
    requires rest == "" || rest[0] != '\''
    requires Lex(rest).Some?
    ensures Lex(Quote(s) + rest) == Some([Literal(s)] + Lex(rest).value)
  {
    hide Lex;
    QuoteReadsBack(s, rest);
    var text := Quote(s) + rest;
    assert text[1..] == Escape(s) + "'" + rest;
    LexUnfold(text);
  }

  lemma LexCode(code: string, rest: string)
    requires code != "" && '\'' !in code && (rest == "" || rest[0] == '\'')
    requires Lex(rest).Some?
    ensures Lex(code + rest) == Some([Code(code)] + Lex(rest).value)
  {
    hide Lex;
    CodeStops(code, rest);
    assert code[0] in code && (code + rest)[0] == code[0];
    LexUnfold(code + rest);
  }

  lemma LexUnfold(text: string)
    requires text != ""
    ensures text[0] == '\'' ==>
      var scan := Unquote(text[1..]);
      (scan.Some? && |scan.value.rest| < |text| && Lex(scan.value.rest).Some? ==> Lex(text) == Some([Literal(scan.value.value)] + Lex(scan.value.rest).value))
    ensures text[0] != '\'' && Lex(text[CodeEnd(text)..]).Some? ==>
      Lex(text) == Some([Code(text[..CodeEnd(text)])] + Lex(text[CodeEnd(text)..]).value)
  {
  }

  /** The database reads exactly the pieces that were written: literals cannot turn into code. */
  lemma {:induction false} LexReadsBack(pieces: seq<Piece>)
    requires Alternating(pieces)
    ensures Lex(Render(pieces)) == Some(pieces)
  {
    if pieces == [] {
    } else {
      hide Lex, Quote;
      LexReadsBack(pieces[1..]);
      if pieces[1..] != [] { RenderHead(pieces[1..]); if pieces[1].Literal? { RenderLiteral(pieces[1..]); } }
      assert pieces == [pieces[0]] + pieces[1..];
      match pieces[0]
      case Literal(s) => LexLiteral(s, Render(pieces[1..]));
      case Code(s) => LexCode(s, Render(pieces[1..]));
    }
  }

  lemma RenderLiteral(pieces: seq<Piece>)
    requires pieces != [] && pieces[0].Literal?
    ensures Render(pieces) != "" && Render(pieces)[0] == '\''
  {
  }

  lemma {:induction false} CodeStops(code: string, rest: string)
    requires '\'' !in code && (rest == "" || rest[0] == '\'')
    ensures CodeEnd(code + rest) == |code|
    ensures (code + rest)[..|code|] == code && (code + rest)[|code|..] == rest
  {
    if code == "" {
      assert code + rest == rest;
    } else {
      assert code[0] in code;
      CodeStops(code[1..], rest);
      assert (code + rest)[1..] == code[1..] + rest;
    }
  }

  // ---------------------------------------------------------------- printing expressions

  /** How the daemon writes numbers, seconds, instants and days. */
  datatype Printer = Printer(
    number: real -> string,
    whole: int -> string,
    instant: int -> string,
    day: int -> string)

  /** Finite numbers are printed as numeric literals; no printed number holds a quote. */
  ghost predicate Plain(p: Printer) {
    && (forall n :: p.number(n) != "" && '\'' !in p.number(n) && D.NumericLiteral(p.number(n)))
    && (forall n :: p.whole(n) != "" && '\'' !in p.whole(n))
  }

  function NumberText(p: Printer, x: D.Double): string {
    if x.Finite? then p.number(x.n) else D.WithoutDigits(x)
  }

  /** The numbers of an expression, left to right. */
  function NumbersOf(e: Expr): seq<D.Double> {
    match e
    case Number(x) => [x]
    case Compare(_, l, r) => NumbersOf(l) + NumbersOf(r)
    case And(l, r) => NumbersOf(l) + NumbersOf(r)
    case In(x, _) => NumbersOf(x)
    case NotTrue(x) => NumbersOf(x)
    case StartsWith(x, _) => NumbersOf(x)
    case ContainsLower(x, _) => NumbersOf(x)
    case HasAny(x, _) => NumbersOf(x)
    case AnyStartsWith(x, _) => NumbersOf(x)
    case JsonText(x, _) => NumbersOf(x)
    case TryDouble(x) => NumbersOf(x)
    case MinusSeconds(x, _) => NumbersOf(x)
    case CastDate(x) => NumbersOf(x)
    case MinusDay(x) => NumbersOf(x)
    case _ => []
  }

  /** The database runs the text: what stands for a number is a numeric literal and not a name. */
  predicate Runs(p: Printer, e: Expr) {
    forall x :: x in NumbersOf(e) ==> D.NumericLiteral(NumberText(p, x))
  }

  lemma LiteralIffFinite(p: Printer, x: D.Double)
    requires Plain(p)
    ensures D.NumericLiteral(NumberText(p, x)) <==> x.Finite?
    ensures NumberText(p, x) != "" && '\'' !in NumberText(p, x)
  {
    hide D.NumericLiteral;
    if !x.Finite? { D.NoLiteral(x); }
  }

  /** Puts pieces after each other; adjacent code is one stretch of code. */
  function Join(a: seq<Piece>, b: seq<Piece>): seq<Piece> {
    if a == [] then b
    else if b == [] then a
    else if a[|a| - 1].Code? && b[0].Code? then a[..|a| - 1] + [Code(a[|a| - 1].text + b[0].text)] + b[1..]
    else a + b
  }

  function Wrap(before: string, inner: seq<Piece>, after: seq<Piece>): seq<Piece> {
    Join(Join([Code(before)], inner), after)
  }

  function ColumnName(c: Column): string {
    match c
    case Event => "event"
    case Ns => "ns"
    case User => "user_id"
    case Anon => "anon_id"
    case Tenant => "tenant_id"
    case Country => "country"
    case Request => "request_id"
    case Value => "value"
    case Msg => "msg"
    case Tags => "tags"
    case Data => "data"
    case Ts => "ts"
    case Date => "date"
  }

  function OpText(op: Op): string {
    match op
    case Eq => " = "
    case Gt => " > "
    case Ge => " >= "
    case Lt => " < "
    case Le => " <= "
  }

  /** Literals separated by commas. */
  function Commas(values: seq<string>): seq<Piece> {
    if values == [] then []
    else if |values| == 1 then [Literal(values[0])]
    else [Literal(values[0]), Code(", ")] + Commas(values[1..])
  }

  function Listed(before: string, values: seq<string>, after: string): seq<Piece> {
    Join(Join([Code(before)], Commas(values)), [Code(after)])
  }

  function Show(p: Printer, e: Expr): seq<Piece> {
    match e
    case Col(c) => [Code(ColumnName(c))]
    case Text(s) => [Literal(s)]
    case Number(x) => [Code(NumberText(p, x))]
    case Timestamp(t) => [Code("TIMESTAMPTZ "), Literal(p.instant(t))]
    case DateLit(d) => [Code("DATE "), Literal(p.day(d))]
    case True => [Code("true")]
    case Now => [Code("now()")]
    case Compare(op, l, r) => Join(Join(Show(p, l), [Code(OpText(op))]), Show(p, r))
    case In(x, values) => Join(Show(p, x), Listed(" IN (", values, ")"))
    case And(l, r) => Join(Join(Show(p, l), [Code(" AND ")]), Show(p, r))
    case NotTrue(x) => Wrap("NOT coalesce(", Show(p, x), [Code(", false)")])
    case StartsWith(x, s) => Wrap("starts_with(", Show(p, x), [Code(", "), Literal(s), Code(")")])
    case ContainsLower(x, s) => Wrap("contains(lower(", Show(p, x), [Code("), "), Literal(s), Code(")")])
    case HasAny(x, values) => Wrap("list_has_any(", Show(p, x), Listed(", [", values, "])"))
    case AnyStartsWith(x, s) =>
      Wrap("len(list_filter(", Show(p, x), [Code(", lambda t: starts_with(t, "), Literal(s), Code("))) > 0")])
    case JsonText(x, path) => Wrap("json_extract_string(", Show(p, x), [Code(", "), Literal(path), Code(")")])
    case TryDouble(x) => Wrap("TRY_CAST(", Show(p, x), [Code(" AS DOUBLE)")])
    case MinusSeconds(x, n) => Join(Show(p, x), [Code(" - to_seconds(" + p.whole(n) + ")")])
    case CastDate(x) => Wrap("CAST(", Show(p, x), [Code(" AS DATE)")])
    case MinusDay(x) => Join(Show(p, x), [Code(" - 1")])
  }

  /** The string literals of an expression, left to right. */
  function LiteralsOf(p: Printer, e: Expr): seq<string> {
    match e
    case Col(_) => []
    case Text(s) => [s]
    case Number(_) => []
    case Timestamp(t) => [p.instant(t)]
    case DateLit(d) => [p.day(d)]
    case True => []
    case Now => []
    case Compare(_, l, r) => LiteralsOf(p, l) + LiteralsOf(p, r)
    case In(x, values) => LiteralsOf(p, x) + values
    case And(l, r) => LiteralsOf(p, l) + LiteralsOf(p, r)
    case NotTrue(x) => LiteralsOf(p, x)
    case StartsWith(x, s) => LiteralsOf(p, x) + [s]
    case ContainsLower(x, s) => LiteralsOf(p, x) + [s]
    case HasAny(x, values) => LiteralsOf(p, x) + values
    case AnyStartsWith(x, s) => LiteralsOf(p, x) + [s]
    case JsonText(x, path) => LiteralsOf(p, x) + [path]
    case TryDouble(x) => LiteralsOf(p, x)
    case MinusSeconds(x, _) => LiteralsOf(p, x)
    case CastDate(x) => LiteralsOf(p, x)
    case MinusDay(x) => LiteralsOf(p, x)
  }

  function LiteralPieces(pieces: seq<Piece>): seq<string> {
    if pieces == [] then []
    else (if pieces[0].Literal? then [pieces[0].text] else []) + LiteralPieces(pieces[1..])
  }

  lemma {:induction false} LiteralPiecesAppend(a: seq<Piece>, b: seq<Piece>)
    ensures LiteralPieces(a + b) == LiteralPieces(a) + LiteralPieces(b)
  {
    if a == [] {
      assert a + b == b;
    } else {
      assert (a + b)[1..] == a[1..] + b;
      LiteralPiecesAppend(a[1..], b);
    }
  }

  /** Joining keeps the alternation and the literals, unless two literals would meet. */
  lemma JoinOk(a: seq<Piece>, b: seq<Piece>)
    requires Alternating(a) && Alternating(b)
    requires a != [] && b != [] ==> a[|a| - 1].Code? || b[0].Code?
    ensures Alternating(Join(a, b))
    ensures LiteralPieces(Join(a, b)) == LiteralPieces(a) + LiteralPieces(b)
    ensures a != [] || b != [] ==> Join(a, b) != []
  {
    hide LiteralPieces;
    if a != [] && b != [] && a[|a| - 1].Code? && b[0].Code? {
      JoinCodes(a, b);
    } else {
      LiteralPiecesAppend(a, b);
      NoPieces();
    }
  }

  lemma NoPieces()
    ensures LiteralPieces([]) == []
  {
  }

  lemma JoinCodes(a: seq<Piece>, b: seq<Piece>)
    requires a != [] && b != [] && a[|a| - 1].Code? && b[0].Code?
    requires Alternating(a) && Alternating(b)
    ensures Alternating(Join(a, b)) && Join(a, b) != []
    ensures LiteralPieces(Join(a, b)) == LiteralPieces(a) + LiteralPieces(b)
  {
    hide LiteralPieces;
    var x, y := a[..|a| - 1], b[1..];
    var m := Code(a[|a| - 1].text + b[0].text);
    assert a == x + [a[|a| - 1]] && b == [b[0]] + y;
    assert Join(a, b) == x + [m] + y;
    JoinLiterals(x, a[|a| - 1], b[0], m, y);
    CodesAlternate(a, b, m);
  }

  lemma CodesAlternate(a: seq<Piece>, b: seq<Piece>, m: Piece)
    requires a != [] && b != [] && a[|a| - 1].Code? && b[0].Code? && m.Code?
    requires m.text == a[|a| - 1].text + b[0].text
    requires Alternating(a) && Alternating(b)
    ensures Alternating(a[..|a| - 1] + [m] + b[1..])
  {
  }

  lemma JoinLiterals(x: seq<Piece>, last: Piece, first: Piece, m: Piece, y: seq<Piece>)
    requires last.Code? && first.Code? && m.Code?
    ensures LiteralPieces(x + [m] + y) == LiteralPieces(x + [last]) + LiteralPieces([first] + y)
  {
    LiteralPiecesAppend(x + [m], y);
    LiteralPiecesAppend(x, [m]);
    LiteralPiecesAppend(x, [last]);
    LiteralPiecesAppend([first], y);
  }

  lemma CommaAlternates(value: string, rest: seq<Piece>)
    requires Alternating(rest) && rest != [] && rest[0].Literal?
    ensures Alternating([Literal(value), Code(", ")] + rest)
  {
    var all := [Literal(value), Code(", ")] + rest;
    assert ", "[0] == ',' && ", "[1] == ' ';
    forall i | 0 <= i < |all|
      ensures all[i].Code? ==> all[i].text != "" && '\'' !in all[i].text
      ensures 0 < i ==> all[i].Code? != all[i - 1].Code?
    {
      assert i >= 2 ==> all[i] == rest[i - 2];
      assert i >= 3 ==> all[i - 1] == rest[i - 3];
    }
  }

  lemma CommaFirst(value: string, rest: seq<Piece>)
    requires Alternating(rest) && rest != [] && rest[0].Literal?
    ensures
      var all := [Literal(value), Code(", ")] + rest;
      Alternating(all) && LiteralPieces(all) == [value] + LiteralPieces(rest)
  {
    CommaAlternates(value, rest);
    hide Alternating;
    LiteralPiecesAppend([Literal(value), Code(", ")], rest);
    assert [Literal(value), Code(", ")][1..] == [Code(", ")];
    assert [Code(", ")][1..] == [];
    assert LiteralPieces([Code(", ")]) == [];
  }

  lemma {:induction false} CommasOk(values: seq<string>)
    ensures Alternating(Commas(values)) && LiteralPieces(Commas(values)) == values
    ensures values == [] ==> Commas(values) == []
  {
    if |values| == 1 {
      assert values == [values[0]];
    } else if |values| > 1 {
      CommasOk(values[1..]);
      var rest := Commas(values[1..]);
      assert rest != [] && rest[0].Literal?;
      assert values == [values[0]] + values[1..];
      CommaFirst(values[0], rest);
    }
  }

  lemma OneCode(text: string)
    requires text != "" && '\'' !in text
    ensures Alternating([Code(text)]) && LiteralPieces([Code(text)]) == []
  {
  }

  lemma CodeLiteralCode(before: string, s: string, after: string)
    requires before != "" && '\'' !in before && after != "" && '\'' !in after
    ensures Alternating([Code(before), Literal(s), Code(after)])
    ensures LiteralPieces([Code(before), Literal(s), Code(after)]) == [s]
  {
    LiteralPiecesAppend([Code(before)], [Literal(s), Code(after)]);
    assert [Code(before), Literal(s), Code(after)] == [Code(before)] + [Literal(s), Code(after)];
    LiteralPiecesAppend([Literal(s)], [Code(after)]);
    assert [Literal(s), Code(after)] == [Literal(s)] + [Code(after)];
  }

  lemma ListedOk(before: string, values: seq<string>, after: string)
    requires before != "" && '\'' !in before && after != "" && '\'' !in after
    ensures Alternating(Listed(before, values, after)) && LiteralPieces(Listed(before, values, after)) == values
    ensures Listed(before, values, after) != [] && Listed(before, values, after)[0].Code?
  {
    hide LiteralPieces, Alternating;
    OneCode(before);
    OneCode(after);
    CommasOk(values);
    JoinOk([Code(before)], Commas(values));
    JoinOk(Join([Code(before)], Commas(values)), [Code(after)]);
  }

  /** A sub-expression between code of the compiler. */
  lemma WrapOk(before: string, inner: seq<Piece>, after: seq<Piece>)
    requires before != "" && '\'' !in before && Alternating(inner) && Alternating(after) && after != [] && after[0].Code?
    ensures Alternating(Wrap(before, inner, after))
    ensures LiteralPieces(Wrap(before, inner, after)) == LiteralPieces(inner) + LiteralPieces(after)
    ensures Wrap(before, inner, after) != []
  {
    hide LiteralPieces, Alternating;
    OneCode(before);
    JoinOk([Code(before)], inner);
    JoinOk(Join([Code(before)], inner), after);
  }

  lemma EndsInCode(left: seq<Piece>, code: string)
    ensures var j := Join(left, [Code(code)]); j != [] && j[|j| - 1].Code?
  {
  }

  lemma JoinCode(left: seq<Piece>, code: string)
    requires code != "" && '\'' !in code && Alternating(left)
    ensures Alternating(Join(left, [Code(code)]))
    ensures LiteralPieces(Join(left, [Code(code)])) == LiteralPieces(left)
  {
    OneCode(code);
    JoinOk(left, [Code(code)]);
  }

  lemma BetweenOk(left: seq<Piece>, code: string, right: seq<Piece>)
    requires code != "" && '\'' !in code && Alternating(left) && Alternating(right)
    ensures Alternating(Join(Join(left, [Code(code)]), right))
    ensures LiteralPieces(Join(Join(left, [Code(code)]), right)) == LiteralPieces(left) + LiteralPieces(right)
    ensures Join(Join(left, [Code(code)]), right) != []
  {
    JoinCode(left, code);
    hide LiteralPieces, Alternating, Join;
    EndsInCode(left, code);
    JoinOk(Join(left, [Code(code)]), right);
  }

  lemma ColumnPlain(c: Column)
    ensures ColumnName(c) != "" && '\'' !in ColumnName(c)
  {
  }

  lemma OpPlain(op: Op)
    ensures OpText(op) != "" && '\'' !in OpText(op)
  {
  }

  lemma PrefixLiteral(before: string, s: string)
    requires before != "" && '\'' !in before
    ensures Alternating([Code(before), Literal(s)]) && LiteralPieces([Code(before), Literal(s)]) == [s]
  {
    LiteralPiecesAppend([Code(before)], [Literal(s)]);
    assert [Code(before), Literal(s)] == [Code(before)] + [Literal(s)];
  }

  /** An expression without parts of its own. */
  predicate Leaf(e: Expr) {
    e.Col? || e.Text? || e.Number? || e.Timestamp? || e.DateLit? || e.True? || e.Now?
  }

  lemma ShowLeaf(p: Printer, e: Expr)
    requires Plain(p) && Leaf(e)
    ensures Alternating(Show(p, e)) && Show(p, e) != [] && LiteralPieces(Show(p, e)) == LiteralsOf(p, e)
  {
    hide Alternating, LiteralPieces, Join, Wrap, Listed, OpText, ColumnName, Plain;
    match e
    case Col(c) => ColumnPlain(c); OneCode(ColumnName(c));
    case Text(s) => OneLiteral(s);
    case Number(x) => LiteralIffFinite(p, x); OneCode(NumberText(p, x));
    case Timestamp(t) => PrefixLiteral("TIMESTAMPTZ ", p.instant(t));
    case DateLit(d) => PrefixLiteral("DATE ", p.day(d));
    case True => OneCode("true");
    case Now => OneCode("now()");
  }

  lemma ShowBetween(p: Printer, e: Expr)
    requires Plain(p) && (e.Compare? || e.And?)
    requires Alternating(Show(p, e.left)) && Show(p, e.left) != [] && LiteralPieces(Show(p, e.left)) == LiteralsOf(p, e.left)
    requires Alternating(Show(p, e.right)) && Show(p, e.right) != [] && LiteralPieces(Show(p, e.right)) == LiteralsOf(p, e.right)
    ensures Alternating(Show(p, e)) && Show(p, e) != [] && LiteralPieces(Show(p, e)) == LiteralsOf(p, e)
  {
    hide Alternating, LiteralPieces, Join, OpText, Plain;
    if e.Compare? {
      OpPlain(e.op);
      BetweenOk(Show(p, e.left), OpText(e.op), Show(p, e.right));
    } else {
      BetweenOk(Show(p, e.left), " AND ", Show(p, e.right));
    }
  }

  /** A function around an expression, without a literal of its own. */
  predicate IsCall(e: Expr) {
    e.NotTrue? || e.TryDouble? || e.CastDate? || e.MinusSeconds? || e.MinusDay?
  }

  lemma {:induction false} ShowCalls(p: Printer, e: Expr)
    requires Plain(p) && IsCall(e)
    ensures Alternating(Show(p, e)) && Show(p, e) != [] && LiteralPieces(Show(p, e)) == LiteralsOf(p, e)
    decreases e, 0
  {
    hide Alternating, LiteralPieces, Join, Wrap, Listed, Plain;
    match e
    case NotTrue(x) => ShowCall(p, "NOT coalesce(", x, ", false)");
    case TryDouble(x) => ShowCall(p, "TRY_CAST(", x, " AS DOUBLE)");
    case CastDate(x) => ShowCall(p, "CAST(", x, " AS DATE)");
    case MinusSeconds(x, n) => NumberPlain(p, 0.0, n); ShowSuffix(p, x, " - to_seconds(" + p.whole(n) + ")");
    case MinusDay(x) => ShowSuffix(p, x, " - 1");
  }

  lemma {:induction false} ShowLists(p: Printer, e: Expr)
    requires Plain(p) && (e.In? || e.HasAny?)
    ensures Alternating(Show(p, e)) && Show(p, e) != [] && LiteralPieces(Show(p, e)) == LiteralsOf(p, e)
    decreases e, 0
  {
    hide Alternating, LiteralPieces, Join, Wrap, Listed, Plain;
    match e
    case In(x, values) => ShowList(p, "", x, " IN (", values, ")");
    case HasAny(x, values) => ShowList(p, "list_has_any(", x, ", [", values, "])");
  }

  predicate HasLiteral(e: Expr) {
    e.StartsWith? || e.ContainsLower? || e.AnyStartsWith? || e.JsonText?
  }

  lemma {:induction false} ShowLiterals(p: Printer, e: Expr)
    requires Plain(p) && HasLiteral(e)
    ensures Alternating(Show(p, e)) && Show(p, e) != [] && LiteralPieces(Show(p, e)) == LiteralsOf(p, e)
    decreases e, 0
  {
    hide Alternating, LiteralPieces, Join, Wrap, Listed, Plain;
    match e
    case StartsWith(x, s) => ShowLiteralCall(p, "starts_with(", x, ", ", s, ")");
    case ContainsLower(x, s) => ShowLiteralCall(p, "contains(lower(", x, "), ", s, ")");
    case AnyStartsWith(x, s) => ShowLiteralCall(p, "len(list_filter(", x, ", lambda t: starts_with(t, ", s, "))) > 0");
    case JsonText(x, path) => ShowLiteralCall(p, "json_extract_string(", x, ", ", path, ")");
  }

  lemma {:induction false} ShowOk(p: Printer, e: Expr)
    requires Plain(p)
    ensures Alternating(Show(p, e)) && Show(p, e) != [] && LiteralPieces(Show(p, e)) == LiteralsOf(p, e)
    decreases e, 1
  {
    hide Alternating, LiteralPieces, Show, LiteralsOf, Plain;
    if Leaf(e) {
      ShowLeaf(p, e);
    } else if IsCall(e) {
      ShowCalls(p, e);
    } else if HasLiteral(e) {
      ShowLiterals(p, e);
    } else if e.In? || e.HasAny? {
      ShowLists(p, e);
    } else {
      ShowOk(p, e.left);
      ShowOk(p, e.right);
      ShowBetween(p, e);
    }
  }

  lemma {:induction false} ShowSuffix(p: Printer, x: Expr, code: string)
    requires Plain(p) && code != "" && '\'' !in code
    ensures
      var out := Join(Show(p, x), [Code(code)]);
      Alternating(out) && out != [] && LiteralPieces(out) == LiteralsOf(p, x)
    decreases x, 2
  {
    hide Alternating, LiteralPieces, Join, Plain;
    ShowOk(p, x);
    JoinCode(Show(p, x), code);
    CodeNotLost(Show(p, x), code);
  }

  lemma CodeNotLost(left: seq<Piece>, code: string)
    ensures Join(left, [Code(code)]) != []
  {
  }

  /** A value list after an expression, in brackets of its own or inside a call. */
  lemma {:induction false} ShowList(p: Printer, call: string, x: Expr, before: string, values: seq<string>, after: string)
    requires Plain(p) && '\'' !in call && before != "" && '\'' !in before && after != "" && '\'' !in after
    ensures
      var listed := Listed(before, values, after);
      var out := if call == "" then Join(Show(p, x), listed) else Wrap(call, Show(p, x), listed);
      Alternating(out) && out != [] && LiteralPieces(out) == LiteralsOf(p, x) + values
    decreases x, 2
  {
    hide Alternating, LiteralPieces, Join, Wrap, Listed, Plain;
    ShowOk(p, x);
    ListedOk(before, values, after);
    JoinOk(Show(p, x), Listed(before, values, after));
    if call != "" { WrapOk(call, Show(p, x), Listed(before, values, after)); }
  }

  lemma OneLiteral(s: string)
    ensures Alternating([Literal(s)]) && LiteralPieces([Literal(s)]) == [s]
  {
  }

  lemma NumberPlain(p: Printer, n: real, w: int)
    requires Plain(p)
    ensures p.number(n) != "" && '\'' !in p.number(n)
    ensures p.whole(w) != "" && '\'' !in p.whole(w)
  {
  }

  lemma {:induction false} ShowCall(p: Printer, before: string, x: Expr, after: string)
    requires Plain(p) && before != "" && '\'' !in before && after != "" && '\'' !in after
    ensures
      var out := Wrap(before, Show(p, x), [Code(after)]);
      Alternating(out) && out != [] && LiteralPieces(out) == LiteralsOf(p, x)
    decreases x, 2
  {
    hide Alternating, LiteralPieces, Wrap, Plain;
    ShowOk(p, x);
    OneCode(after);
    WrapOk(before, Show(p, x), [Code(after)]);
  }

  lemma {:induction false} ShowLiteralCall(p: Printer, before: string, x: Expr, middle: string, s: string, after: string)
    requires Plain(p) && before != "" && '\'' !in before && middle != "" && '\'' !in middle && after != "" && '\'' !in after
    ensures
      var out := Wrap(before, Show(p, x), [Code(middle), Literal(s), Code(after)]);
      Alternating(out) && out != [] && LiteralPieces(out) == LiteralsOf(p, x) + [s]
    decreases x, 2
  {
    hide Alternating, LiteralPieces, Wrap, Plain;
    ShowOk(p, x);
    CodeLiteralCode(middle, s, after);
    WrapOk(before, Show(p, x), [Code(middle), Literal(s), Code(after)]);
  }

  /** The text of an expression is read back as its own code and exactly its own literals. */
  lemma TextReadsBack(p: Printer, e: Expr)
    requires Plain(p)
    ensures Lex(Render(Show(p, e))) == Some(Show(p, e))
    ensures LiteralPieces(Show(p, e)) == LiteralsOf(p, e)
  {
    hide Lex, Render, Show, LiteralPieces, Alternating;
    ShowOk(p, e);
    LexReadsBack(Show(p, e));
  }
}
