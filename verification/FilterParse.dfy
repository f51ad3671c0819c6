/** From tokens to a filter: every accepted filter is one the two back ends agree on. */
module FilterParse {
  import opened Prelude
  import opened Filter
  import opened Trimming
  import Sql
  import D = Doubles

  /** A token of the filter text; `quoted` means the whole token was in quotes. */
  datatype Token = Token(text: string, quoted: bool, not_: bool)

  datatype Result<T> = Ok(value: T) | Err(error: string)

  /** Reading numbers, durations and moments; a date-only moment says so. */
  datatype Readers = Readers(
    number: string -> Option<D.Double>,
    duration: string -> Option<int>,
    moment: string -> Option<(int, bool)>)

  /** A parsed token: a condition, or one of the filter's time bounds. */
  datatype Parsed =
    | ATerm(term: Term)
    | ASince(since: int)
    | AFrom(from: int)
    | ATo(to: int)

  function IndexOf(text: string, part: string): (n: nat)
    ensures n <= |text|
    ensures n < |text| ==> Sql.IsPrefix(part, text[n..])
    decreases |text|
  {
    if text == "" || Sql.IsPrefix(part, text) then 0 else 1 + IndexOf(text[1..], part)
  }

  const OPERATORS: seq<string> := [">=", "<=", "=", ">", "<"]

  /** The earliest operator, the longest one where two start together. */
  function FirstOperator(text: string, ops: seq<string>): (first: Option<(nat, string)>)
    ensures first.Some? ==> first.value.0 + |first.value.1| <= |text| && first.value.1 in ops
  {
    if ops == [] then None
    else
      var before, op := FirstOperator(text, ops[..|ops| - 1]), ops[|ops| - 1];
      var at := IndexOf(text, op);
      if at < |text| && (before.None? || at < before.value.0 || (at == before.value.0 && |op| > |before.value.1|))
      then Some((at, op)) else before
  }

  function SplitCommas(text: string): (parts: seq<string>)
    ensures |parts| > 0
  {
    if text == "" then [""]
    else
      var rest := SplitCommas(text[1..]);
      if text[0] == ',' then [""] + rest else [[text[0]] + rest[0]] + rest[1..]
  }

  function Nonempty(parts: seq<string>): (out: seq<string>)
    ensures "" !in out
  {
    if parts == [] then []
    else
      var t := Trim(parts[0]);
      (if t == "" then [] else [t]) + Nonempty(parts[1..])
  }

  function ReadAlternatives(text: string): (r: Result<seq<string>>)
    ensures r.Ok? ==> Alternatives(r.value)
  {
    var out := Nonempty(SplitCommas(text));
    if out == [] then Err("missing value") else Ok(out)
  }

  function OpOf(op: string): Sql.Op {
    if op == ">=" then D.Ge else if op == "<=" then D.Le else if op == ">" then D.Gt else if op == "<" then D.Lt else D.Eq
  }

  function FieldOf(name: string): Option<Field> {
    if name == "ns" then Some(Ns)
    else if name == "user" then Some(User)
    else if name == "anon" then Some(Anon)
    else if name == "tenant" then Some(Tenant)
    else if name == "country" then Some(Country)
    else if name == "req" then Some(Request)
    else None
  }

  function With(values: Result<seq<string>>, negated: bool, cond: seq<string> -> Cond): Result<Parsed> {
    if values.Err? then Err(values.error) else Ok(ATerm(Term(negated, cond(values.value))))
  }

  function ParseComparison(r: Readers, name: string, op: string, value: string, negated: bool): Result<Parsed> {
    if name == "value" then
      var n := r.number(value);
      if n.None? then Err("value compares with a number") else Ok(ATerm(Term(negated, ValueIs(OpOf(op), n.value))))
    else if Sql.IsPrefix("data.", name) then
      var path := name[5..];
      if !PathOk(path) then Err("a data path is letters, digits and _ separated by dots")
      else if op == "=" then With(ReadAlternatives(value), negated, values => DataIs(path, values))
      else
        var n := r.number(value);
        if n.None? then Err("compares with a number") else Ok(ATerm(Term(negated, DataCompares(path, OpOf(op), n.value))))
    else
      var field := FieldOf(name);
      if field.None? then Err("unknown field")
      else if op != "=" then Err("only compares with =")
      else With(ReadAlternatives(value), negated, values => FieldIs(field.value, values))
  }

  /** A bare date as to= means the end of that day. */
  function ParseTime(r: Readers, name: string, op: string, value: string): Result<Parsed> {
    if op != "=" then Err("takes =")
    else if name == "since" then
      var d := r.duration(value);
      if d.None? || d.value <= 0 then Err("since takes a duration") else Ok(ASince(d.value))
    else
      var m := r.moment(value);
      if m.None? then Err("not a time")
      else if name == "from" then Ok(AFrom(m.value.0))
      else Ok(ATo(if m.value.1 then m.value.0 + 86_400 * 1_000_000_000 else m.value.0))
  }

  predicate IsTime(name: string) {
    name == "since" || name == "from" || name == "to"
  }

  function ParseWord(r: Readers, text: string, negated: bool): Result<Parsed> {
    if Sql.IsPrefix("#", text) then With(ReadAlternatives(text[1..]), negated, values => LabelIs(values))
    else
      var op, colon := FirstOperator(text, OPERATORS), IndexOf(text, ":");
      if op.Some? && (colon >= |text| || op.value.0 < colon) then
        var name, value := text[..op.value.0], text[op.value.0 + |op.value.1|..];
        if IsTime(name) then
          if negated then Err("a time range cannot be negated") else ParseTime(r, name, op.value.1, value)
        else ParseComparison(r, name, op.value.1, value, negated)
      else if colon < |text| then
        var key, value := text[..colon], text[colon + 1..];
        if key == "" then Err("a tag needs a key before the colon")
        else if value == "" then Ok(ATerm(Term(negated, TagKey(key))))
        else With(ReadAlternatives(value), negated, values => TagIs(key, values))
      else if text != "" && text[|text| - 1] == '*' then
        var prefix := text[..|text| - 1];
        if prefix == "" || '*' in prefix || ',' in prefix then Err("an event prefix is one word followed by *")
        else Ok(ATerm(Term(negated, EventPrefix(prefix))))
      else With(ReadAlternatives(text), negated, values => EventIs(values))
  }

  function ParseToken(r: Readers, token: Token): Result<Parsed> {
    if token.quoted then
      if Trim(token.text) == "" then Err("empty text search") else Ok(ATerm(Term(token.not_, TextHas(token.text))))
    else if Sql.IsPrefix("-", token.text) && |token.text| > 1 then ParseWord(r, token.text[1..], true)
    else ParseWord(r, token.text, false)
  }

  predicate PositiveEvent(t: Term) {
    !t.negated && (t.cond.EventIs? || t.cond.EventPrefix?)
  }

  function PositiveEvents(terms: seq<Term>): nat {
    if terms == [] then 0 else PositiveEvents(terms[..|terms| - 1]) + if PositiveEvent(terms[|terms| - 1]) then 1 else 0
  }

  /** Takes one parsed token into the filter. */
  function Add(f: Filter, parsed: Parsed): Result<Filter> {
    match parsed
    case ASince(since) => Ok(f.(since := since))
    case AFrom(from) => Ok(f.(from := Some(from)))
    case ATo(to) => Ok(f.(to := Some(to)))
    case ATerm(t) =>
      if PositiveEvent(t) && PositiveEvents(f.terms) > 0 then Err("an event has one name")
      else Ok(f.(terms := f.terms + [t]))
  }

  function ParseAll(r: Readers, tokens: seq<Token>): Result<Filter> {
    if tokens == [] then Ok(Filter([], 0, None, None))
    else
      var before, last := ParseAll(r, tokens[..|tokens| - 1]), ParseToken(r, tokens[|tokens| - 1]);
      if before.Err? then before else if last.Err? then Err(last.error) else Add(before.value, last.value)
  }

  /** The parsing loop with its count of positive event terms. */
  method ParseFilter(r: Readers, tokens: seq<Token>) returns (result: Result<Filter>)
    ensures result == ParseAll(r, tokens)
  {
    hide ParseToken;
    var f := Filter([], 0, None, None);
    var positive := 0;
    for i := 0 to |tokens|
      invariant ParseAll(r, tokens[..i]) == Ok(f)
      invariant positive == PositiveEvents(f.terms)
    {
      assert tokens[..i + 1][..i] == tokens[..i];
      var parsed := ParseToken(r, tokens[i]);
      if parsed.Err? {
        ErrorStays(r, tokens, i + 1);
        return Err(parsed.error);
      }
      if parsed.value.ATerm? && PositiveEvent(parsed.value.term) {
        positive := positive + 1;
        if positive > 1 {
          ErrorStays(r, tokens, i + 1);
          return Err("an event has one name");
        }
      }
      if parsed.value.ATerm? { AddedTerm(f, parsed.value.term); }
      f := Add(f, parsed.value).value;
    }
    assert tokens[..|tokens|] == tokens;
    result := Ok(f);
  }

  lemma AddedTerm(f: Filter, t: Term)
    ensures PositiveEvents(f.terms + [t]) == PositiveEvents(f.terms) + if PositiveEvent(t) then 1 else 0
  {
    assert (f.terms + [t])[..|f.terms|] == f.terms;
  }

  lemma {:induction false} ErrorStays(r: Readers, tokens: seq<Token>, i: nat)
    requires i <= |tokens| && ParseAll(r, tokens[..i]).Err?
    ensures ParseAll(r, tokens) == ParseAll(r, tokens[..i])
    decreases |tokens| - i
  {
    if i == |tokens| {
      assert tokens[..i] == tokens;
    } else {
      assert tokens[..i + 1][..i] == tokens[..i];
      ErrorStays(r, tokens, i + 1);
    }
  }

  /** What a parsed token guarantees. */
  ghost predicate ParsedWell(p: Result<Parsed>) {
    p.Ok? ==> (p.value.ATerm? ==> TermOk(p.value.term)) && (p.value.ASince? ==> p.value.since > 0)
  }

  lemma ComparisonOk(r: Readers, name: string, op: string, value: string, negated: bool)
    ensures ParsedWell(ParseComparison(r, name, op, value, negated))
  {
    hide PathOk, ReadAlternatives;
  }

  lemma TimeOk(r: Readers, name: string, op: string, value: string)
    ensures ParsedWell(ParseTime(r, name, op, value))
  {
  }

  lemma WordOk(r: Readers, text: string, negated: bool)
    ensures ParsedWell(ParseWord(r, text, negated))
  {
    hide ParseComparison, ParseTime, FirstOperator, IndexOf, ReadAlternatives, PathOk;
    var op := FirstOperator(text, OPERATORS);
    if op.Some? {
      var name, value := text[..op.value.0], text[op.value.0 + |op.value.1|..];
      ComparisonOk(r, name, op.value.1, value, negated);
      TimeOk(r, name, op.value.1, value);
    }
  }

  lemma TokenOk(r: Readers, token: Token)
    ensures ParsedWell(ParseToken(r, token))
  {
    hide ParseWord;
    if token.quoted {
    } else if Sql.IsPrefix("-", token.text) && |token.text| > 1 {
      WordOk(r, token.text[1..], true);
    } else {
      WordOk(r, token.text, false);
    }
  }

  /** Whatever ParseFilter accepts is well formed and names at most one event positively. */
  lemma {:induction false} ParsedOk(r: Readers, tokens: seq<Token>)
    requires ParseAll(r, tokens).Ok?
    ensures FilterOk(ParseAll(r, tokens).value) && PositiveEvents(ParseAll(r, tokens).value.terms) <= 1
  {
    if tokens == [] {
    } else {
      hide TermOk, ParseToken;
      var before, last := tokens[..|tokens| - 1], tokens[|tokens| - 1];
      ParsedOk(r, before);
      TokenOk(r, last);
      var f, p := ParseAll(r, before).value, ParseToken(r, last).value;
      if p.ATerm? { AddedTerm(f, p.term); }
    }
  }

  lemma {:induction false} IndexIsFirst(text: string, part: string, i: nat)
    requires i < |text| && Sql.IsPrefix(part, text[i..])
    ensures IndexOf(text, part) <= i
    decreases |text|
  {
    if i > 0 && !Sql.IsPrefix(part, text) {
      assert text[1..][i - 1..] == text[i..];
      IndexIsFirst(text[1..], part, i - 1);
    }
  }

  /** The operator found starts first, and no longer one starts there. */
  lemma {:induction false} FirstOperatorIsFirst(text: string, ops: seq<string>, op: string, i: nat)
    requires op in ops && i < |text| && Sql.IsPrefix(op, text[i..])
    ensures
      var first := FirstOperator(text, ops);
      first.Some? && (first.value.0 < i || (first.value.0 == i && |op| <= |first.value.1|))
  {
    hide IndexOf;
    var last := ops[|ops| - 1];
    if op in ops[..|ops| - 1] {
      FirstOperatorIsFirst(text, ops[..|ops| - 1], op, i);
    } else {
      assert op == last;
      IndexIsFirst(text, op, i);
    }
  }

  /** What is found is there. */
  lemma {:induction false} FoundThere(text: string, ops: seq<string>)
    ensures
      var first := FirstOperator(text, ops);
      first.Some? ==> first.value.0 < |text| && Sql.IsPrefix(first.value.1, text[first.value.0..])
  {
    if ops == [] {
    } else {
      FoundThere(text, ops[..|ops| - 1]);
    }
  }
}
