/** What a word of the filter language means: exactly when it is read as which condition or time bound. */
module FilterReading {
  import opened Prelude
  import opened Trimming
  import opened Filter
  import opened FilterParse
  import opened FilterWriting
  import Sql
  import D = Doubles

  // ---------------------------------------------------------------- alternatives

  /** The text is these parts with commas between them. */
  predicate IsList(parts: seq<string>, text: string) {
    parts != [] && Join(parts) == text && forall p :: p in parts ==> ',' !in p
  }

  /** The alternatives a text names: its parts without the white space around them, the blank ones left out; at least one. */
  ghost predicate Values(text: string, values: seq<string>) {
    values != [] && exists parts :: IsList(parts, text) && values == Nonempty(parts)
  }

  lemma {:induction false} ListSplits(parts: seq<string>, text: string)
    requires IsList(parts, text)
    ensures SplitCommas(text) == parts
  {
    hide SplitCommas;
    if |parts| == 1 {
      SplitOne(parts[0]);
      assert parts == [parts[0]];
    } else {
      var first, rest := parts[0], parts[1..];
      assert parts == [first] + rest;
      assert text == first + ("," + Join(rest));
      assert IsList(rest, Join(rest));
      ListSplits(rest, Join(rest));
      SplitMore(first, Join(rest));
    }
  }

  lemma {:induction false} SplitsList(text: string)
    ensures IsList(SplitCommas(text), text)
  {
    if text != "" {
      var rest := SplitCommas(text[1..]);
      SplitsList(text[1..]);
      assert text == [text[0]] + text[1..];
      if text[0] == ',' {
        assert ([""] + rest)[1..] == rest;
      } else {
        assert ([[text[0]] + rest[0]] + rest[1..])[1..] == rest[1..];
        assert rest == [rest[0]] + rest[1..];
        if |rest| > 1 {
          assert Join(rest) == rest[0] + "," + Join(rest[1..]);
          assert [text[0]] + (rest[0] + "," + Join(rest[1..])) == [text[0]] + rest[0] + "," + Join(rest[1..]);
        }
      }
    }
  }

  lemma AlternativesMean(text: string, values: seq<string>)
    ensures ReadAlternatives(text) == Ok(values) <==> Values(text, values)
  {
    hide SplitCommas, Nonempty, Join;
    SplitsList(text);
    forall parts | IsList(parts, text) ensures SplitCommas(text) == parts { ListSplits(parts, text); }
  }

  lemma NonemptyFirst(first: string, rest: seq<string>)
    ensures Nonempty([first] + rest) == (if Trim(first) == "" then [] else [Trim(first)]) + Nonempty(rest)
  {
    hide Trim;
    assert ([first] + rest)[1..] == rest;
  }

  lemma {:induction false} NonemptyAppend(a: seq<string>, b: seq<string>)
    ensures Nonempty(a + b) == Nonempty(a) + Nonempty(b)
  {
    hide Trim, Nonempty;
    if a == [] {
      assert a + b == b;
      NothingKept();
    } else {
      var first, rest := a[0], a[1..];
      assert a == [first] + rest && a + b == [first] + (rest + b);
      NonemptyAppend(rest, b);
      NonemptyFirst(first, rest);
      NonemptyFirst(first, rest + b);
    }
  }

  lemma NothingKept()
    ensures Nonempty([]) == []
  {
  }

  /** Each part counts for itself: the white space around it is dropped, and a blank one with it. */
  lemma PartsKept(before: seq<string>, left: string, core: string, right: string, after: seq<string>)
    requires White(left) && White(right) && Trimmed(core)
    ensures Nonempty(before + [left + core + right] + after) == Nonempty(before) + (if core == "" then [] else [core]) + Nonempty(after)
  {
    hide Trim;
    var part := left + core + right;
    TrimMeans(left, core, right);
    NonemptyAppend(before + [part], after);
    NonemptyAppend(before, [part]);
    assert [part][1..] == [];
    assert Nonempty([part]) == if core == "" then [] else [core];
  }

  // ---------------------------------------------------------------- words

  predicate Begins(text: string, head: string) {
    |head| <= |text| && text[..|head|] == head
  }

  /** The text is the name, the sign and what follows, which does not make a longer sign of it. */
  predicate Splits(text: string, name: string, sign: string) {
    Begins(text, name + sign) && (sign == "=" || |sign| == 2 || |text| == |name| + |sign| || text[|name| + |sign|] != '=')
  }

  function Behind(text: string, name: string, sign: string): string {
    if |name| + |sign| <= |text| then text[|name| + |sign|..] else ""
  }

  /** Which words say which condition. */
  ghost predicate Says(r: Readers, text: string, cond: Cond) {
    match cond
    case EventIs(values) => Signless(text) && text[0] != '#' && text[|text| - 1] != '*' && Values(text, values)
    case EventPrefix(prefix) => Signless(text) && text[0] != '#' && text == prefix + "*" && prefix != "" && '*' !in prefix && ',' !in prefix
    case FieldIs(field, values) => Splits(text, FieldName(field), "=") && Values(Behind(text, FieldName(field), "="), values)
    case ValueIs(op, n) => Splits(text, "value", Sign(op)) && r.number(Behind(text, "value", Sign(op))) == Some(n)
    case TagIs(key, values) =>
      Signless(key) && key[0] != '#' && Begins(text, key + ":") && Values(text[|key| + 1..], values)
    case TagKey(key) => Signless(key) && key[0] != '#' && text == key + ":"
    case LabelIs(values) => Begins(text, "#") && Values(text[1..], values)
    case DataIs(path, values) => PathOk(path) && Splits(text, "data." + path, "=") && Values(Behind(text, "data." + path, "="), values)
    case DataCompares(path, op, n) =>
      op != D.Eq && PathOk(path) && Splits(text, "data." + path, Sign(op)) && r.number(Behind(text, "data." + path, Sign(op))) == Some(n)
    case TextHas(_) => false
  }

  /** Which words say which time bound. */
  predicate Bounds(r: Readers, text: string, parsed: Parsed) {
    match parsed
    case ASince(since) => Begins(text, "since=") && r.duration(text[6..]) == Some(since) && since > 0
    case AFrom(from) => Begins(text, "from=") && (var m := r.moment(text[5..]); m.Some? && m.value.0 == from)
    case ATo(to) =>
      Begins(text, "to=") &&
      (var m := r.moment(text[3..]); m.Some? && to == if m.value.1 then m.value.0 + 86_400_000_000_000 else m.value.0)
    case ATerm(_) => false
  }

  /** What a word with or without a minus is read as. */
  ghost predicate Means(r: Readers, text: string, negated: bool, parsed: Parsed) {
    if parsed.ATerm? then parsed.term.negated == negated && Says(r, text, parsed.term.cond)
    else !negated && Bounds(r, text, parsed)
  }

  // ---------------------------------------------------------------- what is said is read

  predicate Lettered(parts: seq<string>) {
    forall part :: part in parts ==> forall c :: c in part ==> PathChar(c)
  }

  lemma RestLettered(first: char, rest: seq<string>)
    requires rest != [] && Lettered(if first == '.' then [""] + rest else [[first] + rest[0]] + rest[1..])
    ensures Lettered(rest) && (first == '.' || PathChar(first))
  {
    hide PathChar;
    var parts := if first == '.' then [""] + rest else [[first] + rest[0]] + rest[1..];
    if first != '.' {
      assert parts[0] in parts && first in parts[0] && forall c :: c in rest[0] ==> c in parts[0];
    }
    forall i | 0 <= i < |rest|
      ensures forall c :: c in rest[i] ==> PathChar(c)
    {
      if first == '.' {
        assert parts[i + 1] == rest[i] && parts[i + 1] in parts;
      } else if i > 0 {
        assert parts[i] == rest[i] && parts[i] in parts;
      }
    }
  }

  lemma {:induction false} PathLetters(path: string)
    requires Lettered(Sql.SplitDots(path))
    ensures forall c :: c in path ==> c == '.' || PathChar(c)
  {
    hide PathChar, Lettered;
    if path != "" {
      RestLettered(path[0], Sql.SplitDots(path[1..]));
      PathLetters(path[1..]);
      assert path == [path[0]] + path[1..];
    }
  }

  lemma PathSignless(path: string)
    requires PathOk(path)
    ensures Signless("data." + path)
  {
    PathLetters(path);
    assert forall c :: c in "data." + path ==> c in "data." || c in path;
  }

  lemma PutTogether(text: string, name: string, sign: string)
    requires Begins(text, name + sign)
    ensures text == name + (sign + text[|name| + |sign|..])
  {
    assert text == text[..|name + sign|] + text[|name + sign|..];
  }

  /** A sign with what stands behind it. */
  lemma SplitRest(text: string, name: string, op: Sql.Op)
    requires Splits(text, name, Sign(op))
    ensures
      var rest := Behind(text, name, Sign(op));
      && text == name + (Sign(op) + rest) && Sign(op) in OPERATORS && OpOf(Sign(op)) == op && (Sign(op) == "=" <==> op == D.Eq)
      && (rest == "" || rest[0] != '=' || Sign(op) == "=" || |Sign(op)| == 2)
  {
    SignText(op);
    PutTogether(text, name, Sign(op));
  }

  lemma NoValues()
    ensures ReadAlternatives("").Err?
  {
    assert SplitCommas("") == [""] && Trim("") == "";
    assert [""][1..] == [];
  }

  /** Each condition that is said is read. */
  lemma SaidIsRead(r: Readers, text: string, negated: bool, cond: Cond)
    requires Says(r, text, cond)
    ensures ParseWord(r, text, negated) == Ok(ATerm(Term(negated, cond)))
  {
    hide ParseWord, Values, ReadAlternatives, PathOk, Splits, Behind, Sign, FieldName, Signless, OPERATORS, OpOf;
    match cond
    case EventIs(values) => AlternativesMean(text, values); SignlessText(text); BareWord(r, text, negated);
    case EventPrefix(prefix) => SignlessText(text); assert text[..|text| - 1] == prefix; BareWord(r, text, negated);
    case FieldIs(field, values) =>
      SignIs();
      SplitRest(text, FieldName(field), D.Eq);
      var rest := Behind(text, FieldName(field), "=");
      AlternativesMean(rest, values);
      FieldWord(r, field, rest, negated);
    case ValueIs(op, n) => SplitRest(text, "value", op); ValueWord(r, Sign(op), Behind(text, "value", Sign(op)), negated);
    case TagIs(key, values) =>
      var rest := text[|key| + 1..];
      SignlessText(key);
      PutTogether(text, key, ":");
      AlternativesMean(rest, values);
      NoValues();
      TagWord(r, key, rest, negated);
    case TagKey(key) => SignlessText(key); TagWord(r, key, "", negated); assert ":" + "" == ":";
    case LabelIs(values) =>
      AlternativesMean(text[1..], values);
      LabelWord(r, text[1..], negated);
      assert text == text[..1] + text[1..];
    case DataIs(path, values) =>
      SignIs();
      SplitRest(text, "data." + path, D.Eq);
      var rest := Behind(text, "data." + path, "=");
      AlternativesMean(rest, values);
      PathSignless(path);
      DataWord(r, path, "=", rest, negated);
    case DataCompares(path, op, n) =>
      SplitRest(text, "data." + path, op);
      PathSignless(path);
      DataWord(r, path, Sign(op), Behind(text, "data." + path, Sign(op)), negated);
  }

  lemma SignIs()
    ensures Sign(D.Eq) == "="
  {
  }

  lemma SignlessText(text: string)
    requires Signless(text)
    ensures text != "" && ':' !in text
  {
  }

  /** Each time bound that is said is read. */
  lemma BoundIsRead(r: Readers, text: string, parsed: Parsed)
    requires Bounds(r, text, parsed)
    ensures ParseWord(r, text, false) == Ok(parsed)
  {
    hide ParseWord;
    match parsed
    case ASince(since) =>
      assert "since" + "=" == "since=";
      PutTogether(text, "since", "=");
      ComparisonWord(r, "since", "=", text[6..], false);
    case AFrom(from) =>
      assert "from" + "=" == "from=";
      PutTogether(text, "from", "=");
      ComparisonWord(r, "from", "=", text[5..], false);
      FromTime(r, text[5..]);
    case ATo(to) =>
      assert "to" + "=" == "to=";
      PutTogether(text, "to", "=");
      ComparisonWord(r, "to", "=", text[3..], false);
      ToTime(r, text[3..]);
  }

  // ---------------------------------------------------------------- what is read is said

  lemma SignAt(text: string, i: nat)
    requires i < |text| && (text[i] == '<' || text[i] == '>' || text[i] == '=')
    ensures FirstOperator(text, OPERATORS).Some? && FirstOperator(text, OPERATORS).value.0 <= i
  {
    hide FirstOperator;
    var op := if text[i] == '<' then "<" else if text[i] == '>' then ">" else "=";
    assert text[i..][..1] == op;
    FirstOperatorIsFirst(text, OPERATORS, op, i);
  }

  lemma ColonAt(text: string, i: nat)
    requires i < |text| && text[i] == ':'
    ensures IndexOf(text, ":") <= i
  {
    assert text[i..][..1] == ":";
    IndexIsFirst(text, ":", i);
  }

  /** What stands in front of the first sign and colon has neither. */
  lemma FrontIsSignless(text: string, n: nat)
    requires 0 < n <= |text| && n <= IndexOf(text, ":")
    requires FirstOperator(text, OPERATORS).Some? ==> n <= FirstOperator(text, OPERATORS).value.0
    ensures Signless(text[..n])
  {
    hide FirstOperator, IndexOf;
    forall c | c in text[..n]
      ensures c != '<' && c != '>' && c != '=' && c != ':'
    {
      var i :| 0 <= i < n && text[i] == c;
      if c == ':' { ColonAt(text, i); }
      if c == '<' || c == '>' || c == '=' { SignAt(text, i); }
    }
  }

  lemma SignOf(op: string)
    requires op in OPERATORS
    ensures Sign(OpOf(op)) == op && (OpOf(op) == D.Eq <==> op == "=")
  {
  }

  lemma Glued(text: string, at: nat, op: string)
    requires at <= |text| && Sql.IsPrefix(op, text[at..])
    ensures at + |op| <= |text| && text[..at + |op|] == text[..at] + op
  {
    assert text[at..at + |op|] == op;
  }

  /** Behind a sign found there is no sign of equality that would make it longer. */
  lemma NotLonger(text: string, at: nat, op: string)
    requires FirstOperator(text, OPERATORS) == Some((at, op)) && at < |text| && Sql.IsPrefix(op, text[at..])
    ensures (op == "<" || op == ">") && at + 1 < |text| ==> text[at + 1] != '='
  {
    hide FirstOperator, OPERATORS;
    if (op == "<" || op == ">") && at + 1 < |text| && text[at + 1] == '=' {
      assert text[at] == op[0];
      LongerSign(text, at);
      FirstOperatorIsFirst(text, OPERATORS, [text[at], '='], at);
    }
  }

  lemma LongerSign(text: string, at: nat)
    requires at + 1 < |text| && (text[at] == '<' || text[at] == '>') && text[at + 1] == '='
    ensures [text[at], '='] in OPERATORS && Sql.IsPrefix([text[at], '='], text[at..])
  {
    var longer := [text[at], '='];
    assert text[at..][..2] == longer;
    assert longer == "<=" || longer == ">=";
  }

  lemma ShortSigns(op: string)
    requires op in OPERATORS
    ensures op == "<" || op == ">" || op == "=" || |op| == 2
    ensures op != ""
  {
  }

  /** The sign found splits the text. */
  lemma FoundSplits(text: string)
    requires FirstOperator(text, OPERATORS).Some?
    ensures
      var (at, op) := FirstOperator(text, OPERATORS).value;
      && op in OPERATORS && at + |op| <= |text| && Splits(text, text[..at], op) && Behind(text, text[..at], op) == text[at + |op|..]
  {
    hide FirstOperator, OPERATORS;
    var (at, op) := FirstOperator(text, OPERATORS).value;
    FoundThere(text, OPERATORS);
    ShortSigns(op);
    Glued(text, at, op);
    NotLonger(text, at, op);
  }

  lemma ReadComparison(r: Readers, text: string, name: string, op: string, negated: bool, parsed: Parsed)
    requires op in OPERATORS && Splits(text, name, op)
    requires ParseComparison(r, name, op, Behind(text, name, op), negated) == Ok(parsed)
    ensures Means(r, text, negated, parsed)
  {
    hide Splits, Behind, ReadAlternatives, Values, PathOk, Sign, OpOf, FieldName, FieldOf, OPERATORS, Bounds;
    SignOf(op);
    var rest := Behind(text, name, op);
    if name == "value" {
    } else if Sql.IsPrefix("data.", name) {
      assert name == "data." + name[5..];
      if op == "=" && ReadAlternatives(rest).Ok? { AlternativesMean(rest, ReadAlternatives(rest).value); }
    } else {
      FieldNamed(name);
      if ReadAlternatives(rest).Ok? { AlternativesMean(rest, ReadAlternatives(rest).value); }
    }
  }

  lemma FieldNamed(name: string)
    ensures FieldOf(name).Some? ==> FieldName(FieldOf(name).value) == name
  {
  }

  lemma ReadTime(r: Readers, text: string, name: string, op: string, parsed: Parsed)
    requires op in OPERATORS && Splits(text, name, op) && IsTime(name)
    requires ParseTime(r, name, op, Behind(text, name, op)) == Ok(parsed)
    ensures Bounds(r, text, parsed)
  {
    assert "since" + "=" == "since=" && "from" + "=" == "from=" && "to" + "=" == "to=";
  }

  /** A word that is read says what it is read as. */
  lemma ReadIsSaid(r: Readers, text: string, negated: bool, parsed: Parsed)
    requires ParseWord(r, text, negated) == Ok(parsed)
    ensures Means(r, text, negated, parsed)
  {
    hide FirstOperator, IndexOf, ParseComparison, ParseTime, ReadAlternatives, Values, IsTime, Splits, Behind, Signless, Bounds, OPERATORS;
    if Sql.IsPrefix("#", text) {
      AlternativesMean(text[1..], parsed.term.cond.values);
    } else {
      var op, colon := FirstOperator(text, OPERATORS), IndexOf(text, ":");
      if op.Some? && (colon >= |text| || op.value.0 < colon) {
        FoundSplits(text);
        var name := text[..op.value.0];
        if IsTime(name) {
          ReadTime(r, text, name, op.value.1, parsed);
          NoTerm(r, text, parsed);
        } else {
          ReadComparison(r, text, name, op.value.1, negated, parsed);
        }
      } else if colon < |text| {
        ReadTag(r, text, negated, parsed);
      } else {
        ReadEvent(r, text, negated, parsed);
      }
    }
  }

  lemma NoTerm(r: Readers, text: string, parsed: Parsed)
    requires Bounds(r, text, parsed)
    ensures !parsed.ATerm?
  {
  }

  lemma HashIff(text: string)
    requires text != ""
    ensures Sql.IsPrefix("#", text) <==> text[0] == '#'
  {
    assert text[..1] == [text[0]];
  }

  lemma ReadTag(r: Readers, text: string, negated: bool, parsed: Parsed)
    requires ParseWord(r, text, negated) == Ok(parsed) && !Sql.IsPrefix("#", text)
    requires IndexOf(text, ":") < |text|
    requires FirstOperator(text, OPERATORS).Some? ==> IndexOf(text, ":") <= FirstOperator(text, OPERATORS).value.0
    ensures Means(r, text, negated, parsed)
  {
    hide ParseWord, FirstOperator, IndexOf, ReadAlternatives, Values, Signless, OPERATORS;
    var colon := IndexOf(text, ":");
    ColonThere(text);
    var key, rest := text[..colon], text[colon + 1..];
    assert text == key + (":" + rest) && text[..colon + 1] == key + ":";
    if key == "" {
      assert "" + (":" + rest) == ":" + rest;
      NoKey(r, rest, negated);
    } else {
      FrontIsSignless(text, colon);
      HashIff(text);
      TagWord(r, key, rest, negated);
      if rest == "" {
        assert text == key + ":";
      } else {
        AlternativesMean(rest, parsed.term.cond.values);
      }
    }
  }

  lemma ReadEvent(r: Readers, text: string, negated: bool, parsed: Parsed)
    requires ParseWord(r, text, negated) == Ok(parsed) && !Sql.IsPrefix("#", text)
    requires IndexOf(text, ":") >= |text| && FirstOperator(text, OPERATORS).None?
    ensures Means(r, text, negated, parsed)
  {
    hide ParseWord, FirstOperator, IndexOf, ReadAlternatives, Values, Signless, OPERATORS;
    if text == "" {
      NothingIsRead(r, negated);
    } else {
      FrontIsSignless(text, |text|);
      assert text[..|text|] == text;
      HashIff(text);
      BareWord(r, text, negated);
      if text[|text| - 1] == '*' {
        assert text == text[..|text| - 1] + "*";
      } else {
        AlternativesMean(text, parsed.term.cond.values);
      }
    }
  }

  lemma NothingIsRead(r: Readers, negated: bool)
    ensures ParseWord(r, "", negated).Err?
  {
    hide ReadAlternatives;
    NoValues();
    assert IndexOf("", ":") == 0;
    SomeSign("");
  }

  /** Exactly the words that say a condition or a time bound are accepted, and they are read as just that. */
  lemma WordMeans(r: Readers, text: string, negated: bool, parsed: Parsed)
    ensures ParseWord(r, text, negated) == Ok(parsed) <==> Means(r, text, negated, parsed)
  {
    hide ParseWord, Says, Bounds;
    if ParseWord(r, text, negated) == Ok(parsed) { ReadIsSaid(r, text, negated, parsed); }
    if Means(r, text, negated, parsed) {
      if parsed.ATerm? { SaidIsRead(r, text, negated, parsed.term.cond); } else { BoundIsRead(r, text, parsed); }
    }
  }

  /** What a token says: a search in quotes, a word behind a minus, or a word. */
  ghost predicate TokenSays(r: Readers, token: Token, parsed: Parsed) {
    if token.quoted then Trim(token.text) != "" && parsed == ATerm(Term(token.not_, TextHas(token.text)))
    else if |token.text| > 1 && token.text[0] == '-' then Means(r, token.text[1..], true, parsed)
    else Means(r, token.text, false, parsed)
  }

  lemma TokenMeans(r: Readers, token: Token, parsed: Parsed)
    ensures ParseToken(r, token) == Ok(parsed) <==> TokenSays(r, token, parsed)
  {
    hide ParseWord, Means, Trim;
    WordMeans(r, token.text, false, parsed);
    if |token.text| > 1 {
      WordMeans(r, token.text[1..], true, parsed);
      assert Sql.IsPrefix("-", token.text) <==> token.text[0] == '-' by {
        assert token.text[..1] == [token.text[0]];
      }
    }
  }

  // ---------------------------------------------------------------- a whole filter

  ghost predicate AllSay(r: Readers, tokens: seq<Token>, parsed: seq<Parsed>) {
    |parsed| == |tokens| && forall i :: 0 <= i < |tokens| ==> TokenSays(r, tokens[i], parsed[i])
  }

  /** The terms among what the tokens say, in order. */
  function TermsAmong(parsed: seq<Parsed>): seq<Term> {
    if parsed == [] then []
    else TermsAmong(parsed[..|parsed| - 1]) + if parsed[|parsed| - 1].ATerm? then [parsed[|parsed| - 1].term] else []
  }

  /** The place of the last bound of a kind. */
  ghost predicate LastOf(parsed: seq<Parsed>, kind: Parsed -> bool, i: int) {
    0 <= i < |parsed| && kind(parsed[i]) && forall j :: i < j < |parsed| ==> !kind(parsed[j])
  }

  ghost predicate Without(parsed: seq<Parsed>, kind: Parsed -> bool) {
    forall j :: 0 <= j < |parsed| ==> !kind(parsed[j])
  }

  const IsSince := (p: Parsed) => p.ASince?
  const IsFrom := (p: Parsed) => p.AFrom?
  const IsTo := (p: Parsed) => p.ATo?

  /** Terms in order, and of each bound the last one given, or none. */
  ghost predicate Collected(parsed: seq<Parsed>, f: Filter) {
    && f.terms == TermsAmong(parsed)
    && (if Without(parsed, IsSince) then f.since == 0 else exists i :: LastOf(parsed, IsSince, i) && f.since == parsed[i].since)
    && (if Without(parsed, IsFrom) then f.from == None else exists i :: LastOf(parsed, IsFrom, i) && f.from == Some(parsed[i].from))
    && (if Without(parsed, IsTo) then f.to == None else exists i :: LastOf(parsed, IsTo, i) && f.to == Some(parsed[i].to))
  }

  /** At most one event is asked for by name. */
  predicate OneEvent(terms: seq<Term>) {
    forall i, j :: 0 <= i < j < |terms| ==> !(Positive(terms[i]) && Positive(terms[j]))
  }

  function Put(f: Filter, p: Parsed): Filter {
    match p
    case ATerm(t) => f.(terms := f.terms + [t])
    case ASince(since) => f.(since := since)
    case AFrom(from) => f.(from := Some(from))
    case ATo(to) => f.(to := Some(to))
  }

  function PutAll(parsed: seq<Parsed>): Filter {
    if parsed == [] then Filter([], 0, None, None) else Put(PutAll(parsed[..|parsed| - 1]), parsed[|parsed| - 1])
  }

  lemma LastStep(before: seq<Parsed>, last: Parsed, kind: Parsed -> bool)
    ensures Without(before + [last], kind) <==> Without(before, kind) && !kind(last)
    ensures forall i :: LastOf(before + [last], kind, i) <==> if kind(last) then i == |before| else LastOf(before, kind, i)
  {
    var all := before + [last];
    assert all[|before|] == last;
    assert forall j :: 0 <= j < |before| ==> all[j] == before[j];
    assert Without(all, kind) ==> Without(before, kind) by {
      if Without(all, kind) {
        forall j | 0 <= j < |before| ensures !kind(before[j]) { assert !kind(all[j]); }
      }
    }
    forall i
      ensures LastOf(all, kind, i) <==> if kind(last) then i == |before| else LastOf(before, kind, i)
    {
    }
  }

  lemma CollectedStep(before: seq<Parsed>, last: Parsed, f: Filter)
    requires Collected(before, f)
    ensures Collected(before + [last], Put(f, last))
  {
    hide LastOf, Without;
    var all := before + [last];
    LastStep(before, last, IsSince);
    LastStep(before, last, IsFrom);
    LastStep(before, last, IsTo);
    assert all[..|before|] == before && all[|before|] == last;
    LastInside(before, last, IsSince);
    LastInside(before, last, IsFrom);
    LastInside(before, last, IsTo);
    assert TermsAmong(before) + [] == TermsAmong(before);
  }

  lemma LastInside(before: seq<Parsed>, last: Parsed, kind: Parsed -> bool)
    ensures forall i :: LastOf(before, kind, i) ==> 0 <= i < |before| && (before + [last])[i] == before[i]
    ensures forall i :: LastOf(before + [last], kind, i) ==> 0 <= i <= |before|
  {
  }

  lemma {:induction false} PutCollects(parsed: seq<Parsed>)
    ensures Collected(parsed, PutAll(parsed))
  {
    if parsed != [] {
      var before, last := parsed[..|parsed| - 1], parsed[|parsed| - 1];
      PutCollects(before);
      assert parsed == before + [last];
      hide Collected, Put;
      CollectedStep(before, last, PutAll(before));
    }
  }

  lemma OnlyOneLast(parsed: seq<Parsed>, kind: Parsed -> bool, i: int, j: int)
    requires LastOf(parsed, kind, i) && LastOf(parsed, kind, j)
    ensures i == j
  {
  }

  /** What is collected is determined. */
  lemma CollectedOnce(parsed: seq<Parsed>, f: Filter, g: Filter)
    requires Collected(parsed, f) && Collected(parsed, g)
    ensures f == g
  {
    forall kind: Parsed -> bool, i, j | LastOf(parsed, kind, i) && LastOf(parsed, kind, j) ensures i == j { OnlyOneLast(parsed, kind, i, j); }
    hide LastOf, Without;
  }

  lemma {:induction false} OneEventIff(terms: seq<Term>)
    ensures OneEvent(terms) <==> PositiveEvents(terms) <= 1
    ensures PositiveEvents(terms) == 0 <==> forall i :: 0 <= i < |terms| ==> !PositiveEvent(terms[i])
  {
    forall t ensures PositiveEvent(t) == Positive(t) { }
    hide PositiveEvent, Positive;
    if terms != [] {
      var before, last := terms[..|terms| - 1], terms[|terms| - 1];
      OneEventIff(before);
      assert forall i :: 0 <= i < |before| ==> terms[i] == before[i];
      assert terms[|before|] == last;
      if OneEvent(terms) && PositiveEvent(last) {
        assert forall i :: 0 <= i < |before| ==> !Positive(terms[i]);
      }
    }
  }

  /** Tokens that all say something make a filter of it, unless two events are asked for. */
  lemma {:induction false} SaidTokens(r: Readers, tokens: seq<Token>, parsed: seq<Parsed>)
    requires AllSay(r, tokens, parsed)
    ensures OneEvent(PutAll(parsed).terms) ==> ParseAll(r, tokens) == Ok(PutAll(parsed))
    ensures !OneEvent(PutAll(parsed).terms) ==> ParseAll(r, tokens).Err?
  {
    hide TokenSays, ParseToken, PositiveEvent, OneEvent;
    if tokens == [] {
      assert OneEvent([]) by { OneEventIff([]); }
    } else {
      var n := |tokens| - 1;
      SaidTokens(r, tokens[..n], parsed[..n]);
      TokenMeans(r, tokens[n], parsed[n]);
      hide AllSay, PositiveEvents, PutAll;
      PutLast(parsed[..n], parsed[n]);
      assert parsed[..n] + [parsed[n]] == parsed;
    }
  }

  /** Putting one more in: refused exactly when a second event is asked for. */
  lemma PutLast(before: seq<Parsed>, last: Parsed)
    ensures
      var f, g := PutAll(before), PutAll(before + [last]);
      && (OneEvent(g.terms) ==> OneEvent(f.terms) && Add(f, last) == Ok(g))
      && (!OneEvent(g.terms) && OneEvent(f.terms) ==> Add(f, last).Err?)
  {
    hide OneEvent, PositiveEvent;
    var f := PutAll(before);
    assert (before + [last])[..|before|] == before;
    OneEventIff(f.terms);
    OneEventIff(PutAll(before + [last]).terms);
    if last.ATerm? { AddedTerm(f, last.term); }
  }

  lemma {:induction false} AcceptedSay(r: Readers, tokens: seq<Token>) returns (parsed: seq<Parsed>)
    requires ParseAll(r, tokens).Ok?
    ensures AllSay(r, tokens, parsed)
  {
    hide TokenSays, ParseToken, PositiveEvent;
    if tokens == [] {
      parsed := [];
    } else {
      var n := |tokens| - 1;
      var before := AcceptedSay(r, tokens[..n]);
      var last := ParseToken(r, tokens[n]).value;
      TokenMeans(r, tokens[n], last);
      parsed := before + [last];
      assert forall i :: 0 <= i < n ==> tokens[..n][i] == tokens[i];
    }
  }

  /**
   Exactly when every token says something and no two terms ask for an event by name there is a filter: the
   terms in order and, of each time bound, the last one given.
   */
  lemma FilterMeans(r: Readers, tokens: seq<Token>, f: Filter)
    ensures ParseAll(r, tokens) == Ok(f) <==> exists parsed :: AllSay(r, tokens, parsed) && Collected(parsed, f) && OneEvent(f.terms)
  {
    hide AllSay, Collected, OneEvent, ParseAll;
    if ParseAll(r, tokens) == Ok(f) {
      var parsed := AcceptedSay(r, tokens);
      SaidTokens(r, tokens, parsed);
      PutCollects(parsed);
      assert AllSay(r, tokens, parsed) && Collected(parsed, f) && OneEvent(f.terms);
    }
    if parsed :| AllSay(r, tokens, parsed) && Collected(parsed, f) && OneEvent(f.terms) {
      SaidTokens(r, tokens, parsed);
      PutCollects(parsed);
      CollectedOnce(parsed, f, PutAll(parsed));
    }
  }
}
