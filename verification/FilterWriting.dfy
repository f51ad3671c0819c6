/**
 Writing a filter down and reading it back: how each term and time bound is written, and that the text
 parses to exactly those.
 */
module FilterWriting {
  import opened Prelude
  import opened Trimming
  import opened Filter
  import opened FilterParse
  import opened FilterTokens
  import Sql
  import D = Doubles

  // ---------------------------------------------------------------- how terms are written

  function FieldName(field: Field): string {
    match field
    case Ns => "ns"
    case User => "user"
    case Anon => "anon"
    case Tenant => "tenant"
    case Country => "country"
    case Request => "req"
  }

  function Sign(op: Sql.Op): string {
    match op
    case Eq => "="
    case Gt => ">"
    case Ge => ">="
    case Lt => "<"
    case Le => "<="
  }

  /** Alternatives are separated by commas. */
  function Join(values: seq<string>): string {
    if |values| == 0 then "" else if |values| == 1 then values[0] else values[0] + "," + Join(values[1..])
  }

  /** The word of a condition; `numeral` writes numbers. A text search is no word. */
  function Word(numeral: D.Double -> string, cond: Cond): string {
    match cond
    case EventIs(values) => Join(values)
    case EventPrefix(prefix) => prefix + "*"
    case FieldIs(field, values) => FieldName(field) + ("=" + Join(values))
    case ValueIs(op, n) => "value" + (Sign(op) + numeral(n))
    case TagIs(key, values) => key + (":" + Join(values))
    case TagKey(key) => key + ":"
    case LabelIs(values) => "#" + Join(values)
    case DataIs(path, values) => "data." + path + ("=" + Join(values))
    case DataCompares(path, op, n) => "data." + path + (Sign(op) + numeral(n))
    case TextHas(text) => text
  }

  /** A blank inside a word is put in quotes. */
  function Guard(word: string): string {
    if word == "" then ""
    else
      var c := word[|word| - 1];
      Guard(word[..|word| - 1]) + if IsBlank(c) then "\"" + [c] + "\"" else [c]
  }

  datatype Item =
    | ATermItem(term: Term)
    | SinceItem(text: string)
    | FromItem(text: string)
    | ToItem(text: string)

  function Dash(negated: bool): string {
    if negated then "-" else ""
  }

  function WriteItem(numeral: D.Double -> string, item: Item): string {
    match item
    case ATermItem(t) =>
      if t.cond.TextHas? then Dash(t.negated) + "\"" + t.cond.text + "\"" else Guard(Dash(t.negated) + Word(numeral, t.cond))
    case SinceItem(text) => Guard("since=" + text)
    case FromItem(text) => Guard("from=" + text)
    case ToItem(text) => Guard("to=" + text)
  }

  function WriteItems(numeral: D.Double -> string, items: seq<Item>): string {
    if items == [] then "" else WriteItems(numeral, items[..|items| - 1]) + (WriteItem(numeral, items[|items| - 1]) + " ")
  }

  // ---------------------------------------------------------------- what can be written

  /** Alternatives that can be listed: trimmed, without commas and quotes. */
  predicate Listable(values: seq<string>) {
    values != [] && forall v :: v in values ==> v != "" && Trimmed(v) && ',' !in v && '"' !in v
  }

  /** Neither a sign nor a colon in it. */
  predicate Signless(s: string) {
    s != "" && forall c :: c in s ==> c != '<' && c != '>' && c != '=' && c != ':'
  }

  /** A name in front of a sign or colon. */
  predicate Name(s: string) {
    Signless(s) && !IsBlank(s[0]) && '"' !in s
  }

  predicate Bare(s: string) {
    Name(s) && s[0] != '#'
  }

  /** The reader reads back what the numeral writes, and the numeral does not go on with the sign. */
  ghost predicate ReadsBack(r: Readers, numeral: D.Double -> string, n: D.Double) {
    var text := numeral(n);
    r.number(text) == Some(n) && '"' !in text && (text == "" || text[0] != '=')
  }

  /** What the language can say of a condition, negated or not: each part in its own letters. */
  ghost predicate Sayable(r: Readers, numeral: D.Double -> string, t: Term) {
    match t.cond
    case EventIs(values) =>
      Listable(values) && Bare(Join(values)) && Join(values)[|Join(values)| - 1] != '*' && (t.negated || Join(values)[0] != '-' || |Join(values)| == 1)
    case EventPrefix(prefix) => Bare(prefix) && '*' !in prefix && ',' !in prefix && (t.negated || prefix[0] != '-')
    case FieldIs(_, values) => Listable(values)
    case ValueIs(_, n) => ReadsBack(r, numeral, n)
    case TagIs(key, values) => Bare(key) && Listable(values) && (t.negated || key[0] != '-')
    case TagKey(key) => Bare(key) && (t.negated || key[0] != '-')
    case LabelIs(values) => Listable(values)
    case DataIs(path, values) => PathOk(path) && Name("data." + path) && Listable(values)
    case DataCompares(path, op, n) => PathOk(path) && Name("data." + path) && op != D.Eq && ReadsBack(r, numeral, n)
    case TextHas(text) => '"' !in text && Trim(text) != ""
  }

  ghost predicate CanWrite(r: Readers, numeral: D.Double -> string, item: Item) {
    match item
    case ATermItem(t) => Sayable(r, numeral, t)
    case SinceItem(text) => '"' !in text && r.duration(text).Some? && r.duration(text).value > 0
    case FromItem(text) => '"' !in text && r.moment(text).Some?
    case ToItem(text) => '"' !in text && r.moment(text).Some?
  }

  ghost predicate AllWritable(r: Readers, numeral: D.Double -> string, items: seq<Item>) {
    forall i :: 0 <= i < |items| ==> CanWrite(r, numeral, items[i])
  }

  // ---------------------------------------------------------------- what it should be read as

  function TermsOf(items: seq<Item>): seq<Term> {
    if items == [] then []
    else TermsOf(items[..|items| - 1]) + if items[|items| - 1].ATermItem? then [items[|items| - 1].term] else []
  }

  /** The last duration written, or none. */
  function SinceOf(r: Readers, items: seq<Item>): int {
    if items == [] then 0
    else
      var last := items[|items| - 1];
      if last.SinceItem? && r.duration(last.text).Some? then r.duration(last.text).value else SinceOf(r, items[..|items| - 1])
  }

  function FromOf(r: Readers, items: seq<Item>): Option<int> {
    if items == [] then None
    else
      var last := items[|items| - 1];
      if last.FromItem? && r.moment(last.text).Some? then Some(r.moment(last.text).value.0) else FromOf(r, items[..|items| - 1])
  }

  /** A bare date as an upper bound is the end of that day, 86 400 seconds later. */
  function ToOf(r: Readers, items: seq<Item>): Option<int> {
    if items == [] then None
    else
      var last := items[|items| - 1];
      if last.ToItem? && r.moment(last.text).Some? then
        var (t, bare) := r.moment(last.text).value;
        Some(if bare then t + 86_400_000_000_000 else t)
      else ToOf(r, items[..|items| - 1])
  }

  function Positive(t: Term): bool {
    !t.negated && (t.cond.EventIs? || t.cond.EventPrefix?)
  }

  function EventNames(items: seq<Item>): nat {
    if items == [] then 0
    else EventNames(items[..|items| - 1]) + if items[|items| - 1].ATermItem? && Positive(items[|items| - 1].term) then 1 else 0
  }

  // ---------------------------------------------------------------- words become tokens

  lemma {:induction false} FeedGuarded(s: Splitter, word: string)
    requires s == START.(out := s.out) && word != "" && !IsBlank(word[0]) && '"' !in word
    requires |word| > 1 && word[0] == '-' ==> !IsBlank(word[1])
    ensures Feed(s, Guard(word)) == s.(current := word, started := true)
  {
    var before, c := word[..|word| - 1], word[|word| - 1];
    assert word == before + [c] && c in word && forall d :: d in before ==> d in word;
    if before == "" {
      assert word == [c] && Guard(before) == "" && Guard(word) == [c];
      FeedOne(s, c);
      assert "" + [c] == [c];
    } else {
      FeedGuarded(s, before);
      var t := s.(current := before, started := true);
      if IsBlank(c) {
        assert before != "-";
        FeedQuoted(t, c);
        FeedAppend(s, Guard(before), "\"" + [c] + "\"");
      } else {
        FeedOne(t, c);
        FeedAppend(s, Guard(before), [c]);
      }
    }
  }

  /** One character in quotes inside a word. */
  lemma FeedQuoted(s: Splitter, c: char)
    requires s.started && !s.quoted && !s.inQuote && s.current != "-" && c != '"'
    ensures Feed(s, "\"" + [c] + "\"") == s.(current := s.current + [c])
  {
    FeedOne(s, '"');
    var s1 := s.(inQuote := true);
    FeedOne(s1, c);
    var s2 := s1.(current := s.current + [c]);
    FeedOne(s2, '"');
    FeedAppend(s, "\"", [c]);
    FeedAppend(s, "\"" + [c], "\"");
  }

  function TokenOf(numeral: D.Double -> string, item: Item): Token {
    match item
    case ATermItem(t) =>
      if t.cond.TextHas? then Token(t.cond.text, true, t.negated) else Token(Dash(t.negated) + Word(numeral, t.cond), false, false)
    case SinceItem(text) => Token("since=" + text, false, false)
    case FromItem(text) => Token("from=" + text, false, false)
    case ToItem(text) => Token("to=" + text, false, false)
  }

  lemma {:induction false} JoinPlain(values: seq<string>)
    requires Listable(values)
    ensures Join(values) != "" && '"' !in Join(values) && !IsBlank(Join(values)[0]) && Join(values)[0] == values[0][0]
  {
    assert values[0] in values && forall v :: v in values[1..] ==> v in values;
    if |values| > 1 { JoinPlain(values[1..]); }
  }

  /** No quotes, and blanks neither in front nor behind a leading dash. */
  ghost predicate WordOkay(word: string) {
    word != "" && '"' !in word && !IsBlank(word[0])
  }

  lemma WordsAreOkay(r: Readers, numeral: D.Double -> string, t: Term)
    requires Sayable(r, numeral, t) && !t.cond.TextHas?
    ensures WordOkay(Word(numeral, t.cond))
  {
    match t.cond
    case EventIs(values) => JoinPlain(values);
    case FieldIs(field, values) => JoinPlain(values); FieldNames(field);
    case TagIs(_, values) => JoinPlain(values);
    case LabelIs(values) => JoinPlain(values);
    case DataIs(path, values) => JoinPlain(values);
    case _ =>
  }

  lemma FieldNames(field: Field)
    ensures Bare(FieldName(field)) && FieldName(field)[0] != '-'
    ensures FieldOf(FieldName(field)) == Some(field) && FieldName(field) != "value" && !IsTime(FieldName(field))
    ensures !Sql.IsPrefix("data.", FieldName(field))
  {
  }

  lemma SignText(op: Sql.Op)
    ensures Sign(op) in OPERATORS && OpOf(Sign(op)) == op && '"' !in Sign(op)
    ensures op == D.Eq <==> Sign(op) == "="
  {
  }

  lemma TokenOkay(r: Readers, numeral: D.Double -> string, item: Item)
    requires CanWrite(r, numeral, item) && !(item.ATermItem? && item.term.cond.TextHas?)
    ensures
      var word := TokenOf(numeral, item).text;
      WordOkay(word) && (|word| > 1 && word[0] == '-' ==> !IsBlank(word[1]))
  {
    hide Word, Sayable;
    if item.ATermItem? {
      var t := item.term;
      WordsAreOkay(r, numeral, t);
      if t.negated {
        assert ("-" + Word(numeral, t.cond))[1] == Word(numeral, t.cond)[0];
      } else {
        NoDash(r, numeral, t);
        assert "" + Word(numeral, t.cond) == Word(numeral, t.cond);
      }
    } else {
      var text := TokenOf(numeral, item).text;
      assert text[0] == 's' || text[0] == 'f' || text[0] == 't';
    }
  }

  lemma ItemFed(r: Readers, numeral: D.Double -> string, s: Splitter, item: Item)
    requires s == START.(out := s.out) && CanWrite(r, numeral, item)
    ensures Feed(s, WriteItem(numeral, item) + " ") == s.(out := s.out + [TokenOf(numeral, item)])
  {
    hide Word, Sayable, Feed, Guard, Step;
    var token := TokenOf(numeral, item);
    if item.ATermItem? && item.term.cond.TextHas? {
      assert '"' !in item.term.cond.text by { TextSayable(r, numeral, item.term); }
      FeedToken(s, token);
      assert Write(token) == WriteItem(numeral, item);
    } else {
      TokenOkay(r, numeral, item);
      FeedGuarded(s, token.text);
      FeedAppend(s, Guard(token.text), " ");
      EndWord(s, token.text);
    }
  }

  lemma TextSayable(r: Readers, numeral: D.Double -> string, t: Term)
    requires Sayable(r, numeral, t) && t.cond.TextHas?
    ensures '"' !in t.cond.text && Trim(t.cond.text) != ""
  {
  }

  lemma EndWord(s: Splitter, word: string)
    requires s == START.(out := s.out)
    ensures Feed(s.(current := word, started := true), " ") == s.(out := s.out + [Token(word, false, false)])
  {
    FeedOne(s.(current := word, started := true), ' ');
  }

  function TokensOf(numeral: D.Double -> string, items: seq<Item>): seq<Token> {
    if items == [] then [] else TokensOf(numeral, items[..|items| - 1]) + [TokenOf(numeral, items[|items| - 1])]
  }

  lemma {:induction false} ItemsFed(r: Readers, numeral: D.Double -> string, items: seq<Item>)
    requires AllWritable(r, numeral, items)
    ensures Feed(START, WriteItems(numeral, items)) == START.(out := TokensOf(numeral, items))
  {
    hide CanWrite, WriteItem, TokenOf;
    if items == [] {
    } else {
      var before, last := items[..|items| - 1], items[|items| - 1];
      ItemsFed(r, numeral, before);
      ItemFed(r, numeral, START.(out := TokensOf(numeral, before)), last);
      FeedAppend(START, WriteItems(numeral, before), WriteItem(numeral, last) + " ");
    }
  }

  // ---------------------------------------------------------------- alternatives are read back

  lemma {:induction false} SplitOne(value: string)
    requires ',' !in value
    ensures SplitCommas(value) == [value]
  {
    if value == "" {
    } else {
      assert value[0] in value && forall c :: c in value[1..] ==> c in value;
      SplitOne(value[1..]);
      assert [value[0]] + value[1..] == value;
    }
  }

  lemma {:induction false} SplitMore(value: string, rest: string)
    requires ',' !in value
    ensures SplitCommas(value + ("," + rest)) == [value] + SplitCommas(rest)
  {
    var text := value + ("," + rest);
    if value == "" {
      assert text == "," + rest && text[1..] == rest;
    } else {
      assert value[0] in value && forall c :: c in value[1..] ==> c in value;
      assert text[1..] == value[1..] + ("," + rest);
      SplitMore(value[1..], rest);
      assert [value[0]] + value[1..] == value;
    }
  }

  lemma {:induction false} JoinSplits(values: seq<string>)
    requires Listable(values)
    ensures SplitCommas(Join(values)) == values && Nonempty(values) == values
  {
    hide Trim, SplitCommas;
    assert values[0] in values && forall v :: v in values[1..] ==> v in values;
    TrimFixed(values[0]);
    if |values| == 1 {
      SplitOne(values[0]);
      assert values[1..] == [] && Nonempty([]) == [];
    } else {
      JoinSplits(values[1..]);
      SplitMore(values[0], Join(values[1..]));
      assert values[0] + "," + Join(values[1..]) == values[0] + ("," + Join(values[1..]));
    }
    assert values == [values[0]] + values[1..];
  }

  lemma AlternativesReadBack(values: seq<string>)
    requires Listable(values)
    ensures ReadAlternatives(Join(values)) == Ok(values)
  {
    hide SplitCommas, Nonempty, Join;
    JoinSplits(values);
  }

  // ---------------------------------------------------------------- signs and colons

  lemma OperatorStart(op: string)
    requires op in OPERATORS
    ensures op != "" && (op[0] == '<' || op[0] == '>' || op[0] == '=') && (|op| == 1 || (|op| == 2 && op[1] == '='))
  {
  }

  /** Two signs at the start of one text, what follows the first not going on with it. */
  lemma SameSign(op: string, found: string, value: string)
    requires op in OPERATORS && found in OPERATORS && |op| <= |found| && Sql.IsPrefix(found, op + value)
    requires value == "" || value[0] != '=' || op == "=" || |op| == 2
    ensures found == op
  {
    OperatorStart(op);
    OperatorStart(found);
    assert forall i :: 0 <= i < |op| ==> (op + value)[i] == op[i];
    assert value != "" ==> (op + value)[|op|] == value[0];
  }

  /** A sign behind a name is found whole and before any colon. */
  lemma SignFound(name: string, op: string, value: string)
    requires Signless(name) && op in OPERATORS && (value == "" || value[0] != '=' || op == "=" || |op| == 2)
    ensures
      var text := name + (op + value);
      FirstOperator(text, OPERATORS) == Some((|name|, op)) && IndexOf(text, ":") > |name|
  {
    hide FirstOperator, IndexOf;
    var text := name + (op + value);
    OperatorStart(op);
    assert text[|name|..] == op + value && text[|name|] == op[0];
    FirstOperatorIsFirst(text, OPERATORS, op, |name|);
    FoundThere(text, OPERATORS);
    var (at, found) := FirstOperator(text, OPERATORS).value;
    OperatorStart(found);
    assert text[at] == found[0];
    assert forall k :: 0 <= k < |name| ==> text[k] in name;
    SameSign(op, found, value);
    ColonThere(text);
  }

  lemma ColonThere(text: string)
    ensures IndexOf(text, ":") < |text| ==> text[IndexOf(text, ":")] == ':'
  {
  }

  /** The colon behind a name is the first one and before any sign. */
  lemma ColonFound(key: string, value: string)
    requires Signless(key)
    ensures
      var text := key + (":" + value);
      && IndexOf(text, ":") == |key|
      && (FirstOperator(text, OPERATORS).Some? ==> FirstOperator(text, OPERATORS).value.0 > |key|)
  {
    hide FirstOperator, IndexOf;
    var text := key + (":" + value);
    assert text[|key|..] == ":" + value && text[|key|] == ':';
    IndexIsFirst(text, ":", |key|);
    ColonThere(text);
    assert forall k :: 0 <= k < |key| ==> text[k] in key;
    FoundThere(text, OPERATORS);
    if FirstOperator(text, OPERATORS).Some? {
      var (at, found) := FirstOperator(text, OPERATORS).value;
      OperatorStart(found);
      assert text[at] == found[0];
    }
  }

  /** A word of name characters has neither. */
  lemma NoSign(word: string)
    requires Signless(word)
    ensures FirstOperator(word, OPERATORS) == None && IndexOf(word, ":") == |word|
  {
    hide FirstOperator, IndexOf;
    FoundThere(word, OPERATORS);
    ColonThere(word);
    SomeSign(word);
    assert forall k :: 0 <= k < |word| ==> word[k] in word;
  }

  lemma SomeSign(word: string)
    ensures FirstOperator(word, OPERATORS).Some? ==>
      var (at, found) := FirstOperator(word, OPERATORS).value;
      at < |word| && (word[at] == '<' || word[at] == '>' || word[at] == '=')
  {
    hide FirstOperator;
    FoundThere(word, OPERATORS);
    if FirstOperator(word, OPERATORS).Some? {
      var (at, found) := FirstOperator(word, OPERATORS).value;
      OperatorStart(found);
      assert word[at..][0] == found[0];
    }
  }

  // ---------------------------------------------------------------- each condition

  lemma ComparisonWord(r: Readers, name: string, op: string, value: string, negated: bool)
    requires Signless(name) && name[0] != '#' && op in OPERATORS && (value == "" || value[0] != '=' || op == "=" || |op| == 2)
    ensures ParseWord(r, name + (op + value), negated) ==
      if IsTime(name) then if negated then Err("a time range cannot be negated") else ParseTime(r, name, op, value)
      else ParseComparison(r, name, op, value, negated)
  {
    hide FirstOperator, IndexOf, ParseTime, ParseComparison, IsTime, ReadAlternatives;
    var text := name + (op + value);
    SignFound(name, op, value);
    OperatorStart(op);
    assert text[0] == name[0];
    assert text[..|name|] == name && text[|name| + |op|..] == value;
  }

  lemma TagWord(r: Readers, key: string, value: string, negated: bool)
    requires Signless(key) && key[0] != '#'
    ensures ParseWord(r, key + (":" + value), negated) ==
      if value == "" then Ok(ATerm(Term(negated, TagKey(key)))) else With(ReadAlternatives(value), negated, values => TagIs(key, values))
  {
    hide FirstOperator, IndexOf, ReadAlternatives, ParseTime, ParseComparison, IsTime;
    var text := key + (":" + value);
    ColonFound(key, value);
    assert text[0] == key[0];
    assert text[..|key|] == key && text[|key| + 1..] == value;
  }

  lemma NoKey(r: Readers, value: string, negated: bool)
    ensures ParseWord(r, ":" + value, negated).Err?
  {
    hide FirstOperator, IndexOf, ReadAlternatives, ParseTime, ParseComparison, IsTime;
    var text := ":" + value;
    assert text[..1] == ":" && text[0..] == text;
    IndexIsFirst(text, ":", 0);
  }

  lemma BareWord(r: Readers, word: string, negated: bool)
    requires Signless(word) && word[0] != '#'
    ensures word[|word| - 1] != '*' ==> ParseWord(r, word, negated) == With(ReadAlternatives(word), negated, values => EventIs(values))
    ensures word[|word| - 1] == '*' && |word| > 1 && '*' !in word[..|word| - 1] && ',' !in word[..|word| - 1] ==>
      ParseWord(r, word, negated) == Ok(ATerm(Term(negated, EventPrefix(word[..|word| - 1]))))
    ensures word[|word| - 1] == '*' && (|word| == 1 || '*' in word[..|word| - 1] || ',' in word[..|word| - 1]) ==> ParseWord(r, word, negated).Err?
  {
    hide FirstOperator, IndexOf, ReadAlternatives, ParseTime, ParseComparison, IsTime;
    NoSign(word);
  }

  lemma LabelWord(r: Readers, text: string, negated: bool)
    ensures ParseWord(r, "#" + text, negated) == With(ReadAlternatives(text), negated, values => LabelIs(values))
  {
    hide FirstOperator, IndexOf, ReadAlternatives;
    assert ("#" + text)[1..] == text && ("#" + text)[..1] == "#";
  }

  lemma DataWord(r: Readers, path: string, op: string, value: string, negated: bool)
    requires PathOk(path) && Signless("data." + path) && op in OPERATORS && (value == "" || value[0] != '=' || op == "=" || |op| == 2)
    ensures ParseWord(r, "data." + path + (op + value), negated) ==
      if op == "=" then With(ReadAlternatives(value), negated, values => DataIs(path, values))
      else if r.number(value).None? then Err("compares with a number") else Ok(ATerm(Term(negated, DataCompares(path, OpOf(op), r.number(value).value))))
  {
    hide ReadAlternatives, ParseWord, PathOk;
    var name := "data." + path;
    assert name[0] == 'd' && name[4] == '.' && name[5..] == path && name[..5] == "data.";
    ComparisonWord(r, name, op, value, negated);
  }

  lemma ValueWord(r: Readers, op: string, value: string, negated: bool)
    requires op in OPERATORS && (value == "" || value[0] != '=' || op == "=" || |op| == 2)
    ensures ParseWord(r, "value" + (op + value), negated) ==
      if r.number(value).None? then Err("value compares with a number") else Ok(ATerm(Term(negated, ValueIs(OpOf(op), r.number(value).value))))
  {
    hide ParseWord;
    ComparisonWord(r, "value", op, value, negated);
  }

  lemma FieldWord(r: Readers, field: Field, value: string, negated: bool)
    ensures ParseWord(r, FieldName(field) + ("=" + value), negated) == With(ReadAlternatives(value), negated, values => FieldIs(field, values))
  {
    hide ParseWord, ReadAlternatives, FieldOf, FieldName;
    FieldNames(field);
    ComparisonWord(r, FieldName(field), "=", value, negated);
  }

  /** The word of every condition is read as that condition, negated or not. */
  lemma WordReadsBack(r: Readers, numeral: D.Double -> string, t: Term)
    requires Sayable(r, numeral, t) && !t.cond.TextHas?
    ensures ParseWord(r, Word(numeral, t.cond), t.negated) == Ok(ATerm(t))
  {
    hide ParseWord, Join, ReadAlternatives, Listable, PathOk;
    match t.cond
    case EventIs(values) => AlternativesReadBack(values); BareWord(r, Join(values), t.negated);
    case EventPrefix(prefix) => PrefixBare(prefix); BareWord(r, prefix + "*", t.negated); assert (prefix + "*")[..|prefix|] == prefix;
    case FieldIs(field, values) => AlternativesReadBack(values); FieldWord(r, field, Join(values), t.negated);
    case ValueIs(op, n) => SignText(op); ValueWord(r, Sign(op), numeral(n), t.negated);
    case TagIs(key, values) => AlternativesReadBack(values); SomeJoin(values); TagWord(r, key, Join(values), t.negated);
    case TagKey(key) => TagWord(r, key, "", t.negated); assert ":" + "" == ":";
    case LabelIs(values) => AlternativesReadBack(values); LabelWord(r, Join(values), t.negated);
    case DataIs(path, values) => AlternativesReadBack(values); DataWord(r, path, "=", Join(values), t.negated);
    case DataCompares(path, op, n) => SignText(op); DataWord(r, path, Sign(op), numeral(n), t.negated);
  }

  lemma SomeJoin(values: seq<string>)
    requires Listable(values)
    ensures Join(values) != ""
  {
    JoinPlain(values);
  }

  lemma PrefixBare(prefix: string)
    requires Bare(prefix)
    ensures Bare(prefix + "*")
  {
    assert forall c :: c in prefix + "*" ==> c in prefix || c == '*';
  }

  // ---------------------------------------------------------------- each token

  lemma NoDash(r: Readers, numeral: D.Double -> string, t: Term)
    requires Sayable(r, numeral, t) && !t.cond.TextHas? && !t.negated
    ensures var w := Word(numeral, t.cond); w[0] != '-' || |w| == 1
  {
    match t.cond
    case EventIs(values) => JoinPlain(values);
    case FieldIs(field, values) => FieldNames(field);
    case _ =>
  }

  lemma TermToken(r: Readers, numeral: D.Double -> string, t: Term)
    requires Sayable(r, numeral, t)
    ensures ParseToken(r, TokenOf(numeral, ATermItem(t))) == Ok(ATerm(t))
  {
    hide ParseWord, Word, Sayable, Trim;
    if t.cond.TextHas? {
      TextSayable(r, numeral, t);
    } else {
      WordReadsBack(r, numeral, t);
      WordsAreOkay(r, numeral, t);
      var w := Word(numeral, t.cond);
      if t.negated {
        assert ("-" + w)[1..] == w && ("-" + w)[..1] == "-";
      } else {
        NoDash(r, numeral, t);
        assert "" + w == w;
      }
    }
  }

  /** What a time bound parses to. */
  function BoundOf(r: Readers, item: Item): Option<Parsed>
    requires !item.ATermItem?
  {
    match item
    case SinceItem(text) => if r.duration(text).None? then None else Some(ASince(r.duration(text).value))
    case FromItem(text) => if r.moment(text).None? then None else Some(AFrom(r.moment(text).value.0))
    case ToItem(text) =>
      if r.moment(text).None? then None
      else Some(ATo(if r.moment(text).value.1 then r.moment(text).value.0 + 86_400_000_000_000 else r.moment(text).value.0))
  }

  lemma TimeToken(r: Readers, numeral: D.Double -> string, item: Item)
    requires CanWrite(r, numeral, item) && !item.ATermItem?
    ensures BoundOf(r, item).Some? && ParseToken(r, TokenOf(numeral, item)) == Ok(BoundOf(r, item).value)
  {
    hide ParseWord;
    match item
    case SinceItem(text) =>
      TimeWord(r, "since", text);
      assert "since" + ("=" + text) == "since=" + text;
    case FromItem(text) =>
      TimeWord(r, "from", text);
      FromTime(r, text);
      assert "from" + ("=" + text) == "from=" + text;
    case ToItem(text) =>
      TimeWord(r, "to", text);
      ToTime(r, text);
      assert "to" + ("=" + text) == "to=" + text;
  }

  lemma FromTime(r: Readers, text: string)
    ensures ParseTime(r, "from", "=", text) ==
      var m := r.moment(text);
      if m.None? then Err("not a time") else Ok(AFrom(m.value.0))
  {
    assert "from"[0] != "since"[0];
  }

  lemma ToTime(r: Readers, text: string)
    ensures ParseTime(r, "to", "=", text) ==
      var m := r.moment(text);
      if m.None? then Err("not a time") else Ok(ATo(m.value.0 + if m.value.1 then 86_400_000_000_000 else 0))
  {
    assert "to"[0] != "since"[0] && "to"[0] != "from"[0];
  }

  lemma TimeWord(r: Readers, name: string, text: string)
    requires name == "since" || name == "from" || name == "to"
    ensures ParseToken(r, Token(name + ("=" + text), false, false)) == ParseTime(r, name, "=", text)
  {
    hide ParseWord, ParseTime;
    ComparisonWord(r, name, "=", text, false);
    assert (name + ("=" + text))[0] == name[0];
  }

  /** A time bound cannot be negated. */
  lemma NegatedTime(r: Readers, name: string, text: string)
    requires name == "since" || name == "from" || name == "to"
    ensures ParseToken(r, Token("-" + (name + ("=" + text)), false, false)).Err?
  {
    hide ParseWord;
    ComparisonWord(r, name, "=", text, true);
    var word := name + ("=" + text);
    assert ("-" + word)[1..] == word && ("-" + word)[..1] == "-";
  }

  // ---------------------------------------------------------------- the whole text

  lemma AddTerm(f: Filter, t: Term)
    ensures PositiveEvents(f.terms + [t]) == PositiveEvents(f.terms) + if Positive(t) then 1 else 0
  {
    assert (f.terms + [t])[..|f.terms|] == f.terms;
  }

  ghost predicate Reads(r: Readers, items: seq<Item>, result: Result<Filter>) {
    result == Ok(Filter(TermsOf(items), SinceOf(r, items), FromOf(r, items), ToOf(r, items)))
  }

  ghost predicate ReadsOr(r: Readers, items: seq<Item>, result: Result<Filter>) {
    && EventNames(items) == PositiveEvents(TermsOf(items))
    && if EventNames(items) > 1 then result.Err? else Reads(r, items, result)
  }

  lemma TermStep(r: Readers, before: seq<Item>, t: Term, result: Result<Filter>)
    requires ReadsOr(r, before, result)
    ensures ReadsOr(r, before + [ATermItem(t)], if result.Err? then result else Add(result.value, ATerm(t)))
  {
    var items := before + [ATermItem(t)];
    assert items[..|before|] == before;
    AddTerm(Filter(TermsOf(before), 0, None, None), t);
    assert SinceOf(r, items) == SinceOf(r, before) && FromOf(r, items) == FromOf(r, before) && ToOf(r, items) == ToOf(r, before);
    hide PositiveEvents, TermsOf, SinceOf, FromOf, ToOf;
  }

  lemma BoundStep(r: Readers, before: seq<Item>, last: Item, result: Result<Filter>)
    requires ReadsOr(r, before, result) && !last.ATermItem? && BoundOf(r, last).Some?
    ensures ReadsOr(r, before + [last], if result.Err? then result else Add(result.value, BoundOf(r, last).value))
  {
    var items := before + [last];
    assert items[..|before|] == before;
    assert TermsOf(items) == TermsOf(before) + [] == TermsOf(before);
    LastBound(r, before, last);
    hide PositiveEvents, TermsOf, SinceOf, FromOf, ToOf, BoundOf, Add;
  }

  lemma {:induction false} TokensParse(r: Readers, numeral: D.Double -> string, items: seq<Item>)
    requires AllWritable(r, numeral, items)
    ensures ReadsOr(r, items, ParseAll(r, TokensOf(numeral, items)))
  {
    hide CanWrite, TokenOf, ParseToken, ReadsOr, Add;
    if items == [] {
      NothingReads(r);
    } else {
      var before, last := items[..|items| - 1], items[|items| - 1];
      TokensParse(r, numeral, before);
      var tokens := TokensOf(numeral, items);
      assert tokens[..|tokens| - 1] == TokensOf(numeral, before) && tokens[|tokens| - 1] == TokenOf(numeral, last);
      assert CanWrite(r, numeral, last) && items == before + [last];
      if last.ATermItem? {
        LastTerm(r, numeral, last.term);
        TermStep(r, before, last.term, ParseAll(r, TokensOf(numeral, before)));
      } else {
        TimeToken(r, numeral, last);
        BoundStep(r, before, last, ParseAll(r, TokensOf(numeral, before)));
      }
    }
  }

  lemma NothingReads(r: Readers)
    ensures ReadsOr(r, [], ParseAll(r, []))
  {
  }

  lemma LastTerm(r: Readers, numeral: D.Double -> string, t: Term)
    requires CanWrite(r, numeral, ATermItem(t))
    ensures ParseToken(r, TokenOf(numeral, ATermItem(t))) == Ok(ATerm(t))
  {
    TermToken(r, numeral, t);
  }

  /** A bound changes its own field and no other. */
  lemma LastBound(r: Readers, before: seq<Item>, last: Item)
    requires !last.ATermItem? && BoundOf(r, last).Some?
    ensures
      var items := before + [last];
      Add(Filter(TermsOf(before), SinceOf(r, before), FromOf(r, before), ToOf(r, before)), BoundOf(r, last).value) ==
      Ok(Filter(TermsOf(before), SinceOf(r, items), FromOf(r, items), ToOf(r, items)))
  {
    assert (before + [last])[..|before|] == before;
  }

  /**
   Reading back: whatever terms and time bounds are written one after another, negated or not, the text
   parses to exactly those terms in order, and each bound is the last one of its kind, an upper bound that
   is a bare date being one day later. A second event name is an error, and nothing else is.
   */
  lemma FilterReadsBack(r: Readers, numeral: D.Double -> string, items: seq<Item>)
    requires AllWritable(r, numeral, items)
    ensures
      var result := ParseText(r, WriteItems(numeral, items));
      if EventNames(items) > 1 then result.Err? else Reads(r, items, result)
  {
    hide Feed, WriteItems, TokensOf, ParseAll;
    ItemsFed(r, numeral, items);
    TokensParse(r, numeral, items);
    assert Tokenize(WriteItems(numeral, items)) == Ok(TokensOf(numeral, items));
  }

  // ---------------------------------------------------------------- one term

  predicate NoBlank(text: string) {
    forall c :: c in text ==> !IsBlank(c)
  }

  lemma {:induction false} GuardPlain(word: string)
    requires NoBlank(word)
    ensures Guard(word) == word
  {
    hide IsBlank;
    if word != "" {
      var before, c := word[..|word| - 1], word[|word| - 1];
      assert word == before + [c] && c in word && forall x :: x in before ==> x in word;
      GuardPlain(before);
    }
  }

  lemma OneItem(r: Readers, numeral: D.Double -> string, t: Term, text: string)
    requires Sayable(r, numeral, t) && !t.cond.TextHas? && text == Dash(t.negated) + Word(numeral, t.cond) && NoBlank(text)
    ensures ParseText(r, text + " ") == Ok(Filter([t], 0, None, None))
  {
    hide ParseText, Sayable, Word, NoBlank;
    var items := [ATermItem(t)];
    GuardPlain(text);
    assert WriteItem(numeral, ATermItem(t)) == text;
    assert items[..0] == [] && |items| == 1 && items[0] == ATermItem(t);
    assert EventNames(items) <= 1 && TermsOf(items) == [t];
    assert SinceOf(r, items) == 0 && FromOf(r, items) == None && ToOf(r, items) == None;
    assert CanWrite(r, numeral, items[0]);
    assert EventNames([]) == 0 && TermsOf([]) == [] && SinceOf(r, []) == 0 && FromOf(r, []) == None && ToOf(r, []) == None;
    assert WriteItems(numeral, []) == "";
    assert WriteItems(numeral, items) == "" + (text + " ") == text + " ";
    FilterReadsBack(r, numeral, items);
  }

  /** A negated label excludes it, as -#internal in the source's own comment. */
  lemma NegatedLabel(r: Readers, name: string)
    requires Listable([name]) && NoBlank("-#" + name)
    ensures ParseText(r, "-#" + name + " ") == Ok(Filter([Term(true, LabelIs([name]))], 0, None, None))
  {
    hide ParseText, NoBlank, Listable;
    assert "-" + ("#" + name) == "-#" + name;
    OneItem(r, (n: D.Double) => "", Term(true, LabelIs([name])), "-#" + name);
  }

  /** A data value of any letters but quotes, blanks and commas can be asked for: data.path=value. */
  lemma DataTermIsTyped(r: Readers, path: string, value: string)
    requires PathOk(path) && Name("data." + path) && Listable([value]) && NoBlank("data." + path + ("=" + value))
    ensures ParseText(r, "data." + path + ("=" + value) + " ") == Ok(Filter([Term(false, DataIs(path, [value]))], 0, None, None))
  {
    hide ParseText, NoBlank, Listable, PathOk, Name;
    var text := "data." + path + ("=" + value);
    assert "" + text == text;
    OneItem(r, (n: D.Double) => "", Term(false, DataIs(path, [value])), text);
  }

  /** Whatever the daemon reads as a number can be compared with, infinite ones and NaN too: value<inf. */
  lemma ValueTermIsTyped(r: Readers, op: Sql.Op, value: string)
    requires r.number(value).Some? && '"' !in value && value != "" && value[0] != '=' && NoBlank("value" + (Sign(op) + value))
    ensures ParseText(r, "value" + (Sign(op) + value) + " ") == Ok(Filter([Term(false, ValueIs(op, r.number(value).value))], 0, None, None))
  {
    hide ParseText, NoBlank, Sign;
    var text := "value" + (Sign(op) + value);
    assert "" + text == text;
    OneItem(r, (n: D.Double) => value, Term(false, ValueIs(op, r.number(value).value)), text);
  }

  /** Values that the two sides of the filter write differently can be asked for: data.path=1.50 and data.path=[1.50]. */
  lemma NumberListIsTyped(r: Readers, path: string)
    requires PathOk(path) && Name("data." + path) && NoBlank("data." + path)
    ensures ParseText(r, "data." + path + ("=" + "1.50") + " ") == Ok(Filter([Term(false, DataIs(path, ["1.50"]))], 0, None, None))
    ensures ParseText(r, "data." + path + ("=" + "[1.50]") + " ") == Ok(Filter([Term(false, DataIs(path, ["[1.50]"]))], 0, None, None))
  {
    hide ParseText, PathOk, Name, IsSpace;
    ListedNumbers();
    hide Listable;
    assert forall c, value :: (value == "1.50" || value == "[1.50]") && c in "data." + path + ("=" + value) ==> c in "data." + path || c == '=' || c in "[1.50]";
    DataTermIsTyped(r, path, "1.50");
    DataTermIsTyped(r, path, "[1.50]");
  }

  lemma ListedNumbers()
    ensures Listable(["1.50"]) && Listable(["[1.50]"])
  {
  }
}
