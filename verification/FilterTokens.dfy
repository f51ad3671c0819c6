/** Splitting the text of a filter into tokens at spaces outside double quotes. */
module FilterTokens {
  import opened Prelude
  import opened FilterParse
  import opened Trimming
  import Filter

  /** The splitter between two characters: the tokens so far and the one being read. */
  datatype Splitter = Splitter(out: seq<Token>, current: string, quoted: bool, not_: bool, inQuote: bool, started: bool)

  const START: Splitter := Splitter([], "", false, false, false, false)

  predicate IsBlank(c: char) {
    c == ' ' || c == '\t' || c == '\n'
  }

  /** Ends the token being read, if one was started. */
  function EndToken(s: Splitter): Splitter {
    START.(out := if s.started then s.out + [Token(s.current, s.quoted, s.not_)] else s.out)
  }

  function Step(s: Splitter, c: char): Splitter {
    if c == '"' then
      var opens := !s.started || (!s.quoted && !s.inQuote && s.current == "-");
      var s1 := if opens then s.(quoted := true, not_ := s.started, current := "") else s;
      s1.(started := true, inQuote := !s.inQuote)
    else if !s.inQuote && IsBlank(c) then EndToken(s)
    else
      s.(quoted := s.quoted && s.inQuote, started := true, current := s.current + [c])
  }

  function Feed(s: Splitter, text: string): Splitter {
    if text == "" then s else Step(Feed(s, text[..|text| - 1]), text[|text| - 1])
  }

  function Tokenize(text: string): Result<seq<Token>> {
    var s := Feed(START, text);
    if s.inQuote then Err("unclosed quote") else Ok(EndToken(s).out)
  }

  /** The loop over the characters with its builder and flags. */
  method Split(text: string) returns (r: Result<seq<Token>>)
    ensures r == Tokenize(text)
  {
    var out: seq<Token> := [];
    var current, quoted, not_, inQuote, started := "", false, false, false, false;
    for i := 0 to |text|
      invariant Feed(START, text[..i]) == Splitter(out, current, quoted, not_, inQuote, started)
    {
      assert text[..i + 1][..i] == text[..i];
      var c := text[i];
      if c == '"' {
        if !started || (!quoted && !inQuote && current == "-") {
          quoted, not_, current := true, started, "";
        }
        started, inQuote := true, !inQuote;
      } else if !inQuote && IsBlank(c) {
        if started {
          out := out + [Token(current, quoted, not_)];
        }
        current, quoted, not_, inQuote, started := "", false, false, false, false;
      } else {
        if !inQuote && quoted {
          quoted := false;
        }
        started := true;
        current := current + [c];
      }
    }
    assert text[..|text|] == text;
    if inQuote {
      return Err("unclosed quote");
    }
    if started {
      out := out + [Token(current, quoted, not_)];
    }
    return Ok(out);
  }

  /** ParseFilter from the text: the splitter's error comes before any token's. */
  function ParseText(r: Readers, text: string): Result<Filter.Filter> {
    var tokens := Tokenize(text);
    if tokens.Err? then Err(tokens.error) else ParseAll(r, tokens.value)
  }

  method ParseFilterText(r: Readers, text: string) returns (result: Result<Filter.Filter>)
    ensures result == ParseText(r, text)
    ensures result.Ok? ==> Filter.FilterOk(result.value) && PositiveEvents(result.value.terms) <= 1
  {
    var tokens := Split(text);
    if tokens.Err? {
      return Err(tokens.error);
    }
    result := ParseFilter(r, tokens.value);
    if result.Ok? {
      ParsedOk(r, tokens.value);
    }
  }

  // ---------------------------------------------------------------- when splitting fails

  function Quotes(text: string): nat {
    if text == "" then 0 else Quotes(text[..|text| - 1]) + if text[|text| - 1] == '"' then 1 else 0
  }

  lemma {:induction false} QuoteParity(text: string)
    ensures Feed(START, text).inQuote <==> Quotes(text) % 2 == 1
  {
    if text == "" {
    } else {
      QuoteParity(text[..|text| - 1]);
    }
  }

  /** Splitting fails exactly on an odd number of quotes, wherever they stand. */
  lemma {:induction false} FailsOnOddQuotes(text: string)
    ensures Tokenize(text).Err? <==> Quotes(text) % 2 == 1
  {
    QuoteParity(text);
  }

  // ---------------------------------------------------------------- writing tokens and reading them back

  lemma {:induction false} FeedAppend(s: Splitter, a: string, b: string)
    ensures Feed(s, a + b) == Feed(Feed(s, a), b)
  {
    hide Step;
    if b == "" {
      assert a + b == a;
    } else {
      assert (a + b)[..|a + b| - 1] == a + b[..|b| - 1];
      FeedAppend(s, a, b[..|b| - 1]);
    }
  }

  lemma FeedOne(s: Splitter, c: char)
    ensures Feed(s, [c]) == Step(s, c)
  {
    assert [c][..0] == "";
    assert Feed(s, "") == s;
  }

  /** A token that can be written: a word, or a text search in quotes. */
  predicate Writable(t: Token) {
    if t.quoted then '"' !in t.text
    else t.text != "" && !t.not_ && forall c :: c in t.text ==> c != '"' && !IsBlank(c)
  }

  function Write(t: Token): string {
    if t.quoted then (if t.not_ then "-" else "") + "\"" + t.text + "\"" else t.text
  }

  function WriteAll(tokens: seq<Token>): string {
    if tokens == [] then "" else WriteAll(tokens[..|tokens| - 1]) + Write(tokens[|tokens| - 1]) + " "
  }

  predicate Between(s: Splitter) {
    s == START.(out := s.out)
  }

  /** Characters that neither open nor end anything are taken as they are. */
  lemma {:induction false} FeedPlain(s: Splitter, text: string)
    requires '"' !in text && (s.inQuote || (!s.quoted && forall c :: c in text ==> !IsBlank(c)))
    ensures Feed(s, text) == if text == "" then s else s.(current := s.current + text, started := true)
  {
    if text == "" {
    } else {
      var before, last := text[..|text| - 1], text[|text| - 1];
      assert last in text && forall c :: c in before ==> c in text;
      FeedPlain(s, before);
      assert before + [last] == text;
      assert s.current + before + [last] == s.current + text;
      assert s.current + "" == s.current;
    }
  }

  lemma FeedSearch(s: Splitter, t: Token)
    requires Between(s) && t.quoted && Writable(t)
    ensures Feed(s, Write(t)) == s.(current := t.text, quoted := true, not_ := t.not_, started := true)
  {
    var quote := "\"";
    var dash := if t.not_ then "-" else "";
    var s1 := Feed(s, dash);
    assert s1 == if t.not_ then s.(current := "-", started := true) else s by {
      if t.not_ { FeedOne(s, '-'); }
    }
    FeedOne(s1, '"');
    var s2 := Step(s1, '"');
    assert s2 == s.(quoted := true, not_ := t.not_, started := true, inQuote := true);
    FeedPlain(s2, t.text);
    var s3 := Feed(s2, t.text);
    assert s3 == s2.(current := t.text);
    FeedOne(s3, '"');
    FeedAppend(s, dash, quote);
    FeedAppend(s, dash + quote, t.text);
    FeedAppend(s, dash + quote + t.text, quote);
  }

  lemma FeedToken(s: Splitter, t: Token)
    requires Between(s) && Writable(t)
    ensures Feed(s, Write(t) + " ") == s.(out := s.out + [t])
  {
    if t.quoted {
      FeedSearch(s, t);
    } else {
      FeedPlain(s, t.text);
      assert "" + t.text == t.text;
    }
    FeedAppend(s, Write(t), " ");
    FeedOne(Feed(s, Write(t)), ' ');
  }

  lemma {:induction false} FeedAll(tokens: seq<Token>)
    requires forall t :: t in tokens ==> Writable(t)
    ensures Feed(START, WriteAll(tokens)) == START.(out := tokens)
  {
    hide Write, Writable;
    if tokens == [] {
    } else {
      var before, last := tokens[..|tokens| - 1], tokens[|tokens| - 1];
      FeedAll(before);
      FeedToken(START.(out := before), last);
      FeedAppend(START, WriteAll(before), Write(last) + " ");
      assert WriteAll(tokens) == WriteAll(before) + (Write(last) + " ");
      assert before + [last] == tokens;
    }
  }

  /** Written tokens read back: words with no quote or blank, searches with anything but a quote. */
  lemma TokensReadBack(tokens: seq<Token>)
    requires forall t :: t in tokens ==> Writable(t)
    ensures Tokenize(WriteAll(tokens)) == Ok(tokens)
  {
    FeedAll(tokens);
  }

  // ---------------------------------------------------------------- a minus that is lost

  /**
   A leading minus does not always negate: in front of a quoted start with more text behind the
   closing quote it is dropped, and the token is parsed as if it had not been written.
   */
  lemma MinusBeforeQuoteIsLost(r: Readers, head: string, tail: string)
    requires '"' !in head && tail != "" && forall c :: c in tail ==> c != '"' && !IsBlank(c)
    ensures Tokenize("-\"" + head + "\"" + tail) == Ok([Token(head + tail, false, true)])
    ensures ParseToken(r, Token(head + tail, false, true)) == ParseToken(r, Token(head + tail, false, false))
  {
    var search := Token(head, true, true);
    FeedSearch(START, search);
    var s := Feed(START, Write(search));
    assert Write(search) == "-\"" + head + "\"";
    FeedAppend(START, Write(search), tail);
    FeedBehind(s, tail);
    assert Write(search) + tail == "-\"" + head + "\"" + tail;
    assert EndToken(Feed(s, tail)).out == [Token(head + tail, false, true)];
  }

  lemma {:induction false} FeedBehind(s: Splitter, tail: string)
    requires s.started && !s.inQuote && forall c :: c in tail ==> c != '"' && !IsBlank(c)
    ensures Feed(s, tail) == s.(current := s.current + tail, quoted := s.quoted && tail == "")
  {
    if tail == "" {
      assert s.current + tail == s.current;
    } else {
      var before, last := tail[..|tail| - 1], tail[|tail| - 1];
      assert last in tail && forall c :: c in before ==> c in tail;
      FeedBehind(s, before);
      assert s.current + before + [last] == s.current + tail by { assert before + [last] == tail; }
    }
  }
}
