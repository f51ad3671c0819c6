/**
 The lines of exception files: what one line means, what one pass reads of a file, and the tables,
 warning rows and offset it commits.
 */
module ExceptionLines {
  import opened Prelude
  import opened Lines
  import opened ExceptionTables

  datatype Outcome<T> = Good(value: T) | Bad(error: string)

  /** A decoded line; None is a missing or null field. */
  datatype Fields = Fields(
    uid: string, message: Option<string>, dump: Option<string>, user: Option<string>, ip: Option<string>,
    tags: seq<string>, description: Option<string>, ts: Option<string>)

  /** JSON and time decoding stay abstract; `batch` bounds the lines of one pass (50000 in the daemon). */
  datatype Codec = Codec(
    batch: nat,
    blank: string -> bool,
    decode: string -> Outcome<Fields>,
    time: string -> Option<int>)

  function OrEmpty(value: Option<string>): string {
    if value.Some? then value.value else ""
  }

  /** A uid and a message are needed; a line without a time is stamped with the clock of the pass. */
  function Parse(c: Codec, line: string, now: int): Outcome<Record> {
    match c.decode(line)
    case Bad(error) => Bad(error)
    case Good(f) =>
      if f.uid == "" then Bad("uid is required")
      else if f.message.None? then Bad("message is required")
      else if f.ts.Some? && c.time(f.ts.value).None? then Bad("ts is not RFC3339")
      else
        var ts := if f.ts.Some? then c.time(f.ts.value).value else now;
        Good(Record(f.uid, ts, OrEmpty(f.dump), f.message.value, f.tags, OrEmpty(f.description), OrEmpty(f.user), OrEmpty(f.ip)))
  }

  /** The record has the line's fields, an absent one empty, and its time or else the clock of the pass. */
  ghost predicate IsRecordOf(c: Codec, f: Fields, now: int, r: Record) {
    && r.uid == f.uid && f.message == Some(r.message) && r.tags == f.tags
    && (f.ts.Some? ==> c.time(f.ts.value) == Some(r.ts)) && (f.ts.None? ==> r.ts == now)
    && (f.dump == Some(r.dump) || (f.dump == None && r.dump == ""))
    && (f.description == Some(r.description) || (f.description == None && r.description == ""))
    && (f.user == Some(r.user) || (f.user == None && r.user == "")) && (f.ip == Some(r.ip) || (f.ip == None && r.ip == ""))
  }

  /** A line is a record exactly when it decodes to one with a uid, a message and no unreadable time. */
  lemma ParseMeans(c: Codec, line: string, now: int)
    ensures Parse(c, line, now).Good? <==>
      c.decode(line).Good? && var f := c.decode(line).value; |f.uid| > 0 && f.message != None && (f.ts != None ==> c.time(f.ts.value) != None)
    ensures Parse(c, line, now).Good? ==> IsRecordOf(c, c.decode(line).value, now, Parse(c, line, now).value)
    ensures c.decode(line).Bad? ==> Parse(c, line, now) == Bad(c.decode(line).error)
  {
  }

  /** The log row that reports a rejected line. */
  datatype Warning = Warning(at: int, path: string, message: string, raw: string)

  /** One line as one pass read it. */
  datatype Entry = Entry(path: string, line: string, now: int)

  function Accepted(c: Codec, e: Entry): seq<Record> {
    if c.blank(e.line) then []
    else
      match Parse(c, e.line, e.now)
      case Good(r) => [r]
      case Bad(_) => []
  }

  function Refused(c: Codec, e: Entry): seq<Warning> {
    if c.blank(e.line) then []
    else
      match Parse(c, e.line, e.now)
      case Good(_) => []
      case Bad(error) => [Warning(e.now, e.path, "exception rejected: " + error, Chomp(e.line))]
  }

  /** Why a line is no record: what the decoder says, or the first thing it lacks. */
  predicate Reason(c: Codec, line: string, why: string) {
    match c.decode(line)
    case Bad(error) => why == error
    case Good(f) =>
      || (f.uid == "" && why == "uid is required")
      || (f.uid != "" && f.message == None && why == "message is required")
      || (f.uid != "" && f.message != None && f.ts != None && c.time(f.ts.value) == None && why == "ts is not RFC3339")
  }

  /** A rejected line leaves one warning, with the clock, the file, the reason and the line without its end. */
  lemma WarningMeans(c: Codec, e: Entry)
    ensures c.blank(e.line) || Parse(c, e.line, e.now).Good? ==> Refused(c, e) == []
    ensures !c.blank(e.line) && Parse(c, e.line, e.now).Bad? ==>
      exists why :: Reason(c, e.line, why) && Refused(c, e) == [Warning(e.now, e.path, "exception rejected: " + why, Chomp(e.line))]
    ensures !c.blank(e.line) ==> Accepted(c, e) == if Parse(c, e.line, e.now).Good? then [Parse(c, e.line, e.now).value] else []
  {
    if !c.blank(e.line) && Parse(c, e.line, e.now).Bad? {
      assert Reason(c, e.line, Parse(c, e.line, e.now).error);
    }
  }

  function Records(c: Codec, entries: seq<Entry>): seq<Record> {
    if entries == [] then []
    else Records(c, entries[..|entries| - 1]) + Accepted(c, entries[|entries| - 1])
  }

  function Warnings(c: Codec, entries: seq<Entry>): seq<Warning> {
    if entries == [] then []
    else Warnings(c, entries[..|entries| - 1]) + Refused(c, entries[|entries| - 1])
  }

  function Entries(path: string, lines: seq<string>, now: int): seq<Entry> {
    seq(|lines|, i requires 0 <= i < |lines| => Entry(path, lines[i], now))
  }

  lemma {:induction false} RecordsAppend(c: Codec, a: seq<Entry>, b: seq<Entry>)
    ensures Records(c, a + b) == Records(c, a) + Records(c, b)
    ensures Warnings(c, a + b) == Warnings(c, a) + Warnings(c, b)
  {
    hide Accepted, Refused;
    if b == [] {
      assert a + b == a;
    } else {
      assert (a + b)[..|a + b| - 1] == a + b[..|b| - 1];
      RecordsAppend(c, a, b[..|b| - 1]);
    }
  }

  /** A line's meaning is free of the clock exactly when it is rejected or carries its own time. */
  lemma DatedIff(c: Codec, line: string)
    ensures (forall n, m :: Parse(c, line, n) == Parse(c, line, m)) <==>
      Parse(c, line, 0).Bad? || c.decode(line).value.ts.Some?
  {
    if Parse(c, line, 0).Good? && c.decode(line).value.ts.None? {
      assert Parse(c, line, 0).value.ts != Parse(c, line, 1).value.ts;
    }
  }

  /** Every line counts once: as a record, as a warning, or as blank. */
  lemma {:induction false} LinesAccounted(c: Codec, entries: seq<Entry>)
    ensures |Records(c, entries)| + |Warnings(c, entries)| + |Blanks(c, entries)| == |entries|
  {
    if entries == [] {
    } else {
      LinesAccounted(c, entries[..|entries| - 1]);
    }
  }

  function Blanks(c: Codec, entries: seq<Entry>): seq<Entry> {
    if entries == [] then []
    else
      var e := entries[|entries| - 1];
      Blanks(c, entries[..|entries| - 1]) + if c.blank(e.line) then [e] else []
  }

  // ---------------------------------------------------------------- whole lines of a text

  /** The first whole lines of a text, at most `n` of them. */
  function Whole(s: string, n: nat): (lines: seq<string>)
    ensures |lines| <= n
    decreases n
  {
    if n == 0 || LineEnd(s, 0).None? then []
    else [s[..LineEnd(s, 0).value]] + Whole(s[LineEnd(s, 0).value..], n - 1)
  }

  function Text(lines: seq<string>): string {
    if lines == [] then "" else lines[0] + Text(lines[1..])
  }

  /** Every element ends with its only newline. */
  ghost predicate AllWhole(lines: seq<string>) {
    forall i :: 0 <= i < |lines| ==> LineEnd(lines[i], 0) == Some(|lines[i]|)
  }

  lemma {:induction false} EndInPrefix(s: string, pos: nat, end: nat)
    requires pos <= end <= |s| && LineEnd(s, pos) == Some(end)
    ensures LineEnd(s[..end], pos) == Some(end)
    decreases |s| - pos
  {
    if s[pos] != '\n' { EndInPrefix(s, pos + 1, end); }
  }

  /** A whole line in front is read first. */
  lemma WholeStep(line: string, rest: string, n: nat)
    requires LineEnd(line, 0) == Some(|line|) && n > 0
    ensures Whole(line + rest, n) == [line] + Whole(rest, n - 1)
  {
    LineEndGrows(line, rest, 0);
    assert (line + rest)[..|line|] == line && (line + rest)[|line|..] == rest;
  }

  lemma WholeSplits(s: string, n: nat)
    requires n > 0 && LineEnd(s, 0).Some?
    ensures
      var line, rest := s[..LineEnd(s, 0).value], s[LineEnd(s, 0).value..];
      LineEnd(line, 0) == Some(|line|) && s == line + rest && Whole(s, n) == [line] + Whole(rest, n - 1)
  {
    EndInPrefix(s, 0, LineEnd(s, 0).value);
  }

  lemma WholeNone(s: string, n: nat)
    requires n == 0 || LineEnd(s, 0).None?
    ensures Whole(s, n) == []
  {
  }

  /** Reading whole lines takes a prefix of the text off, and nothing else. */
  lemma {:induction false} WholeIsPrefix(s: string, n: nat)
    ensures AllWhole(Whole(s, n)) && Text(Whole(s, n)) <= s
    decreases n
  {
    hide Whole, LineEnd;
    if n > 0 && LineEnd(s, 0).Some? {
      var end := LineEnd(s, 0).value;
      WholeSplits(s, n);
      WholeIsPrefix(s[end..], n - 1);
      assert s == s[..end] + s[end..];
    } else {
      WholeNone(s, n);
    }
  }

  /** Whole lines followed by anything are read back as those lines first. */
  lemma {:induction false} WholeReadsBack(lines: seq<string>, rest: string, n: nat)
    requires AllWhole(lines)
    ensures Whole(Text(lines) + rest, |lines| + n) == lines + Whole(rest, n)
  {
    hide Whole, LineEnd;
    if lines == [] {
      assert Text(lines) + rest == rest;
    } else {
      var more := Text(lines[1..]) + rest;
      assert Text(lines) + rest == lines[0] + more;
      WholeStep(lines[0], more, |lines| + n);
      WholeReadsBack(lines[1..], rest, n);
      assert lines == [lines[0]] + lines[1..];
    }
  }

  lemma NothingWhole(n: nat)
    ensures Whole("", n) == [] && Text([]) == ""
  {
  }

  /** One line alone in a text. */
  lemma OneWhole(line: string, n: nat)
    requires LineEnd(line, 0) == Some(|line|) && n > 0
    ensures Whole(line, n) == [line] && Text([line]) == line
  {
    hide Whole, LineEnd;
    WholeStep(line, "", n);
    NothingWhole(n - 1);
    assert line + "" == line && [line][1..] == [];
  }

  lemma {:induction false} TextAppend(a: seq<string>, b: seq<string>)
    ensures Text(a + b) == Text(a) + Text(b)
  {
    if a == [] {
      assert a + b == b;
    } else {
      assert (a + b)[1..] == a[1..] + b;
      TextAppend(a[1..], b);
    }
  }

  // ---------------------------------------------------------------- one pass

  datatype Offset = Offset(inode: nat, at: nat)

  /** What one app's database holds of its exception files. */
  datatype Store = Store(tables: Tables, warnings: seq<Warning>, saved: map<string, Offset>)

  const EMPTY: Store := Store(NO_TABLES, [], map[])

  /** Where a pass starts: the saved offset, unless the file was replaced or is shorter than it. */
  function StartAt(st: Store, path: string, inode: nat, size: nat): (start: nat)
    ensures start <= size
  {
    if path !in st.saved || st.saved[path].inode != inode || size < st.saved[path].at then 0 else st.saved[path].at
  }

  predicate NewFile(st: Store, path: string, inode: nat) {
    path !in st.saved || st.saved[path].inode != inode
  }

  function LinesRead(c: Codec, st: Store, path: string, inode: nat, b: string): seq<string> {
    Whole(b[StartAt(st, path, inode, |b|)..], c.batch)
  }

  /** The database after a pass; a pass whose one statement or transaction fails changes nothing. */
  function Tailed(c: Codec, st: Store, path: string, inode: nat, b: string, now: int, commits: bool): Store {
    var start := StartAt(st, path, inode, |b|);
    if !commits then st
    else if start == |b| then
      if NewFile(st, path, inode) then st.(saved := st.saved[path := Offset(inode, start)]) else st
    else
      var lines := LinesRead(c, st, path, inode, b);
      var entries := Entries(path, lines, now);
      Store(
        Save(st.tables, Aggregate(Records(c, entries))),
        st.warnings + Warnings(c, entries),
        st.saved[path := Offset(inode, start + |Text(lines)|)])
  }
}
