/**
 The aggregator and the upsert as the loops they are: an ordered list of groups with minute rows
 found by scanning, then one statement per group and per minute inside a transaction.
 */
module ExceptionStore {
  import opened Prelude
  import opened UniqueValues
  import opened Lines
  import opened ExceptionTables
  import opened ExceptionLines

  datatype ListedMinute = ListedMinute(at: int, minute: Minute)

  datatype ListedGroup = ListedGroup(
    uid: string, dump: string, firstAt: int, lastAt: int, count: nat, minutes: seq<ListedMinute>)

  ghost predicate DistinctMinutes(ms: seq<ListedMinute>) {
    forall i, j :: 0 <= i < j < |ms| ==> ms[i].at != ms[j].at
  }

  /** Minute rows by minute; a minute occurs once in a list. */
  function ByMinute(ms: seq<ListedMinute>): map<int, Minute> {
    if ms == [] then map[] else ByMinute(ms[..|ms| - 1])[ms[|ms| - 1].at := ms[|ms| - 1].minute]
  }

  function AsGroup(g: ListedGroup): Group {
    Group(g.dump, g.firstAt, g.lastAt, g.count, ByMinute(g.minutes))
  }

  function AsGroups(groups: map<string, ListedGroup>): map<string, Group> {
    map u | u in groups :: AsGroup(groups[u])
  }

  lemma {:induction false} ByMinuteAt(ms: seq<ListedMinute>, i: nat)
    requires DistinctMinutes(ms) && i < |ms|
    ensures ms[i].at in ByMinute(ms) && ByMinute(ms)[ms[i].at] == ms[i].minute
  {
    if i < |ms| - 1 { ByMinuteAt(ms[..|ms| - 1], i); }
  }

  lemma {:induction false} ByMinuteKeys(ms: seq<ListedMinute>)
    ensures forall at :: at in ByMinute(ms) <==> exists i :: 0 <= i < |ms| && ms[i].at == at
  {
    if ms == [] {
    } else {
      var before := ms[..|ms| - 1];
      ByMinuteKeys(before);
      forall at | at in ByMinute(before) ensures exists i :: 0 <= i < |ms| && ms[i].at == at {
        var i :| 0 <= i < |before| && before[i].at == at;
        assert ms[i].at == at;
      }
    }
  }

  /** Replacing one minute row of the list replaces it in the map. */
  lemma {:induction false} ByMinuteUpdate(ms: seq<ListedMinute>, i: nat, m: Minute)
    requires DistinctMinutes(ms) && i < |ms|
    ensures ByMinute(ms[i := ListedMinute(ms[i].at, m)]) == ByMinute(ms)[ms[i].at := m]
    ensures DistinctMinutes(ms[i := ListedMinute(ms[i].at, m)])
  {
    var updated := ms[i := ListedMinute(ms[i].at, m)];
    if i < |ms| - 1 {
      ByMinuteUpdate(ms[..|ms| - 1], i, m);
      assert updated[..|ms| - 1] == ms[..|ms| - 1][i := ListedMinute(ms[i].at, m)];
    } else {
      assert updated[..|ms| - 1] == ms[..|ms| - 1];
    }
  }

  /** The aggregator of one pass; `records` is what it was given so far. */
  class Aggregator {
    var order: seq<string>
    var groups: map<string, ListedGroup>
    ghost var records: seq<Record>

    ghost predicate Valid()
      reads this
    {
      && Distinct(order) && (forall u :: u in order <==> u in groups)
      && (forall u :: u in groups ==> groups[u].uid == u && groups[u].count > 0 && DistinctMinutes(groups[u].minutes))
      && AsGroups(groups) == Aggregate(records)
    }

    constructor ()
      ensures Valid() && records == []
    {
      order, groups, records := [], map[], [];
    }

    /** Adds one minute occurrence to a list, scanning for its minute. */
    static method AddToMinutes(minutes: seq<ListedMinute>, r: Record) returns (out: seq<ListedMinute>)
      requires DistinctMinutes(minutes)
      ensures DistinctMinutes(out)
      ensures ByMinute(out) == ByMinute(minutes)[MinuteOf(r.ts) := AddMinute(Find(ByMinute(minutes), MinuteOf(r.ts)), r)]
    {
      hide AddMinute, Append;
      var at := MinuteOf(r.ts);
      var index := 0;
      while index < |minutes| && minutes[index].at != at
        invariant 0 <= index <= |minutes|
        invariant forall i :: 0 <= i < index ==> minutes[i].at != at
      {
        index := index + 1;
      }
      ByMinuteKeys(minutes);
      out := minutes;
      if index == |minutes| {
        out := out + [ListedMinute(at, Minute(0, r.message, r.tags, r.description, [], []))];
        assert out[..|minutes|] == minutes;
      } else {
        ByMinuteAt(minutes, index);
      }
      ByMinuteAt(out, index);
      var m := out[index].minute;
      var users := AppendUniqueValues(m.users, [r.user]);
      var ips := AppendUniqueValues(m.ips, [r.ip]);
      ByMinuteUpdate(out, index, m.(count := m.count + 1, users := users, ips := ips));
      AddMinuteIs(Find(ByMinute(minutes), at), m, r);
      out := out[index := ListedMinute(at, m.(count := m.count + 1, users := users, ips := ips))];
    }

    /** The groups in the order of their first occurrence. */
    method Result() returns (gs: seq<ListedGroup>)
      requires Valid()
      ensures Batch(gs) && ByUid(gs) == Aggregate(records)
    {
      hide Aggregate, AsGroup, DistinctMinutes, Batch;
      gs := [];
      for i := 0 to |order|
        invariant |gs| == i
        invariant forall j :: 0 <= j < i ==> order[j] in groups && gs[j] == groups[order[j]]
      {
        assert order[i] in order;
        gs := gs + [groups[order[i]]];
      }
      OrderedBatch(order, gs);
      OrderedByUid(order, groups, gs);
      assert (map u | u in order :: AsGroup(groups[u])) == AsGroups(groups);
    }

    method Add(r: Record)
      requires Valid()
      modifies this
      ensures Valid() && records == old(records) + [r]
    {
      hide AddMinute, AddGroup, Aggregate, ByMinute;
      ghost var known := Find(AsGroups(groups), r.uid);
      var isNew := r.uid !in groups;
      var g := if isNew then ListedGroup(r.uid, "", r.ts, GO_ZERO, 0, []) else groups[r.uid];
      if isNew {
        order := order + [r.uid];
      }
      var minutes := AddToMinutes(g.minutes, r);
      var g' := ListedGroup(
        r.uid,
        if g.dump == "" && r.dump != "" then r.dump else g.dump,
        if g.count == 0 || r.ts < g.firstAt then r.ts else g.firstAt,
        if r.ts > g.lastAt then r.ts else g.lastAt,
        g.count + 1,
        minutes);
      GroupAdds(g, g', r, known);
      AggregateStep(records, r);
      GroupPut(groups, g');
      groups := groups[r.uid := g'];
      records := records + [r];
    }
  }

  lemma GroupPut(groups: map<string, ListedGroup>, g: ListedGroup)
    ensures AsGroups(groups[g.uid := g]) == AsGroups(groups)[g.uid := AsGroup(g)]
  {
    hide AsGroup;
  }

  lemma AggregateStep(records: seq<Record>, r: Record)
    ensures Aggregate(records + [r]) == Aggregate(records)[r.uid := AddGroup(Find(Aggregate(records), r.uid), r)]
  {
    assert (records + [r])[..|records|] == records;
  }

  lemma GroupAdds(g: ListedGroup, g': ListedGroup, r: Record, known: Option<Group>)
    requires known == None ==> g == ListedGroup(r.uid, "", r.ts, GO_ZERO, 0, [])
    requires known.Some? ==> known.value == AsGroup(g) && g.count > 0
    requires g'.dump == (if g.dump == "" && r.dump != "" then r.dump else g.dump) && g'.count == g.count + 1
    requires g'.firstAt == (if g.count == 0 || r.ts < g.firstAt then r.ts else g.firstAt)
    requires g'.lastAt == if r.ts > g.lastAt then r.ts else g.lastAt
    requires
      ByMinute(g'.minutes) == ByMinute(g.minutes)[MinuteOf(r.ts) := AddMinute(Find(ByMinute(g.minutes), MinuteOf(r.ts)), r)]
    ensures AsGroup(g') == AddGroup(known, r)
  {
    hide AddMinute;
    if known.None? { assert ByMinute(g.minutes) == map[]; }
  }

  lemma AddMinuteIs(known: Option<Minute>, m: Minute, r: Record)
    requires m == if known.Some? then known.value else Minute(0, r.message, r.tags, r.description, [], [])
    ensures AddMinute(known, r) == m.(count := m.count + 1, users := Append(m.users, [r.user]), ips := Append(m.ips, [r.ip]))
  {
  }

  // ---------------------------------------------------------------- the upserts

  /** The minute table after merging some minutes of one group. */
  function MergeMinutes(table: map<(string, int), Minute>, uid: string, add: map<int, Minute>): map<(string, int), Minute> {
    map k | k in table.Keys + (set at | at in add :: (uid, at)) ::
      if k.0 == uid && k.1 in add then MergeMinute(Find(table, k), add[k.1]) else table[k]
  }

  function SaveGroup(t: Tables, uid: string, g: Group): Tables {
    Tables(t.groups[uid := MergeGroup(Find(t.groups, uid), g)], MergeMinutes(t.minutes, uid, g.minutes))
  }

  lemma MergeNone(table: map<(string, int), Minute>, uid: string)
    ensures MergeMinutes(table, uid, map[]) == table
  {
  }

  lemma MergeOneMore(table: map<(string, int), Minute>, uid: string, add: map<int, Minute>, at: int, m: Minute)
    requires at !in add
    ensures
      var merged := MergeMinutes(table, uid, add);
      MergeMinutes(table, uid, add[at := m]) == merged[(uid, at) := MergeMinute(Find(merged, (uid, at)), m)]
  {
    hide MergeMinute;
    var merged, more := MergeMinutes(table, uid, add), MergeMinutes(table, uid, add[at := m]);
    assert more.Keys == merged.Keys + {(uid, at)};
  }

  lemma FindMerged(table: map<(string, int), Minute>, uid: string, add: map<int, Minute>, k: (string, int))
    ensures Find(MergeMinutes(table, uid, add), k) ==
      if k.0 == uid && k.1 in add then Some(MergeMinute(Find(table, k), add[k.1])) else Find(table, k)
  {
    hide MergeMinute;
    var (u, at) := k;
    assert k == (u, at);
  }

  lemma SaveOneMoreGroups(t: Tables, groups: map<string, Group>, uid: string, g: Group)
    requires uid !in groups
    ensures Save(t, groups[uid := g]).groups == SaveGroup(Save(t, groups), uid, g).groups
  {
    hide MergeMinute, MergeGroup, MinuteKeys, MergeMinutes;
  }

  lemma SaveOneMoreMinutes(t: Tables, groups: map<string, Group>, uid: string, g: Group, k: (string, int))
    requires uid !in groups
    ensures Find(Save(t, groups[uid := g]).minutes, k) == Find(SaveGroup(Save(t, groups), uid, g).minutes, k)
  {
    hide Save, MergeMinutes, MergeMinute, MergeGroup;
    SavedMinute(t, groups[uid := g], k);
    SavedMinute(t, groups, k);
    FindMerged(Save(t, groups).minutes, uid, g.minutes, k);
  }

  /** Saving one more group of a pass. */
  lemma SaveOneMore(t: Tables, groups: map<string, Group>, uid: string, g: Group)
    requires uid !in groups
    ensures Save(t, groups[uid := g]) == SaveGroup(Save(t, groups), uid, g)
  {
    hide Save, SaveGroup;
    var left, right := Save(t, groups[uid := g]), SaveGroup(Save(t, groups), uid, g);
    SaveOneMoreGroups(t, groups, uid, g);
    forall k ensures Find(left.minutes, k) == Find(right.minutes, k) {
      SaveOneMoreMinutes(t, groups, uid, g, k);
    }
    SameMap(left.minutes, right.minutes);
  }

  function ByUid(gs: seq<ListedGroup>): map<string, Group> {
    if gs == [] then map[] else ByUid(gs[..|gs| - 1])[gs[|gs| - 1].uid := AsGroup(gs[|gs| - 1])]
  }

  lemma {:induction false} ByUidKeys(gs: seq<ListedGroup>)
    ensures forall u :: u in ByUid(gs) <==> exists i :: 0 <= i < |gs| && gs[i].uid == u
  {
    if gs == [] {
    } else {
      var before := gs[..|gs| - 1];
      ByUidKeys(before);
      forall u | u in ByUid(before) ensures exists i :: 0 <= i < |gs| && gs[i].uid == u {
        var i :| 0 <= i < |before| && before[i].uid == u;
        assert gs[i].uid == u;
      }
    }
  }

  /** The groups one pass hands over: fingerprints and minutes occur once. */
  ghost predicate Batch(gs: seq<ListedGroup>) {
    && (forall i, j :: 0 <= i < j < |gs| ==> gs[i].uid != gs[j].uid)
    && (forall i :: 0 <= i < |gs| ==> DistinctMinutes(gs[i].minutes))
  }

  /** The database of one app: the two tables, the warning rows and the offsets of its files. */
  class Database {
    var tables: Tables
    var warnings: seq<Warning>
    var saved: map<string, Offset>

    function Contents(): Store
      reads this
    {
      Store(tables, warnings, saved)
    }

    constructor ()
      ensures Contents() == EMPTY
    {
      tables, warnings, saved := NO_TABLES, [], map[];
    }

    /** Select, then insert or update, one minute row. */
    method SaveMinute(uid: string, at: int, m: Minute)
      modifies this`tables
      ensures tables == Tables(old(tables.groups), old(tables.minutes)[(uid, at) := MergeMinute(Find(old(tables.minutes), (uid, at)), m)])
    {
      var key := (uid, at);
      if key !in tables.minutes {
        tables := tables.(minutes := tables.minutes[key := m]);
      } else {
        var row := tables.minutes[key];
        var users := AppendUniqueValues(row.users, m.users);
        var ips := AppendUniqueValues(row.ips, m.ips);
        tables := tables.(minutes := tables.minutes[key := row.(count := row.count + m.count, users := users, ips := ips)]);
      }
    }

    method SaveMinutes(uid: string, ms: seq<ListedMinute>)
      requires DistinctMinutes(ms)
      modifies this`tables
      ensures tables == Tables(old(tables.groups), MergeMinutes(old(tables.minutes), uid, ByMinute(ms)))
    {
      hide MergeMinute, MergeMinutes;
      MergeNone(tables.minutes, uid);
      for i := 0 to |ms|
        invariant tables == Tables(old(tables.groups), MergeMinutes(old(tables.minutes), uid, ByMinute(ms[..i])))
      {
        assert ms[..i + 1][..i] == ms[..i];
        ByMinuteKeys(ms[..i]);
        MergeOneMore(old(tables.minutes), uid, ByMinute(ms[..i]), ms[i].at, ms[i].minute);
        SaveMinute(uid, ms[i].at, ms[i].minute);
      }
      assert ms[..|ms|] == ms;
    }

    method SaveGroups(gs: seq<ListedGroup>)
      requires Batch(gs)
      modifies this`tables
      ensures tables == Save(old(tables), ByUid(gs))
    {
      hide Save, MergeMinutes, MergeGroup, AsGroup;
      SaveNothing(tables);
      for i := 0 to |gs|
        invariant tables == Save(old(tables), ByUid(gs[..i]))
      {
        assert gs[..i + 1][..i] == gs[..i];
        ByUidKeys(gs[..i]);
        SaveOneMore(old(tables), ByUid(gs[..i]), gs[i].uid, AsGroup(gs[i]));
        AsGroupMinutes(gs[i]);
        tables := tables.(groups := tables.groups[gs[i].uid := MergeGroup(Find(tables.groups, gs[i].uid), AsGroup(gs[i]))]);
        SaveMinutes(gs[i].uid, gs[i].minutes);
      }
      assert gs[..|gs|] == gs;
    }

    method UpdateResolved(uid: string, resolved: bool) returns (found: bool)
      modifies this`tables
      ensures found == (uid in old(tables.groups)) && tables == SetResolved(old(tables), uid, resolved)
    {
      found := uid in tables.groups;
      if found {
        var row := tables.groups[uid];
        row := if resolved then row.(resolved := true) else row.(resolved := false, ignored := false);
        tables := tables.(groups := tables.groups[uid := row]);
      }
    }

    method UpdateIgnored(uid: string, ignored: bool) returns (found: bool)
      modifies this`tables
      ensures found == (uid in old(tables.groups)) && tables == SetIgnored(old(tables), uid, ignored)
    {
      found := uid in tables.groups;
      if found {
        var row := tables.groups[uid];
        row := if ignored then row.(ignored := true, resolved := true) else row.(ignored := false);
        tables := tables.(groups := tables.groups[uid := row]);
      }
    }

    /** One transaction: groups, minutes, warning rows and offset together, or nothing. */
    method AppendExceptions(gs: seq<ListedGroup>, rejected: seq<Warning>, path: string, inode: nat, next: nat, commits: bool)
      returns (ok: bool)
      requires Batch(gs)
      modifies this
      ensures ok == commits
      ensures Contents() ==
        if commits then Store(Save(old(tables), ByUid(gs)), old(warnings) + rejected, old(saved)[path := Offset(inode, next)])
        else old(Contents())
    {
      var before := tables;
      SaveGroups(gs);
      if commits {
        warnings := warnings + rejected;
        saved := saved[path := Offset(inode, next)];
      } else {
        tables := before;
      }
      ok := commits;
    }

    method SaveTailOffset(path: string, inode: nat, at: nat, commits: bool)
      modifies this`saved
      ensures saved == if commits then old(saved)[path := Offset(inode, at)] else old(saved)
    {
      if commits { saved := saved[path := Offset(inode, at)]; }
    }

    /**
     One pass over a file whose bytes are `b`: the lines after the saved offset go through the
     aggregator, and groups, warnings and the new offset are committed in one transaction.
     */
    method TailExceptions(c: Codec, path: string, inode: nat, b: string, now: int, commits: bool)
      modifies this
      ensures Contents() == Tailed(c, old(Contents()), path, inode, b, now, commits)
    {
      hide Aggregate, Save, Batch, ByUid, Whole, LineEnd;
      var start := if path in saved then saved[path].at else 0;
      if path !in saved || saved[path].inode != inode || |b| < start {
        start := 0;
      }
      if start >= |b| {
        if path !in saved || saved[path].inode != inode {
          SaveTailOffset(path, inode, start, commits);
        }
      } else {
        var gs, rejected, next := ReadExceptions(c, path, b, start, now);
        var _ := AppendExceptions(gs, rejected, path, inode, next, commits);
      }
    }
  }

  /** The reading loop of one pass: whole lines from `start`, at most a batch of them. */
  method ReadExceptions(c: Codec, path: string, b: string, start: nat, now: int)
    returns (gs: seq<ListedGroup>, rejected: seq<Warning>, next: nat)
    requires start <= |b|
    ensures
      var lines := Whole(b[start..], c.batch);
      var entries := Entries(path, lines, now);
      && Batch(gs) && ByUid(gs) == Aggregate(Records(c, entries))
      && rejected == Warnings(c, entries)
      && next == start + |Text(lines)|
  {
    hide Aggregate, Batch, ByUid, Whole, LineEnd, Records, Warnings, Text, Entries, Aggregator.Valid;
    var aggregator := new Aggregator();
    rejected, next := [], start;
    var rest, left := b[start..], c.batch;
    ghost var lines: seq<string> := [];
    NothingRead(c, path, now);
    while left > 0 && LineEnd(rest, 0).Some?
      invariant fresh(aggregator) && aggregator.Valid()
      invariant lines + Whole(rest, left) == Whole(b[start..], c.batch)
      invariant aggregator.records == Records(c, Entries(path, lines, now))
      invariant rejected == Warnings(c, Entries(path, lines, now))
      invariant next == start + |Text(lines)|
      decreases left
    {
      var end := LineEnd(rest, 0).value;
      var line := rest[..end];
      WholeSplits(rest, left);
      LineRead(c, path, lines, line, now);
      next := next + |line|;
      if !c.blank(line) {
        match Parse(c, line, now) {
          case Good(record) => aggregator.Add(record);
          case Bad(error) =>
            rejected := rejected + [Warning(now, path, "exception rejected: " + error, Chomp(line))];
        }
      }
      assert lines + ([line] + Whole(rest[end..], left - 1)) == (lines + [line]) + Whole(rest[end..], left - 1);
      lines := lines + [line];
      rest, left := rest[end..], left - 1;
    }
    WholeNone(rest, left);
    assert lines + [] == lines;
    gs := aggregator.Result();
  }

  lemma NothingRead(c: Codec, path: string, now: int)
    ensures Entries(path, [], now) == [] && Records(c, []) == [] && Warnings(c, []) == [] && Text([]) == ""
  {
  }

  lemma LineRead(c: Codec, path: string, lines: seq<string>, line: string, now: int)
    ensures
      var before, after := Entries(path, lines, now), Entries(path, lines + [line], now);
      && Records(c, after) == Records(c, before) + Accepted(c, Entry(path, line, now))
      && Warnings(c, after) == Warnings(c, before) + Refused(c, Entry(path, line, now))
      && |Text(lines + [line])| == |Text(lines)| + |line|
  {
    hide Accepted, Refused;
    var after := Entries(path, lines + [line], now);
    assert after[..|after| - 1] == Entries(path, lines, now);
    TextAppend(lines, [line]);
    assert Text([line]) == line + Text([]);
  }

  lemma AsGroupMinutes(g: ListedGroup)
    ensures AsGroup(g).minutes == ByMinute(g.minutes)
  {
  }

  lemma OrderedBatch(order: seq<string>, gs: seq<ListedGroup>)
    requires Distinct(order) && |gs| == |order|
    requires forall i :: 0 <= i < |order| ==> gs[i].uid == order[i] && DistinctMinutes(gs[i].minutes)
    ensures Batch(gs)
  {
    hide DistinctMinutes;
  }

  /** A list in the order of the fingerprints holds the groups of the map. */
  lemma {:induction false} OrderedByUid(order: seq<string>, groups: map<string, ListedGroup>, gs: seq<ListedGroup>)
    requires Distinct(order) && forall u :: u in order ==> u in groups && groups[u].uid == u
    requires |gs| == |order| && forall i :: 0 <= i < |order| ==> order[i] in order && gs[i] == groups[order[i]]
    ensures ByUid(gs) == map u | u in order :: AsGroup(groups[u])
  {
    hide AsGroup;
    if order == [] {
    } else {
      var before, last := order[..|order| - 1], order[|order| - 1];
      assert order == before + [last];
      assert forall u :: u in before ==> u in order;
      OrderedByUid(before, groups, gs[..|gs| - 1]);
    }
  }
}
