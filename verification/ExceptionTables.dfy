/**
 Exception groups: the figures of one pass, the tables they are merged into, and the tables that
 the occurrences one by one would give.
 */
module ExceptionTables {
  import opened Prelude
  import opened UniqueValues

  /** One parsed occurrence; ts counts nanoseconds. */
  datatype Record = Record(
    uid: string, ts: int, dump: string, message: string, tags: seq<string>, description: string, user: string, ip: string)

  /** One UTC minute of a group. */
  datatype Minute = Minute(
    count: nat, message: string, tags: seq<string>, description: string, users: seq<string>, ips: seq<string>)

  /** What one pass knows about a group. */
  datatype Group = Group(dump: string, firstAt: int, lastAt: int, count: nat, minutes: map<int, Minute>)

  /** A row of the exceptions table; its times are milliseconds. */
  datatype GroupRow = GroupRow(dump: string, firstAt: int, lastAt: int, count: nat, resolved: bool, ignored: bool)

  /** The exceptions table by fingerprint and the exception_logs table by fingerprint and minute. */
  datatype Tables = Tables(groups: map<string, GroupRow>, minutes: map<(string, int), Minute>)

  const MS: int := 1_000_000
  const MINUTE: int := 60_000 * MS

  /** The zero value of a Go time, which LastAt starts from. */
  const GO_ZERO: int := -62_135_596_800_000 * MS

  const NO_TABLES: Tables := Tables(map[], map[])

  function MinuteOf(ts: int): int {
    ts / MINUTE
  }

  function Milli(ts: int): int {
    ts / MS
  }

  function Min(a: int, b: int): int {
    if a < b then a else b
  }

  function Max(a: int, b: int): int {
    if a > b then a else b
  }

  // ---------------------------------------------------------------- within one pass

  /** The first occurrence of a minute owns its message, tags and description. */
  function AddMinute(known: Option<Minute>, r: Record): Minute {
    var m := if known.Some? then known.value else Minute(0, r.message, r.tags, r.description, [], []);
    m.(count := m.count + 1, users := Append(m.users, [r.user]), ips := Append(m.ips, [r.ip]))
  }

  function Find<K, V>(m: map<K, V>, k: K): Option<V> {
    if k in m then Some(m[k]) else None
  }

  function AddGroup(known: Option<Group>, r: Record): Group {
    var g := if known.Some? then known.value else Group("", r.ts, GO_ZERO, 0, map[]);
    var at := MinuteOf(r.ts);
    Group(
      if g.dump == "" then r.dump else g.dump,
      Min(g.firstAt, r.ts),
      Max(g.lastAt, r.ts),
      g.count + 1,
      g.minutes[at := AddMinute(Find(g.minutes, at), r)])
  }

  /** The groups of one pass. */
  function Aggregate(records: seq<Record>): map<string, Group> {
    if records == [] then map[]
    else
      var before, r := Aggregate(records[..|records| - 1]), records[|records| - 1];
      before[r.uid := AddGroup(Find(before, r.uid), r)]
  }

  // ---------------------------------------------------------------- into the tables

  function MergeMinute(known: Option<Minute>, m: Minute): Minute {
    if known.None? then m
    else
      var k := known.value;
      k.(count := k.count + m.count, users := Append(k.users, m.users), ips := Append(k.ips, m.ips))
  }

  /** The upsert: the first nonempty dump, the widest span, the sum; an occurrence reopens. */
  function MergeGroup(known: Option<GroupRow>, g: Group): GroupRow {
    if known.None? then GroupRow(g.dump, Milli(g.firstAt), Milli(g.lastAt), g.count, false, false)
    else
      var k := known.value;
      GroupRow(
        if k.dump == "" && g.dump != "" then g.dump else k.dump,
        Min(k.firstAt, Milli(g.firstAt)),
        Max(k.lastAt, Milli(g.lastAt)),
        k.count + g.count,
        k.ignored,
        k.ignored)
  }

  function MinuteKeys(groups: map<string, Group>): set<(string, int)> {
    set u, at | u in groups && at in groups[u].minutes :: (u, at)
  }

  /** The tables after committing the groups of one pass. */
  function Save(t: Tables, groups: map<string, Group>): Tables {
    Tables(
      map u | u in t.groups.Keys + groups.Keys ::
        if u in groups then MergeGroup(Find(t.groups, u), groups[u]) else t.groups[u],
      map k | k in t.minutes.Keys + MinuteKeys(groups) ::
        if k in MinuteKeys(groups) then MergeMinute(Find(t.minutes, k), groups[k.0].minutes[k.1]) else t.minutes[k])
  }

  /** The tables after each record in a transaction of its own. */
  function SaveEach(t: Tables, records: seq<Record>): Tables {
    if records == [] then t
    else Save(SaveEach(t, records[..|records| - 1]), Aggregate([records[|records| - 1]]))
  }

  // ---------------------------------------------------------------- flags and retention

  /** Reopening also clears the ignore flag; an unknown fingerprint changes nothing. */
  function SetResolved(t: Tables, uid: string, resolved: bool): Tables {
    if uid !in t.groups then t
    else
      var row := t.groups[uid];
      t.(groups := t.groups[uid := row.(resolved := resolved, ignored := resolved && row.ignored)])
  }

  /** Ignoring also resolves; clearing the flag leaves the group resolved. */
  function SetIgnored(t: Tables, uid: string, ignored: bool): Tables {
    if uid !in t.groups then t
    else
      var row := t.groups[uid];
      t.(groups := t.groups[uid := row.(ignored := ignored, resolved := ignored || row.resolved)])
  }

  /** Resolving and unignoring change their own flag alone; reopening and ignoring both, whatever they were. */
  lemma FlagsMean(t: Tables, uid: string)
    requires uid in t.groups
    ensures SetResolved(t, uid, true) == t.(groups := t.groups[uid := t.groups[uid].(resolved := true)])
    ensures SetResolved(t, uid, false) == t.(groups := t.groups[uid := t.groups[uid].(resolved := false, ignored := false)])
    ensures SetIgnored(t, uid, true) == t.(groups := t.groups[uid := t.groups[uid].(resolved := true, ignored := true)])
    ensures SetIgnored(t, uid, false) == t.(groups := t.groups[uid := t.groups[uid].(ignored := false)])
  {
  }

  /** Retention drops minute rows older than the cutoff, given in milliseconds. */
  function Prune(t: Tables, cutoff: int): Tables {
    t.(minutes := map k | k in t.minutes && k.1 * 60_000 >= cutoff :: t.minutes[k])
  }

  // ---------------------------------------------------------------- lists stay canonical

  ghost predicate MinuteOk(m: Minute) {
    Canonical(m.users) && Canonical(m.ips)
  }

  ghost predicate TablesOk(t: Tables) {
    forall k :: k in t.minutes ==> MinuteOk(t.minutes[k])
  }

  ghost predicate GroupsOk(groups: map<string, Group>) {
    forall u :: u in groups ==>
      groups[u].lastAt >= GO_ZERO && forall at :: at in groups[u].minutes ==> MinuteOk(groups[u].minutes[at])
  }

  lemma AppendCanonical(existing: seq<string>, values: seq<string>)
    ensures Canonical(Append(existing, values))
  {
    TakeAllCanonical([], existing);
    TakeAllCanonical(TakeAll([], existing), values);
  }

  lemma AddMinuteOk(known: Option<Minute>, r: Record)
    requires known.Some? ==> MinuteOk(known.value)
    ensures MinuteOk(AddMinute(known, r))
  {
    hide Canonical, Append;
    var m := if known.Some? then known.value else Minute(0, r.message, r.tags, r.description, [], []);
    AppendCanonical(m.users, [r.user]);
    AppendCanonical(m.ips, [r.ip]);
  }

  lemma MergeMinuteOk(known: Option<Minute>, m: Minute)
    requires (known.Some? ==> MinuteOk(known.value)) && MinuteOk(m)
    ensures MinuteOk(MergeMinute(known, m))
  {
    hide Canonical, Append;
    if known.Some? {
      AppendCanonical(known.value.users, m.users);
      AppendCanonical(known.value.ips, m.ips);
    }
  }

  lemma {:induction false} AggregateOk(records: seq<Record>)
    ensures GroupsOk(Aggregate(records))
  {
    if records == [] {
    } else {
      hide MinuteOk, AddMinute;
      var before, r := Aggregate(records[..|records| - 1]), records[|records| - 1];
      AggregateOk(records[..|records| - 1]);
      var known := if r.uid in before then Find(before[r.uid].minutes, MinuteOf(r.ts)) else None;
      AddMinuteOk(known, r);
    }
  }

  lemma SaveOk(t: Tables, groups: map<string, Group>)
    requires TablesOk(t) && GroupsOk(groups)
    ensures TablesOk(Save(t, groups))
  {
    hide MinuteOk, MergeMinute;
    var saved := Save(t, groups);
    forall k | k in saved.minutes ensures MinuteOk(saved.minutes[k]) {
      if k in MinuteKeys(groups) {
        MergeMinuteOk(Find(t.minutes, k), groups[k.0].minutes[k.1]);
      }
    }
  }

  // ---------------------------------------------------------------- one cell at a time

  /** One more value into a stored list. */
  lemma AppendOne(list: seq<string>, value: string)
    requires Canonical(list)
    ensures Append(list, [value]) == Take(list, value)
  {
    Reread(list);
    assert [value][..0] == [];
    assert TakeAll(list, []) == list;
  }

  lemma AppendList(out: seq<string>, list: seq<string>)
    requires Canonical(out)
    ensures Append(out, list) == TakeAll(out, list)
  {
    Reread(out);
  }

  /** The merge of a list that took one more value is the merge that then takes the value. */
  lemma ListStep(out: seq<string>, list: seq<string>, value: string)
    requires Canonical(out) && Canonical(list)
    ensures Append(out, Append(list, [value])) == Append(Append(out, list), Append([], [value]))
  {
    hide Take, TakeAll, Trimming.Trim;
    AppendOne(list, value);
    AppendList(out, Take(list, value));
    AppendList(out, list);
    TakeThenMerge(out, list, value);
    AppendCanonical(out, list);
    SingleList(Append(out, list), value);
  }

  lemma SingleList(out: seq<string>, value: string)
    requires Canonical(out)
    ensures Append(out, Append([], [value])) == Take(out, value)
  {
    hide Take, TakeAll, Trimming.Trim;
    assert Canonical([]);
    AppendOne([], value);
    AppendList(out, Take([], value));
    TakeThenMerge(out, [], value);
    NothingTaken(out);
  }

  lemma NothingTaken(out: seq<string>)
    ensures TakeAll(out, []) == out
  {
  }

  lemma MinuteStep(known: Option<Minute>, m: Minute, r: Record)
    requires (known.Some? ==> MinuteOk(known.value)) && MinuteOk(m)
    ensures MergeMinute(known, AddMinute(Some(m), r)) == MergeMinute(Some(MergeMinute(known, m)), AddMinute(None, r))
  {
    hide Append, Canonical;
    if known.Some? {
      ListStep(known.value.users, m.users, r.user);
      ListStep(known.value.ips, m.ips, r.ip);
    } else {
      EmptyOk();
      ListStep([], m.users, r.user);
      ListStep([], m.ips, r.ip);
      AppendSelf(m.users, r.user);
      AppendSelf(m.ips, r.ip);
    }
  }

  lemma EmptyOk()
    ensures Canonical([])
  {
  }

  lemma AppendSelf(list: seq<string>, value: string)
    requires Canonical(list)
    ensures Append([], list) == list
    ensures Append([], Append(list, [value])) == Append(list, [value])
  {
    AppendCanonical(list, [value]);
    AppendList([], list);
    AppendList([], Append(list, [value]));
    Reread(list);
    Reread(Append(list, [value]));
  }

  lemma MilliOrder(a: int, b: int)
    ensures Milli(Min(a, b)) == Min(Milli(a), Milli(b))
    ensures Milli(Max(a, b)) == Max(Milli(a), Milli(b))
  {
  }

  lemma GroupStep(known: Option<GroupRow>, g: Group, r: Record)
    requires g.lastAt >= GO_ZERO
    ensures MergeGroup(known, AddGroup(Some(g), r)) == MergeGroup(Some(MergeGroup(known, g)), AddGroup(None, r))
  {
    hide AddMinute;
    MilliOrder(g.firstAt, r.ts);
    MilliOrder(g.lastAt, r.ts);
    MilliOrder(GO_ZERO, r.ts);
    MilliOrder(GO_ZERO, g.lastAt);
  }

  // ---------------------------------------------------------------- one record more in a pass

  lemma AggregateOne(r: Record)
    ensures Aggregate([r]) == map[r.uid := AddGroup(None, r)]
    ensures MinuteKeys(Aggregate([r])) == {(r.uid, MinuteOf(r.ts))}
  {
    hide AddMinute;
    assert [r][..0] == [];
    assert Aggregate([]) == map[];
    assert Aggregate([r][..0]) == map[];
    var one := Aggregate([r]);
    assert one == map[r.uid := AddGroup(None, r)];
    assert one[r.uid].minutes.Keys == {MinuteOf(r.ts)};
  }

  lemma KnownLast(groups: map<string, Group>, uid: string)
    requires GroupsOk(groups) && uid in groups
    ensures groups[uid].lastAt >= GO_ZERO
  {
  }

  lemma GroupsStep(t: Tables, groups: map<string, Group>, r: Record)
    requires GroupsOk(groups)
    ensures
      Save(t, groups[r.uid := AddGroup(Find(groups, r.uid), r)]).groups == Save(Save(t, groups), Aggregate([r])).groups
  {
    hide AddGroup, MergeGroup, MinuteKeys, MergeMinute, GroupsOk;
    AggregateOne(r);
    if r.uid in groups {
      KnownLast(groups, r.uid);
      GroupStep(Find(t.groups, r.uid), groups[r.uid], r);
    }
  }

  function FindMinute(groups: map<string, Group>, k: (string, int)): Option<Minute> {
    if k.0 in groups && k.1 in groups[k.0].minutes then Some(groups[k.0].minutes[k.1]) else None
  }

  lemma SavedMinute(t: Tables, groups: map<string, Group>, k: (string, int))
    ensures Find(Save(t, groups).minutes, k) ==
      if FindMinute(groups, k).Some? then Some(MergeMinute(Find(t.minutes, k), FindMinute(groups, k).value)) else Find(t.minutes, k)
  {
    hide MergeMinute, MergeGroup, MinuteKeys;
    KeyMeans(groups, k);
  }

  lemma AddedMinute(groups: map<string, Group>, r: Record, k: (string, int))
    ensures FindMinute(groups[r.uid := AddGroup(Find(groups, r.uid), r)], k) ==
      if k == (r.uid, MinuteOf(r.ts)) then Some(AddMinute(FindMinute(groups, k), r)) else FindMinute(groups, k)
  {
    hide AddMinute;
  }

  lemma MinuteAtStep(t: Tables, groups: map<string, Group>, r: Record, k: (string, int))
    requires TablesOk(t) && GroupsOk(groups)
    ensures
      Find(Save(t, groups[r.uid := AddGroup(Find(groups, r.uid), r)]).minutes, k) == Find(Save(Save(t, groups), Aggregate([r])).minutes, k)
  {
    hide Save, AddGroup, AddMinute, MergeMinute, MinuteOk;
    var more := groups[r.uid := AddGroup(Find(groups, r.uid), r)];
    AggregateOne(r);
    SavedMinute(t, more, k);
    SavedMinute(t, groups, k);
    SavedMinute(Save(t, groups), Aggregate([r]), k);
    AddedMinute(groups, r, k);
    var none: map<string, Group> := map[];
    AddedMinute(none, r, k);
    assert Find(none, r.uid) == None && FindMinute(none, k) == None;
    assert none[r.uid := AddGroup(None, r)] == Aggregate([r]);
    if k == (r.uid, MinuteOf(r.ts)) && FindMinute(groups, k).Some? {
      MinuteStep(Find(t.minutes, k), FindMinute(groups, k).value, r);
    }
  }

  lemma KeyMeans(groups: map<string, Group>, k: (string, int))
    ensures k in MinuteKeys(groups) <==> k.0 in groups && k.1 in groups[k.0].minutes
  {
    var (u, at) := k;
    assert k == (u, at);
    assert u in groups && at in groups[u].minutes ==> (u, at) in MinuteKeys(groups);
  }

  /** A record more in a pass is the pass and then the record. */
  lemma SaveStep(t: Tables, groups: map<string, Group>, r: Record)
    requires TablesOk(t) && GroupsOk(groups)
    ensures Save(t, groups[r.uid := AddGroup(Find(groups, r.uid), r)]) == Save(Save(t, groups), Aggregate([r]))
  {
    hide Save, AddGroup, Aggregate, GroupsOk, TablesOk;
    GroupsStep(t, groups, r);
    var left, right := Save(t, groups[r.uid := AddGroup(Find(groups, r.uid), r)]), Save(Save(t, groups), Aggregate([r]));
    forall k
      ensures Find(left.minutes, k) == Find(right.minutes, k)
    {
      MinuteAtStep(t, groups, r, k);
    }
    SameMap(left.minutes, right.minutes);
  }

  lemma SameMap<K, V>(a: map<K, V>, b: map<K, V>)
    requires forall k :: Find(a, k) == Find(b, k)
    ensures a == b
  {
    forall k ensures (k in a <==> k in b) && (k in a ==> a[k] == b[k]) {
      assert Find(a, k) == Find(b, k);
    }
  }

  lemma SaveNothing(t: Tables)
    ensures Save(t, map[]) == t
  {
    assert MinuteKeys(map[]) == {};
    assert Save(t, map[]).groups == t.groups && Save(t, map[]).minutes == t.minutes;
  }

  /** Committing a pass is committing its records one by one. */
  lemma {:induction false} PassIsItsRecords(t: Tables, records: seq<Record>)
    requires TablesOk(t)
    ensures Save(t, Aggregate(records)) == SaveEach(t, records)
    ensures TablesOk(SaveEach(t, records))
  {
    hide Save, TablesOk, GroupsOk;
    if records == [] {
      SaveNothing(t);
    } else {
      PassIsItsRecords(t, records[..|records| - 1]);
      AggregateOk(records[..|records| - 1]);
      SaveStep(t, Aggregate(records[..|records| - 1]), records[|records| - 1]);
      AggregateOk(records);
      SaveOk(t, Aggregate(records));
    }
  }

  lemma {:induction false} SaveEachAppend(t: Tables, a: seq<Record>, b: seq<Record>)
    ensures SaveEach(t, a + b) == SaveEach(SaveEach(t, a), b)
  {
    hide Save, Aggregate;
    if b == [] {
      assert a + b == a;
    } else {
      assert (a + b)[..|a + b| - 1] == a + b[..|b| - 1];
      SaveEachAppend(t, a, b[..|b| - 1]);
    }
  }

  /** Two passes over two pieces of a stream leave the tables of one pass over the whole. */
  lemma SplitInvariance(t: Tables, a: seq<Record>, b: seq<Record>)
    requires TablesOk(t)
    ensures Save(t, Aggregate(a + b)) == Save(Save(t, Aggregate(a)), Aggregate(b))
  {
    hide Save, TablesOk;
    PassIsItsRecords(t, a + b);
    PassIsItsRecords(t, a);
    PassIsItsRecords(SaveEach(t, a), b);
    SaveEachAppend(t, a, b);
  }

  // ---------------------------------------------------------------- what the tables say

  /** The occurrences of one fingerprint. */
  function Of(records: seq<Record>, uid: string): seq<Record> {
    if records == [] then []
    else Of(records[..|records| - 1], uid) + if records[|records| - 1].uid == uid then [records[|records| - 1]] else []
  }

  /** The occurrences of one fingerprint in one minute. */
  function In(records: seq<Record>, key: (string, int)): seq<Record> {
    if records == [] then []
    else
      var r := records[|records| - 1];
      In(records[..|records| - 1], key) + if (r.uid, MinuteOf(r.ts)) == key then [r] else []
  }

  function FirstDump(records: seq<Record>): string {
    if records == [] then "" else if records[0].dump != "" then records[0].dump else FirstDump(records[1..])
  }

  function Earliest(records: seq<Record>): int
    requires records != []
  {
    if |records| == 1 then records[0].ts else Min(records[0].ts, Earliest(records[1..]))
  }

  function Latest(records: seq<Record>): int {
    if records == [] then GO_ZERO else Max(records[0].ts, Latest(records[1..]))
  }

  function Users(records: seq<Record>): seq<string> {
    seq(|records|, i requires 0 <= i < |records| => records[i].user)
  }

  function Ips(records: seq<Record>): seq<string> {
    seq(|records|, i requires 0 <= i < |records| => records[i].ip)
  }

  function GroupRowOf(records: seq<Record>): GroupRow
    requires records != []
  {
    GroupRow(FirstDump(records), Milli(Earliest(records)), Milli(Latest(records)), |records|, false, false)
  }

  function MinuteRowOf(records: seq<Record>): Minute
    requires records != []
  {
    Minute(|records|, records[0].message, records[0].tags, records[0].description,
           TakeAll([], Users(records)), TakeAll([], Ips(records)))
  }

  lemma {:induction false} FirstDumpStep(list: seq<Record>, r: Record)
    ensures FirstDump(list + [r]) == if FirstDump(list) == "" then r.dump else FirstDump(list)
  {
    if list == [] {
      assert list + [r] == [r];
      assert [r][1..] == [];
    } else {
      assert (list + [r])[1..] == list[1..] + [r];
      FirstDumpStep(list[1..], r);
    }
  }

  lemma {:induction false} SpanStep(list: seq<Record>, r: Record)
    ensures Latest(list + [r]) == Max(Latest(list), Max(GO_ZERO, r.ts))
    ensures list != [] ==> Earliest(list + [r]) == Min(Earliest(list), r.ts)
  {
    if list == [] {
      assert list + [r] == [r];
      assert [r][1..] == [];
    } else {
      assert (list + [r])[1..] == list[1..] + [r];
      SpanStep(list[1..], r);
      if |list| == 1 { assert list[1..] + [r] == [r]; }
    }
  }

  lemma GroupRowStep(list: seq<Record>, r: Record)
    ensures
      MergeGroup(if list == [] then None else Some(GroupRowOf(list)), AddGroup(None, r)) == GroupRowOf(list + [r])
  {
    hide AddMinute, FirstDump, Earliest, Latest, GO_ZERO;
    FirstDumpStep(list, r);
    SpanStep(list, r);
    if list == [] {
      assert list + [r] == [r];
      OneSpan(r);
    } else {
      MilliOrder(Earliest(list), r.ts);
      MilliOrder(Latest(list), Max(GO_ZERO, r.ts));
    }
  }

  lemma OneSpan(r: Record)
    ensures FirstDump([r]) == r.dump && Earliest([r]) == r.ts && Latest([r]) == Max(GO_ZERO, r.ts)
  {
    assert [r][1..] == [];
  }

  lemma MinuteRowStep(list: seq<Record>, r: Record)
    ensures
      MergeMinute(if list == [] then None else Some(MinuteRowOf(list)), AddMinute(None, r)) == MinuteRowOf(list + [r])
  {
    hide Append, TakeAll, Canonical;
    var users, ips := Users(list), Ips(list);
    assert Users(list + [r]) == users + [r.user] && Ips(list + [r]) == ips + [r.ip];
    CollectStep(users, r.user);
    CollectStep(ips, r.ip);
    if list == [] {
      assert list + [r] == [r] && users == [] && ips == [];
      EmptyOk();
      NothingTaken([]);
    }
  }

  /** A stored list that takes one more value. */
  lemma CollectStep(values: seq<string>, value: string)
    ensures TakeAll([], values + [value]) == Append(TakeAll([], values), Append([], [value]))
    ensures values == [] ==> TakeAll([], values + [value]) == Append([], [value])
  {
    hide Take, Canonical, Append;
    EmptyOk();
    TakeAllCanonical([], values);
    assert (values + [value])[..|values|] == values;
    SingleList(TakeAll([], values), value);
    AppendOne([], value);
  }

  /** What one record does to the tables. */
  lemma SaveOne(t: Tables, r: Record)
    ensures
      var key := (r.uid, MinuteOf(r.ts));
      Save(t, Aggregate([r])) == Tables(
        t.groups[r.uid := MergeGroup(Find(t.groups, r.uid), AddGroup(None, r))],
        t.minutes[key := MergeMinute(Find(t.minutes, key), AddMinute(None, r))])
  {
    hide MergeGroup, MergeMinute, AddMinute;
    AggregateOne(r);
    MinuteOfNew(r);
    var key, saved := (r.uid, MinuteOf(r.ts)), Save(t, Aggregate([r]));
    assert saved.groups == t.groups[r.uid := MergeGroup(Find(t.groups, r.uid), AddGroup(None, r))];
    assert saved.minutes == t.minutes[key := MergeMinute(Find(t.minutes, key), AddMinute(None, r))];
  }

  ghost predicate GroupsMean(groups: map<string, GroupRow>, records: seq<Record>) {
    forall u :: Find(groups, u) == if Of(records, u) == [] then None else Some(GroupRowOf(Of(records, u)))
  }

  ghost predicate MinutesMean(minutes: map<(string, int), Minute>, records: seq<Record>) {
    forall k :: Find(minutes, k) == if In(records, k) == [] then None else Some(MinuteRowOf(In(records, k)))
  }

  lemma GroupsMeanStep(t: Tables, before: seq<Record>, r: Record)
    requires GroupsMean(t.groups, before)
    ensures GroupsMean(t.groups[r.uid := MergeGroup(Find(t.groups, r.uid), AddGroup(None, r))], before + [r])
  {
    hide MergeGroup, AddGroup, GroupRowOf;
    GroupRowStep(Of(before, r.uid), r);
    var more := t.groups[r.uid := MergeGroup(Find(t.groups, r.uid), AddGroup(None, r))];
    forall u
      ensures Find(more, u) == if Of(before + [r], u) == [] then None else Some(GroupRowOf(Of(before + [r], u)))
    {
      assert (before + [r])[..|before|] == before;
      assert Find(t.groups, u) == if Of(before, u) == [] then None else Some(GroupRowOf(Of(before, u)));
      assert Of(before + [r], u) == if r.uid == u then Of(before, u) + [r] else Of(before, u);
    }
  }

  lemma MinutesMeanStep(t: Tables, before: seq<Record>, r: Record)
    requires MinutesMean(t.minutes, before)
    ensures
      var key := (r.uid, MinuteOf(r.ts));
      MinutesMean(t.minutes[key := MergeMinute(Find(t.minutes, key), AddMinute(None, r))], before + [r])
  {
    hide MergeMinute, AddMinute, MinuteRowOf;
    var key := (r.uid, MinuteOf(r.ts));
    MinuteRowStep(In(before, key), r);
    var more := t.minutes[key := MergeMinute(Find(t.minutes, key), AddMinute(None, r))];
    forall k
      ensures Find(more, k) == if In(before + [r], k) == [] then None else Some(MinuteRowOf(In(before + [r], k)))
    {
      assert (before + [r])[..|before|] == before;
      assert Find(t.minutes, k) == if In(before, k) == [] then None else Some(MinuteRowOf(In(before, k)));
      assert In(before + [r], k) == if key == k then In(before, k) + [r] else In(before, k);
    }
  }

  /**
   The reference: after the records one by one, each group row and each minute row is computed
   from that group's or minute's records alone: counts, span, first nonempty dump, the first
   occurrence's metadata and the first five distinct users and addresses.
   */
  lemma {:induction false} TablesMean(records: seq<Record>)
    ensures GroupsMean(SaveEach(NO_TABLES, records).groups, records)
    ensures MinutesMean(SaveEach(NO_TABLES, records).minutes, records)
  {
    if records == [] {
      assert SaveEach(NO_TABLES, records) == NO_TABLES;
    } else {
      hide Save, Aggregate, GroupsMean, MinutesMean, MergeGroup, MergeMinute, AddGroup, AddMinute;
      var before, r := records[..|records| - 1], records[|records| - 1];
      var t := SaveEach(NO_TABLES, before);
      TablesMean(before);
      SaveOne(t, r);
      GroupsMeanStep(t, before, r);
      MinutesMeanStep(t, before, r);
      assert before + [r] == records;
    }
  }

  lemma MinuteOfNew(r: Record)
    ensures AddGroup(None, r).minutes == map[MinuteOf(r.ts) := AddMinute(None, r)]
  {
    hide AddMinute;
  }

  /** However a stream is cut into two passes, the tables are the reference of the whole stream. */
  lemma PassesMean(a: seq<Record>, b: seq<Record>)
    ensures
      var t := Save(Save(NO_TABLES, Aggregate(a)), Aggregate(b));
      GroupsMean(t.groups, a + b) && MinutesMean(t.minutes, a + b)
  {
    hide Save, Aggregate, GroupsMean, MinutesMean;
    SplitInvariance(NO_TABLES, a, b);
    PassIsItsRecords(NO_TABLES, a + b);
    TablesMean(a + b);
  }
}
