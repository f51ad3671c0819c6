/**
 What the exception tables hold, said of the occurrences alone: no aggregation, no upsert, times in
 nanoseconds.
 */
module ExceptionMeaning {
  import opened Prelude
  import opened Trimming
  import opened UniqueValues
  import opened ExceptionTables

  /** The records a test holds of, in order. */
  function Keep(records: seq<Record>, test: Record -> bool): seq<Record> {
    if records == [] then []
    else Keep(records[..|records| - 1], test) + if test(records[|records| - 1]) then [records[|records| - 1]] else []
  }

  lemma {:induction false} KeepMembers(records: seq<Record>, test: Record -> bool)
    ensures forall r :: r in Keep(records, test) <==> r in records && test(r)
  {
    if records == [] {
    } else {
      KeepMembers(records[..|records| - 1], test);
      assert records == records[..|records| - 1] + [records[|records| - 1]];
    }
  }

  // ---------------------------------------------------------------- the first five

  /**
   The first five distinct values that are not blank, trimmed, in the order of their first appearance; a
   value is missing only when five others came before it.
   */
  ghost predicate FirstFive(out: seq<string>, values: seq<string>) {
    exists places: seq<nat> :: Placed(out, values, places)
  }

  /** Each listed value stands at its place, no place of it is earlier, and nothing is left out before five. */
  ghost predicate Placed(out: seq<string>, values: seq<string>, places: seq<nat>) {
    && |out| == |places| <= 5 && Distinct(out)
    && (forall i :: 0 <= i < |out| ==> places[i] < |values| && Trim(values[places[i]]) == out[i] != "")
    && (forall i, j :: 0 <= i < j < |out| ==> places[i] < places[j])
    && (forall k :: 0 <= k < |values| && Trim(values[k]) != "" ==>
      (exists i :: 0 <= i < |out| && out[i] == Trim(values[k]) && places[i] <= k) || (|out| == 5 && places[4] < k))
  }

  lemma TakenKeeps(out: seq<string>, values: seq<string>, places: seq<nat>, more: string)
    requires Placed(out, values, places)
    requires Trim(more) == "" || Trim(more) in out || |out| == 5
    ensures Placed(out, values + [more], places)
  {
    hide Trim, Distinct;
    var all := values + [more];
    assert forall k :: 0 <= k < |values| ==> all[k] == values[k];
    if Trim(more) != "" && Trim(more) in out {
      var i :| 0 <= i < |out| && out[i] == Trim(more);
      assert places[i] <= |values|;
    }
  }

  lemma TakenAdds(out: seq<string>, values: seq<string>, places: seq<nat>, more: string)
    requires Placed(out, values, places) && |out| < 5 && Trim(more) != "" && Trim(more) !in out
    ensures Placed(out + [Trim(more)], values + [more], places + [|values|])
  {
    hide Trim;
    var all, longer, at := values + [more], out + [Trim(more)], places + [|values|];
    assert longer[|out|] == Trim(more) && at[|out|] == |values|;
    forall k | 0 <= k < |all| && Trim(all[k]) != ""
      ensures exists i :: 0 <= i < |longer| && longer[i] == Trim(all[k]) && at[i] <= k
    {
      if k < |values| {
        var i :| 0 <= i < |out| && out[i] == Trim(values[k]) && places[i] <= k;
        assert longer[i] == Trim(all[k]) && at[i] <= k;
      }
    }
  }

  lemma {:induction false} TakenPlaces(values: seq<string>) returns (places: seq<nat>)
    ensures Placed(TakeAll([], values), values, places)
  {
    hide Trim;
    if values == [] {
      places := [];
    } else {
      var before, last := values[..|values| - 1], values[|values| - 1];
      places := TakenPlaces(before);
      assert TakeAll([], values) == Take(TakeAll([], before), last) && values == before + [last];
      hide Placed, TakeAll, Take;
      places := OneMore(TakeAll([], before), before, places, last);
    }
  }

  lemma OneMore(out: seq<string>, values: seq<string>, places: seq<nat>, more: string) returns (at: seq<nat>)
    requires Placed(out, values, places)
    ensures Placed(Take(out, more), values + [more], at)
  {
    hide Trim, Placed;
    FiveAtMost(out, values, places);
    if |out| >= 5 || Trim(more) == "" || Trim(more) in out {
      TakenKeeps(out, values, places, more);
      at := places;
    } else {
      TakenAdds(out, values, places, more);
      at := places + [|values|];
    }
  }

  lemma FiveAtMost(out: seq<string>, values: seq<string>, places: seq<nat>)
    requires Placed(out, values, places)
    ensures |out| <= 5
  {
  }

  lemma TakenAreFirst(values: seq<string>)
    ensures FirstFive(TakeAll([], values), values)
  {
    var places := TakenPlaces(values);
  }

  // ---------------------------------------------------------------- the minute rows

  /** The occurrence is of this group and falls into this minute since 1970. */
  predicate InMinute(r: Record, uid: string, at: int) {
    r.uid == uid && at * 60_000_000_000 <= r.ts < (at + 1) * 60_000_000_000
  }

  /** The row of some occurrences: their number, the first one's description, the first five people. */
  ghost predicate MinuteSays(m: Minute, list: seq<Record>) {
    && list != [] && m.count == |list|
    && m.message == list[0].message && m.tags == list[0].tags && m.description == list[0].description
    && FirstFive(m.users, seq(|list|, i requires 0 <= i < |list| => list[i].user))
    && FirstFive(m.ips, seq(|list|, i requires 0 <= i < |list| => list[i].ip))
  }

  /** There is a row for exactly the minutes some occurrence falls into, and it tells of exactly those. */
  ghost predicate MinutesSay(minutes: map<(string, int), Minute>, records: seq<Record>) {
    forall uid, at ::
      var list := Keep(records, r => InMinute(r, uid, at));
      if list == [] then (uid, at) !in minutes else (uid, at) in minutes && MinuteSays(minutes[(uid, at)], list)
  }

  lemma MinuteIs(ts: int, at: int)
    ensures MinuteOf(ts) == at <==> at * 60_000_000_000 <= ts < (at + 1) * 60_000_000_000
  {
  }

  lemma {:induction false} InIsKeep(records: seq<Record>, uid: string, at: int)
    ensures In(records, (uid, at)) == Keep(records, r => InMinute(r, uid, at))
  {
    if records == [] {
    } else {
      InIsKeep(records[..|records| - 1], uid, at);
      MinuteIs(records[|records| - 1].ts, at);
    }
  }

  lemma MinuteRowSays(list: seq<Record>)
    requires list != []
    ensures MinuteSays(MinuteRowOf(list), list)
  {
    hide FirstFive, TakeAll;
    TakenAreFirst(Users(list));
    TakenAreFirst(Ips(list));
    assert Users(list) == seq(|list|, i requires 0 <= i < |list| => list[i].user);
    assert Ips(list) == seq(|list|, i requires 0 <= i < |list| => list[i].ip);
  }

  lemma MinutesMeanSay(minutes: map<(string, int), Minute>, records: seq<Record>)
    requires MinutesMean(minutes, records)
    ensures MinutesSay(minutes, records)
  {
    hide MinuteRowOf, MinuteSays, In, Keep;
    forall uid, at
      ensures
        var list := Keep(records, r => InMinute(r, uid, at));
        if list == [] then (uid, at) !in minutes else (uid, at) in minutes && MinuteSays(minutes[(uid, at)], list)
    {
      InIsKeep(records, uid, at);
      assert Find(minutes, (uid, at)) == if In(records, (uid, at)) == [] then None else Some(MinuteRowOf(In(records, (uid, at))));
      if In(records, (uid, at)) != [] { MinuteRowSays(In(records, (uid, at))); }
    }
  }

  // ---------------------------------------------------------------- the group rows

  /** The first dump that is not empty. */
  ghost predicate FirstNonempty(dump: string, list: seq<Record>) {
    if forall r :: r in list ==> r.dump == "" then dump == ""
    else exists i :: 0 <= i < |list| && list[i].dump == dump != "" && forall j :: 0 <= j < i ==> list[j].dump == ""
  }

  /** The milliseconds of the earliest and of the latest occurrence; the latter starts from the year one. */
  ghost predicate Span(firstAt: int, lastAt: int, list: seq<Record>) {
    && (forall r :: r in list ==> firstAt * 1_000_000 <= r.ts)
    && (exists r :: r in list && r.ts < (firstAt + 1) * 1_000_000)
    && (forall r :: r in list ==> r.ts < (lastAt + 1) * 1_000_000)
    && ((exists r :: r in list && lastAt * 1_000_000 <= r.ts) || lastAt == -62_135_596_800_000)
    && lastAt >= -62_135_596_800_000
  }

  ghost predicate GroupSays(g: GroupRow, list: seq<Record>) {
    g.count == |list| && FirstNonempty(g.dump, list) && Span(g.firstAt, g.lastAt, list) && !g.resolved && !g.ignored
  }

  ghost predicate GroupsSay(groups: map<string, GroupRow>, records: seq<Record>) {
    forall uid ::
      var list := Keep(records, (r: Record) => r.uid == uid);
      if list == [] then uid !in groups else uid in groups && GroupSays(groups[uid], list)
  }

  lemma {:induction false} OfIsKeep(records: seq<Record>, uid: string)
    ensures Of(records, uid) == Keep(records, (r: Record) => r.uid == uid)
  {
    if records == [] {
    } else {
      OfIsKeep(records[..|records| - 1], uid);
    }
  }

  lemma {:induction false} FirstDumpMeans(list: seq<Record>)
    ensures FirstNonempty(FirstDump(list), list)
  {
    if list == [] {
    } else {
      assert list == [list[0]] + list[1..] && list[0] in list;
      FirstDumpMeans(list[1..]);
      if list[0].dump == "" { DumpBehind(FirstDump(list[1..]), list); }
    }
  }

  lemma DumpBehind(dump: string, list: seq<Record>)
    requires list != [] && list[0].dump == "" && FirstNonempty(dump, list[1..])
    ensures FirstNonempty(dump, list)
  {
    var rest := list[1..];
    assert list == [list[0]] + rest;
    if i :| 0 <= i < |rest| && rest[i].dump == dump != "" && forall j :: 0 <= j < i ==> rest[j].dump == "" {
      assert list[i + 1].dump == dump && list[i + 1] in list;
      assert forall j :: 0 <= j < i + 1 ==> list[j].dump == "";
    }
  }

  lemma {:induction false} EarliestMeans(list: seq<Record>)
    requires list != []
    ensures (forall r :: r in list ==> Earliest(list) <= r.ts) && exists r :: r in list && r.ts == Earliest(list)
  {
    assert list == [list[0]] + list[1..] && list[0] in list;
    if |list| > 1 {
      EarliestMeans(list[1..]);
      var r :| r in list[1..] && r.ts == Earliest(list[1..]);
      assert r in list;
    } else {
      assert list == [list[0]];
    }
  }

  lemma {:induction false} LatestMeans(list: seq<Record>)
    ensures (forall r :: r in list ==> r.ts <= Latest(list)) && Latest(list) >= -62_135_596_800_000_000_000
    ensures Latest(list) == -62_135_596_800_000_000_000 || exists r :: r in list && r.ts == Latest(list)
  {
    if list == [] {
    } else {
      LatestMeans(list[1..]);
      assert list == [list[0]] + list[1..] && list[0] in list;
      if r :| r in list[1..] && r.ts == Latest(list[1..]) { assert r in list; }
    }
  }

  lemma MilliMeans(ts: int)
    ensures Milli(ts) * 1_000_000 <= ts < (Milli(ts) + 1) * 1_000_000
  {
  }

  lemma SpanMeans(list: seq<Record>)
    requires list != []
    ensures Span(Milli(Earliest(list)), Milli(Latest(list)), list)
  {
    hide Earliest, Latest, Milli;
    EarliestMeans(list);
    LatestMeans(list);
    MilliMeans(Earliest(list));
    MilliMeans(Latest(list));
    MilliMeans(-62_135_596_800_000_000_000);
  }

  lemma GroupsMeanSay(groups: map<string, GroupRow>, records: seq<Record>)
    requires GroupsMean(groups, records)
    ensures GroupsSay(groups, records)
  {
    hide Of, Keep, FirstNonempty, Span, FirstDump, Earliest, Latest, Milli;
    forall uid
      ensures
        var list := Keep(records, (r: Record) => r.uid == uid);
        if list == [] then uid !in groups else uid in groups && GroupSays(groups[uid], list)
    {
      OfIsKeep(records, uid);
      var list := Of(records, uid);
      assert Find(groups, uid) == if list == [] then None else Some(GroupRowOf(list));
      if list != [] {
        FirstDumpMeans(list);
        SpanMeans(list);
      }
    }
  }

  /**
   The tables of records committed one by one: each minute row tells of exactly the occurrences of its
   group within its minute, each group row of exactly its own, and there are no other rows.
   */
  lemma TablesSay(records: seq<Record>)
    ensures MinutesSay(SaveEach(NO_TABLES, records).minutes, records)
    ensures GroupsSay(SaveEach(NO_TABLES, records).groups, records)
  {
    hide GroupsMean, MinutesMean, GroupsSay, MinutesSay;
    TablesMean(records);
    MinutesMeanSay(SaveEach(NO_TABLES, records).minutes, records);
    GroupsMeanSay(SaveEach(NO_TABLES, records).groups, records);
  }
}
