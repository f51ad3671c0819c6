/** The daily, facet and key indexes of one namespace's day. */
module Index {
  import opened Rows

  /** Running figures of one event while the indexes are built. */
  datatype Tally = Tally(count: nat, users: set<string>, anons: set<string>, sum: real)

  /** One row of the daily index. */
  datatype Daily = Daily(count: nat, users: nat, anons: nat, sum: real)

  datatype FacetKey = FacetKey(event: string, key: string, value: string)
  datatype DataKey = DataKey(event: string, path: string, kind: string)

  /** The three indexes; each is a table with one row per key. */
  datatype Index = Index(daily: map<string, Daily>, facets: map<FacetKey, nat>, keys: map<DataKey, nat>)

  // ---------------------------------------------------------------- what the figures mean

  function CountOf(rows: seq<Row>, event: string): nat {
    if rows == [] then 0
    else CountOf(rows[..|rows| - 1], event) + (if rows[|rows| - 1].event == event then 1 else 0)
  }

  function Amount(row: Row): real {
    if row.value.Some? then row.value.value else 0.0
  }

  function SumOf(rows: seq<Row>, event: string): real {
    if rows == [] then 0.0
    else SumOf(rows[..|rows| - 1], event) + (if rows[|rows| - 1].event == event then Amount(rows[|rows| - 1]) else 0.0)
  }

  function UsersOf(rows: seq<Row>, event: string): set<string> {
    set r | r in rows && r.event == event && r.userID != "" :: r.userID
  }

  function AnonsOf(rows: seq<Row>, event: string): set<string> {
    set r | r in rows && r.event == event && r.anonID != "" :: r.anonID
  }

  /** Position of the first colon, or the length. */
  function ColonAt(tag: string): (n: nat)
    ensures n <= |tag| && ':' !in tag[..n]
    ensures n < |tag| ==> tag[n] == ':'
  {
    if tag == "" || tag[0] == ':' then 0 else 1 + ColonAt(tag[1..])
  }

  /** Key and value of a tag; a plain label has the key "#". */
  function FacetOf(event: string, tag: string): FacetKey {
    var n := ColonAt(tag);
    if n < |tag| then FacetKey(event, tag[..n], tag[n + 1..]) else FacetKey(event, "#", tag)
  }

  function KindOf(value: Json): string {
    match value
    case JNull => "null"
    case JBool(_) => "boolean"
    case JNumber(_) => "number"
    case JString(_) => "string"
    case JArray(_) => "array"
    case JObject(_) => "object"
  }

  function TagFacets(event: string, tags: seq<string>): multiset<FacetKey> {
    if tags == [] then multiset{}
    else TagFacets(event, tags[..|tags| - 1]) + multiset{FacetOf(event, tags[|tags| - 1])}
  }

  /** Every tag occurrence of the rows, by event, key and value. */
  function FacetBag(rows: seq<Row>): multiset<FacetKey> {
    if rows == [] then multiset{}
    else FacetBag(rows[..|rows| - 1]) + TagFacets(rows[|rows| - 1].event, rows[|rows| - 1].tags)
  }

  function DataKeys(event: string, data: map<string, Json>): set<DataKey> {
    set path | path in data :: DataKey(event, path, KindOf(data[path]))
  }

  function RowKeys(row: Row): multiset<DataKey> {
    if row.data.Some? then multiset(DataKeys(row.event, row.data.value)) else multiset{}
  }

  /** Every top-level data key occurrence of the rows, by event, path and type. */
  function KeyBag(rows: seq<Row>): multiset<DataKey> {
    if rows == [] then multiset{}
    else KeyBag(rows[..|rows| - 1]) + RowKeys(rows[|rows| - 1])
  }

  function EventsOf(rows: seq<Row>): set<string> {
    set r | r in rows :: r.event
  }

  function DailyOf(rows: seq<Row>): map<string, Daily> {
    map e | e in EventsOf(rows) :: Daily(CountOf(rows, e), |UsersOf(rows, e)|, |AnonsOf(rows, e)|, SumOf(rows, e))
  }

  /** A table of counts with a row for each key that occurs. */
  function Table<K>(bag: multiset<K>): map<K, nat> {
    map k | k in bag :: bag[k]
  }

  /** The indexes of rows, stated without reference to how they are accumulated. */
  function IndexOf(rows: seq<Row>): Index {
    Index(DailyOf(rows), Table(FacetBag(rows)), Table(KeyBag(rows)))
  }

  // ---------------------------------------------------------------- how they are built

  function Bump<K>(table: map<K, nat>, k: K): map<K, nat> {
    table[k := (if k in table then table[k] else 0) + 1]
  }

  lemma BumpTable<K>(bag: multiset<K>, k: K)
    ensures Bump(Table(bag), k) == Table(bag + multiset{k})
  {
  }

  function DaysOf(rows: seq<Row>): map<string, Tally> {
    map e | e in EventsOf(rows) :: TallyOf(rows, e)
  }

  function AddRow(days: map<string, Tally>, row: Row): map<string, Tally> {
    var entry := if row.event in days then days[row.event] else Tally(0, {}, {}, 0.0);
    days[row.event := Tally(
      entry.count + 1,
      entry.users + (if row.userID != "" then {row.userID} else {}),
      entry.anons + (if row.anonID != "" then {row.anonID} else {}),
      entry.sum + Amount(row))]
  }

  lemma {:induction false} AbsentEvent(rows: seq<Row>, event: string)
    requires event !in EventsOf(rows)
    ensures CountOf(rows, event) == 0 && SumOf(rows, event) == 0.0
    ensures UsersOf(rows, event) == {} && AnonsOf(rows, event) == {}
  {
    if rows == [] {
    } else {
      var before, last := rows[..|rows| - 1], rows[|rows| - 1];
      assert last in rows && forall r :: r in before ==> r in rows;
      AbsentEvent(before, event);
    }
  }

  lemma PeopleStep(before: seq<Row>, row: Row, e: string)
    ensures UsersOf(before + [row], e) == UsersOf(before, e) + if row.event == e && row.userID != "" then {row.userID} else {}
    ensures AnonsOf(before + [row], e) == AnonsOf(before, e) + if row.event == e && row.anonID != "" then {row.anonID} else {}
  {
    assert forall r :: r in before + [row] <==> r in before || r == row;
  }

  function TallyOf(rows: seq<Row>, e: string): Tally {
    Tally(CountOf(rows, e), UsersOf(rows, e), AnonsOf(rows, e), SumOf(rows, e))
  }

  lemma TallyStep(before: seq<Row>, row: Row, e: string)
    ensures TallyOf(before + [row], e) ==
      if e != row.event then TallyOf(before, e)
      else
        var entry := TallyOf(before, e);
        Tally(
          entry.count + 1,
          entry.users + (if row.userID != "" then {row.userID} else {}),
          entry.anons + (if row.anonID != "" then {row.anonID} else {}),
          entry.sum + Amount(row))
  {
    PeopleStep(before, row, e);
    assert (before + [row])[..|before|] == before;
  }

  lemma EventsStep(before: seq<Row>, row: Row)
    ensures EventsOf(before + [row]) == EventsOf(before) + {row.event}
  {
    assert forall r :: r in before + [row] <==> r in before || r == row;
  }

  lemma DaysStep(before: seq<Row>, row: Row)
    ensures AddRow(DaysOf(before), row) == DaysOf(before + [row])
  {
    EventsStep(before, row);
    if row.event !in EventsOf(before) {
      AbsentEvent(before, row.event);
      assert TallyOf(before, row.event) == Tally(0, {}, {}, 0.0);
    }
    hide TallyOf, EventsOf;
    forall e | e in EventsOf(before + [row])
      ensures AddRow(DaysOf(before), row)[e] == TallyOf(before + [row], e)
    {
      TallyStep(before, row, e);
    }
  }

  /** Counts the tags of one row into the facet table. */
  method AddTags(facets: map<FacetKey, nat>, event: string, tags: seq<string>, ghost bag: multiset<FacetKey>) returns (r: map<FacetKey, nat>)
    requires facets == Table(bag)
    ensures r == Table(bag + TagFacets(event, tags))
  {
    r := facets;
    assert bag + multiset{} == bag;
    for i := 0 to |tags|
      invariant r == Table(bag + TagFacets(event, tags[..i]))
    {
      assert tags[..i + 1][..i] == tags[..i];
      BumpTable(bag + TagFacets(event, tags[..i]), FacetOf(event, tags[i]));
      r := Bump(r, FacetOf(event, tags[i]));
      assert bag + TagFacets(event, tags[..i]) + multiset{FacetOf(event, tags[i])} == bag + TagFacets(event, tags[..i + 1]);
    }
    assert tags[..|tags|] == tags;
  }

  lemma DataKeysStep(event: string, done: map<string, Json>, path: string, value: Json)
    requires path !in done
    ensures
      var k := DataKey(event, path, KindOf(value));
      k !in DataKeys(event, done) && DataKeys(event, done[path := value]) == DataKeys(event, done) + {k}
  {
    var k, more := DataKey(event, path, KindOf(value)), done[path := value];
    assert path in more && more[path] == value;
    forall d | d in DataKeys(event, done)
      ensures d in DataKeys(event, more)
    {
      var p :| p in done && d == DataKey(event, p, KindOf(done[p]));
      assert p in more;
    }
  }

  lemma NoKeys(event: string)
    ensures DataKeys(event, map[]) == {}
  {
  }

  /** Counts the data keys of one row, in whatever order the map yields them. */
  method AddKeys(keys: map<DataKey, nat>, event: string, data: map<string, Json>, ghost bag: multiset<DataKey>) returns (r: map<DataKey, nat>)
    requires keys == Table(bag)
    ensures r == Table(bag + multiset(DataKeys(event, data)))
  {
    hide Table, DataKeys;
    r := keys;
    var rest := data.Keys;
    ghost var done: map<string, Json> := map[];
    NoKeys(event);
    assert bag + multiset(DataKeys(event, done)) == bag;
    while rest != {}
      invariant rest <= data.Keys && done == data - rest
      invariant r == Table(bag + multiset(DataKeys(event, done)))
      decreases |rest|
    {
      var path :| path in rest;
      var k := DataKey(event, path, KindOf(data[path]));
      ghost var sofar := bag + multiset(DataKeys(event, done));
      DataKeysStep(event, done, path, data[path]);
      BumpTable(sofar, k);
      r := Bump(r, k);
      done := done[path := data[path]];
      rest := rest - {path};
      assert sofar + multiset{k} == bag + multiset(DataKeys(event, done));
    }
    assert done == data;
  }

  /** The figures gathered so far are those of the rows read so far. */
  ghost predicate Gathered(days: map<string, Tally>, facets: map<FacetKey, nat>, keys: map<DataKey, nat>, rows: seq<Row>) {
    days == DaysOf(rows) && facets == Table(FacetBag(rows)) && keys == Table(KeyBag(rows))
  }

  /** One turn of the aggregation loop. */
  method AddOne(days: map<string, Tally>, facets: map<FacetKey, nat>, keys: map<DataKey, nat>, row: Row, ghost before: seq<Row>)
    returns (days': map<string, Tally>, facets': map<FacetKey, nat>, keys': map<DataKey, nat>)
    requires Gathered(days, facets, keys, before)
    ensures Gathered(days', facets', keys', before + [row])
  {
    DaysStep(before, row);
    assert (before + [row])[..|before|] == before;
    days' := AddRow(days, row);
    facets' := AddTags(facets, row.event, row.tags, FacetBag(before));
    keys' := keys;
    if row.data.Some? {
      keys' := AddKeys(keys, row.event, row.data.value, KeyBag(before));
    } else {
      assert KeyBag(before) + multiset{} == KeyBag(before);
    }
  }

  /** The aggregation loop over deduplicated rows. */
  method BuildIndex(rows: seq<Row>) returns (index: Index)
    ensures index == IndexOf(rows)
  {
    var days: map<string, Tally> := map[];
    var facets: map<FacetKey, nat> := map[];
    var keys: map<DataKey, nat> := map[];
    for i := 0 to |rows|
      invariant Gathered(days, facets, keys, rows[..i])
    {
      assert rows[..i + 1] == rows[..i] + [rows[i]];
      days, facets, keys := AddOne(days, facets, keys, rows[i], rows[..i]);
    }
    assert rows[..|rows|] == rows;
    var daily := map e | e in days :: Daily(days[e].count, |days[e].users|, |days[e].anons|, days[e].sum);
    assert daily == DailyOf(rows);
    index := Index(daily, facets, keys);
  }

  // ---------------------------------------------------------------- additivity

  lemma {:induction false} CountAppend(a: seq<Row>, b: seq<Row>, event: string)
    ensures CountOf(a + b, event) == CountOf(a, event) + CountOf(b, event)
    ensures SumOf(a + b, event) == SumOf(a, event) + SumOf(b, event)
  {
    if b == [] {
      assert a + b == a;
    } else {
      assert (a + b)[..|a + b| - 1] == a + b[..|b| - 1];
      CountAppend(a, b[..|b| - 1], event);
    }
  }

  lemma {:induction false} BagAppend(a: seq<Row>, b: seq<Row>)
    ensures FacetBag(a + b) == FacetBag(a) + FacetBag(b)
    ensures KeyBag(a + b) == KeyBag(a) + KeyBag(b)
  {
    hide TagFacets, RowKeys;
    if b == [] {
      assert a + b == a;
    } else {
      assert (a + b)[..|a + b| - 1] == a + b[..|b| - 1];
      BagAppend(a, b[..|b| - 1]);
    }
  }
}
