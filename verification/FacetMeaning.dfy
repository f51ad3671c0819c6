/** The figures of an index and of a facet said in terms of the events themselves, position by position. */
module FacetMeaning {
  import opened Prelude
  import opened Rows
  import opened Index
  import opened Summaries
  import opened Facets

  // ---------------------------------------------------------------- tags

  /** The tag has this key and value; a label, which has no colon, is a value of "#". */
  predicate Says(tag: string, key: string, value: string) {
    (':' !in key && tag == key + ":" + value) || (':' !in tag && key == "#" && value == tag)
  }

  lemma {:induction false} ColonBehind(key: string, value: string)
    requires ':' !in key
    ensures ColonAt(key + ":" + value) == |key|
  {
    if key != "" {
      ColonBehind(key[1..], value);
      assert (key + ":" + value)[1..] == key[1..] + ":" + value;
    }
  }

  lemma FacetSays(event: string, tag: string, k: FacetKey)
    ensures FacetOf(event, tag) == k <==> k.event == event && Says(tag, k.key, k.value)
  {
    var n := ColonAt(tag);
    if ':' !in k.key && tag == k.key + ":" + k.value {
      ColonBehind(k.key, k.value);
      assert tag[..n] == k.key && tag[n + 1..] == k.value;
    }
    if n < |tag| {
      assert tag == tag[..n] + ":" + tag[n + 1..];
    } else {
      assert tag[..n] == tag;
    }
  }

  /** The places of a row's tags with a key and value. */
  function Places(tags: seq<string>, key: string, value: string): set<nat> {
    set i: nat | i < |tags| && Says(tags[i], key, value)
  }

  lemma {:induction false} TagsCounted(event: string, tags: seq<string>, k: FacetKey)
    ensures TagFacets(event, tags)[k] == if k.event == event then |Places(tags, k.key, k.value)| else 0
  {
    hide Says;
    if tags == [] {
      assert Places(tags, k.key, k.value) == {};
    } else {
      var before, last := tags[..|tags| - 1], tags[|tags| - 1];
      TagsCounted(event, before, k);
      FacetSays(event, last, k);
      assert Places(tags, k.key, k.value) == Places(before, k.key, k.value) + if Says(last, k.key, k.value) then {|before|} else {};
    }
  }

  // ---------------------------------------------------------------- the indexes' figures

  /** The rows of an event, by their places. */
  function Those(rows: seq<Row>, event: string): set<nat> {
    set i: nat | i < |rows| && rows[i].event == event
  }

  /** Every occurrence of a tag: the row's place and the tag's place in it. */
  function TagPlaces(rows: seq<Row>, k: FacetKey): set<(int, int)> {
    set i, j | 0 <= i < |rows| && rows[i].event == k.event && 0 <= j < |rows[i].tags| && Says(rows[i].tags[j], k.key, k.value) :: (i, j)
  }

  predicate IsKind(value: Json, kind: string) {
    || (kind == "null" && value.JNull?)
    || (kind == "boolean" && value.JBool?)
    || (kind == "number" && value.JNumber?)
    || (kind == "string" && value.JString?)
    || (kind == "array" && value.JArray?)
    || (kind == "object" && value.JObject?)
  }

  /** The row carries a value of that type under the data key. */
  predicate Carries(row: Row, path: string, kind: string) {
    row.data.Some? && path in row.data.value && IsKind(row.data.value[path], kind)
  }

  function KeyPlaces(rows: seq<Row>, k: DataKey): set<nat> {
    set i: nat | i < |rows| && rows[i].event == k.event && Carries(rows[i], k.path, k.kind)
  }

  lemma KeysOfRow(row: Row, k: DataKey)
    ensures RowKeys(row)[k] == if k.event == row.event && Carries(row, k.path, k.kind) then 1 else 0
  {
    if row.data.Some? {
      assert k in DataKeys(row.event, row.data.value) <==> k.event == row.event && Carries(row, k.path, k.kind) by {
        if k.path in row.data.value { KindIs(row.data.value[k.path], k.kind); }
      }
    }
  }

  lemma KindIs(value: Json, kind: string)
    ensures KindOf(value) == kind <==> IsKind(value, kind)
  {
  }

  lemma {:induction false} CountedRows(rows: seq<Row>, event: string)
    ensures CountOf(rows, event) == |Those(rows, event)|
  {
    if rows == [] {
      assert Those(rows, event) == {};
    } else {
      var before, last := rows[..|rows| - 1], rows[|rows| - 1];
      CountedRows(before, event);
      assert Those(rows, event) == Those(before, event) + if last.event == event then {|before|} else {};
    }
  }

  function Pairs<T>(i: int, places: set<T>): set<(int, T)> {
    set j | j in places :: (i, j)
  }

  lemma TagPlacesLast(before: seq<Row>, last: Row, k: FacetKey)
    ensures
      var more := Pairs(|before|, if last.event == k.event then Places(last.tags, k.key, k.value) else {});
      TagPlaces(before + [last], k) == TagPlaces(before, k) + more && TagPlaces(before, k) !! more
  {
    hide Says;
  }

  lemma {:induction false} CountedTags(rows: seq<Row>, k: FacetKey)
    ensures FacetBag(rows)[k] == |TagPlaces(rows, k)|
  {
    hide Says, TagFacets, TagPlaces, Places, Pairs;
    if rows == [] {
      NoPlaces(k);
    } else {
      var before, last := rows[..|rows| - 1], rows[|rows| - 1];
      assert rows == before + [last];
      CountedTags(before, k);
      TagsCounted(last.event, last.tags, k);
      TagPlacesLast(before, last, k);
      PairSize(|before|, if last.event == k.event then Places(last.tags, k.key, k.value) else {});
    }
  }

  lemma NoPlaces(k: FacetKey)
    ensures TagPlaces([], k) == {}
  {
  }

  lemma {:induction false} PairSize<T>(i: int, places: set<T>)
    ensures |Pairs(i, places)| == |places|
    decreases |places|
  {
    if places != {} {
      var p :| p in places;
      PairSize(i, places - {p});
      assert Pairs(i, places) == Pairs(i, places - {p}) + {(i, p)};
    } else {
      assert Pairs(i, places) == {};
    }
  }

  lemma {:induction false} CountedKeys(rows: seq<Row>, k: DataKey)
    ensures KeyBag(rows)[k] == |KeyPlaces(rows, k)|
  {
    hide RowKeys, Carries;
    if rows == [] {
      assert KeyPlaces(rows, k) == {};
    } else {
      var before, last := rows[..|rows| - 1], rows[|rows| - 1];
      CountedKeys(before, k);
      KeysOfRow(last, k);
      assert KeyPlaces(rows, k) == KeyPlaces(before, k) + if last.event == k.event && Carries(last, k.path, k.kind) then {|before|} else {};
    }
  }

  /** The value sum, row after row: a row without a value, or of another event, adds nothing. */
  lemma SumOne(rows: seq<Row>, row: Row, event: string)
    ensures SumOf(rows + [row], event) ==
      SumOf(rows, event) + if row.event == event && row.value.Some? then row.value.value else 0.0
    ensures SumOf([], event) == 0.0
  {
    assert (rows + [row])[..|rows|] == rows;
  }

  /** An index counts the occurrences themselves, and has a row for each event, tag and data key that occurs. */
  lemma IndexMeans(rows: seq<Row>)
    ensures
      var index := IndexOf(rows);
      && (forall e :: e in index.daily <==> exists r :: r in rows && r.event == e)
      && (forall e :: e in index.daily ==> index.daily[e].count == |Those(rows, e)| && index.daily[e].sum == SumOf(rows, e))
      && (forall e :: e in index.daily ==> index.daily[e].users == |set r | r in rows && r.event == e && r.userID != "" :: r.userID|)
      && (forall e :: e in index.daily ==> index.daily[e].anons == |set r | r in rows && r.event == e && r.anonID != "" :: r.anonID|)
      && (forall k :: k in index.facets <==> TagPlaces(rows, k) != {})
      && (forall k :: k in index.facets ==> index.facets[k] == |TagPlaces(rows, k)|)
      && (forall k :: k in index.keys <==> KeyPlaces(rows, k) != {})
      && (forall k :: k in index.keys ==> index.keys[k] == |KeyPlaces(rows, k)|)
  {
    hide CountOf, SumOf, FacetBag, KeyBag, TagPlaces, KeyPlaces, Those;
    forall e ensures CountOf(rows, e) == |Those(rows, e)| { CountedRows(rows, e); }
    forall k ensures FacetBag(rows)[k] == |TagPlaces(rows, k)| { CountedTags(rows, k); }
    forall k ensures KeyBag(rows)[k] == |KeyPlaces(rows, k)| { CountedKeys(rows, k); }
  }

  // ---------------------------------------------------------------- facets

  /** The tag answers the question for a key: without one with its own key, unless that is "#", else with its value. */
  predicate Answers(tag: string, key: string, value: string) {
    if key == "" then ':' !in value && value != "#" && |tag| > |value| && tag[..|value| + 1] == value + ":"
    else Says(tag, key, value)
  }

  function Answering(tags: seq<string>, key: string, value: string): set<nat> {
    set i: nat | i < |tags| && Answers(tags[i], key, value)
  }

  lemma LabelAnswers(q: Query, key: string, event: string, tag: string, v: Answer)
    requires EventAllowed(q, event)
    ensures FacetLabel(q, key)(FacetOf(event, tag)) == Some(v) <==> v.kind == "" && Answers(tag, key, v.value)
  {
    var k := FacetOf(event, tag);
    FacetSays(event, tag, k);
    hide EventAllowed;
    if key == "" {
      if Answers(tag, key, v.value) {
        assert tag == v.value + ":" + tag[|v.value| + 1..];
        FacetSays(event, tag, FacetKey(event, v.value, tag[|v.value| + 1..]));
      }
      if k.key == v.value && v.value != "#" {
        assert tag == k.key + ":" + k.value;
        assert tag[..|v.value| + 1] == v.value + ":";
      }
    } else {
      FacetSays(event, tag, FacetKey(event, key, v.value));
    }
  }

  lemma OneLabelled<K>(k: K, answers: K -> Option<Answer>, v: Answer)
    ensures LabelledTotal(Table(multiset{k}), answers, v) == if answers(k) == Some(v) then 1 else 0
  {
    LabelledPut(map[], answers, k, 1, v);
    LabelledEmpty(answers, v);
    assert Table(multiset{k}) == map[][k := 1];
  }

  lemma {:induction false} TagsAnswer(q: Query, key: string, event: string, tags: seq<string>, v: Answer)
    requires EventAllowed(q, event)
    ensures LabelledTotal(Table(TagFacets(event, tags)), FacetLabel(q, key), v) ==
      if v.kind == "" then |Answering(tags, key, v.value)| else 0
  {
    hide Answers, LabelledTotal, FacetLabel, EventAllowed;
    if tags == [] {
      assert Answering(tags, key, v.value) == {};
      LabelledNone(multiset{}, FacetLabel(q, key), v);
    } else {
      var before, last := tags[..|tags| - 1], tags[|tags| - 1];
      TagsAnswer(q, key, event, before, v);
      LabelAnswers(q, key, event, last, v);
      LabelledAppend(TagFacets(event, before), multiset{FacetOf(event, last)}, FacetLabel(q, key), v);
      OneLabelled(FacetOf(event, last), FacetLabel(q, key), v);
      assert Answering(tags, key, v.value) == Answering(before, key, v.value) + if Answers(last, key, v.value) then {|before|} else {};
    }
  }

  lemma {:induction false} KeysAnswer(q: Query, event: string, bag: multiset<DataKey>, v: Answer)
    requires EventAllowed(q, event) && forall k :: k in bag ==> k.event == event
    ensures LabelledTotal(Table(bag), KeyLabel(q), v) == bag[DataKey(event, v.value, v.kind)]
    decreases |bag|
  {
    hide LabelledTotal, EventAllowed;
    if bag == multiset{} {
      LabelledNone(bag, KeyLabel(q), v);
    } else {
      var k :| k in bag;
      var rest := bag - multiset{k};
      KeysAnswer(q, event, rest, v);
      LabelledAppend(rest, multiset{k}, KeyLabel(q), v);
      OneLabelled(k, KeyLabel(q), v);
      assert bag == rest + multiset{k};
    }
  }

  /**
   What one event adds to an answer: once for each of its tags that answers, or, when data keys are
   asked, once if it carries a value of the type under the key; nothing when its name is not allowed.
   */
  lemma RowCountMeans(q: Query, key: string, row: Row, v: Answer)
    ensures RowCount(q, key, row, v) ==
      if !EventAllowed(q, row.event) then 0
      else if key == "data." then if Carries(row, v.value, v.kind) then 1 else 0
      else if v.kind == "" then |Answering(row.tags, key, v.value)| else 0
  {
    hide EventAllowed, Carries, Answering;
    if !EventAllowed(q, row.event) {
      NotAllowed(q, key, row, v);
    } else if key == "data." {
      assert forall k :: k in RowKeys(row) ==> k.event == row.event;
      KeysAnswer(q, row.event, RowKeys(row), v);
      KeysOfRow(row, DataKey(row.event, v.value, v.kind));
    } else {
      TagsAnswer(q, key, row.event, row.tags, v);
    }
  }
}
