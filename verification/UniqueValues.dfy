/** The capped lists of distinct users and addresses. */
module UniqueValues {
  import opened Trimming
  import Bags

  const CAP: nat := 5

  /** Takes one value: trimmed, not blank, not seen, and only while there is room. */
  function Take(out: seq<string>, value: string): seq<string> {
    var v := Trim(value);
    if |out| >= CAP || v == "" || v in out then out else out + [v]
  }

  function TakeAll(out: seq<string>, values: seq<string>): seq<string> {
    if values == [] then out else Take(TakeAll(out, values[..|values| - 1]), values[|values| - 1])
  }

  /** Existing values first, then the new ones. */
  function Append(existing: seq<string>, values: seq<string>): seq<string> {
    TakeAll(TakeAll([], existing), values)
  }

  /** A list this module built: distinct, trimmed, not blank and within the cap. */
  ghost predicate Canonical(list: seq<string>) {
    && |list| <= CAP
    && (forall v :: v in list ==> v != "" && Trim(v) == v)
    && (forall i, j :: 0 <= i < j < |list| ==> list[i] != list[j])
  }

  /** The two loops with their seen map. */
  method AppendUniqueValues(existing: seq<string>, values: seq<string>) returns (out: seq<string>)
    ensures out == Append(existing, values)
  {
    hide Trim;
    out := [];
    var seen: set<string> := {};
    for i := 0 to |existing|
      invariant out == TakeAll([], existing[..i]) && |out| < CAP
      invariant seen == set v | v in out
    {
      assert existing[..i + 1][..i] == existing[..i];
      var v := Trim(existing[i]);
      if v != "" && v !in seen {
        seen := seen + {v};
        out := out + [v];
        if |out| >= CAP {
          FullStays([], existing, i + 1);
          FullStays(out, values, 0);
          return;
        }
      }
    }
    assert existing[..|existing|] == existing;
    for i := 0 to |values|
      invariant out == TakeAll(TakeAll([], existing), values[..i]) && |out| < CAP
      invariant seen == set v | v in out
    {
      assert values[..i + 1][..i] == values[..i];
      var v := Trim(values[i]);
      if v != "" && v !in seen {
        seen := seen + {v};
        out := out + [v];
        if |out| >= CAP {
          FullStays(TakeAll([], existing), values, i + 1);
          break;
        }
      }
    }
    assert values[..|values|] == values;
  }

  /** A full list takes nothing more. */
  lemma {:induction false} FullStays(out: seq<string>, values: seq<string>, i: nat)
    requires i <= |values| && |TakeAll(out, values[..i])| >= CAP
    ensures TakeAll(out, values) == TakeAll(out, values[..i])
    decreases |values| - i
  {
    if i == |values| {
      assert values[..i] == values;
    } else {
      assert values[..i + 1][..i] == values[..i];
      FullStays(out, values, i + 1);
    }
  }

  lemma {:induction false} TakeAllCanonical(out: seq<string>, values: seq<string>)
    requires Canonical(out)
    ensures Canonical(TakeAll(out, values)) && out <= TakeAll(out, values)
  {
    if values == [] {
    } else {
      TakeAllCanonical(out, values[..|values| - 1]);
      TrimTrims(values[|values| - 1]);
      TrimFixed(Trim(values[|values| - 1]));
    }
  }

  /** Rereading a stored list changes nothing. */
  lemma {:induction false} Reread(list: seq<string>)
    requires Canonical(list)
    ensures TakeAll([], list) == list
  {
    if list == [] {
    } else {
      hide Trim;
      var before, last := list[..|list| - 1], list[|list| - 1];
      assert list == before + [last];
      PrefixCanonical(before, last);
      Reread(before);
    }
  }

  lemma PrefixCanonical(before: seq<string>, last: string)
    requires Canonical(before + [last])
    ensures Canonical(before) && last !in before && Trim(last) == last && last != "" && |before| < CAP
  {
    hide Trim;
    var list := before + [last];
    assert list[|before|] == last;
    assert forall i :: 0 <= i < |before| ==> list[i] == before[i];
    assert forall v :: v in before ==> v in list;
    assert last in list;
  }

  /** Every value offered is in the list, unless the list is full. */
  lemma {:induction false} Offered(out: seq<string>, values: seq<string>)
    requires Canonical(out)
    ensures |TakeAll(out, values)| == CAP || forall v :: v in values && Trim(v) != "" ==> Trim(v) in TakeAll(out, values)
  {
    if values == [] {
    } else {
      var before, last := values[..|values| - 1], values[|values| - 1];
      Offered(out, before);
      TakeAllCanonical(out, before);
      TakeAllCanonical(out, values);
      assert values == before + [last];
    }
  }

  /** Five distinct values cannot all be in a shorter list. */
  lemma Pigeonhole(small: seq<string>, big: seq<string>)
    requires Canonical(small) && forall v :: v in small ==> v in big
    ensures |small| <= |big|
  {
    var a, b := set v | v in small, set v | v in big;
    assert a <= b;
    SetSize(small);
    SetBound(big);
    Bags.SubsetSize(a, b);
  }

  lemma {:induction false} SetSize(list: seq<string>)
    requires forall i, j :: 0 <= i < j < |list| ==> list[i] != list[j]
    ensures |(set v | v in list)| == |list|
  {
    if list == [] {
      assert (set v | v in list) == {};
    } else {
      var before, last := list[..|list| - 1], list[|list| - 1];
      SetSize(before);
      assert list == before + [last];
      assert (set v | v in list) == (set v | v in before) + {last};
      assert last !in before;
    }
  }

  lemma {:induction false} SetBound(list: seq<string>)
    ensures |(set v | v in list)| <= |list|
  {
    if list == [] {
      assert (set v | v in list) == {};
    } else {
      var before, last := list[..|list| - 1], list[|list| - 1];
      SetBound(before);
      assert list == before + [last];
      assert (set v | v in list) == (set v | v in before) + {last};
    }
  }

  /**
   Collecting a value before or after merging two lists is the same, also when either list is
   full: a full list of distinct values merges into a full list.
   */
  lemma TakeThenMerge(out: seq<string>, list: seq<string>, value: string)
    requires Canonical(out) && Canonical(list)
    ensures TakeAll(out, Take(list, value)) == Take(TakeAll(out, list), value)
  {
    var v, merged := Trim(value), TakeAll(out, list);
    TakeAllCanonical(out, list);
    Offered(out, list);
    TrimTrims(value);
    TrimFixed(v);
    if |list| >= CAP {
      if |merged| < CAP {
        Pigeonhole(list, merged);
      }
    } else if v != "" && v !in list {
      var more := list + [v];
      assert more[..|more| - 1] == list;
      assert TakeAll(out, more) == Take(merged, v);
    } else if v != "" {
      assert Trim(v) == v;
    }
  }

  /** The list holds the first five distinct nonblank values, in order of first appearance. */
  lemma {:induction false} TakeAllFirst(values: seq<string>, k: nat)
    requires k < |values| && Trim(values[k]) != ""
    ensures Trim(values[k]) in TakeAll([], values) || |TakeAll([], values[..k])| == 5
  {
    if k == |values| - 1 {
      assert values[..k] == values[..|values| - 1];
      TakeAllCanonical([], values[..k]);
    } else {
      var before := values[..|values| - 1];
      assert before[..k] == values[..k];
      TakeAllFirst(before, k);
      TakeAllCanonical([], before);
    }
  }
}
