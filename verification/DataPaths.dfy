/** Dotted paths into an event's data: which texts are paths, and what value a path finds. */
module DataPaths {
  import opened Prelude
  import opened Rows
  import opened Filter
  import Sql

  // ---------------------------------------------------------------- the form of a path

  /** Letters, digits and underscores in groups of at least one, with single dots between them. */
  predicate IsPath(path: string) {
    && path != "" && path[0] != '.' && path[|path| - 1] != '.'
    && (forall i :: 0 <= i < |path| - 1 && path[i] == '.' ==> path[i + 1] != '.')
    && forall c :: c in path ==>
      var n := c as int;
      c == '.' || 48 <= n <= 57 || 65 <= n <= 90 || n == 95 || 97 <= n <= 122
  }

  /** Some group behind a dot is empty. */
  predicate Gap(path: string) {
    path != "" && (path[|path| - 1] == '.' || exists i :: 0 <= i < |path| - 1 && path[i] == '.' && path[i + 1] == '.')
  }

  lemma GapStep(path: string)
    requires path != ""
    ensures Gap(path) <==> Gap(path[1..]) || (path[0] == '.' && (|path| == 1 || path[1] == '.'))
  {
    var rest := path[1..];
    if Gap(rest) && !(rest[|rest| - 1] == '.') {
      var i :| 0 <= i < |rest| - 1 && rest[i] == '.' && rest[i + 1] == '.';
      assert path[i + 1] == '.' && path[i + 2] == '.';
    }
    if Gap(path) && path[|path| - 1] != '.' {
      var i :| 0 <= i < |path| - 1 && path[i] == '.' && path[i + 1] == '.';
      assert i > 0 ==> rest[i - 1] == '.' && rest[i] == '.';
    }
  }

  lemma {:induction false} EmptyGroups(path: string)
    ensures Sql.SplitDots(path)[0] == "" <==> path == "" || path[0] == '.'
    ensures "" in Sql.SplitDots(path)[1..] <==> Gap(path)
  {
    if path != "" {
      var rest := Sql.SplitDots(path[1..]);
      EmptyGroups(path[1..]);
      GapStep(path);
      if path[0] == '.' {
        assert Sql.SplitDots(path)[1..] == rest;
        assert rest == [rest[0]] + rest[1..];
      } else {
        assert Sql.SplitDots(path)[1..] == rest[1..];
      }
    }
  }

  predicate Letter(c: char) {
    var n := c as int;
    48 <= n <= 57 || 65 <= n <= 90 || n == 95 || 97 <= n <= 122
  }

  lemma LetterIff(c: char)
    ensures PathChar(c) <==> Letter(c)
  {
  }

  predicate Lettered(parts: seq<string>) {
    forall part :: part in parts ==> forall c :: c in part ==> Letter(c)
  }

  lemma LetteredFirst(first: string, rest: seq<string>)
    ensures Lettered([first] + rest) <==> Lettered(rest) && forall c :: c in first ==> Letter(c)
  {
    var parts := [first] + rest;
    assert parts[0] == first && parts[0] in parts;
    assert forall part :: part in parts <==> part == first || part in rest;
  }

  lemma {:induction false} LettersOnly(path: string)
    ensures Lettered(Sql.SplitDots(path)) <==> forall c :: c in path ==> c == '.' || Letter(c)
  {
    hide Letter, Lettered;
    if path == "" {
      LetteredFirst("", []);
      assert [""] + [] == [""];
      assert Lettered([]) by { NoParts(); }
    } else {
      var rest := Sql.SplitDots(path[1..]);
      LettersOnly(path[1..]);
      assert path == [path[0]] + path[1..];
      if path[0] == '.' {
        LetteredFirst("", rest);
      } else {
        LetteredFirst([path[0]] + rest[0], rest[1..]);
        LetteredFirst(rest[0], rest[1..]);
        assert rest == [rest[0]] + rest[1..];
      }
    }
  }

  lemma NoParts()
    ensures Lettered([])
  {
  }

  /** The parser's test of a path, group by group, is its form. */
  lemma PathOkIff(path: string)
    ensures PathOk(path) <==> IsPath(path)
  {
    hide PathChar, Letter;
    var parts := Sql.SplitDots(path);
    forall c: char ensures PathChar(c) <==> Letter(c) { LetterIff(c); }
    EmptyGroups(path);
    LettersOnly(path);
    assert parts == [parts[0]] + parts[1..];
    assert "" in parts <==> parts[0] == "" || "" in parts[1..];
    FormOf(path);
  }

  lemma FormOf(path: string)
    ensures IsPath(path) <==> path != "" && path[0] != '.' && !Gap(path) && forall c :: c in path ==> c == '.' || Letter(c)
  {
  }

  // ---------------------------------------------------------------- what a path finds

  function Dotted(keys: seq<string>): string {
    if |keys| == 0 then "" else if |keys| == 1 then keys[0] else keys[0] + "." + Dotted(keys[1..])
  }

  /** The path is these keys with dots between them. */
  predicate IsKeys(keys: seq<string>, path: string) {
    keys != [] && Dotted(keys) == path && forall k :: k in keys ==> '.' !in k
  }

  /** Through these objects, each under its key in the one before, the last key leads to the value. */
  predicate Through(chain: seq<map<string, Json>>, keys: seq<string>, value: Json) {
    && |chain| == |keys| > 0
    && (forall i :: 0 <= i < |keys| - 1 ==> keys[i] in chain[i] && chain[i][keys[i]] == JObject(chain[i + 1]))
    && keys[|keys| - 1] in chain[|keys| - 1] && chain[|keys| - 1][keys[|keys| - 1]] == value
  }

  lemma {:induction false} KeysSplit(keys: seq<string>, path: string)
    requires IsKeys(keys, path)
    ensures Sql.SplitDots(path) == keys
  {
    hide Sql.SplitDots;
    if |keys| == 1 {
      OneKey(keys[0]);
      assert keys == [keys[0]];
    } else {
      var first, rest := keys[0], keys[1..];
      assert keys == [first] + rest;
      assert IsKeys(rest, Dotted(rest));
      KeysSplit(rest, Dotted(rest));
      FirstKey(first, Dotted(rest));
      assert path == first + ("." + Dotted(rest));
    }
  }

  lemma {:induction false} OneKey(key: string)
    requires '.' !in key
    ensures Sql.SplitDots(key) == [key]
  {
    if key != "" {
      OneKey(key[1..]);
      assert key == [key[0]] + key[1..];
    }
  }

  lemma {:induction false} FirstKey(key: string, rest: string)
    requires '.' !in key
    ensures Sql.SplitDots(key + ("." + rest)) == [key] + Sql.SplitDots(rest)
  {
    var path := key + ("." + rest);
    if key == "" {
      assert path[0] == '.' && path[1..] == rest;
    } else {
      FirstKey(key[1..], rest);
      assert path[0] == key[0] && path[1..] == key[1..] + ("." + rest);
      assert key == [key[0]] + key[1..];
    }
  }

  lemma {:induction false} SplitIsKeys(path: string)
    ensures IsKeys(Sql.SplitDots(path), path)
  {
    if path != "" {
      var rest := Sql.SplitDots(path[1..]);
      SplitIsKeys(path[1..]);
      assert path == [path[0]] + path[1..];
      KeysStep(path[0], rest);
    }
  }

  lemma KeysStep(first: char, rest: seq<string>)
    requires rest != [] && forall k :: k in rest ==> '.' !in k
    ensures
      var keys := if first == '.' then [""] + rest else [[first] + rest[0]] + rest[1..];
      IsKeys(keys, [first] + Dotted(rest))
  {
    if first == '.' { DotStep(rest); } else { LetterStep(first, rest[0], rest[1..]); }
    assert rest == [rest[0]] + rest[1..];
  }

  lemma DotStep(rest: seq<string>)
    requires rest != [] && forall k :: k in rest ==> '.' !in k
    ensures IsKeys([""] + rest, "." + Dotted(rest))
  {
    DottedFirst("", rest);
    hide Dotted;
    assert "" + ("." + Dotted(rest)) == "." + Dotted(rest);
  }

  lemma LetterStep(first: char, key: string, rest: seq<string>)
    requires first != '.' && '.' !in key && forall k :: k in rest ==> '.' !in k
    ensures IsKeys([[first] + key] + rest, [first] + Dotted([key] + rest))
  {
    DottedFirst([first] + key, rest);
    DottedFirst(key, rest);
    hide Dotted;
    assert [first] + key + ("." + Dotted(rest)) == [first] + (key + ("." + Dotted(rest)));
  }

  lemma DottedFirst(first: string, rest: seq<string>)
    ensures Dotted([first] + rest) == if rest == [] then first else first + ("." + Dotted(rest))
  {
    assert ([first] + rest)[1..] == rest;
    assert first + "." + Dotted(rest) == first + ("." + Dotted(rest));
  }

  /** A walk over keys is a chain of objects. */
  lemma {:induction false} WalkIsChain(fields: map<string, Json>, keys: seq<string>, value: Json)
    requires keys != []
    ensures Sql.Walk(fields, keys) == Some(value) <==> exists chain :: Through(chain, keys, value) && chain[0] == fields
    decreases |keys|
  {
    if |keys| == 1 {
      if Sql.Walk(fields, keys) == Some(value) { assert Through([fields], keys, value); }
    } else {
      if Sql.Walk(fields, keys) == Some(value) {
        var inner := fields[keys[0]].fields;
        WalkIsChain(inner, keys[1..], value);
        var chain :| Through(chain, keys[1..], value) && chain[0] == inner;
        ChainLonger(fields, chain, keys, value);
      }
      if chain :| Through(chain, keys, value) && chain[0] == fields {
        ChainShorter(chain, keys, value);
        WalkIsChain(chain[1], keys[1..], value);
      }
    }
  }

  lemma ChainLonger(fields: map<string, Json>, chain: seq<map<string, Json>>, keys: seq<string>, value: Json)
    requires |keys| > 1 && Through(chain, keys[1..], value) && keys[0] in fields && fields[keys[0]] == JObject(chain[0])
    ensures Through([fields] + chain, keys, value)
  {
  }

  lemma ChainShorter(chain: seq<map<string, Json>>, keys: seq<string>, value: Json)
    requires |keys| > 1 && Through(chain, keys, value)
    ensures Through(chain[1..], keys[1..], value) && keys[0] in chain[0] && chain[0][keys[0]] == JObject(chain[1])
  {
  }

  /** A path finds a value exactly when its keys, cut at the dots, lead there object by object. */
  lemma LookupMeans(data: Option<map<string, Json>>, path: string, value: Json)
    ensures Lookup(data, path) == Some(value) <==>
      data.Some? && exists keys, chain :: IsKeys(keys, path) && Through(chain, keys, value) && chain[0] == data.value
  {
    hide Dotted, Sql.SplitDots, Sql.Walk, Through;
    SplitIsKeys(path);
    forall keys | IsKeys(keys, path) ensures Sql.SplitDots(path) == keys { KeysSplit(keys, path); }
    if data.Some? { WalkIsChain(data.value, Sql.SplitDots(path), value); }
  }
}
