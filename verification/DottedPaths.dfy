/** Dotted setting paths: joining keys with dots and splitting at them. */
module DottedPaths {
  predicate GoodKey(key: string) {
    key != "" && '.' !in key
  }

  ghost predicate GoodPath(path: seq<string>) {
    path != [] && forall i :: 0 <= i < |path| ==> GoodKey(path[i])
  }

  function Join(path: seq<string>): string {
    if path == [] then "" else if |path| == 1 then path[0] else path[0] + "." + Join(path[1..])
  }

  // Always at least one part.
  function Split(s: string): (parts: seq<string>)
    ensures parts != []
  {
    if s == [] then [""]
    else
      var rest := Split(s[1..]);
      if s[0] == '.' then [""] + rest else [[s[0]] + rest[0]] + rest[1..]
  }

  lemma {:induction false} SplitKey(key: string)
    requires '.' !in key
    ensures Split(key) == [key]
  {
    if key != [] {
      SplitKey(key[1..]);
      assert [key[0]] + key[1..] == key;
    }
  }

  lemma {:induction false} SplitAtDot(key: string, rest: string)
    requires '.' !in key
    ensures Split(key + "." + rest) == [key] + Split(rest)
  {
    var s := key + "." + rest;
    if key == [] {
      assert s[1..] == rest;
    } else {
      assert s[1..] == key[1..] + "." + rest;
      SplitAtDot(key[1..], rest);
      assert [key[0]] + key[1..] == key;
    }
  }

  /** Splitting undoes joining on paths of non-empty, dot-free keys. */
  lemma {:induction false} SplitJoin(path: seq<string>)
    requires GoodPath(path)
    ensures Split(Join(path)) == path
  {
    if |path| == 1 {
      SplitKey(path[0]);
    } else {
      SplitJoin(path[1..]);
      SplitAtDot(path[0], Join(path[1..]));
    }
  }

  /** Joining undoes splitting on every text. */
  lemma {:induction false} JoinSplit(s: string)
    ensures Join(Split(s)) == s
  {
    if s != [] {
      JoinSplit(s[1..]);
      var rest := Split(s[1..]);
      if s[0] == '.' {
        assert ([""] + rest)[1..] == rest;
        assert "" + "." + Join(rest) == s;
      } else {
        var parts := [[s[0]] + rest[0]] + rest[1..];
        assert parts[1..] == rest[1..];
        if |rest| > 1 {
          assert [s[0]] + rest[0] + "." + Join(rest[1..]) == [s[0]] + (rest[0] + "." + Join(rest[1..]));
        }
      }
    }
  }

  // Joining grows by one key the way a prefix does.
  lemma {:induction false} JoinExtends(path: seq<string>, key: string)
    requires GoodPath(path)
    ensures Join(path + [key]) == Join(path) + "." + key
    ensures Join(path) != ""
  {
    if |path| > 1 {
      assert (path + [key])[1..] == path[1..] + [key];
      JoinExtends(path[1..], key);
      assert path[0] + "." + (Join(path[1..]) + "." + key) == path[0] + "." + Join(path[1..]) + "." + key;
    } else {
      assert (path + [key])[1..] == [key];
    }
  }
}
