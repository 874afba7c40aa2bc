/** The configuration tree of `Config` (src/config/config.py): what
    `yaml.safe_load` returns, with dictionaries as association lists so that
    Python's insertion order is kept, and the static helpers that walk it. */
module ConfigTree {
  import opened Wrappers

  datatype Value =
    | Str(s: string)
    | Int(i: int)
    | Float(f: real)
    | Bool(b: bool)
    | Null
    | List(items: seq<Value>)
    | Dict(entries: seq<(string, Value)>)

  /** The exceptions a walk can raise. */
  datatype LookupError = KeyError(key: string) | TypeError | AttributeError | IndexError

  /** The exceptions loading the configuration can raise. */
  datatype ConfigError =
    | ValueError(message: string)
    | FileNotFoundError(message: string)
    | CalledProcessError(message: string)
    | OSError(message: string)
    | Walk(error: LookupError)

  /** `d[key]` on a dictionary: the value of the entry with that key. */
  function Lookup(entries: seq<(string, Value)>, key: string): (r: Option<Value>)
    ensures r.None? <==> forall i :: 0 <= i < |entries| ==> entries[i].0 != key
    ensures r.Some? ==> exists i :: 0 <= i < |entries| && entries[i] == (key, r.value)
  {
    if entries == [] then None
    else if entries[0].0 == key then Some(entries[0].1)
    else Lookup(entries[1..], key)
  }

  /** `d[key] = value`: an existing key keeps its place, a new one is appended. */
  function Assign(entries: seq<(string, Value)>, key: string, value: Value): (r: seq<(string, Value)>)
    ensures Lookup(r, key) == Some(value)
    ensures forall k :: k != key ==> Lookup(r, k) == Lookup(entries, k)
    ensures |r| == |entries| + (if Lookup(entries, key).Some? then 0 else 1)
  {
    if entries == [] then [(key, value)]
    else if entries[0].0 == key then [(key, value)] + entries[1..]
    else [entries[0]] + Assign(entries[1..], key, value)
  }

  /** `_nested_get`: follow the keys in order. A missing key raises KeyError
      for that key; indexing anything but a dictionary with a string raises
      TypeError. */
  function GetPath(v: Value, keys: seq<string>): (r: Result<Value, LookupError>)
    decreases |keys|
  {
    if keys == [] then Ok(v)
    else if !v.Dict? then Err(TypeError)
    else match Lookup(v.entries, keys[0])
      case None => Err(KeyError(keys[0]))
      case Some(child) => GetPath(child, keys[1..])
  }

  /** `_nested_get` as written: a loop that re-binds `d` key by key. */
  method NestedGet(d: Value, keys: seq<string>) returns (r: Result<Value, LookupError>)
    ensures r == GetPath(d, keys)
  {
    var node := d;
    for i := 0 to |keys|
      invariant GetPath(d, keys) == GetPath(node, keys[i..])
    {
      if !node.Dict? {
        return Err(TypeError);
      }
      var child := Lookup(node.entries, keys[i]);
      if child.None? {
        return Err(KeyError(keys[i]));
      }
      assert keys[i..][1..] == keys[i + 1..];
      node := child.value;
    }
    return Ok(node);
  }

  /** Walking `p + q` is walking `p` and then `q` from where it ends; an error
      on `p` is the error on `p + q`. */
  lemma {:induction false} GetPathAppend(v: Value, p: seq<string>, q: seq<string>)
    ensures GetPath(v, p + q) == match GetPath(v, p)
                                 case Ok(u) => GetPath(u, q)
                                 case Err(e) => Err(e)
    decreases |p|
  {
    if p == [] {
      assert p + q == q;
    } else {
      assert (p + q)[0] == p[0];
      assert (p + q)[1..] == p[1..] + q;
      if v.Dict? && Lookup(v.entries, p[0]).Some? {
        GetPathAppend(Lookup(v.entries, p[0]).value, p[1..], q);
      }
    }
  }

  /** The KeyError names the first missing key: every key before it was
      found, each on a dictionary. */
  lemma {:induction false} KeyErrorIsFirstMissing(v: Value, keys: seq<string>, k: string)
    requires GetPath(v, keys) == Err(KeyError(k))
    ensures exists i :: 0 <= i < |keys| && keys[i] == k
              && GetPath(v, keys[..i]).Ok? && GetPath(v, keys[..i]).value.Dict?
              && Lookup(GetPath(v, keys[..i]).value.entries, k).None?
    decreases |keys|
  {
    assert keys[..0] == [];
    if Lookup(v.entries, keys[0]).Some? {
      var child := Lookup(v.entries, keys[0]).value;
      KeyErrorIsFirstMissing(child, keys[1..], k);
      var i :| 0 <= i < |keys[1..]| && keys[1..][i] == k
               && GetPath(child, keys[1..][..i]).Ok? && GetPath(child, keys[1..][..i]).value.Dict?
               && Lookup(GetPath(child, keys[1..][..i]).value.entries, k).None?;
      assert keys[..i + 1][1..] == keys[1..][..i];
      assert GetPath(v, keys[..i + 1]) == GetPath(child, keys[1..][..i]);
    }
  }

  /** `_nested_set`: walk all keys but the last with `setdefault(key, {})`,
      creating missing dictionaries, then assign the last key. An empty key
      list raises IndexError; `setdefault` on a non-dictionary raises
      AttributeError; item assignment on one raises TypeError. */
  function SetPath(v: Value, keys: seq<string>, x: Value): (r: Result<Value, LookupError>)
    decreases |keys|
  {
    if keys == [] then Err(IndexError)
    else if |keys| == 1 then
      if v.Dict? then Ok(Dict(Assign(v.entries, keys[0], x))) else Err(TypeError)
    else if !v.Dict? then Err(AttributeError)
    else
      var child := match Lookup(v.entries, keys[0]) case Some(c) => c case None => Dict([]);
      match SetPath(child, keys[1..], x)
      case Err(e) => Err(e)
      case Ok(updated) => Ok(Dict(Assign(v.entries, keys[0], updated)))
  }

  /** Getting a path right after setting it returns the value set. */
  lemma {:induction false} GetAfterSet(v: Value, keys: seq<string>, x: Value)
    requires SetPath(v, keys, x).Ok?
    ensures GetPath(SetPath(v, keys, x).value, keys) == Ok(x)
    decreases |keys|
  {
    if |keys| > 1 {
      var child := match Lookup(v.entries, keys[0]) case Some(c) => c case None => Dict([]);
      GetAfterSet(child, keys[1..], x);
    }
  }

  /** Two key paths diverge when they differ at some position both have:
      neither is a prefix of the other. */
  predicate Diverge(p: seq<string>, q: seq<string>)
  {
    exists i :: 0 <= i < |p| && i < |q| && p[i] != q[i]
  }

  /** Setting one path leaves every diverging path as it was: one that
      resolved still resolves to the same value, and none that failed now
      resolves. */
  lemma {:induction false} SetLeavesOthers(v: Value, p: seq<string>, q: seq<string>, x: Value)
    requires SetPath(v, p, x).Ok? && Diverge(p, q)
    ensures GetPath(SetPath(v, p, x).value, q).Ok? || GetPath(v, q).Ok? ==>
              GetPath(SetPath(v, p, x).value, q) == GetPath(v, q)
    decreases |p|
  {
    var i :| 0 <= i < |p| && i < |q| && p[i] != q[i];
    if p[0] == q[0] {
      assert i > 0;
      var child := match Lookup(v.entries, p[0]) case Some(c) => c case None => Dict([]);
      assert p[1..][i - 1] != q[1..][i - 1];
      SetLeavesOthers(child, p[1..], q[1..], x);
      if Lookup(v.entries, p[0]).None? {
        GetEmptyFails(p[1..], q[1..], x);
      }
    }
  }

  /** Inside a dictionary that `setdefault` just created, a path that diverges
      from the one set does not resolve. */
  lemma {:induction false} GetEmptyFails(p: seq<string>, q: seq<string>, x: Value)
    requires SetPath(Dict([]), p, x).Ok? && Diverge(p, q)
    ensures GetPath(SetPath(Dict([]), p, x).value, q).Err?
    decreases |p|
  {
    var i :| 0 <= i < |p| && i < |q| && p[i] != q[i];
    if p[0] == q[0] {
      assert p[1..][i - 1] != q[1..][i - 1];
      GetEmptyFails(p[1..], q[1..], x);
    }
  }

  /** A path that already resolves can be set. */
  lemma {:induction false} ExistingPathSettable(v: Value, keys: seq<string>, x: Value)
    requires keys != [] && GetPath(v, keys).Ok?
    ensures SetPath(v, keys, x).Ok?
    decreases |keys|
  {
    if |keys| > 1 {
      ExistingPathSettable(Lookup(v.entries, keys[0]).value, keys[1..], x);
    }
  }

  /** Missing intermediate dictionaries are created: below a key the
      dictionary does not have, any non-empty path can be set. */
  lemma {:induction false} MissingPathCreated(entries: seq<(string, Value)>, keys: seq<string>, x: Value)
    requires keys != [] && Lookup(entries, keys[0]).None?
    ensures SetPath(Dict(entries), keys, x).Ok?
    decreases |keys|
  {
    if |keys| > 1 {
      MissingPathCreated([], keys[1..], x);
    }
  }

  /** `str.split(".")`: every dot separates, so there is always one part
      more than there are dots. */
  function Split(s: string): (parts: seq<string>)
    ensures |parts| >= 1
  {
    if s == [] then [""]
    else if s[0] == '.' then [""] + Split(s[1..])
    else
      var rest := Split(s[1..]);
      [[s[0]] + rest[0]] + rest[1..]
  }

  /** The parts joined with dots, as the f-string `f"{parent_key}.{key}"`
      builds them. */
  function Join(parts: seq<string>): string
  {
    if parts == [] then ""
    else if |parts| == 1 then parts[0]
    else parts[0] + "." + Join(parts[1..])
  }

  /** A key that survives the dot round trip: non-empty and dot-free. */
  predicate ValidKey(k: string)
  {
    k != "" && '.' !in k
  }

  lemma {:induction false} SplitDotFree(a: string, t: string)
    requires '.' !in a
    ensures Split(a + t) == [a + Split(t)[0]] + Split(t)[1..]
    decreases |a|
  {
    if a != [] {
      assert (a + t)[0] == a[0];
      assert (a + t)[1..] == a[1..] + t;
      SplitDotFree(a[1..], t);
      assert [a[0]] + (a[1..] + Split(t)[0]) == a + Split(t)[0];
    } else {
      var p := Split(t);
      assert a + t == t;
      assert a + p[0] == p[0];
      assert [p[0]] + p[1..] == p;
    }
  }

  /** Splitting the dotted form of a key path gives the path back. */
  lemma {:induction false} SplitJoin(parts: seq<string>)
    requires parts != [] && forall i :: 0 <= i < |parts| ==> '.' !in parts[i]
    ensures Split(Join(parts)) == parts
    decreases |parts|
  {
    if |parts| == 1 {
      SplitDotFree(parts[0], "");
      assert parts[0] + "" == parts[0];
    } else {
      var rest := Join(parts[1..]);
      SplitJoin(parts[1..]);
      assert parts[0] + "." + rest == parts[0] + ("." + rest);
      SplitDotFree(parts[0], "." + rest);
      assert ("." + rest)[1..] == rest;
      assert Split("." + rest) == [""] + parts[1..];
      assert parts[0] + "" == parts[0];
      assert [parts[0]] + parts[1..] == parts;
    }
  }

  lemma {:induction false} JoinSnoc(parts: seq<string>, k: string)
    requires parts != []
    ensures Join(parts + [k]) == Join(parts) + "." + k
    decreases |parts|
  {
    if |parts| > 1 {
      JoinSnoc(parts[1..], k);
      assert (parts + [k])[1..] == parts[1..] + [k];
    } else {
      assert (parts + [k])[1..] == [k];
    }
  }

  lemma {:induction false} JoinNonEmpty(parts: seq<string>)
    requires parts != [] && parts[0] != ""
    ensures Join(parts) != ""
  {
    if |parts| > 1 {
      assert |Join(parts)| >= |parts[0]|;
    }
  }

  /** Keys are non-empty and dot-free, and unique within each dictionary,
      all the way down. */
  predicate WellFormed(d: Value)
    decreases d
  {
    d.Dict? ==>
      && (forall i, j :: 0 <= i < j < |d.entries| ==> d.entries[i].0 != d.entries[j].0)
      && (forall i :: 0 <= i < |d.entries| ==> ValidKey(d.entries[i].0) && WellFormed(d.entries[i].1))
  }

  /** `_iter_deep_items(d, parent_key)`: the leaves of the tree in insertion
      order, each with its dotted key; a nested dictionary is descended into
      and never itself yielded. The parent key is used only when it is
      non-empty. `d.items()` needs a dictionary. */
  function IterDeepItems(d: Value, parentKey: string): seq<(string, Value)>
    requires d.Dict?
  {
    ItemsFrom(d, 0, parentKey)
  }

  /** The items of `d` from its `i`-th entry on. */
  function ItemsFrom(d: Value, i: nat, parentKey: string): seq<(string, Value)>
    requires d.Dict? && i <= |d.entries|
    decreases d, |d.entries| - i
  {
    if i == |d.entries| then []
    else
      var key := d.entries[i].0;
      var value := d.entries[i].1;
      var currentKey := if parentKey != "" then parentKey + "." + key else key;
      (if value.Dict? then ItemsFrom(value, 0, currentKey) else [(currentKey, value)])
        + ItemsFrom(d, i + 1, parentKey)
  }

  /** Only leaves are yielded. */
  lemma {:induction false} ItemsAreLeaves(d: Value, i: nat, parentKey: string)
    requires d.Dict? && i <= |d.entries|
    ensures forall k :: 0 <= k < |ItemsFrom(d, i, parentKey)| ==> !ItemsFrom(d, i, parentKey)[k].1.Dict?
    decreases d, |d.entries| - i
  {
    if i < |d.entries| {
      var key := d.entries[i].0;
      var value := d.entries[i].1;
      var currentKey := if parentKey != "" then parentKey + "." + key else key;
      if value.Dict? {
        ItemsAreLeaves(value, 0, currentKey);
      }
      ItemsAreLeaves(d, i + 1, parentKey);
    }
  }

  /** The leaves of `d` from its `i`-th entry on, with their key paths, in the
      order `_iter_deep_items` yields them. */
  function LeafPaths(d: Value, i: nat): seq<(seq<string>, Value)>
    requires d.Dict? && i <= |d.entries|
    decreases d, |d.entries| - i
  {
    if i == |d.entries| then []
    else
      var key := d.entries[i].0;
      var value := d.entries[i].1;
      (if value.Dict? then Prepend(key, LeafPaths(value, 0)) else [([key], value)])
        + LeafPaths(d, i + 1)
  }

  function Prepend(key: string, lps: seq<(seq<string>, Value)>): (r: seq<(seq<string>, Value)>)
    ensures |r| == |lps|
    ensures forall i :: 0 <= i < |lps| ==> r[i] == ([key] + lps[i].0, lps[i].1)
  {
    seq(|lps|, i requires 0 <= i < |lps| => ([key] + lps[i].0, lps[i].1))
  }

  /** Key paths written out with dots below a parent path. */
  function Dotted(prefix: seq<string>, lps: seq<(seq<string>, Value)>): (r: seq<(string, Value)>)
    ensures |r| == |lps|
    ensures forall i :: 0 <= i < |lps| ==> r[i] == (Join(prefix + lps[i].0), lps[i].1)
  {
    seq(|lps|, i requires 0 <= i < |lps| => (Join(prefix + lps[i].0), lps[i].1))
  }

  /** The key `_iter_deep_items` builds below a parent path is the joined
      path extended by one key. */
  lemma JoinKey(prefix: seq<string>, key: string)
    requires forall k :: 0 <= k < |prefix| ==> prefix[k] != ""
    ensures (if Join(prefix) != "" then Join(prefix) + "." + key else key) == Join(prefix + [key])
  {
    if prefix == [] {
      assert prefix + [key] == [key];
    } else {
      JoinNonEmpty(prefix);
      JoinSnoc(prefix, key);
    }
  }

  /** Dotting below `prefix + [key]` is dotting the paths with `key` in front
      below `prefix`. */
  lemma DottedPrepend(prefix: seq<string>, key: string, inner: seq<(seq<string>, Value)>)
    ensures Dotted(prefix + [key], inner) == Dotted(prefix, Prepend(key, inner))
  {
    forall k | 0 <= k < |inner|
      ensures (prefix + [key]) + inner[k].0 == prefix + ([key] + inner[k].0)
    {
    }
  }

  /** The leaves under entry `i` with their dotted keys. */
  lemma {:induction false} EntryDotted(d: Value, i: nat, prefix: seq<string>)
    requires d.Dict? && i < |d.entries| && WellFormed(d)
    requires forall k :: 0 <= k < |prefix| ==> prefix[k] != ""
    ensures var (key, value) := d.entries[i];
      var currentKey := Join(prefix + [key]);
      (if value.Dict? then ItemsFrom(value, 0, currentKey) else [(currentKey, value)])
        == Dotted(prefix, if value.Dict? then Prepend(key, LeafPaths(value, 0)) else [([key], value)])
    decreases d, |d.entries| - i, 0
  {
    var (key, value) := d.entries[i];
    if value.Dict? {
      assert ValidKey(key) && WellFormed(value);
      ItemsAreDottedPaths(value, 0, prefix + [key]);
      DottedPrepend(prefix, key, LeafPaths(value, 0));
    }
  }

  /** One step of `ItemsFrom` below a joined path. */
  lemma ItemsFromStep(d: Value, i: nat, prefix: seq<string>)
    requires d.Dict? && i < |d.entries|
    requires forall k :: 0 <= k < |prefix| ==> prefix[k] != ""
    ensures var (key, value) := d.entries[i];
      var currentKey := Join(prefix + [key]);
      ItemsFrom(d, i, Join(prefix))
        == (if value.Dict? then ItemsFrom(value, 0, currentKey) else [(currentKey, value)])
           + ItemsFrom(d, i + 1, Join(prefix))
  {
    JoinKey(prefix, d.entries[i].0);
  }

  /** One step of `LeafPaths`, dotted below `prefix`. */
  lemma LeafPathsStepDotted(d: Value, i: nat, prefix: seq<string>)
    requires d.Dict? && i < |d.entries|
    ensures var (key, value) := d.entries[i];
      Dotted(prefix, LeafPaths(d, i))
        == Dotted(prefix, if value.Dict? then Prepend(key, LeafPaths(value, 0)) else [([key], value)])
           + Dotted(prefix, LeafPaths(d, i + 1))
  {
    var (key, value) := d.entries[i];
    DottedAppend(prefix, if value.Dict? then Prepend(key, LeafPaths(value, 0)) else [([key], value)], LeafPaths(d, i + 1));
  }

  /** The dotted keys `_iter_deep_items` builds are the key paths joined. */
  lemma {:induction false} ItemsAreDottedPaths(d: Value, i: nat, prefix: seq<string>)
    requires d.Dict? && i <= |d.entries| && WellFormed(d)
    requires forall k :: 0 <= k < |prefix| ==> prefix[k] != ""
    ensures ItemsFrom(d, i, Join(prefix)) == Dotted(prefix, LeafPaths(d, i))
    decreases d, |d.entries| - i, 1
  {
    if i < |d.entries| {
      ItemsFromStep(d, i, prefix);
      EntryDotted(d, i, prefix);
      ItemsAreDottedPaths(d, i + 1, prefix);
      LeafPathsStepDotted(d, i, prefix);
    }
  }

  lemma DottedAppend(prefix: seq<string>, a: seq<(seq<string>, Value)>, b: seq<(seq<string>, Value)>)
    ensures Dotted(prefix, a + b) == Dotted(prefix, a) + Dotted(prefix, b)
  {
  }

  /** With unique keys, looking up the key of an entry finds that entry. */
  lemma {:induction false} LookupFindsEntry(entries: seq<(string, Value)>, i: nat)
    requires i < |entries|
    requires forall a, b :: 0 <= a < b < |entries| ==> entries[a].0 != entries[b].0
    ensures Lookup(entries, entries[i].0) == Some(entries[i].1)
  {
    if i > 0 {
      LookupFindsEntry(entries[1..], i - 1);
    }
  }

  /** The leaf paths under entry `i`. */
  function EntryPaths(d: Value, i: nat): seq<(seq<string>, Value)>
    requires d.Dict? && i < |d.entries|
  {
    var (key, value) := d.entries[i];
    if value.Dict? then Prepend(key, LeafPaths(value, 0)) else [([key], value)]
  }

  /** One step of `LeafPaths`. */
  lemma LeafPathsStep(d: Value, i: nat)
    requires d.Dict? && i < |d.entries|
    ensures LeafPaths(d, i) == EntryPaths(d, i) + LeafPaths(d, i + 1)
  {
  }

  /** `path` is a non-empty path of valid keys resolving to the leaf `v` and
      starting at the key of an entry at or after `i`. */
  ghost predicate LeafOf(d: Value, i: nat, path: seq<string>, v: Value)
    requires d.Dict?
  {
    && path != [] && !v.Dict? && GetPath(d, path) == Ok(v)
    && (forall m :: 0 <= m < |path| ==> ValidKey(path[m]))
    && exists m :: i <= m < |d.entries| && d.entries[m].0 == path[0]
  }

  ghost predicate AllLeavesOf(d: Value, i: nat, lps: seq<(seq<string>, Value)>)
    requires d.Dict?
  {
    forall k :: 0 <= k < |lps| ==> LeafOf(d, i, lps[k].0, lps[k].1)
  }

  /** A leaf of `value` is a leaf of `d` below the key of the entry holding
      `value`. */
  lemma EntryLeaf(d: Value, i: nat, path: seq<string>, v: Value)
    requires d.Dict? && i < |d.entries| && WellFormed(d) && d.entries[i].1.Dict?
    requires LeafOf(d.entries[i].1, 0, path, v)
    ensures LeafOf(d, i, [d.entries[i].0] + path, v)
  {
    var (key, value) := d.entries[i];
    var full := [key] + path;
    LookupFindsEntry(d.entries, i);
    assert full[1..] == path;
    forall m | 0 <= m < |full|
      ensures ValidKey(full[m])
    {
      if m > 0 {
        assert full[m] == path[m - 1];
      }
    }
  }

  /** The leaf paths under entry `i` are leaves of `d`. */
  lemma {:induction false} EntryResolves(d: Value, i: nat)
    requires d.Dict? && i < |d.entries| && WellFormed(d)
    ensures AllLeavesOf(d, i, EntryPaths(d, i))
    decreases d, |d.entries| - i, 0
  {
    var (key, value) := d.entries[i];
    LookupFindsEntry(d.entries, i);
    if value.Dict? {
      var inner := LeafPaths(value, 0);
      LeafPathsResolve(value, 0);
      forall k | 0 <= k < |inner|
        ensures LeafOf(d, i, EntryPaths(d, i)[k].0, EntryPaths(d, i)[k].1)
      {
        EntryLeaf(d, i, inner[k].0, inner[k].1);
      }
    } else {
      assert [key][1..] == [];
      assert GetPath(d, [key]) == Ok(value);
      assert ValidKey(key);
      assert LeafOf(d, i, [key], value);
    }
  }

  /** Leaves after entry `i` and under it together are leaves from `i` on. */
  lemma AllLeavesConcat(d: Value, i: nat, first: seq<(seq<string>, Value)>, rest: seq<(seq<string>, Value)>)
    requires d.Dict? && AllLeavesOf(d, i, first) && AllLeavesOf(d, i + 1, rest)
    ensures AllLeavesOf(d, i, first + rest)
  {
    var all := first + rest;
    forall k | 0 <= k < |all|
      ensures LeafOf(d, i, all[k].0, all[k].1)
    {
      if k < |first| {
        assert all[k] == first[k];
      } else {
        assert all[k] == rest[k - |first|];
        var m :| i + 1 <= m < |d.entries| && d.entries[m].0 == rest[k - |first|].0[0];
      }
    }
  }

  /** Each leaf path of a well-formed tree is a non-empty path of valid keys
      that resolves to its non-dictionary value, starting at a key of an
      entry at or after `i`. */
  lemma {:induction false} LeafPathsResolve(d: Value, i: nat)
    requires d.Dict? && i <= |d.entries| && WellFormed(d)
    ensures AllLeavesOf(d, i, LeafPaths(d, i))
    decreases d, |d.entries| - i, 1
  {
    if i < |d.entries| {
      LeafPathsStep(d, i);
      EntryResolves(d, i);
      LeafPathsResolve(d, i + 1);
      AllLeavesConcat(d, i, EntryPaths(d, i), LeafPaths(d, i + 1));
    }
  }

  /** A path starting at the key of entry `i` continues in its value. */
  lemma GetPathThroughEntry(d: Value, i: nat, path: seq<string>)
    requires d.Dict? && i < |d.entries| && WellFormed(d)
    requires path != [] && d.entries[i].0 == path[0]
    ensures GetPath(d, path) == GetPath(d.entries[i].1, path[1..])
  {
    LookupFindsEntry(d.entries, i);
  }

  /** A leaf found below a dictionary is found through one of its keys. */
  lemma DescendInto(d: Value, path: seq<string>, v: Value)
    requires d.Dict? && !v.Dict? && GetPath(d, path) == Ok(v)
    ensures path != [] && exists m :: 0 <= m < |d.entries| && d.entries[m].0 == path[0]
  {
    assert path != [];
    var m :| 0 <= m < |d.entries| && d.entries[m] == (path[0], Lookup(d.entries, path[0]).value);
  }

  /** Prepending a key keeps every leaf path, one key longer. */
  lemma PrependMember(key: string, lps: seq<(seq<string>, Value)>, path: seq<string>, v: Value)
    requires (path, v) in lps
    ensures ([key] + path, v) in Prepend(key, lps)
  {
    var k :| 0 <= k < |lps| && lps[k] == (path, v);
    assert Prepend(key, lps)[k] == ([key] + path, v);
  }

  /** A leaf below the key of entry `i` is among the leaf paths under it. */
  lemma {:induction false} EntryComplete(d: Value, i: nat, path: seq<string>, v: Value)
    requires d.Dict? && i < |d.entries| && WellFormed(d)
    requires path != [] && !v.Dict? && GetPath(d, path) == Ok(v) && d.entries[i].0 == path[0]
    ensures (path, v) in EntryPaths(d, i)
    decreases d, |d.entries| - i, 0
  {
    var (key, value) := d.entries[i];
    GetPathThroughEntry(d, i, path);
    if value.Dict? {
      DescendInto(value, path[1..], v);
      LeafPathsComplete(value, 0, path[1..], v);
      PrependMember(key, LeafPaths(value, 0), path[1..], v);
      assert [key] + path[1..] == path;
    } else {
      assert path[1..] == [];
      assert [key] == path;
    }
  }

  /** Every leaf whose first key belongs to an entry at or after `i` is
      among the leaf paths. */
  lemma {:induction false} LeafPathsComplete(d: Value, i: nat, path: seq<string>, v: Value)
    requires d.Dict? && i <= |d.entries| && WellFormed(d)
    requires path != [] && !v.Dict? && GetPath(d, path) == Ok(v)
    requires exists m :: i <= m < |d.entries| && d.entries[m].0 == path[0]
    ensures (path, v) in LeafPaths(d, i)
    decreases d, |d.entries| - i, 1
  {
    LeafPathsStep(d, i);
    if d.entries[i].0 == path[0] {
      EntryComplete(d, i, path, v);
    } else {
      LeafPathsComplete(d, i + 1, path, v);
    }
  }

  /** Each leaf path starts with the key of an entry at or after `i`. */
  lemma {:induction false} LeafPathsHeads(d: Value, i: nat)
    requires d.Dict? && i <= |d.entries|
    ensures forall k :: 0 <= k < |LeafPaths(d, i)| ==> HeadFrom(d, i, LeafPaths(d, i)[k].0)
    decreases |d.entries| - i
  {
    if i < |d.entries| {
      var key := d.entries[i].0;
      var value := d.entries[i].1;
      var first: seq<(seq<string>, Value)> := if value.Dict? then Prepend(key, LeafPaths(value, 0)) else [([key], value)];
      var rest := LeafPaths(d, i + 1);
      assert LeafPaths(d, i) == first + rest;
      LeafPathsHeads(d, i + 1);
      forall k | 0 <= k < |first + rest|
        ensures HeadFrom(d, i, (first + rest)[k].0)
      {
        if k < |first| {
          assert (first + rest)[k] == first[k] && first[k].0[0] == key;
        } else {
          assert (first + rest)[k] == rest[k - |first|];
        }
      }
    }
  }

  ghost predicate HeadFrom(d: Value, i: nat, path: seq<string>)
    requires d.Dict?
  {
    path != [] && exists m :: i <= m < |d.entries| && d.entries[m].0 == path[0]
  }

  lemma PrependDistinct(key: string, lps: seq<(seq<string>, Value)>)
    requires forall a, b :: 0 <= a < b < |lps| ==> lps[a].0 != lps[b].0
    ensures forall a, b :: 0 <= a < b < |lps| ==> Prepend(key, lps)[a].0 != Prepend(key, lps)[b].0
  {
    forall a, b | 0 <= a < b < |lps|
      ensures Prepend(key, lps)[a].0 != Prepend(key, lps)[b].0
    {
      assert Prepend(key, lps)[a].0[1..] == lps[a].0;
      assert Prepend(key, lps)[b].0[1..] == lps[b].0;
    }
  }

  ghost predicate DistinctPaths(lps: seq<(seq<string>, Value)>)
  {
    forall a, b :: 0 <= a < b < |lps| ==> lps[a].0 != lps[b].0
  }

  ghost predicate NoneStartWith(lps: seq<(seq<string>, Value)>, key: string)
  {
    forall k :: 0 <= k < |lps| ==> lps[k].0 != [] && lps[k].0[0] != key
  }

  /** Two lists of distinct paths, the first all starting with `key` and the
      second none, join into a list of distinct paths. */
  lemma DistinctConcat(first: seq<(seq<string>, Value)>, rest: seq<(seq<string>, Value)>, key: string)
    requires DistinctPaths(first) && DistinctPaths(rest)
    requires forall k :: 0 <= k < |first| ==> first[k].0 != [] && first[k].0[0] == key
    requires NoneStartWith(rest, key)
    ensures DistinctPaths(first + rest)
  {
    var all := first + rest;
    forall a, b | 0 <= a < b < |all|
      ensures all[a].0 != all[b].0
    {
      if a < |first| && b >= |first| {
        assert all[a] == first[a] && all[b] == rest[b - |first|];
      } else if a >= |first| {
        assert all[a] == rest[a - |first|] && all[b] == rest[b - |first|];
      } else {
        assert all[a] == first[a] && all[b] == first[b];
      }
    }
  }

  /** The paths under entry `i` are distinct and start with its key. */
  lemma {:induction false} EntryPathsDistinct(d: Value, i: nat)
    requires d.Dict? && i < |d.entries| && WellFormed(d)
    ensures DistinctPaths(EntryPaths(d, i))
    ensures forall k :: 0 <= k < |EntryPaths(d, i)| ==>
              EntryPaths(d, i)[k].0 != [] && EntryPaths(d, i)[k].0[0] == d.entries[i].0
    decreases d, |d.entries| - i, 0
  {
    var (key, value) := d.entries[i];
    if value.Dict? {
      LeafPathsDistinct(value, 0);
      PrependDistinct(key, LeafPaths(value, 0));
    }
  }

  /** The paths after entry `i` do not start with its key. */
  lemma RestHeadsDiffer(d: Value, i: nat)
    requires d.Dict? && i < |d.entries| && WellFormed(d)
    ensures NoneStartWith(LeafPaths(d, i + 1), d.entries[i].0)
  {
    var rest := LeafPaths(d, i + 1);
    LeafPathsHeads(d, i + 1);
    forall k | 0 <= k < |rest|
      ensures rest[k].0 != [] && rest[k].0[0] != d.entries[i].0
    {
      assert HeadFrom(d, i + 1, rest[k].0);
    }
  }

  /** No key path is listed twice. */
  lemma {:induction false} LeafPathsDistinct(d: Value, i: nat)
    requires d.Dict? && i <= |d.entries| && WellFormed(d)
    ensures forall a, b :: 0 <= a < b < |LeafPaths(d, i)| ==> LeafPaths(d, i)[a].0 != LeafPaths(d, i)[b].0
    decreases d, |d.entries| - i, 1
  {
    if i < |d.entries| {
      LeafPathsStep(d, i);
      EntryPathsDistinct(d, i);
      LeafPathsDistinct(d, i + 1);
      RestHeadsDiffer(d, i);
      DistinctConcat(EntryPaths(d, i), LeafPaths(d, i + 1), d.entries[i].0);
    }
  }

  /** What `_iter_deep_items(d)` yields on a well-formed tree: only leaves,
      each keyed by the dotted form of a key path that splits back into the
      path resolving to it, and no key path twice. */
  lemma IterDeepItemsSound(d: Value)
    requires d.Dict? && WellFormed(d)
    ensures forall k :: 0 <= k < |IterDeepItems(d, "")| ==>
      && !IterDeepItems(d, "")[k].1.Dict?
      && GetPath(d, Split(IterDeepItems(d, "")[k].0)) == Ok(IterDeepItems(d, "")[k].1)
    ensures forall a, b :: 0 <= a < b < |IterDeepItems(d, "")| ==>
      Split(IterDeepItems(d, "")[a].0) != Split(IterDeepItems(d, "")[b].0)
  {
    var items := IterDeepItems(d, "");
    var lps := LeafPaths(d, 0);
    ItemsSplitToPaths(d);
    LeafPathsResolve(d, 0);
    LeafPathsDistinct(d, 0);
  }

  /** Every leaf of a well-formed tree is yielded by `_iter_deep_items`,
      under the dotted form of its key path. */
  lemma IterDeepItemsComplete(d: Value, path: seq<string>, v: Value)
    requires d.Dict? && WellFormed(d)
    requires path != [] && !v.Dict? && GetPath(d, path) == Ok(v)
    ensures exists k :: 0 <= k < |IterDeepItems(d, "")| && IterDeepItems(d, "")[k] == (Join(path), v)
                        && Split(IterDeepItems(d, "")[k].0) == path
  {
    var items := IterDeepItems(d, "");
    var lps := LeafPaths(d, 0);
    ItemsSplitToPaths(d);
    var c := Lookup(d.entries, path[0]).value;
    var m :| 0 <= m < |d.entries| && d.entries[m] == (path[0], c);
    LeafPathsComplete(d, 0, path, v);
    var k :| 0 <= k < |lps| && lps[k] == (path, v);
    assert [] + path == path;
    assert items[k] == (Join(path), v);
  }

  /** The items are the leaf paths with their keys joined by dots. */
  lemma ItemsSplitToPaths(d: Value)
    requires d.Dict? && WellFormed(d)
    ensures |IterDeepItems(d, "")| == |LeafPaths(d, 0)|
    ensures forall k :: 0 <= k < |LeafPaths(d, 0)| ==>
      && IterDeepItems(d, "")[k] == (Join(LeafPaths(d, 0)[k].0), LeafPaths(d, 0)[k].1)
      && Split(IterDeepItems(d, "")[k].0) == LeafPaths(d, 0)[k].0
  {
    var items := IterDeepItems(d, "");
    var lps := LeafPaths(d, 0);
    assert Join([]) == "";
    ItemsAreDottedPaths(d, 0, []);
    LeafPathsResolve(d, 0);
    forall k | 0 <= k < |items|
      ensures items[k] == (Join(lps[k].0), lps[k].1) && Split(items[k].0) == lps[k].0
    {
      assert [] + lps[k].0 == lps[k].0;
      SplitJoin(lps[k].0);
    }
  }

  /** Two different paths that both end at a leaf diverge: neither is a
      prefix of the other, since nothing lies below a leaf. */
  lemma LeafPathsDiverge(d: Value, p: seq<string>, q: seq<string>)
    requires p != q
    requires GetPath(d, p).Ok? && !GetPath(d, p).value.Dict?
    requires GetPath(d, q).Ok? && !GetPath(d, q).value.Dict?
    ensures Diverge(p, q) && Diverge(q, p)
  {
    if !Diverge(p, q) {
      if |p| < |q| {
        PrefixBelowLeaf(d, p, q);
      } else if |q| < |p| {
        PrefixBelowLeaf(d, q, p);
      }
    }
  }

  lemma PrefixBelowLeaf(d: Value, p: seq<string>, q: seq<string>)
    requires |p| < |q| && forall i :: 0 <= i < |p| ==> p[i] == q[i]
    requires GetPath(d, p).Ok? && !GetPath(d, p).value.Dict?
    ensures GetPath(d, q).Err?
  {
    assert q == p + q[|p|..];
    GetPathAppend(d, p, q[|p|..]);
  }
}
