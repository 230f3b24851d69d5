/**
 * Flattening a nested document under dotted names. Every value that appears is under its name. The
 * result depends on the order in which the fields are visited exactly when two paths with the same
 * name lead to different values, which takes a key that is empty or holds a dot. For other documents
 * the flat map agrees with following paths through the nested maps.
 */
module Flattening {
  import opened Wrappers
  import opened NestedPaths

  type Flat = map<string, Value<Fieldset>>

  // ---------------------------------------------------------------- names of paths

  predicate IsKey(k: string) {
    k != "" && '.' !in k
  }

  predicate AreKeys(path: Path) {
    forall i | 0 <= i < |path| :: IsKey(path[i])
  }

  /** The name of a field below a prefix. */
  function FullKey(prefix: string, key: string): string {
    if prefix == "" then key else prefix + "." + key
  }

  /** The name under which the value at the end of a path appears. */
  function Name(prefix: string, path: Path): string
    decreases |path|
  {
    if path == [] then prefix else Name(FullKey(prefix, path[0]), path[1..])
  }

  function FirstDot(s: string): nat {
    if s == "" || s[0] == '.' then 0 else 1 + FirstDot(s[1..])
  }

  lemma {:induction false} DotBehind(a: string, b: string)
    requires '.' !in a
    ensures FirstDot(a + b) == if b != "" && b[0] != '.' then |a| + FirstDot(b) else |a|
    decreases |a|
  {
    if a == "" {
      assert a + b == b;
    } else {
      assert (a + b)[0] == a[0] && (a + b)[1..] == a[1..] + b;
      DotBehind(a[1..], b);
    }
  }

  /** What a path adds to a prefix: a dot and a key for each step. */
  function Dotted(path: Path): string {
    if path == [] then "" else "." + path[0] + Dotted(path[1..])
  }

  lemma {:induction false} NameIsDotted(prefix: string, path: Path)
    requires prefix != "" && AreKeys(path)
    ensures Name(prefix, path) == prefix + Dotted(path)
    decreases |path|
  {
    if path != [] {
      assert IsKey(path[0]);
      NameIsDotted(prefix + "." + path[0], path[1..]);
      assert prefix + "." + path[0] + Dotted(path[1..]) == prefix + ("." + path[0] + Dotted(path[1..]));
    } else {
      assert prefix + "" == prefix;
    }
  }

  lemma {:induction false} DottedApart(p: Path, q: Path)
    requires AreKeys(p) && AreKeys(q) && Dotted(p) == Dotted(q)
    ensures p == q
    decreases |p|
  {
    if p != [] && q != [] {
      var s, t := p[0] + Dotted(p[1..]), q[0] + Dotted(q[1..]);
      assert Dotted(p) == "." + s && Dotted(q) == "." + t;
      assert s == Dotted(p)[1..] && t == Dotted(q)[1..];
      assert IsKey(p[0]) && IsKey(q[0]);
      DotBehind(p[0], Dotted(p[1..]));
      DotBehind(q[0], Dotted(q[1..]));
      assert p[0] == s[..|p[0]|] && q[0] == t[..|q[0]|];
      assert Dotted(p[1..]) == s[|p[0]|..] && Dotted(q[1..]) == t[|q[0]|..];
      DottedApart(p[1..], q[1..]);
      assert p == [p[0]] + p[1..] && q == [q[0]] + q[1..];
    }
  }

  lemma NameFromTop(path: Path)
    requires AreKeys(path) && path != []
    ensures Dotted(path) == "." + Name("", path)
  {
    assert IsKey(path[0]);
    NameIsDotted(path[0], path[1..]);
    assert "." + (path[0] + Dotted(path[1..])) == "." + path[0] + Dotted(path[1..]);
  }

  /** Different paths have different names. */
  lemma NamesApart(prefix: string, p: Path, q: Path)
    requires AreKeys(p) && AreKeys(q) && p != [] && q != [] && Name(prefix, p) == Name(prefix, q)
    ensures p == q
  {
    hide Name, Dotted, AreKeys;
    if prefix == "" {
      NameFromTop(p);
      NameFromTop(q);
    } else {
      NameIsDotted(prefix, p);
      NameIsDotted(prefix, q);
      assert Dotted(p) == Name(prefix, p)[|prefix|..] && Dotted(q) == Name(prefix, q)[|prefix|..];
    }
    DottedApart(p, q);
  }

  // ---------------------------------------------------------------- what appears

  /** `_id` at the top is taken as it is. */
  predicate IsTopId(prefix: string, key: string) {
    prefix == "" && key == "_id"
  }

  /** A map below this many levels is opened; at the limit it is kept whole. */
  predicate Opened(prefix: string, key: string, v: Value<Fieldset>, depth: nat, maxDepth: int) {
    v.Map? && depth < maxDepth && !IsTopId(prefix, key)
  }

  /** The levels that may be opened: a negative limit allows none, like 0. */
  function Limit(maxDepth: int): nat {
    if maxDepth < 0 then 0 else maxDepth
  }

  /** The path leads through opened maps to a value that is not opened. */
  predicate Appears(h: Heap<Fieldset>, v: Value<Fieldset>, prefix: string, path: Path, depth: nat, maxDepth: int)
    decreases |path|
  {
    path != [] && v.Map? && v.node in h && path[0] in h[v.node] &&
    var next := h[v.node][path[0]];
    if Opened(prefix, path[0], next, depth, maxDepth) then Appears(h, next, FullKey(prefix, path[0]), path[1..], depth + 1, maxDepth)
    else |path| == 1
  }

  /** What appears is what following the path finds, at a level within the limit, and a map only at the limit or as `_id`. */
  lemma {:induction false} AppearsAsFound(h: Heap<Fieldset>, v: Value<Fieldset>, prefix: string, path: Path, depth: nat, maxDepth: int)
    requires Appears(h, v, prefix, path, depth, maxDepth) && depth <= Limit(maxDepth)
    ensures Walk(h, v, path).Some? && depth + |path| <= Limit(maxDepth) + 1
    ensures (prefix != "" || AreKeys(path)) && Walk(h, v, path).value.Map? ==>
              depth + |path| == Limit(maxDepth) + 1 || (prefix == "" && path == ["_id"])
    decreases |path|
  {
    var next := h[v.node][path[0]];
    assert AreKeys(path) ==> IsKey(path[0]);
    if Opened(prefix, path[0], next, depth, maxDepth) {
      AppearsAsFound(h, next, FullKey(prefix, path[0]), path[1..], depth + 1, maxDepth);
    } else {
      assert path[1..] == [];
      assert path == [path[0]];
    }
  }

  /** Every path to a value that is no map appears, if it is no longer than the limit allows and does not lead through `_id`. */
  lemma {:induction false} LeavesAppear(h: Heap<Fieldset>, v: Value<Fieldset>, prefix: string, path: Path, depth: nat, maxDepth: int)
    requires path != [] && Walk(h, v, path).Some? && !Walk(h, v, path).value.Map? && depth + |path| <= Limit(maxDepth) + 1
    requires (prefix == "" ==> path[0] != "_id") && AreKeys(path)
    ensures Appears(h, v, prefix, path, depth, maxDepth)
    decreases |path|
  {
    assert IsKey(path[0]);
    var next := h[v.node][path[0]];
    if next.Map? {
      LeavesAppear(h, next, FullKey(prefix, path[0]), path[1..], depth + 1, maxDepth);
    } else {
      assert path[1..] == [];
    }
  }

  // ---------------------------------------------------------------- flattening

  ghost predicate WellKeyed(h: Heap<Fieldset>) {
    forall n, k | n in h && k in h[n] :: IsKey(k)
  }

  /** The paths that lead on from these keys of the map. */
  ghost predicate Covered(h: Heap<Fieldset>, v: Value<Fieldset>, prefix: string, path: Path, depth: nat, maxDepth: int, keys: set<string>) {
    path != [] && path[0] in keys && Appears(h, v, prefix, path, depth, maxDepth)
  }

  /** The name and the value are those of a path that leads on from these keys. */
  ghost predicate IsEntry(h: Heap<Fieldset>, v: Value<Fieldset>, prefix: string, depth: nat, maxDepth: int, keys: set<string>,
                          s: string, w: Value<Fieldset>) {
    exists q :: Covered(h, v, prefix, q, depth, maxDepth, keys) && Name(prefix, q) == s && Walk(h, v, q) == Some(w)
  }

  /**
   * What appears below these keys has been added, each under its name; an entry is the value of a
   * path of its name, or as it was; and no name is lost.
   */
  ghost predicate Flattened(h: Heap<Fieldset>, v: Value<Fieldset>, prefix: string, depth: nat, maxDepth: int, keys: set<string>,
                            before: Flat, after: Flat) {
    && (forall q :: Covered(h, v, prefix, q, depth, maxDepth, keys) ==> Name(prefix, q) in after)
    && (forall s | s in after ::
          (s in before && after[s] == before[s]) || IsEntry(h, v, prefix, depth, maxDepth, keys, s, after[s]))
    && before.Keys <= after.Keys
  }

  lemma {:induction false} AppearingKeys(h: Heap<Fieldset>, v: Value<Fieldset>, prefix: string, path: Path, depth: nat, maxDepth: int)
    requires WellKeyed(h) && Appears(h, v, prefix, path, depth, maxDepth)
    ensures AreKeys(path)
    decreases |path|
  {
    var next := h[v.node][path[0]];
    assert IsKey(path[0]);
    if Opened(prefix, path[0], next, depth, maxDepth) {
      AppearingKeys(h, next, FullKey(prefix, path[0]), path[1..], depth + 1, maxDepth);
      assert forall i | 1 <= i < |path| :: path[i] == path[1..][i - 1];
    }
  }

  /** Flattening below some keys and then below another is flattening below them all. */
  lemma FlattenedInTwo(h: Heap<Fieldset>, v: Value<Fieldset>, prefix: string, depth: nat, maxDepth: int, keys: set<string>, key: string,
                       before: Flat, mid: Flat, after: Flat)
    requires Flattened(h, v, prefix, depth, maxDepth, keys, before, mid) && Flattened(h, v, prefix, depth, maxDepth, {key}, mid, after)
    ensures Flattened(h, v, prefix, depth, maxDepth, keys + {key}, before, after)
  {
    hide Appears, Name, Walk, IsEntry;
    forall q | Covered(h, v, prefix, q, depth, maxDepth, keys + {key}) ensures Name(prefix, q) in after {
      if q[0] == key {
        assert Covered(h, v, prefix, q, depth, maxDepth, {key});
      } else {
        assert Covered(h, v, prefix, q, depth, maxDepth, keys);
      }
    }
    forall s | s in after
      ensures (s in before && after[s] == before[s]) || IsEntry(h, v, prefix, depth, maxDepth, keys + {key}, s, after[s])
    {
      Somewhere(h, v, prefix, depth, maxDepth, keys, key, s, after[s]);
    }
  }

  lemma Somewhere(h: Heap<Fieldset>, v: Value<Fieldset>, prefix: string, depth: nat, maxDepth: int, keys: set<string>, key: string,
                  s: string, w: Value<Fieldset>)
    ensures IsEntry(h, v, prefix, depth, maxDepth, keys, s, w) || IsEntry(h, v, prefix, depth, maxDepth, {key}, s, w)
        ==> IsEntry(h, v, prefix, depth, maxDepth, keys + {key}, s, w)
  {
    hide Appears, Name, Walk;
    if q :| Covered(h, v, prefix, q, depth, maxDepth, keys) && Name(prefix, q) == s && Walk(h, v, q) == Some(w) {
      assert Covered(h, v, prefix, q, depth, maxDepth, keys + {key});
    } else if q :| Covered(h, v, prefix, q, depth, maxDepth, {key}) && Name(prefix, q) == s && Walk(h, v, q) == Some(w) {
      assert Covered(h, v, prefix, q, depth, maxDepth, keys + {key});
    }
  }

  /** A value that is not opened appears under its own name. */
  lemma OneValue(h: Heap<Fieldset>, v: Value<Fieldset>, prefix: string, depth: nat, maxDepth: int, key: string, before: Flat)
    requires v.Map? && v.node in h && key in h[v.node] && !Opened(prefix, key, h[v.node][key], depth, maxDepth)
    ensures Flattened(h, v, prefix, depth, maxDepth, {key}, before, before[FullKey(prefix, key) := h[v.node][key]])
  {
    assert Covered(h, v, prefix, [key], depth, maxDepth, {key}) && Name(prefix, [key]) == FullKey(prefix, key) by {
      assert [key][1..] == [];
    }
    forall q | Covered(h, v, prefix, q, depth, maxDepth, {key}) ensures q == [key] && Walk(h, v, q) == Some(h[v.node][key]) {
      assert q == [key] && q[1..] == [];
    }
    hide Covered, Appears, Name, Walk, FullKey;
  }

  /** What appears in an opened map appears below its key. */
  lemma OneMap(h: Heap<Fieldset>, v: Value<Fieldset>, prefix: string, depth: nat, maxDepth: int, key: string, before: Flat, after: Flat)
    requires v.Map? && v.node in h && key in h[v.node] && Opened(prefix, key, h[v.node][key], depth, maxDepth)
    requires var next := h[v.node][key];
             next.node in h && Flattened(h, next, FullKey(prefix, key), depth + 1, maxDepth, h[next.node].Keys, before, after)
    ensures Flattened(h, v, prefix, depth, maxDepth, {key}, before, after)
  {
    var next, keys := h[v.node][key], h[h[v.node][key].node].Keys;
    var below := FullKey(prefix, key);
    hide Appears, Name, Walk, FullKey, Opened, IsEntry;
    forall q | Covered(h, v, prefix, q, depth, maxDepth, {key}) ensures Name(prefix, q) in after {
      assert q == [key] + q[1..];
      Deeper(h, v, prefix, depth, maxDepth, key, q[1..]);
    }
    forall s | s in after && IsEntry(h, next, below, depth + 1, maxDepth, keys, s, after[s])
      ensures IsEntry(h, v, prefix, depth, maxDepth, {key}, s, after[s])
    {
      DeeperEntry(h, v, prefix, depth, maxDepth, key, s, after[s]);
    }
  }

  lemma DeeperEntry(h: Heap<Fieldset>, v: Value<Fieldset>, prefix: string, depth: nat, maxDepth: int, key: string, s: string, w: Value<Fieldset>)
    requires v.Map? && v.node in h && key in h[v.node] && Opened(prefix, key, h[v.node][key], depth, maxDepth) && h[v.node][key].node in h
    ensures var next := h[v.node][key];
            IsEntry(h, next, FullKey(prefix, key), depth + 1, maxDepth, h[next.node].Keys, s, w)
            ==> IsEntry(h, v, prefix, depth, maxDepth, {key}, s, w)
  {
    var next := h[v.node][key];
    hide Appears, Name, FullKey, Opened, Walk;
    if q :| Covered(h, next, FullKey(prefix, key), q, depth + 1, maxDepth, h[next.node].Keys) && Name(FullKey(prefix, key), q) == s
            && Walk(h, next, q) == Some(w) {
      Deeper(h, v, prefix, depth, maxDepth, key, q);
      assert Covered(h, v, prefix, [key] + q, depth, maxDepth, {key}) && Name(prefix, [key] + q) == s;
    }
  }

  /** A path and the same path with the key in front of it. */
  ghost predicate BelowKey(h: Heap<Fieldset>, v: Value<Fieldset>, prefix: string, depth: nat, maxDepth: int, key: string, q: Path)
    requires v.Map? && v.node in h && key in h[v.node] && h[v.node][key].Map? && h[v.node][key].node in h
  {
    var next := h[v.node][key];
    && (Covered(h, v, prefix, [key] + q, depth, maxDepth, {key})
        <==> Covered(h, next, FullKey(prefix, key), q, depth + 1, maxDepth, h[next.node].Keys))
    && Name(prefix, [key] + q) == Name(FullKey(prefix, key), q)
    && Walk(h, v, [key] + q) == Walk(h, next, q)
  }

  lemma Deeper(h: Heap<Fieldset>, v: Value<Fieldset>, prefix: string, depth: nat, maxDepth: int, key: string, q: Path)
    requires v.Map? && v.node in h && key in h[v.node] && Opened(prefix, key, h[v.node][key], depth, maxDepth) && h[v.node][key].node in h
    ensures BelowKey(h, v, prefix, depth, maxDepth, key, q)
  {
    var path, next := [key] + q, h[v.node][key];
    assert path[0] == key && path[1..] == q;
    assert Appears(h, v, prefix, path, depth, maxDepth) <==> Appears(h, next, FullKey(prefix, key), q, depth + 1, maxDepth);
  }

  // ---------------------------------------------------------------- visiting the fields in some order

  /** In which order the keys of a map are visited, and those of the maps below it. */
  datatype Order = Order(keys: seq<string>, below: map<string, Order>)

  predicate Distinct(keys: seq<string>) {
    forall i, k | 0 <= i < k < |keys| :: keys[i] != keys[k]
  }

  /** The order visits keys of this map only, each once, and all that is below the maps that are opened. */
  predicate Visits(h: Heap<Fieldset>, v: Value<Fieldset>, prefix: string, depth: nat, maxDepth: int, o: Order)
    decreases Limit(maxDepth) - depth, 1
  {
    && v.Map? && v.node in h && Distinct(o.keys)
    && forall key <- o.keys :: key in h[v.node] && VisitsBelow(h, h[v.node][key], prefix, depth, maxDepth, o, key)
  }

  predicate VisitsBelow(h: Heap<Fieldset>, next: Value<Fieldset>, prefix: string, depth: nat, maxDepth: int, o: Order, key: string)
    decreases Limit(maxDepth) - depth, 0
  {
    Opened(prefix, key, next, depth, maxDepth) ==>
      key in o.below && VisitsAll(h, next, FullKey(prefix, key), depth + 1, maxDepth, o.below[key])
  }

  /** The order visits everything. */
  predicate VisitsAll(h: Heap<Fieldset>, v: Value<Fieldset>, prefix: string, depth: nat, maxDepth: int, o: Order)
    decreases Limit(maxDepth) - depth, 2
  {
    Visits(h, v, prefix, depth, maxDepth, o) && forall key | key in h[v.node] :: key in o.keys
  }

  /** What the result comes to once the first `n` keys of this order have been visited. */
  function Along(h: Heap<Fieldset>, v: Value<Fieldset>, prefix: string, depth: nat, maxDepth: int, o: Order, n: nat, sofar: Flat): Flat
    requires Visits(h, v, prefix, depth, maxDepth, o) && n <= |o.keys|
    decreases Limit(maxDepth) - depth, n
  {
    if n == 0 then sofar
    else
      var before, key := Along(h, v, prefix, depth, maxDepth, o, n - 1, sofar), o.keys[n - 1];
      var value := h[v.node][key];
      assert VisitsBelow(h, value, prefix, depth, maxDepth, o, key);
      if Opened(prefix, key, value, depth, maxDepth) then
        assert VisitsAll(h, value, FullKey(prefix, key), depth + 1, maxDepth, o.below[key]);
        Along(h, value, FullKey(prefix, key), depth + 1, maxDepth, o.below[key], |o.below[key].keys|, before)
      else before[FullKey(prefix, key) := value]
  }

  function KeySet(keys: seq<string>): set<string> {
    set key <- keys
  }

  /** Whatever the order, flattening along it is flattening. */
  lemma {:induction false} AlongFlattens(h: Heap<Fieldset>, v: Value<Fieldset>, prefix: string, depth: nat, maxDepth: int, o: Order, n: nat, sofar: Flat)
    requires Visits(h, v, prefix, depth, maxDepth, o) && n <= |o.keys|
    ensures Flattened(h, v, prefix, depth, maxDepth, KeySet(o.keys[..n]), sofar, Along(h, v, prefix, depth, maxDepth, o, n, sofar))
    decreases Limit(maxDepth) - depth, n
  {
    hide Flattened;
    if n == 0 {
      NothingFlattened(h, v, prefix, depth, maxDepth, sofar);
      assert KeySet(o.keys[..0]) == {};
    } else {
      var key, before := o.keys[n - 1], Along(h, v, prefix, depth, maxDepth, o, n - 1, sofar);
      var after := Along(h, v, prefix, depth, maxDepth, o, n, sofar);
      AlongFlattens(h, v, prefix, depth, maxDepth, o, n - 1, sofar);
      OneKey(h, v, prefix, depth, maxDepth, o, n, sofar);
      FlattenedInTwo(h, v, prefix, depth, maxDepth, KeySet(o.keys[..n - 1]), key, sofar, before, after);
      assert o.keys[..n] == o.keys[..n - 1] + [key];
      assert KeySet(o.keys[..n]) == KeySet(o.keys[..n - 1]) + {key};
    }
  }

  lemma {:induction false} OneKey(h: Heap<Fieldset>, v: Value<Fieldset>, prefix: string, depth: nat, maxDepth: int, o: Order, n: nat, sofar: Flat)
    requires Visits(h, v, prefix, depth, maxDepth, o) && 0 < n <= |o.keys|
    ensures Flattened(h, v, prefix, depth, maxDepth, {o.keys[n - 1]},
                      Along(h, v, prefix, depth, maxDepth, o, n - 1, sofar), Along(h, v, prefix, depth, maxDepth, o, n, sofar))
    decreases Limit(maxDepth) - depth, n, 0
  {
    hide Flattened;
    var key, before := o.keys[n - 1], Along(h, v, prefix, depth, maxDepth, o, n - 1, sofar);
    var value := h[v.node][key];
    assert VisitsBelow(h, value, prefix, depth, maxDepth, o, key);
    if Opened(prefix, key, value, depth, maxDepth) {
      var below := o.below[key];
      AlongFlattens(h, value, FullKey(prefix, key), depth + 1, maxDepth, below, |below.keys|, before);
      assert below.keys[..|below.keys|] == below.keys && KeySet(below.keys) == h[value.node].Keys;
      OneMap(h, v, prefix, depth, maxDepth, key, before, Along(h, v, prefix, depth, maxDepth, o, n, sofar));
    } else {
      OneValue(h, v, prefix, depth, maxDepth, key, before);
    }
  }

  /** One more key at the end of the order leaves the visits before it as they are. */
  lemma {:induction false} AlongLonger(h: Heap<Fieldset>, v: Value<Fieldset>, prefix: string, depth: nat, maxDepth: int, o: Order, t: Order, n: nat, sofar: Flat)
    requires Visits(h, v, prefix, depth, maxDepth, o) && Visits(h, v, prefix, depth, maxDepth, t) && n <= |o.keys| <= |t.keys|
    requires forall i | 0 <= i < |o.keys| :: t.keys[i] == o.keys[i]
    requires forall key | key in o.keys && key in o.below :: key in t.below && t.below[key] == o.below[key]
    ensures Along(h, v, prefix, depth, maxDepth, t, n, sofar) == Along(h, v, prefix, depth, maxDepth, o, n, sofar)
    decreases n
  {
    if n > 0 {
      AlongLonger(h, v, prefix, depth, maxDepth, o, t, n - 1, sofar);
      assert t.keys[n - 1] == o.keys[n - 1];
      assert VisitsBelow(h, h[v.node][o.keys[n - 1]], prefix, depth, maxDepth, o, o.keys[n - 1]);
    }
  }

  /** flattenRecursive: the entries of a map are added to the result, in some order. */
  method FlattenRecursive(m: Fieldset, prefix: string, sofar: Flat, depth: nat, maxDepth: int, ghost at: Placement<Fieldset>)
    returns (result: Flat, ghost order: Order)
    requires Placed(Snap(at.Keys), at) && m in at && depth <= Limit(maxDepth)
    ensures VisitsAll(Snap(at.Keys), Map(m), prefix, depth, maxDepth, order)
    ensures result == Along(Snap(at.Keys), Map(m), prefix, depth, maxDepth, order, |order.keys|, sofar)
    ensures Flattened(Snap(at.Keys), Map(m), prefix, depth, maxDepth, m.fields.Keys, sofar, result)
    decreases Limit(maxDepth) - depth
  {
    ghost var h := Snap(at.Keys);
    hide Flattened, Appears, Walk, Name;
    result, order := sofar, Order([], map[]);
    var left := m.fields.Keys;
    while left != {}
      invariant left <= m.fields.Keys && forall key | key in m.fields :: key in order.keys <==> key !in left
      invariant Visits(h, Map(m), prefix, depth, maxDepth, order)
      invariant result == Along(h, Map(m), prefix, depth, maxDepth, order, |order.keys|, sofar)
      decreases |left|
    {
      var key :| key in left;
      var value := m.fields[key];
      assert h[m][key] == value && Sits(h[m][key], at, at[m] + [key]);
      ghost var below := Order([], map[]);
      ghost var before := result;
      if value.Map? && depth < maxDepth && !(key == "_id" && prefix == "") {
        result, below := FlattenRecursive(value.node, FullKey(prefix, key), result, depth + 1, maxDepth, at);
      } else {
        result := result[FullKey(prefix, key) := value];
      }
      OrderExtended(h, Map(m), prefix, depth, maxDepth, order, key, below, sofar);
      order := Order(order.keys + [key], order.below[key := below]);
      left := left - {key};
    }
    AlongFlattens(h, Map(m), prefix, depth, maxDepth, order, |order.keys|, sofar);
    assert order.keys[..|order.keys|] == order.keys && KeySet(order.keys) == m.fields.Keys;
  }

  /** One more key is visited. */
  lemma OrderExtended(h: Heap<Fieldset>, v: Value<Fieldset>, prefix: string, depth: nat, maxDepth: int, o: Order, key: string, below: Order, sofar: Flat)
    requires Visits(h, v, prefix, depth, maxDepth, o) && key in h[v.node] && key !in o.keys
    requires Opened(prefix, key, h[v.node][key], depth, maxDepth) ==>
               VisitsAll(h, h[v.node][key], FullKey(prefix, key), depth + 1, maxDepth, below)
    ensures var t := Order(o.keys + [key], o.below[key := below]);
            && Visits(h, v, prefix, depth, maxDepth, t)
            && var before := Along(h, v, prefix, depth, maxDepth, o, |o.keys|, sofar);
               Along(h, v, prefix, depth, maxDepth, t, |t.keys|, sofar) ==
               if Opened(prefix, key, h[v.node][key], depth, maxDepth)
               then Along(h, h[v.node][key], FullKey(prefix, key), depth + 1, maxDepth, below, |below.keys|, before)
               else before[FullKey(prefix, key) := h[v.node][key]]
  {
    var t := Order(o.keys + [key], o.below[key := below]);
    forall other <- t.keys ensures other in h[v.node] && VisitsBelow(h, h[v.node][other], prefix, depth, maxDepth, t, other) {
      if other != key {
        assert other in o.keys;
        assert VisitsBelow(h, h[v.node][other], prefix, depth, maxDepth, o, other);
      }
    }
    AlongLonger(h, v, prefix, depth, maxDepth, o, t, |o.keys|, sofar);
  }

  lemma NothingFlattened(h: Heap<Fieldset>, v: Value<Fieldset>, prefix: string, depth: nat, maxDepth: int, before: Flat)
    ensures Flattened(h, v, prefix, depth, maxDepth, {}, before, before)
  {
  }

  /** The value is what is found at a path that appears under this name. */
  ghost predicate Holds(h: Heap<Fieldset>, v: Value<Fieldset>, prefix: string, maxDepth: int, s: string, w: Value<Fieldset>) {
    exists q :: Appears(h, v, prefix, q, 0, maxDepth) && Name(prefix, q) == s && Walk(h, v, q) == Some(w)
  }

  /** The names are those of the paths that appear, and each has the value of one of its paths. */
  ghost predicate IsFlat(h: Heap<Fieldset>, v: Value<Fieldset>, prefix: string, maxDepth: int, flat: Flat) {
    && (forall q :: Appears(h, v, prefix, q, 0, maxDepth) ==> Name(prefix, q) in flat)
    && forall s | s in flat :: Holds(h, v, prefix, maxDepth, s, flat[s])
  }

  lemma FlattenedIsFlat(h: Heap<Fieldset>, v: Value<Fieldset>, prefix: string, maxDepth: int, flat: Flat)
    requires v.Map? && v.node in h && Flattened(h, v, prefix, 0, maxDepth, h[v.node].Keys, map[], flat)
    ensures IsFlat(h, v, prefix, maxDepth, flat)
  {
    var keys := h[v.node].Keys;
    forall q | Appears(h, v, prefix, q, 0, maxDepth) ensures Name(prefix, q) in flat {
      assert Covered(h, v, prefix, q, 0, maxDepth, keys);
    }
    hide Appears, Name, Walk;
    forall s | s in flat ensures Holds(h, v, prefix, maxDepth, s, flat[s]) {
      assert IsEntry(h, v, prefix, 0, maxDepth, keys, s, flat[s]);
      var q :| Covered(h, v, prefix, q, 0, maxDepth, keys) && Name(prefix, q) == s && Walk(h, v, q) == Some(flat[s]);
      assert Appears(h, v, prefix, q, 0, maxDepth);
    }
  }

  /** The flat map of a document whose fields are visited in this order. */
  function FlatAlong(h: Heap<Fieldset>, v: Value<Fieldset>, prefix: string, maxDepth: int, o: Order): Flat
    requires VisitsAll(h, v, prefix, 0, maxDepth, o)
  {
    Along(h, v, prefix, 0, maxDepth, o, |o.keys|, map[])
  }

  /** FlattenDocument, of any document. */
  method FlattenDocument(doc: Fieldset, prefix: string, maxDepth: int, ghost at: Placement<Fieldset>) returns (flat: Flat, ghost order: Order)
    requires Placed(Snap(at.Keys), at) && doc in at
    ensures IsFlat(Snap(at.Keys), Map(doc), prefix, maxDepth, flat)
    ensures VisitsAll(Snap(at.Keys), Map(doc), prefix, 0, maxDepth, order)
    ensures flat == FlatAlong(Snap(at.Keys), Map(doc), prefix, maxDepth, order)
  {
    assert Snap(at.Keys)[doc] == doc.fields;
    flat, order := FlattenRecursive(doc, prefix, map[], 0, maxDepth, at);
    hide Flattened, IsFlat, Placed;
    FlattenedIsFlat(Snap(at.Keys), Map(doc), prefix, maxDepth, flat);
  }

  // ---------------------------------------------------------------- when the order of the fields matters

  /** Paths that appear under the same name lead to the same value. */
  ghost predicate NamesTell(h: Heap<Fieldset>, v: Value<Fieldset>, prefix: string, maxDepth: int) {
    forall q, r ::
      Appears(h, v, prefix, q, 0, maxDepth) && Appears(h, v, prefix, r, 0, maxDepth) && Name(prefix, q) == Name(prefix, r)
      ==> Walk(h, v, q) == Walk(h, v, r)
  }

  lemma FlatIncluded(h: Heap<Fieldset>, v: Value<Fieldset>, prefix: string, maxDepth: int, a: Flat, b: Flat)
    requires NamesTell(h, v, prefix, maxDepth) && IsFlat(h, v, prefix, maxDepth, a) && IsFlat(h, v, prefix, maxDepth, b)
    ensures forall s | s in a :: s in b && b[s] == a[s]
  {
    hide Appears, Name, Walk;
    forall s | s in a ensures s in b && b[s] == a[s] {
      assert Holds(h, v, prefix, maxDepth, s, a[s]);
      var q :| Appears(h, v, prefix, q, 0, maxDepth) && Name(prefix, q) == s && Walk(h, v, q) == Some(a[s]);
      assert Holds(h, v, prefix, maxDepth, s, b[s]);
    }
  }

  /** Any value that appears under a name can be the one that remains there. */
  lemma AnyRemains(h: Heap<Fieldset>, v: Value<Fieldset>, prefix: string, maxDepth: int, flat: Flat, q: Path)
    requires IsFlat(h, v, prefix, maxDepth, flat) && Appears(h, v, prefix, q, 0, maxDepth)
    ensures Walk(h, v, q).Some? && IsFlat(h, v, prefix, maxDepth, flat[Name(prefix, q) := Walk(h, v, q).value])
  {
    AppearsAsFound(h, v, prefix, q, 0, maxDepth);
    hide Appears, Name, Walk;
    var s, w := Name(prefix, q), Walk(h, v, q).value;
    assert Holds(h, v, prefix, maxDepth, s, w);
    assert forall n | n in flat :: Holds(h, v, prefix, maxDepth, n, flat[n]);
  }

  /**
   * The flat map of a document is the same in whatever order its fields are visited exactly when
   * paths that appear under the same name lead to the same value.
   */
  lemma FlatIsUniqueExactly(h: Heap<Fieldset>, v: Value<Fieldset>, prefix: string, maxDepth: int, flat: Flat)
    requires IsFlat(h, v, prefix, maxDepth, flat)
    ensures (forall a :: IsFlat(h, v, prefix, maxDepth, a) ==> a == flat) <==> NamesTell(h, v, prefix, maxDepth)
  {
    hide IsFlat, Appears, Name, Walk;
    if NamesTell(h, v, prefix, maxDepth) {
      forall a | IsFlat(h, v, prefix, maxDepth, a) ensures a == flat {
        FlatIncluded(h, v, prefix, maxDepth, a, flat);
        FlatIncluded(h, v, prefix, maxDepth, flat, a);
      }
    }
    if forall a :: IsFlat(h, v, prefix, maxDepth, a) ==> a == flat {
      forall q, r | Appears(h, v, prefix, q, 0, maxDepth) && Appears(h, v, prefix, r, 0, maxDepth) && Name(prefix, q) == Name(prefix, r)
        ensures Walk(h, v, q) == Walk(h, v, r)
      {
        AnyRemains(h, v, prefix, maxDepth, flat, q);
        AnyRemains(h, v, prefix, maxDepth, flat, r);
        var x, y := flat[Name(prefix, q) := Walk(h, v, q).value], flat[Name(prefix, r) := Walk(h, v, r).value];
        assert x == flat == y;
        assert x[Name(prefix, q)] == Walk(h, v, q).value && y[Name(prefix, r)] == Walk(h, v, r).value;
      }
    }
  }

  lemma AlongIsFlat(h: Heap<Fieldset>, v: Value<Fieldset>, prefix: string, maxDepth: int, o: Order)
    requires VisitsAll(h, v, prefix, 0, maxDepth, o)
    ensures IsFlat(h, v, prefix, maxDepth, FlatAlong(h, v, prefix, maxDepth, o))
  {
    AlongFlattens(h, v, prefix, 0, maxDepth, o, |o.keys|, map[]);
    assert o.keys[..|o.keys|] == o.keys && KeySet(o.keys) == h[v.node].Keys;
    hide Flattened, IsFlat;
    FlattenedIsFlat(h, v, prefix, maxDepth, FlatAlong(h, v, prefix, maxDepth, o));
  }

  function Without(keys: seq<string>, key: string): seq<string> {
    if keys == [] then [] else Without(keys[..|keys| - 1], key) + if keys[|keys| - 1] == key then [] else [keys[|keys| - 1]]
  }

  lemma {:induction false} WithoutKeeps(keys: seq<string>, key: string)
    requires Distinct(keys)
    ensures Distinct(Without(keys, key)) && forall k :: k in Without(keys, key) <==> k in keys && k != key
    decreases |keys|
  {
    if keys != [] {
      var n := |keys| - 1;
      assert keys == keys[..n] + [keys[n]];
      WithoutKeeps(keys[..n], key);
      assert keys[n] !in keys[..n];
    }
  }

  /** A path that appears can be visited last: then its value remains under its name, whatever was there before. */
  lemma {:induction false} LastVisited(h: Heap<Fieldset>, v: Value<Fieldset>, prefix: string, depth: nat, maxDepth: int, o: Order, q: Path)
    returns (t: Order)
    requires VisitsAll(h, v, prefix, depth, maxDepth, o) && Appears(h, v, prefix, q, depth, maxDepth)
    ensures VisitsAll(h, v, prefix, depth, maxDepth, t)
    ensures forall sofar :: var flat := Along(h, v, prefix, depth, maxDepth, t, |t.keys|, sofar);
              Name(prefix, q) in flat && Walk(h, v, q) == Some(flat[Name(prefix, q)])
    decreases |q|
  {
    var key, next := q[0], h[v.node][q[0]];
    WithoutKeeps(o.keys, key);
    var start, below := Order(Without(o.keys, key), o.below), Order([], map[]);
    assert VisitsBelow(h, next, prefix, depth, maxDepth, o, key);
    VisitsSome(h, v, prefix, depth, maxDepth, o, start);
    if Opened(prefix, key, next, depth, maxDepth) {
      below := LastVisited(h, next, FullKey(prefix, key), depth + 1, maxDepth, o.below[key], q[1..]);
    } else {
      assert q == [key] && q[1..] == [];
    }
    t := Order(start.keys + [key], start.below[key := below]);
    forall sofar
      ensures Visits(h, v, prefix, depth, maxDepth, t)
      ensures var flat := Along(h, v, prefix, depth, maxDepth, t, |t.keys|, sofar);
              Name(prefix, q) in flat && Walk(h, v, q) == Some(flat[Name(prefix, q)])
    {
      OrderExtended(h, v, prefix, depth, maxDepth, start, key, below, sofar);
    }
    OrderExtended(h, v, prefix, depth, maxDepth, start, key, below, map[]);
  }

  lemma VisitsSome(h: Heap<Fieldset>, v: Value<Fieldset>, prefix: string, depth: nat, maxDepth: int, o: Order, t: Order)
    requires Visits(h, v, prefix, depth, maxDepth, o) && Distinct(t.keys) && t.below == o.below && forall key <- t.keys :: key in o.keys
    ensures Visits(h, v, prefix, depth, maxDepth, t)
  {
    forall key <- t.keys ensures key in h[v.node] && VisitsBelow(h, h[v.node][key], prefix, depth, maxDepth, t, key) {
      assert VisitsBelow(h, h[v.node][key], prefix, depth, maxDepth, o, key);
    }
  }

  /**
   * All orders of visiting the fields of a document, and of the maps in it, lead to the same flat map
   * exactly when paths that appear under the same name lead to the same value.
   */
  lemma VisitingOrderExactly(h: Heap<Fieldset>, v: Value<Fieldset>, prefix: string, maxDepth: int, o: Order)
    requires VisitsAll(h, v, prefix, 0, maxDepth, o)
    ensures (forall t | VisitsAll(h, v, prefix, 0, maxDepth, t) :: FlatAlong(h, v, prefix, maxDepth, t) == FlatAlong(h, v, prefix, maxDepth, o))
       <==> NamesTell(h, v, prefix, maxDepth)
  {
    hide VisitsAll, IsFlat, Appears, Name, Walk, Along;
    if NamesTell(h, v, prefix, maxDepth) {
      forall t | VisitsAll(h, v, prefix, 0, maxDepth, t) ensures FlatAlong(h, v, prefix, maxDepth, t) == FlatAlong(h, v, prefix, maxDepth, o) {
        AlongIsFlat(h, v, prefix, maxDepth, t);
        AlongIsFlat(h, v, prefix, maxDepth, o);
        FlatIncluded(h, v, prefix, maxDepth, FlatAlong(h, v, prefix, maxDepth, t), FlatAlong(h, v, prefix, maxDepth, o));
        FlatIncluded(h, v, prefix, maxDepth, FlatAlong(h, v, prefix, maxDepth, o), FlatAlong(h, v, prefix, maxDepth, t));
      }
    } else {
      var q, r :| Appears(h, v, prefix, q, 0, maxDepth) && Appears(h, v, prefix, r, 0, maxDepth)
                  && Name(prefix, q) == Name(prefix, r) && Walk(h, v, q) != Walk(h, v, r);
      var a := LastVisited(h, v, prefix, 0, maxDepth, o, q);
      var b := LastVisited(h, v, prefix, 0, maxDepth, o, r);
      assert Walk(h, v, q) == Some(FlatAlong(h, v, prefix, maxDepth, a)[Name(prefix, q)]);
      assert Walk(h, v, r) == Some(FlatAlong(h, v, prefix, maxDepth, b)[Name(prefix, r)]);
    }
  }

  /** A dot in a key: two paths of one document have the same name. */
  lemma DottedKeysCollide(h: Heap<Fieldset>, doc: Fieldset, inner: Fieldset, x: Value<Fieldset>, y: Value<Fieldset>)
    requires doc in h && inner in h && !x.Map? && !y.Map? && x != y
    requires h[doc] == map["a.b" := x, "a" := Map(inner)] && h[inner] == map["b" := y]
    ensures !NamesTell(h, Map(doc), "", 1)
  {
    var p, q := ["a.b"], ["a", "b"];
    assert q[1..] == ["b"];
    assert Appears(h, Map(doc), "", p, 0, 1) && Appears(h, Map(doc), "", q, 0, 1);
    assert Name("", p) == Name("", q) == "a.b";
    assert Walk(h, Map(doc), p) == Some(x) && Walk(h, Map(doc), q) == Some(y);
  }

  /** An empty key: the same, with no dot in any key. */
  lemma EmptyKeysCollide(h: Heap<Fieldset>, doc: Fieldset, inner: Fieldset, x: Value<Fieldset>, y: Value<Fieldset>)
    requires doc in h && inner in h && !x.Map? && !y.Map? && x != y
    requires h[doc] == map["a" := x, "" := Map(inner)] && h[inner] == map["a" := y]
    ensures !NamesTell(h, Map(doc), "", 1)
  {
    var p, q := ["a"], ["", "a"];
    assert q[1..] == ["a"];
    assert Appears(h, Map(doc), "", p, 0, 1) && Appears(h, Map(doc), "", q, 0, 1);
    assert Name("", p) == Name("", q) == "a";
    assert Walk(h, Map(doc), p) == Some(x) && Walk(h, Map(doc), q) == Some(y);
  }

  // ---------------------------------------------------------------- documents with plain keys

  /** With plain keys, two paths that appear have the same name only if they are the same. */
  lemma AppearApart(h: Heap<Fieldset>, v: Value<Fieldset>, prefix: string, maxDepth: int, p: Path, q: Path)
    requires WellKeyed(h) && Appears(h, v, prefix, p, 0, maxDepth) && Appears(h, v, prefix, q, 0, maxDepth)
    requires Name(prefix, p) == Name(prefix, q)
    ensures p == q
  {
    AppearingKeys(h, v, prefix, p, 0, maxDepth);
    AppearingKeys(h, v, prefix, q, 0, maxDepth);
    NamesApart(prefix, p, q);
  }

  /** Every path that appears is found under its name: the flat map and following paths agree. */
  lemma FlatHoldsAll(h: Heap<Fieldset>, v: Value<Fieldset>, prefix: string, maxDepth: int, flat: Flat, q: Path)
    requires IsFlat(h, v, prefix, maxDepth, flat) && WellKeyed(h) && Appears(h, v, prefix, q, 0, maxDepth)
    ensures Name(prefix, q) in flat && Walk(h, v, q) == Some(flat[Name(prefix, q)])
  {
    var s := Name(prefix, q);
    assert Holds(h, v, prefix, maxDepth, s, flat[s]);
    var p :| Appears(h, v, prefix, p, 0, maxDepth) && Name(prefix, p) == s && Walk(h, v, p) == Some(flat[s]);
    AppearApart(h, v, prefix, maxDepth, p, q);
  }

  /** Two flat maps of one document are the same, in whatever order its fields were visited. */
  lemma FlatIsUnique(h: Heap<Fieldset>, v: Value<Fieldset>, prefix: string, maxDepth: int, a: Flat, b: Flat)
    requires WellKeyed(h) && IsFlat(h, v, prefix, maxDepth, a) && IsFlat(h, v, prefix, maxDepth, b)
    ensures a == b
  {
    hide IsFlat, Appears, Name, Walk, WellKeyed;
    forall q, r | Appears(h, v, prefix, q, 0, maxDepth) && Appears(h, v, prefix, r, 0, maxDepth) && Name(prefix, q) == Name(prefix, r)
      ensures q == r
    {
      AppearApart(h, v, prefix, maxDepth, q, r);
    }
    FlatIsUniqueExactly(h, v, prefix, maxDepth, b);
  }

  /** A value that is no map, within the limit and not below `_id`, is in the flat map under its dotted name. */
  lemma FlatAgreesWithLookup(h: Heap<Fieldset>, v: Value<Fieldset>, maxDepth: int, flat: Flat, path: Path)
    requires IsFlat(h, v, "", maxDepth, flat) && WellKeyed(h) && AreKeys(path)
    requires path != [] && path[0] != "_id" && |path| <= Limit(maxDepth) + 1
    requires Walk(h, v, path).Some? && !Walk(h, v, path).value.Map?
    ensures Name("", path) in flat && flat[Name("", path)] == Walk(h, v, path).value
  {
    LeavesAppear(h, v, "", path, 0, maxDepth);
    FlatHoldsAll(h, v, "", maxDepth, flat, path);
  }

  /** Whatever is in the flat map is found at a path within the limit; it is a map only at the limit, or as `_id`. */
  lemma FlatHoldsNothingElse(h: Heap<Fieldset>, v: Value<Fieldset>, maxDepth: int, flat: Flat, s: string) returns (path: Path)
    requires IsFlat(h, v, "", maxDepth, flat) && s in flat
    ensures Name("", path) == s && 1 <= |path| <= Limit(maxDepth) + 1 && Walk(h, v, path) == Some(flat[s])
    ensures WellKeyed(h) && flat[s].Map? ==> |path| == Limit(maxDepth) + 1 || path == ["_id"]
  {
    assert Holds(h, v, "", maxDepth, s, flat[s]);
    path :| Appears(h, v, "", path, 0, maxDepth) && Name("", path) == s && Walk(h, v, path) == Some(flat[s]);
    if WellKeyed(h) {
      AppearingKeys(h, v, "", path, 0, maxDepth);
    }
    AppearsAsFound(h, v, "", path, 0, maxDepth);
  }
}
