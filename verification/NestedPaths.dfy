/**
 * Documents as Go keeps them: maps and lists that hold maps, changed in place through references.
 * A heap is the contents of a set of such maps at one moment. A placement gives every map a place
 * of its own: the keys and list positions that lead to it. That there is one says that the maps
 * form trees, with nothing shared. Paths lead through maps only, but places go on into lists.
 */
module NestedPaths {
  import opened Wrappers

  type Path = seq<string>

  datatype Value<N> = Scalar(text: string) | Null | List(items: seq<Value<N>>) | Map(node: N)

  type Fields<N> = map<string, Value<N>>

  type Heap<!N> = map<N, Fields<N>>

  type Placement<!N> = map<N, Path>

  /** The step from a list to its i-th item. */
  function Nth(i: nat): string {
    seq(i, _ => '#')
  }

  /** A map lies at the place, and the items of a list one step further on. */
  ghost predicate Sits<N>(v: Value<N>, at: Placement<N>, place: Path)
    decreases v
  {
    match v
    case Map(n) => n in at && at[n] == place
    case List(items) => forall i | 0 <= i < |items| :: Sits(items[i], at, place + [Nth(i)])
    case _ => true
  }

  /** Each map has a place of its own, and what it holds lies one key further on. */
  ghost predicate Placed<N>(h: Heap<N>, at: Placement<N>) {
    && at.Keys == h.Keys
    && (forall m, n | m in at && n in at && m != n :: at[m] != at[n])
    && forall n, k | n in h && k in h[n] :: Sits(h[n][k], at, at[n] + [k])
  }

  /** What sits in one placement sits in another that has the same maps from this place on. */
  lemma {:induction false} SitsStill<N>(v: Value<N>, at: Placement<N>, t: Placement<N>, place: Path)
    requires Sits(v, at, place) && forall n | n in at && Starts(place, at[n]) :: n in t && t[n] == at[n]
    ensures Sits(v, t, place)
    decreases v
  {
    if v.List? {
      forall i | 0 <= i < |v.items| ensures Sits(v.items[i], t, place + [Nth(i)]) {
        forall n | n in at && Starts(place + [Nth(i)], at[n]) ensures Starts(place, at[n]) {
          StartsOn(place, Nth(i), at[n]);
        }
        SitsStill(v.items[i], at, t, place + [Nth(i)]);
      }
    }
  }

  lemma StartsOn(p: Path, key: string, q: Path)
    requires Starts(p + [key], q)
    ensures Starts(p, q) && |p| < |q| && q[|p|] == key
  {
    assert q[..|p|] == (p + [key])[..|p|] == p && q[|p|] == (p + [key])[|p|];
  }

  /** getNestedValue: follow the keys of a path. */
  function Walk<N>(h: Heap<N>, v: Value<N>, path: Path): Option<Value<N>>
    decreases |path|
  {
    if path == [] then Some(v)
    else if v.Map? && v.node in h && path[0] in h[v.node] then Walk(h, h[v.node][path[0]], path[1..])
    else None
  }

  /** Each of these values is a map that holds the next one under the path's next key. */
  ghost predicate Chained<N>(h: Heap<N>, path: Path, values: seq<Value<N>>) {
    && |values| == |path| + 1
    && forall i | 0 <= i < |path| :: values[i].Map? && values[i].node in h && path[i] in h[values[i].node] && h[values[i].node][path[i]] == values[i + 1]
  }

  lemma {:induction false} ChainLeads<N>(h: Heap<N>, path: Path, values: seq<Value<N>>)
    requires Chained(h, path, values)
    ensures Walk(h, values[0], path) == Some(values[|path|])
    decreases |path|
  {
    if path != [] {
      assert values[0].Map? && h[values[0].node][path[0]] == values[1];
      assert Chained(h, path[1..], values[1..]);
      ChainLeads(h, path[1..], values[1..]);
    }
  }

  lemma {:induction false} WalkLeads<N>(h: Heap<N>, v: Value<N>, path: Path) returns (values: seq<Value<N>>)
    requires Walk(h, v, path).Some?
    ensures Chained(h, path, values) && values[0] == v && values[|path|] == Walk(h, v, path).value
    decreases |path|
  {
    if path == [] {
      values := [v];
    } else {
      var rest := WalkLeads(h, h[v.node][path[0]], path[1..]);
      values := [v] + rest;
      forall i | 0 < i < |path| ensures values[i] == rest[i - 1] && values[i + 1] == rest[i] && path[i] == path[1..][i - 1] {
      }
    }
  }

  /** A path leads from one value to another exactly when there are maps on the way that hold each other under its keys. */
  lemma WalkExactly<N>(h: Heap<N>, v: Value<N>, path: Path, w: Value<N>)
    ensures Walk(h, v, path) == Some(w) <==> exists values :: Chained(h, path, values) && values[0] == v && values[|path|] == w
  {
    hide Walk;
    if values: seq<Value<N>> :| Chained(h, path, values) && values[0] == v && values[|path|] == w {
      ChainLeads(h, path, values);
    }
    if Walk(h, v, path) == Some(w) {
      var values := WalkLeads(h, v, path);
    }
  }

  predicate Starts(at: Path, path: Path) {
    at <= path
  }

  predicate Apart(p: Path, q: Path) {
    !Starts(p, q) && !Starts(q, p)
  }

  lemma {:induction false} WalkOn<N>(h: Heap<N>, v: Value<N>, p: Path, q: Path)
    ensures Walk(h, v, p + q) == if Walk(h, v, p).Some? then Walk(h, Walk(h, v, p).value, q) else None
    decreases |p|
  {
    if p == [] {
      assert p + q == q;
    } else {
      assert (p + q)[0] == p[0] && (p + q)[1..] == p[1..] + q;
      if v.Map? && v.node in h && p[0] in h[v.node] {
        WalkOn(h, h[v.node][p[0]], p[1..], q);
      }
    }
  }

  /** A walk that starts at a placed value arrives at values placed that much further on. */
  lemma {:induction false} WalkArrives<N>(h: Heap<N>, at: Placement<N>, v: Value<N>, place: Path, path: Path)
    requires Placed(h, at) && Sits(v, at, place) && Walk(h, v, path).Some?
    ensures Sits(Walk(h, v, path).value, at, place + path)
    decreases |path|
  {
    if path == [] {
      assert place + path == place;
    } else {
      assert place + path == (place + [path[0]]) + path[1..];
      WalkArrives(h, at, h[v.node][path[0]], place + [path[0]], path[1..]);
    }
  }

  /** Two heaps that hold the same fields in every map but one, and in that one but under one key. */
  ghost predicate ChangedAt<N>(h: Heap<N>, t: Heap<N>, n: N, key: string) {
    && n in h && h.Keys <= t.Keys
    && (forall m | m in h && m != n :: t[m] == h[m])
    && forall k | k != key :: (k in t[n] <==> k in h[n]) && (k in h[n] ==> t[n][k] == h[n][k])
  }

  /** Changing one key of one map changes only what is reached through it. */
  lemma {:induction false} OnlyBehind<N>(h: Heap<N>, at: Placement<N>, t: Heap<N>, n: N, key: string, v: Value<N>, r: Path, q: Path)
    requires Placed(h, at) && ChangedAt(h, t, n, key) && Sits(v, at, r)
    requires !Starts(at[n] + [key], r + q)
    ensures Walk(t, v, q) == Walk(h, v, q)
    decreases |q|
  {
    if q != [] && v.Map? {
      assert r + q == (r + [q[0]]) + q[1..];
      if q[0] in h[v.node] && !(v.node == n && q[0] == key) {
        OnlyBehind(h, at, t, n, key, h[v.node][q[0]], r + [q[0]], q[1..]);
      }
    }
  }

  /** Walks do not see maps that nothing placed refers to. */
  lemma {:induction false} MoreMaps<N>(h: Heap<N>, at: Placement<N>, t: Heap<N>, v: Value<N>, q: Path)
    requires Placed(h, at) && h.Keys <= t.Keys && (forall m | m in h :: t[m] == h[m]) && (v.Map? ==> v.node in h)
    ensures Walk(t, v, q) == Walk(h, v, q)
    decreases |q|
  {
    if q != [] && v.Map? && q[0] in h[v.node] {
      assert Sits(h[v.node][q[0]], at, at[v.node] + [q[0]]);
      MoreMaps(h, at, t, h[v.node][q[0]], q[1..]);
    }
  }

  // ---------------------------------------------------------------- putting and taking out

  function Put<N>(h: Heap<N>, n: N, key: string, v: Value<N>): Heap<N>
    requires n in h
  {
    h[n := h[n][key := v]]
  }

  function TakeOut<N>(h: Heap<N>, n: N, key: string): Heap<N>
    requires n in h
  {
    h[n := h[n] - {key}]
  }

  /** The maps that do not lie at this place or behind it. */
  function Without<N>(at: Placement<N>, place: Path): Placement<N> {
    map n | n in at && !Starts(place, at[n]) :: at[n]
  }

  /** The maps at this place and behind it, placed from there on. */
  function From<N>(at: Placement<N>, place: Path): Placement<N> {
    map n | n in at && Starts(place, at[n]) :: at[n][|place|..]
  }

  function Restrict<N>(h: Heap<N>, to: set<N>): Heap<N> {
    map n | n in h && n in to :: if n in h && n in to then h[n] else map[]
  }

  lemma {:induction false} SitsFrom<N>(v: Value<N>, at: Placement<N>, place: Path, p: Path)
    requires Sits(v, at, place) && Starts(p, place)
    ensures Sits(v, From(at, p), place[|p|..])
    decreases v
  {
    if v.List? {
      forall i | 0 <= i < |v.items| ensures Sits(v.items[i], From(at, p), place[|p|..] + [Nth(i)]) {
        SitsFrom(v.items[i], at, place + [Nth(i)], p);
        assert (place + [Nth(i)])[|p|..] == place[|p|..] + [Nth(i)];
      }
    }
  }

  /** What lies behind a place is placed by itself. */
  lemma FromPlaced<N>(h: Heap<N>, at: Placement<N>, p: Path)
    requires Placed(h, at)
    ensures Placed(Restrict(h, From(at, p).Keys), From(at, p))
  {
    var own := From(at, p);
    var r: Heap<N> := Restrict(h, own.Keys);
    forall m, n | m in own && n in own && m != n ensures own[m] != own[n] {
      assert at[m] == p + own[m] && at[n] == p + own[n];
    }
    forall n, k | n in r && k in r[n] ensures Sits(r[n][k], own, own[n] + [k]) {
      SitsFrom(h[n][k], at, at[n] + [k], p);
      assert (at[n] + [k])[|p|..] == own[n] + [k];
    }
  }

  /** A map that is reached is where its place says, and is found along the keys of its place. */
  ghost predicate Reached<N>(h: Heap<N>, at: Placement<N>, root: N, n: N) {
    root in at && at[root] == [] && n in at && Walk(h, Map(root), at[n]) == Some(Map(n))
  }

  /** What a map holds that lies on the way to a map that is reached is a map. */
  lemma OnTheWay<N>(h: Heap<N>, at: Placement<N>, root: N, n: N, m: N, k: string)
    requires Placed(h, at) && Reached(h, at, root, n) && m in h && k in h[m] && Starts(at[m] + [k], at[n])
    ensures h[m][k].Map?
  {
    var p := at[m] + [k];
    var rest := at[n][|p|..];
    assert at[n] == at[m] + ([k] + rest) && at[n] == p + rest;
    WalkOn(h, Map(root), at[m], [k] + rest);
    var there := Walk(h, Map(root), at[m]).value;
    WalkArrives(h, at, Map(root), [], at[m]);
    assert [] + at[m] == at[m] && there.Map? && there.node == m;
    assert ([k] + rest)[1..] == rest;
    if rest == [] {
      assert Walk(h, h[m][k], rest) == Some(Map(n));
    }
  }

  /** What a map holds is out of the way of another place under a map that is reached. */
  lemma SitsAside<N>(h: Heap<N>, at: Placement<N>, root: N, n: N, key: string, m: N, k: string)
    requires Placed(h, at) && Reached(h, at, root, n) && m in h && k in h[m] && (m != n || k != key)
    requires !Starts(at[n] + [key], at[m])
    ensures Sits(h[m][k], Without(at, at[n] + [key]), at[m] + [k])
  {
    var place, p, v := at[n] + [key], at[m] + [k], h[m][k];
    ChildAside(at[m], k, at[n], key);
    if Starts(p, at[n]) {
      OnTheWay(h, at, root, n, m, k);
    }
    if !v.Map? {
      forall c | c in at && Starts(p, at[c]) ensures !Starts(place, at[c]) {
        StillAside(p, at[n], key, at[c]);
      }
      SitsStill(v, at, Without(at, place), p);
    }
  }

  lemma ChildAside(a: Path, k: string, b: Path, key: string)
    requires !Starts(b + [key], a) && (a != b || k != key)
    ensures !Starts(b + [key], a + [k])
  {
    var place, p := b + [key], a + [k];
    if |place| < |p| {
      assert p[..|place|] == a[..|place|];
    } else if |place| == |p| {
      assert p[..|a|] == a && place[..|b|] == b && p[|a|] == k && place[|b|] == key;
    }
  }

  lemma StillAside(p: Path, b: Path, key: string, q: Path)
    requires !Starts(b + [key], p) && !Starts(p, b) && Starts(p, q)
    ensures !Starts(b + [key], q)
  {
    var place := b + [key];
    if |place| <= |p| {
      assert |place| <= |q| && q[..|place|] == p[..|place|];
    } else if |place| <= |q| {
      assert place[..|p|] == b[..|p|] && q[..|p|] == p;
      assert q[..|place|][..|p|] == q[..|p|];
    }
  }

  /** The maps aside from a place whose value is taken out or replaced stay placed. */
  lemma WithoutPlaced<N>(h: Heap<N>, at: Placement<N>, root: N, n: N, key: string, t: Heap<N>)
    requires Placed(h, at) && Reached(h, at, root, n) && ChangedAt(h, t, n, key) && key !in t[n]
    ensures var rest := Without(at, at[n] + [key]); Placed(Restrict(t, rest.Keys), rest)
  {
    var place := at[n] + [key];
    var rest := Without(at, place);
    var r: Heap<N> := Restrict(t, rest.Keys);
    forall m, k | m in r && k in r[m] ensures Sits(r[m][k], rest, rest[m] + [k]) {
      assert r[m][k] == h[m][k];
      SitsAside(h, at, root, n, key, m, k);
    }
  }

  lemma TakenOutPlaced<N>(h: Heap<N>, at: Placement<N>, n: N, key: string)
    requires Placed(h, at) && n in h
    ensures Placed(TakeOut(h, n, key), at) && ChangedAt(h, TakeOut(h, n, key), n, key)
  {
  }

  /** The placement of maps that have been hung up under a path. */
  function Shifted<N>(at: Placement<N>, under: Path): Placement<N> {
    map n | n in at :: under + at[n]
  }

  lemma {:induction false} SitsShifted<N>(v: Value<N>, at: Placement<N>, place: Path, under: Path)
    requires Sits(v, at, place)
    ensures Sits(v, Shifted(at, under), under + place)
    decreases v
  {
    if v.List? {
      forall i | 0 <= i < |v.items| ensures Sits(v.items[i], Shifted(at, under), (under + place) + [Nth(i)]) {
        SitsShifted(v.items[i], at, place + [Nth(i)], under);
        assert under + (place + [Nth(i)]) == (under + place) + [Nth(i)];
      }
    }
  }

  lemma ShiftedPlaced<N>(h: Heap<N>, at: Placement<N>, under: Path)
    requires Placed(h, at)
    ensures Placed(h, Shifted(at, under))
  {
    var s := Shifted(at, under);
    forall m, n | m in s && n in s && m != n ensures s[m] != s[n] {
      assert at[m] == s[m][|under|..] && at[n] == s[n][|under|..];
    }
    forall n, k | n in h && k in h[n] ensures Sits(h[n][k], s, s[n] + [k]) {
      SitsShifted(h[n][k], at, at[n] + [k], under);
      assert under + (at[n] + [k]) == (under + at[n]) + [k];
    }
  }

  /** A value with the maps it holds: a tree, or none for a scalar. */
  ghost predicate Rooted<N>(h: Heap<N>, at: Placement<N>, v: Value<N>) {
    Placed(h, at) && Sits(v, at, [])
  }

  /** The placement after a value has been hung up with its own maps: those that were there before are lost. */
  function Hung<N>(at: Placement<N>, place: Path, own: Placement<N>): Placement<N> {
    Without(at, place) + Shifted(own, place)
  }

  lemma HungApart<N>(at: Placement<N>, place: Path, own: Placement<N>)
    requires at.Keys !! own.Keys && (forall m, n | m in at && n in at && m != n :: at[m] != at[n])
    requires forall m, n | m in own && n in own && m != n :: own[m] != own[n]
    ensures var t := Hung(at, place, own); forall m, n | m in t && n in t && m != n :: t[m] != t[n]
  {
    var t := Hung(at, place, own);
    forall m, n | m in t && n in t && m != n ensures t[m] != t[n] {
      if m in own {
        assert t[m][|place|..] == own[m] && Starts(place, t[m]);
      }
      if n in own {
        assert t[n][|place|..] == own[n] && Starts(place, t[n]);
      }
    }
  }

  /** Hanging up a value with its own maps under a key keeps everything placed that is not lost by it. */
  lemma PutPlaced<N>(h: Heap<N>, at: Placement<N>, root: N, n: N, key: string, v: Value<N>, own: Heap<N>, ownAt: Placement<N>)
    requires Placed(h, at) && Reached(h, at, root, n) && Rooted(own, ownAt, v) && h.Keys !! own.Keys
    ensures var t := Hung(at, at[n] + [key], ownAt); Placed(Restrict(Put(h, n, key, v) + own, t.Keys), t)
  {
    var place := at[n] + [key];
    var rest, s := Without(at, place), Shifted(ownAt, place);
    var t := Hung(at, place, ownAt);
    var full: Heap<N> := Put(h, n, key, v) + own;
    var r: Heap<N> := Restrict(full, t.Keys);
    HungApart(at, place, ownAt);
    ShiftedPlaced(own, ownAt, place);
    SitsShifted(v, ownAt, [], place);
    assert place + [] == place;
    assert t.Keys == r.Keys;
    forall m, k | m in r && k in r[m] ensures Sits(r[m][k], t, t[m] + [k]) {
      if m in own {
        assert r[m] == own[m] && t[m] == s[m];
        SitsIn(own[m][k], s, t, s[m] + [k]);
      } else if m == n && k == key {
        SitsIn(v, s, t, place);
      } else {
        assert r[m][k] == h[m][k] && t[m] == at[m];
        SitsAside(h, at, root, n, key, m, k);
        SitsIn(h[m][k], rest, t, at[m] + [k]);
      }
    }
  }

  lemma SitsIn<N>(v: Value<N>, at: Placement<N>, t: Placement<N>, place: Path)
    requires Sits(v, at, place) && forall n | n in at :: n in t && t[n] == at[n]
    ensures Sits(v, t, place)
  {
    SitsStill(v, at, t, place);
  }

  lemma ShiftedRoot<N>(at: Placement<N>, under: Path, n: N)
    requires n in at && at[n] == []
    ensures n in Shifted(at, under) && Shifted(at, under)[n] == under
  {
    assert under + [] == under;
  }

  /** The document before and after a value has been hung up in it. */
  ghost predicate HungUp<N>(h: Heap<N>, at: Placement<N>, root: N, n: N, key: string, v: Value<N>,
                            own: Heap<N>, ownAt: Placement<N>, t: Heap<N>) {
    && Placed(h, at) && Reached(h, at, root, n)
    && Rooted(own, ownAt, v) && h.Keys !! own.Keys && t == Put(h, n, key, v) + own
  }

  /** What hanging up a value changes is what lies behind its place, and no more. */
  lemma PutFrame<N>(h: Heap<N>, at: Placement<N>, root: N, n: N, key: string, v: Value<N>, own: Heap<N>, ownAt: Placement<N>, t: Heap<N>, q: Path)
    requires HungUp(h, at, root, n, key, v, own, ownAt, t) && !Starts(at[n] + [key], q)
    ensures Walk(t, Map(root), q) == Walk(h, Map(root), q)
  {
    hide Walk, Rooted;
    assert [] + q == q && ChangedAt(h, t, n, key);
    hide Placed;
    OnlyBehind(h, at, t, n, key, Map(root), [], q);
  }

  lemma ScalarEnds<N>(h: Heap<N>, t: Heap<N>, v: Value<N>, q: Path)
    requires !v.Map?
    ensures Walk(h, v, q) == Walk(t, v, q)
  {
  }

  /** The value is found at its place, and its own fields behind it. */
  lemma PutFound<N>(h: Heap<N>, at: Placement<N>, root: N, n: N, key: string, v: Value<N>, own: Heap<N>, ownAt: Placement<N>, t: Heap<N>, q: Path)
    requires HungUp(h, at, root, n, key, v, own, ownAt, t)
    ensures Walk(t, Map(root), at[n] + [key] + q) == Walk(own, v, q)
  {
    assert at[n] + [key] + q == at[n] + ([key] + q);
    PutFrame(h, at, root, n, key, v, own, ownAt, t, at[n]);
    WalkOn(t, Map(root), at[n], [key] + q);
    assert Walk(t, Map(n), [key] + q) == Walk(t, v, q) by {
      hide Placed, Rooted;
      assert t[n][key] == v && ([key] + q)[1..] == q;
    }
    if v.Map? {
      hide HungUp;
      MoreMaps(own, ownAt, t, v, q);
    } else {
      ScalarEnds(t, own, v, q);
    }
  }

  // ---------------------------------------------------------------- the documents as they are changed

  class Fieldset {
    var fields: Fields<Fieldset>

    constructor ()
      ensures fields == map[]
    {
      fields := map[];
    }
  }

  ghost function Snap(maps: set<Fieldset>): (h: Heap<Fieldset>)
    reads maps
    ensures h.Keys == maps
  {
    map m | m in maps :: if m in maps then m.fields else map[]
  }

  /** The maps of a document: each is placed, and the document itself at the start. */
  ghost predicate IsTree(root: Fieldset, at: Placement<Fieldset>)
    reads at.Keys
  {
    root in at && at[root] == [] && Placed(Snap(at.Keys), at)
  }

  ghost function Look(root: Fieldset, at: Placement<Fieldset>, path: Path): Option<Value<Fieldset>>
    reads at.Keys
  {
    Walk(Snap(at.Keys), Map(root), path)
  }

  method GetNestedValue(root: Fieldset, path: Path, ghost at: Placement<Fieldset>) returns (found: Option<Value<Fieldset>>)
    requires IsTree(root, at)
    ensures found == if path == [] then None else Look(root, at, path)
  {
    if |path| == 0 {
      return None;
    }
    ghost var h := Snap(at.Keys);
    var current := Map(root);
    for i := 0 to |path|
      invariant current.Map? ==> current.node in at
      invariant Look(root, at, path) == Walk(h, current, path[i..])
    {
      assert path[i..][1..] == path[i + 1..];
      assert current.Map? && path[i] in current.node.fields ==>
        Sits(h[current.node][path[i]], at, at[current.node] + [path[i]]);
      if !current.Map? || path[i] !in current.node.fields {
        return None;
      }
      current := current.node.fields[path[i]];
    }
    found := Some(current);
  }

  /** The map that a path leads to, if there is one all the way. */
  method FindMap(root: Fieldset, path: Path, ghost at: Placement<Fieldset>) returns (found: Option<Fieldset>)
    requires IsTree(root, at)
    ensures found.Some? ==> found.value in at && at[found.value] == path && Look(root, at, path) == Some(Map(found.value))
    ensures found.None? ==> forall rest :: rest != [] ==> Look(root, at, path + rest).None?
  {
    var current := root;
    ghost var h := Snap(at.Keys);
    assert path[..0] == [] && Look(root, at, []) == Some(Map(root));
    hide Walk, Placed, Snap, IsTree;
    for i := 0 to |path|
      invariant current in at && at[current] == path[..i] && Look(root, at, path[..i]) == Some(Map(current))
    {
      assert path[..i + 1] == path[..i] + [path[i]];
      NextValue(root, current, path[..i], path[i], at);
      if path[i] in current.fields && current.fields[path[i]].Map? {
        current := current.fields[path[i]].node;
      } else {
        forall rest | rest != [] ensures Look(root, at, path + rest).None? {
          assert path + rest == path[..i + 1] + (path[i + 1..] + rest);
          Unreachable(h, Map(root), path[..i + 1], path[i + 1..] + rest);
        }
        return None;
      }
    }
    assert path[..|path|] == path;
    found := Some(current);
  }

  lemma SnapRestricted(maps: set<Fieldset>, some: set<Fieldset>)
    requires some <= maps
    ensures Snap(some) == Restrict(Snap(maps), some)
  {
  }

  /** Remove a key from a map of the document: what lay there is gone, and nothing else. */
  method CutOff(root: Fieldset, n: Fieldset, key: string, ghost at: Placement<Fieldset>) returns (ghost t: Placement<Fieldset>)
    requires IsTree(root, at) && n in at && Look(root, at, at[n]) == Some(Map(n))
    modifies n
    ensures t == Without(at, at[n] + [key]) && IsTree(root, at) && IsTree(root, t)
    ensures forall q :: Look(root, at, q) == Look(root, t, q) == if Starts(at[n] + [key], q) then None else old(Look(root, at, q))
  {
    ghost var h, place := Snap(at.Keys), at[n] + [key];
    TakenOutPlaced(h, at, n, key);
    n.fields := n.fields - {key};
    t := Without(at, place);
    assert Snap(at.Keys) == TakeOut(h, n, key);
    SnapRestricted(at.Keys, t.Keys);
    CutOffLaws(h, at, root, n, key);
    RootAside(at, place, root);
  }

  lemma RootAside<N>(at: Placement<N>, place: Path, root: N)
    requires root in at && at[root] == [] && place != []
    ensures root in Without(at, place) && Without(at, place)[root] == []
  {
  }

  /** All that holds when a key has been removed. */
  lemma CutOffLaws<N>(h: Heap<N>, at: Placement<N>, root: N, n: N, key: string)
    requires Placed(h, at) && Reached(h, at, root, n)
    ensures var rest := Without(at, at[n] + [key]); var r: Heap<N> := Restrict(TakeOut(h, n, key), rest.Keys);
            && Placed(r, rest)
            && (forall q :: Walk(r, Map(root), q) == Walk(TakeOut(h, n, key), Map(root), q))
            && forall q :: Walk(TakeOut(h, n, key), Map(root), q) == if Starts(at[n] + [key], q) then None else Walk(h, Map(root), q)
  {
    var place, t := at[n] + [key], TakeOut(h, n, key);
    var rest := Without(at, place);
    var r: Heap<N> := Restrict(t, rest.Keys);
    TakenOutPlaced(h, at, n, key);
    WithoutPlaced(h, at, root, n, key, t);
    RootAside(at, place, root);
    forall q ensures Walk(t, Map(root), q) == if Starts(place, q) then None else Walk(h, Map(root), q) {
      CutOffWalk(h, at, root, n, key, t, q);
    }
    hide Placed, Walk;
    ForgetRest(t, rest, root);
  }

  lemma CutOffWalk<N>(h: Heap<N>, at: Placement<N>, root: N, n: N, key: string, t: Heap<N>, q: Path)
    requires Placed(h, at) && Reached(h, at, root, n) && ChangedAt(h, t, n, key) && key !in t[n]
    ensures Walk(t, Map(root), q) == if Starts(at[n] + [key], q) then None else Walk(h, Map(root), q)
  {
    var place := at[n] + [key];
    assert [] + q == q && [] + at[n] == at[n];
    if Starts(place, q) {
      var rest := q[|place|..];
      assert q == at[n] + ([key] + rest) && ([key] + rest)[0] == key;
      OnlyBehind(h, at, t, n, key, Map(root), [], at[n]);
      WalkOn(t, Map(root), at[n], [key] + rest);
    } else {
      OnlyBehind(h, at, t, n, key, Map(root), [], q);
    }
  }

  /** The field is gone with all that lay behind it; what lies elsewhere is as it was. */
  method DeleteNestedValue(root: Fieldset, path: Path, ghost at: Placement<Fieldset>) returns (ghost t: Placement<Fieldset>)
    requires IsTree(root, at)
    modifies at.Keys
    ensures IsTree(root, at) && IsTree(root, t) && t.Keys <= at.Keys
    ensures forall q :: Look(root, at, q) == Look(root, t, q) == if path != [] && Starts(path, q) then None else old(Look(root, at, q))
    ensures forall n | n in at && Starts(path, at[n]) :: n.fields == old(n.fields)
    ensures path != [] && old(Look(root, at, path)).Some? ==> t == Without(at, path)
  {
    t := at;
    hide Walk, Placed, Snap, IsTree, Look;
    if |path| > 0 {
      var last := |path| - 1;
      assert path == path[..last] + [path[last]];
      var parent := FindMap(root, path[..last], at);
      if parent.Some? {
        t := CutOff(root, parent.value, path[last], at);
      } else {
        forall q | Starts(path, q) ensures Look(root, at, q).None? {
          assert q == path[..last] + q[last..];
        }
      }
    }
  }

  /** Store a value, with its own maps, under a key of a map of the document. */
  method HangUpValue(root: Fieldset, n: Fieldset, key: string, value: Value<Fieldset>,
                     ghost at: Placement<Fieldset>, ghost ownAt: Placement<Fieldset>) returns (ghost t: Placement<Fieldset>)
    requires IsTree(root, at) && n in at && Look(root, at, at[n]) == Some(Map(n))
    requires Rooted(Snap(ownAt.Keys), ownAt, value) && at.Keys !! ownAt.Keys
    modifies n
    ensures t == Hung(at, at[n] + [key], ownAt) && IsTree(root, t)
    ensures n.fields == old(n.fields)[key := value]
    ensures HungAt(old(Snap(at.Keys)), root, at[n] + [key], old(Snap(ownAt.Keys)), value, Snap(t.Keys))
  {
    ghost var h, own := Snap(at.Keys), Snap(ownAt.Keys);
    assert HungUp(h, at, root, n, key, value, own, ownAt, Put(h, n, key, value) + own) && h.Keys == at.Keys && own.Keys == ownAt.Keys;
    hide HungUp, Placed, Rooted, Walk, Hung, Reached, Put, Restrict;
    HungUpLaws(h, at, root, n, key, value, own, ownAt, Put(h, n, key, value) + own);
    n.fields := n.fields[key := value];
    t := Hung(at, at[n] + [key], ownAt);
    SnapChanged(h, own, at.Keys, ownAt.Keys, n, key, value);
    RootKept(at, ownAt, at[n] + [key], root);
    SnapRestricted(at.Keys + ownAt.Keys, t.Keys);
  }

  lemma SnapChanged(h: Heap<Fieldset>, own: Heap<Fieldset>, maps: set<Fieldset>, more: set<Fieldset>,
                    n: Fieldset, key: string, value: Value<Fieldset>)
    requires h.Keys == maps && own.Keys == more && maps !! more && n in maps && n.fields == h[n][key := value]
    requires (forall m | m in maps && m != n :: m.fields == h[m]) && forall m | m in more :: m.fields == own[m]
    ensures Snap(maps + more) == Put(h, n, key, value) + own
  {
  }

  lemma RootKept<N>(at: Placement<N>, ownAt: Placement<N>, under: Path, root: N)
    requires root in at && at[root] == [] && at.Keys !! ownAt.Keys && under != []
    ensures var t := Hung(at, under, ownAt); root in t && t[root] == [] && t.Keys <= at.Keys + ownAt.Keys
  {
  }

  /** The value is found at its place with all it holds, and what does not lie behind that place is as it was. */
  ghost predicate HungAt<N>(h: Heap<N>, root: N, place: Path, own: Heap<N>, v: Value<N>, t: Heap<N>) {
    && (forall q :: !Starts(place, q) ==> Walk(t, Map(root), q) == Walk(h, Map(root), q))
    && forall q :: Walk(t, Map(root), place + q) == Walk(own, v, q)
  }

  /** All that holds when a value has been hung up. */
  lemma HungUpLaws<N>(h: Heap<N>, at: Placement<N>, root: N, n: N, key: string, v: Value<N>, own: Heap<N>, ownAt: Placement<N>, full: Heap<N>)
    requires HungUp(h, at, root, n, key, v, own, ownAt, full)
    ensures var t := Hung(at, at[n] + [key], ownAt);
            Placed(Restrict(full, t.Keys), t) && HungAt(h, root, at[n] + [key], own, v, Restrict(full, t.Keys))
  {
    var place := at[n] + [key];
    var t := Hung(at, place, ownAt);
    assert root in t && t.Keys <= full.Keys && t == Hung(at, place, ownAt) by {
      RootKept(at, ownAt, place, root);
    }
    assert Placed(Restrict(full, t.Keys), t) by {
      PutPlaced(h, at, root, n, key, v, own, ownAt);
    }
    HungUpWalks(h, at, root, n, key, v, own, ownAt, full);
    hide HungUp, Placed, Walk, Hung, Restrict;
    ForgetRest(full, t, root);
    HungAtToo(h, root, place, own, v, full, Restrict(full, t.Keys));
  }

  lemma HungAtToo<N>(h: Heap<N>, root: N, place: Path, own: Heap<N>, v: Value<N>, t: Heap<N>, r: Heap<N>)
    requires HungAt(h, root, place, own, v, t) && forall q :: Walk(r, Map(root), q) == Walk(t, Map(root), q)
    ensures HungAt(h, root, place, own, v, r)
  {
    hide Walk;
  }

  /** Maps that are not placed any more may be forgotten. */
  lemma ForgetRest<N>(h: Heap<N>, t: Placement<N>, root: N)
    requires t.Keys <= h.Keys && Placed(Restrict(h, t.Keys), t) && root in t
    ensures forall q :: Walk(Restrict(h, t.Keys), Map(root), q) == Walk(h, Map(root), q)
  {
    hide Placed, Walk;
    var r: Heap<N> := Restrict(h, t.Keys);
    Restricts(h, t.Keys);
    hide Restrict;
    SameWalks(r, t, h, Map(root));
  }

  lemma Restricts<N>(h: Heap<N>, to: set<N>)
    requires to <= h.Keys
    ensures var r: Heap<N> := Restrict(h, to); r.Keys == to && forall m | m in r :: m in h && h[m] == r[m]
  {
  }

  lemma SameWalks<N>(r: Heap<N>, at: Placement<N>, h: Heap<N>, v: Value<N>)
    requires Placed(r, at) && r.Keys <= h.Keys && (forall m | m in r :: h[m] == r[m]) && (v.Map? ==> v.node in r)
    ensures forall q :: Walk(r, v, q) == Walk(h, v, q)
  {
    forall q ensures Walk(r, v, q) == Walk(h, v, q) {
      MoreMaps(r, at, h, v, q);
    }
  }

  lemma HungUpWalks<N>(h: Heap<N>, at: Placement<N>, root: N, n: N, key: string, v: Value<N>, own: Heap<N>, ownAt: Placement<N>, full: Heap<N>)
    requires HungUp(h, at, root, n, key, v, own, ownAt, full)
    ensures HungAt(h, root, at[n] + [key], own, v, full)
  {
    var place := at[n] + [key];
    hide HungUp, Walk;
    forall q | !Starts(place, q) ensures Walk(full, Map(root), q) == Walk(h, Map(root), q) {
      PutFrame(h, at, root, n, key, v, own, ownAt, full, q);
    }
    forall q ensures Walk(full, Map(root), place + q) == Walk(own, v, q) {
      PutFound(h, at, root, n, key, v, own, ownAt, full, q);
    }
  }

  /** The value, with all it holds, is found at the path; every path apart from that leads where it led before. */
  ghost predicate Stored<N>(h: Heap<N>, root: N, path: Path, own: Heap<N>, v: Value<N>, t: Heap<N>) {
    && (forall q :: Walk(t, Map(root), path + q) == Walk(own, v, q))
    && forall q :: Apart(path, q) ==> Walk(t, Map(root), q) == Walk(h, Map(root), q)
  }

  lemma StoredInTwo(h: Heap<Fieldset>, m: Heap<Fieldset>, t: Heap<Fieldset>, root: Fieldset, path: Path, own: Heap<Fieldset>, v: Value<Fieldset>)
    requires forall q :: Apart(path, q) ==> Walk(m, Map(root), q) == Walk(h, Map(root), q)
    requires forall q :: !Starts(path, q) ==> Walk(t, Map(root), q) == Walk(m, Map(root), q)
    requires forall q :: Walk(t, Map(root), path + q) == Walk(own, v, q)
    ensures Stored(h, root, path, own, v, t)
  {
    hide Walk;
  }

  method SetNestedValue(root: Fieldset, path: Path, value: Value<Fieldset>, ghost at: Placement<Fieldset>, ghost ownAt: Placement<Fieldset>)
    returns (ghost t: Placement<Fieldset>)
    requires IsTree(root, at) && Rooted(Snap(ownAt.Keys), ownAt, value) && at.Keys !! ownAt.Keys
    modifies at.Keys
    ensures IsTree(root, t) && fresh(t.Keys - at.Keys - ownAt.Keys)
    ensures if path == [] then t == at && Snap(at.Keys) == old(Snap(at.Keys))
            else Stored(old(Snap(at.Keys)), root, path, old(Snap(ownAt.Keys)), value, Snap(t.Keys))
  {
    t := at;
    if |path| > 0 {
      var last, current := |path| - 1, root;
      ghost var h, own := Snap(at.Keys), Snap(ownAt.Keys);
      hide Walk, Placed, Snap, Starts, Apart, Hung, IsTree, Rooted, Stored;
      t, current := MakeMap(root, path, last, at);
      ghost var m := Snap(t.Keys);
      assert Snap(ownAt.Keys) == own && t.Keys !! ownAt.Keys;
      assert path == path[..last] + [path[last]];
      ghost var before := t;
      t := HangUpValue(root, current, path[last], value, t, ownAt);
      HungKeys(before, path, ownAt);
      StoredInTwo(h, m, Snap(t.Keys), root, path, own, value);
    }
  }

  /** Go along a path for `n` keys, creating the maps that are missing. */
  method MakeMap(root: Fieldset, path: Path, n: nat, ghost at: Placement<Fieldset>)
    returns (ghost t: Placement<Fieldset>, current: Fieldset)
    requires IsTree(root, at) && n < |path|
    modifies at.Keys
    ensures IsTree(root, t) && fresh(t.Keys - at.Keys)
    ensures current in t && t[current] == path[..n] && Look(root, t, path[..n]) == Some(Map(current))
    ensures forall q :: Apart(path, q) ==> Look(root, t, q) == old(Look(root, at, q))
  {
    t, current := at, root;
    assert path[..0] == [] && Look(root, t, []) == Some(Map(root)) && t[root] == [] && root in t;
    hide Walk, Placed, Snap, Starts, IsTree, Look;
    for i := 0 to n
      invariant IsTree(root, t) && fresh(t.Keys - at.Keys)
      invariant current in t && t[current] == path[..i] && Look(root, t, path[..i]) == Some(Map(current))
      invariant forall q :: Apart(path, q) ==> Look(root, t, q) == old(Look(root, at, q))
    {
      t, current := StepInto(root, current, path, i, t);
    }
  }

  lemma HungKeys<N>(at: Placement<N>, place: Path, own: Placement<N>)
    ensures Hung(at, place, own).Keys <= at.Keys + own.Keys
  {
  }

  /** Go on to the map under the next key, which is created if there is none. */
  method StepInto(root: Fieldset, current: Fieldset, path: Path, i: nat, ghost at: Placement<Fieldset>)
    returns (ghost t: Placement<Fieldset>, next: Fieldset)
    requires IsTree(root, at) && current in at && i + 1 < |path| && at[current] == path[..i]
    requires Look(root, at, path[..i]) == Some(Map(current))
    modifies current
    ensures IsTree(root, t) && fresh(t.Keys - at.Keys)
    ensures next in t && t[next] == path[..i + 1] && Look(root, t, path[..i + 1]) == Some(Map(next))
    ensures forall q :: Apart(path, q) ==> Look(root, t, q) == old(Look(root, at, q))
  {
    assert path[..i + 1] == path[..i] + [path[i]];
    NextValue(root, current, path[..i], path[i], at);
    if path[i] in current.fields && current.fields[path[i]].Map? {
      t, next := at, current.fields[path[i]].node;
    } else {
      hide Walk, Placed, Snap, Starts, IsTree, Look;
      t, next := CreateMap(root, current, path[i], at);
      forall q | Apart(path, q) ensures !Starts(q, path[..i + 1]) {
        NotBefore(path, i + 1, q);
      }
    }
  }

  lemma NotBefore(path: Path, n: nat, q: Path)
    requires n <= |path| && !Starts(q, path)
    ensures !Starts(q, path[..n])
  {
  }

  /** An empty map is put where there was none: paths that lead anywhere but to it or its parents show no difference. */
  method CreateMap(root: Fieldset, n: Fieldset, key: string, ghost at: Placement<Fieldset>)
    returns (ghost t: Placement<Fieldset>, next: Fieldset)
    requires IsTree(root, at) && n in at && Look(root, at, at[n]) == Some(Map(n))
    requires Look(root, at, at[n] + [key]).Some? ==> !Look(root, at, at[n] + [key]).value.Map?
    modifies n
    ensures IsTree(root, t) && fresh(t.Keys - at.Keys)
    ensures next in t && t[next] == at[n] + [key] && Look(root, t, at[n] + [key]) == Some(Map(next))
    ensures forall q :: !Starts(q, at[n] + [key]) ==> Look(root, t, q) == old(Look(root, at, q))
  {
    hide Walk, Placed, Snap, IsTree;
    ghost var h, place := Snap(at.Keys), at[n] + [key];
    next := new Fieldset();
    ghost var alone: Placement<Fieldset> := map[next := []];
    EmptyRooted(next, alone);
    t := HangUpValue(root, n, key, Map(next), at, alone);
    ShiftedRoot(alone, place, next);
    HungKeys(at, place, alone);
    hide Hung;
    assert place + [] == place;
    forall q | !Starts(q, place) ensures Walk(Snap(t.Keys), Map(root), q) == Walk(h, Map(root), q) {
      StillNothing(h, Snap(t.Keys), root, place, q);
    }
  }

  lemma StillNothing(h: Heap<Fieldset>, t: Heap<Fieldset>, root: Fieldset, place: Path, q: Path)
    requires Walk(h, Map(root), place).Some? ==> !Walk(h, Map(root), place).value.Map?
    requires forall rest :: rest != [] ==> Walk(t, Map(root), place + rest).None?
    requires !Starts(place, q) ==> Walk(t, Map(root), q) == Walk(h, Map(root), q)
    requires !Starts(q, place)
    ensures Walk(t, Map(root), q) == Walk(h, Map(root), q)
  {
    hide Walk;
    if Starts(place, q) {
      var rest := q[|place|..];
      assert q == place + rest;
      Unreachable(h, Map(root), place, rest);
    }
  }

  /** What lies one key further on is what the map holds under that key. */
  lemma NextValue(root: Fieldset, n: Fieldset, path: Path, key: string, at: Placement<Fieldset>)
    requires IsTree(root, at) && n in at && at[n] == path && Look(root, at, path) == Some(Map(n))
    ensures Look(root, at, path + [key]) == if key in n.fields then Some(n.fields[key]) else None
    ensures key in n.fields && n.fields[key].Map? ==> n.fields[key].node in at && at[n.fields[key].node] == path + [key]
  {
    var h := Snap(at.Keys);
    WalkOn(h, Map(root), path, [key]);
    if key in n.fields {
      assert h[n][key] == n.fields[key] && Sits(h[n][key], at, at[n] + [key]);
    }
  }

  lemma EmptyRooted(m: Fieldset, alone: Placement<Fieldset>)
    requires m.fields == map[] && alone == map[m := []]
    ensures Rooted(Snap(alone.Keys), alone, Map(m))
    ensures forall q :: Walk(Snap(alone.Keys), Map(m), q) == if q == [] then Some(Map(m)) else None
  {
  }

  /** Nothing lies behind a place that holds no map. */
  lemma Unreachable<N>(h: Heap<N>, v: Value<N>, p: Path, q: Path)
    requires q != [] && (Walk(h, v, p).Some? ==> !Walk(h, v, p).value.Map?)
    ensures Walk(h, v, p + q).None?
  {
    WalkOn(h, v, p, q);
  }

  // ---------------------------------------------------------------- moving a field

  /** The maps that a value of the document holds are its own: it may be hung up elsewhere. */
  lemma FromIsRooted<N>(h: Heap<N>, at: Placement<N>, root: N, path: Path, v: Value<N>)
    requires Placed(h, at) && root in at && at[root] == [] && Walk(h, Map(root), path) == Some(v)
    ensures var own := From(at, path);
            Rooted(Restrict(h, own.Keys), own, v) && forall q :: Walk(Restrict(h, own.Keys), v, q) == Walk(h, v, q)
  {
    var own := From(at, path);
    var r: Heap<N> := Restrict(h, own.Keys);
    FromPlaced(h, at, path);
    WalkArrives(h, at, Map(root), [], path);
    assert [] + path == path && path[|path|..] == [];
    SitsFrom(v, at, path, path);
    assert v.Map? ==> v.node in r;
    assert r.Keys <= h.Keys && forall m | m in r :: h[m] == r[m];
    hide Placed, From, Restrict, Walk;
    SameWalks(r, own, h, v);
  }

  /** Take the value at a path out of the document, with its own maps. */
  method TakeField(root: Fieldset, path: Path, ghost at: Placement<Fieldset>)
    returns (value: Option<Value<Fieldset>>, ghost t: Placement<Fieldset>, ghost own: Placement<Fieldset>)
    requires IsTree(root, at) && path != []
    modifies at.Keys
    ensures value == old(Look(root, at, path)) && IsTree(root, t) && t.Keys <= at.Keys && own.Keys <= at.Keys
    ensures value.None? ==> t == at && Snap(at.Keys) == old(Snap(at.Keys))
    ensures value.Some? ==> Rooted(Snap(own.Keys), own, value.value) && t.Keys !! own.Keys
    ensures value.Some? ==> forall q :: Walk(Snap(own.Keys), value.value, q) == old(Look(root, at, path + q))
    ensures value.Some? ==> forall q :: Look(root, t, q) == if Starts(path, q) then None else old(Look(root, at, q))
  {
    t, own := at, map[];
    ghost var h := Snap(at.Keys);
    hide Walk, Placed, Rooted, From, Without, Restrict;
    value := GetNestedValue(root, path, at);
    if value.Some? {
      own := From(at, path);
      FromIsRooted(h, at, root, path, value.value);
      forall q {
        WalkOn(h, Map(root), path, q);
      }
      t := DeleteNestedValue(root, path, at);
      SnapOfOwn(h, Snap(at.Keys), at, path);
      TakenApart(at, path);
      SnapRestricted(at.Keys, own.Keys);
    }
  }

  lemma SnapOfOwn(h: Heap<Fieldset>, t: Heap<Fieldset>, at: Placement<Fieldset>, path: Path)
    requires h.Keys == t.Keys == at.Keys && forall n | n in at && Starts(path, at[n]) :: t[n] == h[n]
    ensures From(at, path).Keys <= at.Keys && Restrict(h, From(at, path).Keys) == Restrict(t, From(at, path).Keys)
  {
  }

  lemma TakenApart<N>(at: Placement<N>, path: Path)
    ensures Without(at, path).Keys !! From(at, path).Keys
  {
  }

  /**
   * The value that was at the source is at the target, with everything in it; the source is gone,
   * unless one of the two paths leads on from the other; what lies apart from both is as it was.
   */
  ghost predicate Moved<N>(h: Heap<N>, root: N, source: Path, target: Path, t: Heap<N>) {
    && (forall q :: Walk(t, Map(root), target + q) == Walk(h, Map(root), source + q))
    && (Apart(target, source) ==> Walk(t, Map(root), source).None?)
    && forall q :: Apart(target, q) && !Starts(source, q) ==> Walk(t, Map(root), q) == Walk(h, Map(root), q)
  }

  lemma MovedInTwo(h: Heap<Fieldset>, m: Heap<Fieldset>, t: Heap<Fieldset>, root: Fieldset, source: Path, target: Path,
                   own: Heap<Fieldset>, v: Value<Fieldset>)
    requires forall q :: Walk(own, v, q) == Walk(h, Map(root), source + q)
    requires forall q :: Walk(m, Map(root), q) == if Starts(source, q) then None else Walk(h, Map(root), q)
    requires Stored(m, root, target, own, v, t)
    ensures Moved(h, root, source, target, t)
  {
    hide Walk;
  }

  /** A rename or move of a field. */
  method MoveField(root: Fieldset, source: Path, target: Path, ghost at: Placement<Fieldset>)
    returns (found: bool, ghost t: Placement<Fieldset>)
    requires IsTree(root, at) && source != [] && target != []
    modifies at.Keys
    ensures IsTree(root, t) && fresh(t.Keys - at.Keys) && found == old(Look(root, at, source)).Some?
    ensures if found then Moved(old(Snap(at.Keys)), root, source, target, Snap(t.Keys))
            else t == at && Snap(at.Keys) == old(Snap(at.Keys))
  {
    hide Walk, Placed, Snap, Rooted, IsTree, Stored, Moved;
    var value;
    ghost var own;
    ghost var h := Snap(at.Keys);
    value, t, own := TakeField(root, source, at);
    found := value.Some?;
    if found {
      ghost var m, ownHeap := Snap(t.Keys), Snap(own.Keys);
      t := SetNestedValue(root, target, value.value, t, own);
      MovedInTwo(h, m, Snap(t.Keys), root, source, target, ownHeap, value.value);
    }
  }
}
