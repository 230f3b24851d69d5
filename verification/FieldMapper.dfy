/**
 * The field mapper: documents are copied whole before fields are renamed, moved or copied, and
 * field rules exclude fields and fill in what is missing. Built on the paths of NestedPaths.dfy.
 */
module FieldMapping {
  import opened Wrappers
  import opened NestedPaths

  // ---------------------------------------------------------------- copying

  /** To this depth the two values hold the same, through maps and lists, whichever maps they are. */
  ghost predicate AlikeTo(depth: nat, h: Heap<Fieldset>, v: Value<Fieldset>, t: Heap<Fieldset>, w: Value<Fieldset>) {
    depth > 0 ==>
      match v
      case Map(m) =>
        && w.Map? && m in h && w.node in t && h[m].Keys == t[w.node].Keys
        && forall k | k in h[m] :: AlikeTo(depth - 1, h, h[m][k], t, t[w.node][k])
      case List(items) =>
        w.List? && |w.items| == |items| && forall i | 0 <= i < |items| :: AlikeTo(depth - 1, h, items[i], t, w.items[i])
      case _ => w == v
  }

  /** The two values hold the same all the way down. */
  ghost predicate Copied(h: Heap<Fieldset>, v: Value<Fieldset>, t: Heap<Fieldset>, w: Value<Fieldset>) {
    forall depth: nat :: AlikeTo(depth, h, v, t, w)
  }

  lemma CopiedMap(h: Heap<Fieldset>, m: Fieldset, t: Heap<Fieldset>, w: Fieldset)
    requires m in h && w in t && h[m].Keys == t[w].Keys && forall k | k in h[m] :: Copied(h, h[m][k], t, t[w][k])
    ensures Copied(h, Map(m), t, Map(w))
  {
    forall depth: nat ensures AlikeTo(depth, h, Map(m), t, Map(w)) {
      if depth > 0 {
        forall k | k in h[m] ensures AlikeTo(depth - 1, h, h[m][k], t, t[w][k]) {
          assert Copied(h, h[m][k], t, t[w][k]);
        }
      }
    }
  }

  lemma CopiedList(h: Heap<Fieldset>, items: seq<Value<Fieldset>>, t: Heap<Fieldset>, copies: seq<Value<Fieldset>>)
    requires |items| == |copies| && forall i | 0 <= i < |items| :: Copied(h, items[i], t, copies[i])
    ensures Copied(h, List(items), t, List(copies))
  {
    forall depth: nat ensures AlikeTo(depth, h, List(items), t, List(copies)) {
      if depth > 0 {
        forall i | 0 <= i < |items| ensures AlikeTo(depth - 1, h, items[i], t, copies[i]) {
          assert Copied(h, items[i], t, copies[i]);
        }
      }
    }
  }

  lemma {:induction false} AlikeStill(depth: nat, h: Heap<Fieldset>, v: Value<Fieldset>, t: Heap<Fieldset>, t': Heap<Fieldset>, w: Value<Fieldset>)
    requires AlikeTo(depth, h, v, t, w) && forall m | m in t :: m in t' && t'[m] == t[m]
    ensures AlikeTo(depth, h, v, t', w)
    decreases depth
  {
    if depth > 0 {
      if v.Map? {
        forall k | k in h[v.node] ensures AlikeTo(depth - 1, h, h[v.node][k], t', t'[w.node][k]) {
          AlikeStill(depth - 1, h, h[v.node][k], t, t', t[w.node][k]);
        }
      } else if v.List? {
        forall i | 0 <= i < |v.items| ensures AlikeTo(depth - 1, h, v.items[i], t', w.items[i]) {
          AlikeStill(depth - 1, h, v.items[i], t, t', w.items[i]);
        }
      }
    }
  }

  /** A copy stays one when other maps come in beside it. */
  lemma CopiedStill(h: Heap<Fieldset>, v: Value<Fieldset>, t: Heap<Fieldset>, t': Heap<Fieldset>, w: Value<Fieldset>)
    requires Copied(h, v, t, w) && forall m | m in t :: m in t' && t'[m] == t[m]
    ensures Copied(h, v, t', w)
  {
    forall depth: nat ensures AlikeTo(depth, h, v, t', w) {
      AlikeStill(depth, h, v, t, t', w);
    }
  }

  lemma CopiedChild(h: Heap<Fieldset>, v: Value<Fieldset>, t: Heap<Fieldset>, w: Value<Fieldset>, key: string)
    requires Copied(h, v, t, w) && v.Map?
    ensures w.Map? && v.node in h && w.node in t && (key in h[v.node] <==> key in t[w.node])
    ensures key in h[v.node] ==> Copied(h, h[v.node][key], t, t[w.node][key])
  {
    assert AlikeTo(1, h, v, t, w);
    if key in h[v.node] {
      forall depth: nat ensures AlikeTo(depth, h, h[v.node][key], t, t[w.node][key]) {
        assert AlikeTo(depth + 1, h, v, t, w);
      }
    }
  }

  /** Every path leads somewhere in the copy exactly when it does in the original, and to a copy of what is there. */
  lemma {:induction false} CopiedAtPath(h: Heap<Fieldset>, v: Value<Fieldset>, t: Heap<Fieldset>, w: Value<Fieldset>, q: Path)
    requires Copied(h, v, t, w)
    ensures Walk(h, v, q).Some? <==> Walk(t, w, q).Some?
    ensures Walk(h, v, q).Some? ==> Copied(h, Walk(h, v, q).value, t, Walk(t, w, q).value)
    decreases |q|
  {
    if q != [] {
      assert AlikeTo(1, h, v, t, w);
      if v.Map? {
        CopiedChild(h, v, t, w, q[0]);
        hide Copied, AlikeTo;
        if q[0] in h[v.node] {
          CopiedAtPath(h, h[v.node][q[0]], t, t[w.node][q[0]], q[1..]);
        }
      }
    }
  }

  /** The maps that are placed at a path or behind it. */
  ghost function Behind(at: Placement<Fieldset>, path: Path): set<Fieldset> {
    set n | n in at && Starts(path, at[n])
  }

  lemma NotMoreBehind(at: Placement<Fieldset>, path: Path, key: string)
    ensures Behind(at, path + [key]) <= Behind(at, path) && |Behind(at, path + [key])| <= |Behind(at, path)|
  {
    var here, behind := Behind(at, path), Behind(at, path + [key]);
    forall m | m in behind ensures m in here {
      assert at[m][..|path|] == (path + [key])[..|path|] == path;
    }
    assert here == behind + (here - behind);
  }

  lemma FewerBehind(at: Placement<Fieldset>, n: Fieldset, path: Path, key: string)
    requires n in at && at[n] == path
    ensures |Behind(at, path + [key])| < |Behind(at, path)|
  {
    NotMoreBehind(at, path, key);
    ProperSubset(Behind(at, path + [key]), Behind(at, path), n);
  }

  lemma ProperSubset<T>(a: set<T>, b: set<T>, x: T)
    requires a <= b && x in b && x !in a
    ensures |a| < |b|
  {
    assert b == a + (b - a);
    assert |b - a| > 0;
  }

  /** deepCopy: new maps throughout, those in lists included, that hold the same all the way down. */
  method DeepCopy(v: Value<Fieldset>, ghost at: Placement<Fieldset>, ghost place: Path)
    returns (copy: Value<Fieldset>, ghost t: Placement<Fieldset>)
    requires Placed(Snap(at.Keys), at) && Sits(v, at, place)
    ensures Rooted(Snap(t.Keys), t, copy) && fresh(t.Keys)
    ensures Copied(Snap(at.Keys), v, Snap(t.Keys), copy)
    decreases |Behind(at, place)|, v, 4
  {
    match v {
      case Map(m) =>
        var result;
        result, t := CopyFields(m, at, place);
        copy := Map(result);
      case List(items) =>
        var copies;
        copies, t := CopyItems(items, at, place);
        copy := List(copies);
        CopiedList(Snap(at.Keys), items, Snap(t.Keys), copies);
      case _ =>
        copy, t := v, map[];
        ScalarCopied(Snap(at.Keys), v);
    }
  }

  lemma ScalarCopied(h: Heap<Fieldset>, v: Value<Fieldset>)
    requires !v.Map? && !v.List?
    ensures Rooted(Snap({}), map[], v) && Copied(h, v, Snap({}), v)
  {
  }

  // ---------------------------------------------------------------- copying the items of a list

  /** The maps are placed in the first `n` items of a list. */
  ghost predicate InItems(at: Placement<Fieldset>, n: nat) {
    forall m | m in at :: at[m] != [] && |at[m][0]| < n
  }

  /** These are copies of the first items, with maps of their own placed in the items. */
  ghost predicate ItemsCopied(h: Heap<Fieldset>, items: seq<Value<Fieldset>>, t: Heap<Fieldset>, at: Placement<Fieldset>, copies: seq<Value<Fieldset>>) {
    && |copies| <= |items| && Placed(t, at) && InItems(at, |copies|)
    && forall i | 0 <= i < |copies| :: Sits(copies[i], at, [Nth(i)]) && Copied(h, items[i], t, copies[i])
  }

  lemma UnionPlaced(h: Heap<Fieldset>, at: Placement<Fieldset>, own: Heap<Fieldset>, ownAt: Placement<Fieldset>)
    requires Placed(h, at) && Placed(own, ownAt) && h.Keys !! own.Keys
    requires forall m, n | m in at && n in ownAt :: at[m] != ownAt[n]
    ensures Placed(h + own, at + ownAt)
  {
    var t, s := h + own, at + ownAt;
    forall n, k | n in t && k in t[n] ensures Sits(t[n][k], s, s[n] + [k]) {
      if n in own {
        SitsIn(own[n][k], ownAt, s, ownAt[n] + [k]);
      } else {
        SitsIn(h[n][k], at, s, at[n] + [k]);
      }
    }
  }

  lemma NextItemPlaced(t: Heap<Fieldset>, at: Placement<Fieldset>, n: nat, own: Heap<Fieldset>, ownAt: Placement<Fieldset>)
    requires Placed(t, at) && InItems(at, n) && Placed(own, ownAt) && t.Keys !! own.Keys
    ensures Placed(t + own, at + Shifted(ownAt, [Nth(n)])) && InItems(at + Shifted(ownAt, [Nth(n)]), n + 1)
  {
    ShiftedPlaced(own, ownAt, [Nth(n)]);
    var s := Shifted(ownAt, [Nth(n)]);
    assert forall m | m in s :: s[m] != [] && s[m][0] == Nth(n) && |Nth(n)| == n;
    hide Placed, Shifted, Nth;
    UnionPlaced(t, at, own, s);
  }

  lemma NextItemCopied(h: Heap<Fieldset>, items: seq<Value<Fieldset>>, t: Heap<Fieldset>, at: Placement<Fieldset>, copies: seq<Value<Fieldset>>,
                       own: Heap<Fieldset>, ownAt: Placement<Fieldset>, copy: Value<Fieldset>)
    requires ItemsCopied(h, items, t, at, copies) && |copies| < |items| && t.Keys !! own.Keys
    requires Rooted(own, ownAt, copy) && Copied(h, items[|copies|], own, copy)
    ensures ItemsCopied(h, items, t + own, at + Shifted(ownAt, [Nth(|copies|)]), copies + [copy])
  {
    var n := |copies|;
    var t', at' := t + own, at + Shifted(ownAt, [Nth(n)]);
    NextItemPlaced(t, at, n, own, ownAt);
    BesideSits(at, own, ownAt, [Nth(n)], copy);
    assert t.Keys == at.Keys && own.Keys == ownAt.Keys;
    hide Placed, Sits, Copied, InItems, Nth, Rooted;
    CopiedStill(h, items[n], own, t', copy);
    ShiftedKeys(ownAt, [Nth(n)]);
    hide Shifted;
    forall i | 0 <= i < n ensures Sits(copies[i], at', [Nth(i)]) && Copied(h, items[i], t', copies[i]) {
      SitsIn(copies[i], at, at', [Nth(i)]);
      CopiedStill(h, items[i], t, t', copies[i]);
    }
  }

  /** A copy that is hung up beside others sits there. */
  lemma BesideSits(at: Placement<Fieldset>, own: Heap<Fieldset>, ownAt: Placement<Fieldset>, under: Path, copy: Value<Fieldset>)
    requires Rooted(own, ownAt, copy)
    ensures Sits(copy, at + Shifted(ownAt, under), under)
  {
    SitsShifted(copy, ownAt, [], under);
    assert under + [] == under;
    hide Sits, Rooted;
    SitsIn(copy, Shifted(ownAt, under), at + Shifted(ownAt, under), under);
  }

  lemma SnapUnion(a: set<Fieldset>, b: set<Fieldset>)
    ensures Snap(a + b) == Snap(a) + Snap(b)
  {
  }

  lemma NextItem(h: Heap<Fieldset>, items: seq<Value<Fieldset>>, t: Placement<Fieldset>, copies: seq<Value<Fieldset>>,
                 own: Placement<Fieldset>, copy: Value<Fieldset>)
    requires ItemsCopied(h, items, Snap(t.Keys), t, copies) && |copies| < |items| && t.Keys !! own.Keys
    requires Rooted(Snap(own.Keys), own, copy) && Copied(h, items[|copies|], Snap(own.Keys), copy)
    ensures var t' := t + Shifted(own, [Nth(|copies|)]);
            t'.Keys == t.Keys + own.Keys && ItemsCopied(h, items, Snap(t'.Keys), t', copies + [copy])
  {
    hide Rooted, Copied, ItemsCopied, Nth;
    SnapUnion(t.Keys, own.Keys);
    ShiftedKeys(own, [Nth(|copies|)]);
    hide Snap, Shifted;
    NextItemCopied(h, items, Snap(t.Keys), t, copies, Snap(own.Keys), own, copy);
  }

  lemma NoItemCopied(h: Heap<Fieldset>, items: seq<Value<Fieldset>>)
    ensures ItemsCopied(h, items, Snap({}), map[], [])
  {
  }

  lemma ItemsRooted(h: Heap<Fieldset>, items: seq<Value<Fieldset>>, t: Heap<Fieldset>, at: Placement<Fieldset>, copies: seq<Value<Fieldset>>)
    requires ItemsCopied(h, items, t, at, copies)
    ensures Rooted(t, at, List(copies)) && forall i | 0 <= i < |copies| :: Copied(h, items[i], t, copies[i])
  {
    hide Copied, Placed;
    forall i | 0 <= i < |copies| ensures Sits(copies[i], at, [] + [Nth(i)]) {
      assert [] + [Nth(i)] == [Nth(i)];
    }
  }

  method CopyItems(items: seq<Value<Fieldset>>, ghost at: Placement<Fieldset>, ghost place: Path)
    returns (copies: seq<Value<Fieldset>>, ghost t: Placement<Fieldset>)
    requires Placed(Snap(at.Keys), at) && Sits(List(items), at, place)
    ensures |copies| == |items| && Rooted(Snap(t.Keys), t, List(copies)) && fresh(t.Keys)
    ensures forall i | 0 <= i < |items| :: Copied(Snap(at.Keys), items[i], Snap(t.Keys), copies[i])
    decreases |Behind(at, place)|, List(items), 1
  {
    ghost var h := Snap(at.Keys);
    assert forall i | 0 <= i < |items| :: Sits(items[i], at, place + [Nth(i)]);
    copies, t := [], map[];
    NoItemCopied(h, items);
    hide Placed, Sits, Rooted, Copied, ItemsCopied, Snap, Shifted, Behind, Nth;
    for i := 0 to |items|
      invariant |copies| == i && fresh(t.Keys) && ItemsCopied(h, items, Snap(t.Keys), t, copies)
    {
      copies, t := CopyItem(items, copies, at, place, t);
    }
    ItemsRooted(h, items, Snap(t.Keys), t, copies);
  }

  method CopyItem(items: seq<Value<Fieldset>>, sofar: seq<Value<Fieldset>>, ghost at: Placement<Fieldset>, ghost place: Path, ghost before: Placement<Fieldset>)
    returns (copies: seq<Value<Fieldset>>, ghost t: Placement<Fieldset>)
    requires Placed(Snap(at.Keys), at) && |sofar| < |items| && Sits(items[|sofar|], at, place + [Nth(|sofar|)])
    requires ItemsCopied(Snap(at.Keys), items, Snap(before.Keys), before, sofar)
    ensures |copies| == |sofar| + 1 && fresh(t.Keys - before.Keys)
    ensures ItemsCopied(Snap(at.Keys), items, Snap(t.Keys), t, copies)
    decreases |Behind(at, place)|, List(items), 0
  {
    var n := |sofar|;
    NotMoreBehind(at, place, Nth(n));
    hide Placed, Sits, Rooted, Copied, ItemsCopied, Snap, Shifted, Behind, Nth;
    var copy;
    ghost var own;
    copy, own := DeepCopy(items[n], at, place + [Nth(n)]);
    NextItem(Snap(at.Keys), items, before, sofar, own, copy);
    copies, t := sofar + [copy], before + Shifted(own, [Nth(n)]);
  }

  lemma ShiftedKeys(at: Placement<Fieldset>, under: Path)
    ensures Shifted(at, under).Keys == at.Keys
  {
  }

  // ---------------------------------------------------------------- copying the fields of a map

  /** The maps are placed behind these keys. */
  ghost predicate BehindKeys(at: Placement<Fieldset>, keys: set<string>) {
    forall n | n in at :: at[n] != [] && at[n][0] in keys
  }

  /** These are copies of some fields of a map, with maps of their own placed behind their keys. */
  ghost predicate FieldsCopied(h: Heap<Fieldset>, m: Fieldset, t: Heap<Fieldset>, at: Placement<Fieldset>, copies: Fields<Fieldset>) {
    && m in h && copies.Keys <= h[m].Keys && Placed(t, at) && BehindKeys(at, copies.Keys)
    && forall key | key in copies :: Sits(copies[key], at, [key]) && Copied(h, h[m][key], t, copies[key])
  }

  lemma NoFieldCopied(h: Heap<Fieldset>, m: Fieldset)
    requires m in h
    ensures FieldsCopied(h, m, Snap({}), map[], map[])
  {
  }

  lemma NextFieldPlaced(t: Heap<Fieldset>, at: Placement<Fieldset>, keys: set<string>, key: string, own: Heap<Fieldset>, ownAt: Placement<Fieldset>)
    requires Placed(t, at) && BehindKeys(at, keys) && key !in keys && Placed(own, ownAt) && t.Keys !! own.Keys
    ensures Placed(t + own, at + Shifted(ownAt, [key])) && BehindKeys(at + Shifted(ownAt, [key]), keys + {key})
  {
    ShiftedPlaced(own, ownAt, [key]);
    var s := Shifted(ownAt, [key]);
    assert forall m | m in s :: s[m] != [] && s[m][0] == key;
    hide Placed, Shifted;
    UnionPlaced(t, at, own, s);
  }

  lemma NextFieldCopied(h: Heap<Fieldset>, m: Fieldset, t: Heap<Fieldset>, at: Placement<Fieldset>, copies: Fields<Fieldset>,
                        key: string, own: Heap<Fieldset>, ownAt: Placement<Fieldset>, copy: Value<Fieldset>)
    requires FieldsCopied(h, m, t, at, copies) && key in h[m] && key !in copies && t.Keys !! own.Keys
    requires Rooted(own, ownAt, copy) && Copied(h, h[m][key], own, copy)
    ensures FieldsCopied(h, m, t + own, at + Shifted(ownAt, [key]), copies[key := copy])
  {
    var t', at' := t + own, at + Shifted(ownAt, [key]);
    NextFieldPlaced(t, at, copies.Keys, key, own, ownAt);
    BesideSits(at, own, ownAt, [key], copy);
    assert copies[key := copy].Keys == copies.Keys + {key} && t.Keys == at.Keys && own.Keys == ownAt.Keys;
    hide Placed, Sits, Copied, BehindKeys, Rooted;
    ShiftedKeys(ownAt, [key]);
    hide Shifted;
    CopiedStill(h, h[m][key], own, t', copy);
    forall other | other in copies ensures Sits(copies[other], at', [other]) && Copied(h, h[m][other], t', copies[other]) {
      SitsIn(copies[other], at, at', [other]);
      CopiedStill(h, h[m][other], t, t', copies[other]);
    }
  }

  lemma NextField(h: Heap<Fieldset>, m: Fieldset, t: Placement<Fieldset>, copies: Fields<Fieldset>,
                  key: string, own: Placement<Fieldset>, copy: Value<Fieldset>)
    requires FieldsCopied(h, m, Snap(t.Keys), t, copies) && m in h && key in h[m] && key !in copies && t.Keys !! own.Keys
    requires Rooted(Snap(own.Keys), own, copy) && Copied(h, h[m][key], Snap(own.Keys), copy)
    ensures var t' := t + Shifted(own, [key]);
            t'.Keys == t.Keys + own.Keys && FieldsCopied(h, m, Snap(t'.Keys), t', copies[key := copy])
    ensures copies[key := copy].Keys == copies.Keys + {key}
  {
    hide Rooted, Copied, FieldsCopied;
    SnapUnion(t.Keys, own.Keys);
    ShiftedKeys(own, [key]);
    hide Snap, Shifted;
    NextFieldCopied(h, m, Snap(t.Keys), t, copies, key, Snap(own.Keys), own, copy);
  }

  /** When every field has been copied, a new map that holds the copies is a copy of the map. */
  lemma AllFieldsCopied(h: Heap<Fieldset>, m: Fieldset, t: Heap<Fieldset>, at: Placement<Fieldset>, copies: Fields<Fieldset>,
                        result: Fieldset, whole: Heap<Fieldset>)
    requires FieldsCopied(h, m, t, at, copies) && copies.Keys == h[m].Keys && result !in at && whole == t[result := copies]
    ensures Placed(whole, at[result := []]) && Copied(h, Map(m), whole, Map(result))
  {
    WholePlaced(t, at, copies, result, whole);
    hide Placed, Copied, BehindKeys, Sits;
    forall k | k in h[m] ensures Copied(h, h[m][k], whole, whole[result][k]) {
      CopiedStill(h, h[m][k], t, whole, copies[k]);
    }
    CopiedMap(h, m, whole, result);
  }

  lemma WholePlaced(t: Heap<Fieldset>, at: Placement<Fieldset>, copies: Fields<Fieldset>, result: Fieldset, whole: Heap<Fieldset>)
    requires Placed(t, at) && BehindKeys(at, copies.Keys) && result !in at && whole == t[result := copies]
    requires forall key | key in copies :: Sits(copies[key], at, [key])
    ensures Placed(whole, at[result := []]) && result !in t
  {
    var s := at[result := []];
    forall n, k | n in whole && k in whole[n] ensures Sits(whole[n][k], s, s[n] + [k]) {
      if n == result {
        assert [] + [k] == [k];
        SitsIn(copies[k], at, s, [k]);
      } else {
        SitsIn(t[n][k], at, s, at[n] + [k]);
      }
    }
  }

  method CopyFields(m: Fieldset, ghost at: Placement<Fieldset>, ghost place: Path)
    returns (result: Fieldset, ghost t: Placement<Fieldset>)
    requires Placed(Snap(at.Keys), at) && m in at && at[m] == place
    ensures IsTree(result, t) && Rooted(Snap(t.Keys), t, Map(result)) && fresh(t.Keys)
    ensures Copied(Snap(at.Keys), Map(m), Snap(t.Keys), Map(result))
    decreases |Behind(at, place)|, Map(m), 3
  {
    ghost var h := Snap(at.Keys);
    var copies;
    copies, t := CopyEachField(m, at, place);
    ghost var part := Snap(t.Keys);
    result := new Fieldset();
    result.fields := copies;
    hide Placed, Copied, FieldsCopied;
    SnapWith(t.Keys, part, result, copies);
    AllFieldsCopied(h, m, part, t, copies, result, Snap(t.Keys + {result}));
    assert t[result := []].Keys == t.Keys + {result};
    t := t[result := []];
  }

  lemma SnapWith(maps: set<Fieldset>, part: Heap<Fieldset>, result: Fieldset, fields: Fields<Fieldset>)
    requires part == Snap(maps) && result !in maps && result.fields == fields
    ensures Snap(maps + {result}) == part[result := fields]
  {
  }

  lemma KeysApart(keys: set<string>, left: set<string>, key: string)
    requires left <= keys && key in left
    ensures keys - (left - {key}) == (keys - left) + {key} && key !in keys - left
  {
  }

  method CopyField(m: Fieldset, key: string, sofar: Fields<Fieldset>, ghost at: Placement<Fieldset>, ghost place: Path, ghost before: Placement<Fieldset>)
    returns (copies: Fields<Fieldset>, ghost t: Placement<Fieldset>)
    requires Placed(Snap(at.Keys), at) && m in at && at[m] == place && key in m.fields && key !in sofar
    requires FieldsCopied(Snap(at.Keys), m, Snap(before.Keys), before, sofar)
    ensures copies.Keys == sofar.Keys + {key} && fresh(t.Keys - before.Keys)
    ensures FieldsCopied(Snap(at.Keys), m, Snap(t.Keys), t, copies)
    decreases |Behind(at, place)|, Map(m), 1
  {
    FewerBehind(at, m, place, key);
    assert Snap(at.Keys)[m] == m.fields && Sits(Snap(at.Keys)[m][key], at, place + [key]);
    hide Placed, Sits, Rooted, Copied, FieldsCopied, Snap, Shifted, Behind;
    var copy;
    ghost var own;
    copy, own := DeepCopy(m.fields[key], at, place + [key]);
    NextField(Snap(at.Keys), m, before, sofar, key, own, copy);
    copies, t := sofar[key := copy], before + Shifted(own, [key]);
  }

  /** The copies are put into the new map's fields one after the other, in any order. */
  method CopyEachField(m: Fieldset, ghost at: Placement<Fieldset>, ghost place: Path)
    returns (copies: Fields<Fieldset>, ghost t: Placement<Fieldset>)
    requires Placed(Snap(at.Keys), at) && m in at && at[m] == place
    ensures fresh(t.Keys) && copies.Keys == m.fields.Keys && FieldsCopied(Snap(at.Keys), m, Snap(t.Keys), t, copies)
    decreases |Behind(at, place)|, Map(m), 2
  {
    ghost var h := Snap(at.Keys);
    copies, t := map[], map[];
    var left := m.fields.Keys;
    ghost var keys := left;
    assert h[m] == m.fields && forall key | key in h[m] :: Sits(h[m][key], at, place + [key]);
    NoFieldCopied(h, m);
    hide Placed, Sits, Rooted, Copied, FieldsCopied, Snap, Shifted, Behind;
    while left != {}
      invariant m.fields.Keys == keys && left <= keys && copies.Keys == keys - left
      invariant fresh(t.Keys) && Snap(at.Keys) == h
      invariant FieldsCopied(h, m, Snap(t.Keys), t, copies)
      decreases |left|
    {
      var key :| key in left;
      KeysApart(keys, left, key);
      copies, t := CopyField(m, key, copies, at, place, t);
      left := left - {key};
    }
  }

  // ---------------------------------------------------------------- mappings

  datatype Action = Rename | Move | Copy | Unknown

  /** An empty path names no field. */
  datatype Mapping = Mapping(source: Path, target: Path, action: Action)

  ghost function ValueAt(h: Heap<Fieldset>, root: Fieldset, path: Path): Option<Value<Fieldset>> {
    if path == [] then None else Walk(h, Map(root), path)
  }

  ghost predicate Unchanged(h: Heap<Fieldset>, root: Fieldset, t: Heap<Fieldset>) {
    forall q :: Walk(t, Map(root), q) == Walk(h, Map(root), q)
  }

  /** The field at the path is gone with all that lay behind it, and nothing else. */
  ghost predicate Removed(h: Heap<Fieldset>, root: Fieldset, path: Path, t: Heap<Fieldset>) {
    forall q :: Walk(t, Map(root), q) == if path != [] && Starts(path, q) then None else Walk(h, Map(root), q)
  }

  /** What one mapping does: nothing without a value; a rename or move without a target removes the field. */
  ghost predicate Mapped(h: Heap<Fieldset>, root: Fieldset, m: Mapping, t: Heap<Fieldset>) {
    var v := ValueAt(h, root, m.source);
    if v.None? then Unchanged(h, root, t)
    else if m.action == Copy then
      if m.target == [] then Unchanged(h, root, t) else Stored(h, root, m.target, map[], v.value, t)
    else if m.target == [] then Removed(h, root, m.source, t)
    else Moved(h, root, m.source, m.target, t)
  }

  /** How a list of mappings ends: an unknown action is an error, and copying a map makes two fields share it. */
  datatype Outcome = Done | UnknownAction | SharesMap

  /** The value is a map, or a list with one somewhere inside. */
  predicate HoldsMap(v: Value<Fieldset>)
    decreases v
  {
    v.Map? || (v.List? && exists i | 0 <= i < |v.items| :: HoldsMap(v.items[i]))
  }

  /** What stands in the way of a mapping that finds this value. */
  function Obstacle(v: Option<Value<Fieldset>>, action: Action): Outcome {
    if v.None? then Done
    else if action == Unknown then UnknownAction
    else if action == Copy && HoldsMap(v.value) then SharesMap
    else Done
  }

  ghost predicate MayMap(h: Heap<Fieldset>, root: Fieldset, m: Mapping) {
    Obstacle(ValueAt(h, root, m.source), m.action) == Done
  }

  /** One mapping, on a tree that stays one. */
  method ApplyMapping(root: Fieldset, m: Mapping, ghost at: Placement<Fieldset>) returns (ghost t: Placement<Fieldset>)
    requires IsTree(root, at) && MayMap(Snap(at.Keys), root, m)
    modifies at.Keys
    ensures IsTree(root, t) && fresh(t.Keys - at.Keys)
    ensures Mapped(old(Snap(at.Keys)), root, m, Snap(t.Keys))
  {
    t := at;
    var value := GetNestedValue(root, m.source, at);
    if value.Some? {
      if m.action == Copy {
        if |m.target| > 0 {
          NoMapsOfItsOwn(value.value);
          hide Walk, Placed, Snap, IsTree, Rooted, Stored;
          t := SetNestedValue(root, m.target, value.value, t, map[]);
        }
      } else if |m.target| > 0 {
        hide Walk, Placed, Snap, IsTree, Moved;
        var found;
        found, t := MoveField(root, m.source, m.target, t);
      } else {
        hide Walk, Placed, Snap, IsTree;
        var taken;
        ghost var own;
        taken, t, own := TakeField(root, m.source, t);
      }
    }
  }

  lemma NoMapsOfItsOwn(v: Value<Fieldset>)
    requires !HoldsMap(v)
    ensures Snap({}) == map[] && Rooted(Snap({}), map[], v)
  {
    SitsAnywhere(v, []);
  }

  lemma {:induction false} SitsAnywhere(v: Value<Fieldset>, place: Path)
    requires !HoldsMap(v)
    ensures Sits(v, map[], place)
    decreases v
  {
    if v.List? {
      forall i | 0 <= i < |v.items| ensures Sits(v.items[i], map[], place + [Nth(i)]) {
        SitsAnywhere(v.items[i], place + [Nth(i)]);
      }
    }
  }

  /** The states of the result: a copy of the document, and after each mapping what that made of the state before. */
  ghost predicate MappedAll(h: Heap<Fieldset>, data: Fieldset, result: Fieldset, mappings: seq<Mapping>, trail: seq<Heap<Fieldset>>) {
    && 1 <= |trail| <= |mappings| + 1
    && Copied(h, Map(data), trail[0], Map(result))
    && forall i | 0 <= i < |trail| - 1 :: MayMap(trail[i], result, mappings[i]) && Mapped(trail[i], result, mappings[i], trail[i + 1])
  }

  /** The list ended as it did because of the first mapping that nothing has been done about, if there is one. */
  ghost predicate EndedBy(result: Fieldset, mappings: seq<Mapping>, trail: seq<Heap<Fieldset>>, outcome: Outcome) {
    var n := |trail| - 1;
    0 <= n <= |mappings| &&
    if n == |mappings| then outcome == Done
    else outcome != Done && outcome == Obstacle(ValueAt(trail[n], result, mappings[n].source), mappings[n].action)
  }

  /**
   * The mappings, applied to a copy that shares no map with the document: all the maps of the
   * result, those in lists included, are new, and the document is not changed. Without mappings
   * the document itself comes back. The model ends at a copy of a map or of a list with maps,
   * where the source goes on with a map in two places.
   */
  method Apply(data: Fieldset, mappings: seq<Mapping>, ghost at: Placement<Fieldset>)
    returns (outcome: Outcome, result: Fieldset, ghost t: Placement<Fieldset>, ghost trail: seq<Heap<Fieldset>>)
    requires IsTree(data, at)
    ensures IsTree(result, t)
    ensures if mappings == [] then outcome == Done && result == data && t == at
            else && fresh(t.Keys) && MappedAll(Snap(at.Keys), data, result, mappings, trail)
                 && EndedBy(result, mappings, trail, outcome) && Snap(t.Keys) == trail[|trail| - 1]
  {
    if |mappings| == 0 {
      outcome, result, t, trail := Done, data, at, [];
      return;
    }
    ghost var h := Snap(at.Keys);
    result, t := CopyFields(data, at, []);
    hide Walk, Placed, Snap, IsTree, Mapped, Copied, EndedBy;
    outcome, t, trail := ApplyInPlace(result, mappings, t);
    assert MappedAll(h, data, result, mappings, trail);
  }

  method ApplyInPlace(root: Fieldset, mappings: seq<Mapping>, ghost at: Placement<Fieldset>)
    returns (outcome: Outcome, ghost t: Placement<Fieldset>, ghost trail: seq<Heap<Fieldset>>)
    requires IsTree(root, at)
    modifies at.Keys
    ensures IsTree(root, t) && fresh(t.Keys - at.Keys) && EndedBy(root, mappings, trail, outcome)
    ensures 1 <= |trail| <= |mappings| + 1 && trail[0] == old(Snap(at.Keys)) && Snap(t.Keys) == trail[|trail| - 1]
    ensures forall i | 0 <= i < |trail| - 1 :: MayMap(trail[i], root, mappings[i]) && Mapped(trail[i], root, mappings[i], trail[i + 1])
  {
    t, trail := at, [Snap(at.Keys)];
    hide Walk, Placed, Snap, IsTree, Mapped, ValueAt;
    for i := 0 to |mappings|
      invariant IsTree(root, t) && fresh(t.Keys - at.Keys) && |trail| == i + 1 && trail[i] == Snap(t.Keys)
      invariant trail[0] == old(Snap(at.Keys))
      invariant forall k | 0 <= k < i :: MayMap(trail[k], root, mappings[k]) && Mapped(trail[k], root, mappings[k], trail[k + 1])
    {
      outcome := CheckMapping(root, mappings[i], t);
      if outcome != Done {
        return;
      }
      t := ApplyMapping(root, mappings[i], t);
      trail := trail + [Snap(t.Keys)];
    }
    outcome := Done;
  }

  method CheckMapping(root: Fieldset, m: Mapping, ghost at: Placement<Fieldset>) returns (outcome: Outcome)
    requires IsTree(root, at)
    ensures outcome == Obstacle(ValueAt(Snap(at.Keys), root, m.source), m.action)
  {
    var value := GetNestedValue(root, m.source, at);
    outcome := Obstacle(value, m.action);
  }

  // ---------------------------------------------------------------- field rules

  datatype NullStrategy = UseDefault | RemoveField | FailIfRequired | IgnoreNull

  datatype FieldConfig = FieldConfig(field: Path, exclude: bool, strategy: NullStrategy, default_: Option<Value<Fieldset>>, required: bool)

  predicate IsMissing(v: Option<Value<Fieldset>>) {
    v.None? || v.value.Null?
  }

  /** A required field is missing and its rule says that this is an error. */
  ghost predicate Refused(h: Heap<Fieldset>, root: Fieldset, c: FieldConfig) {
    !c.exclude && IsMissing(ValueAt(h, root, c.field)) && c.strategy == FailIfRequired && c.required
  }

  /** What one rule does to the document; `own` are the maps that its default value holds. */
  ghost predicate Ruled(h: Heap<Fieldset>, root: Fieldset, c: FieldConfig, own: Heap<Fieldset>, t: Heap<Fieldset>) {
    if c.exclude then Removed(h, root, c.field, t)
    else if !IsMissing(ValueAt(h, root, c.field)) then Unchanged(h, root, t)
    else
      match c.strategy
      case UseDefault =>
        if c.default_.Some? && c.default_ != Some(Null) && c.field != [] then Stored(h, root, c.field, own, c.default_.value, t)
        else Unchanged(h, root, t)
      case RemoveField => Removed(h, root, c.field, t)
      case _ => Unchanged(h, root, t)
  }

  /** A default value, if there is one, with maps of its own. */
  ghost predicate HasDefault(c: FieldConfig, home: Placement<Fieldset>)
    reads home.Keys
  {
    c.default_.Some? ==> Rooted(Snap(home.Keys), home, c.default_.value)
  }

  /** One rule, applied to the document in place: a default value becomes part of it with its maps. */
  method ApplyRule(root: Fieldset, c: FieldConfig, ghost at: Placement<Fieldset>, ghost home: Placement<Fieldset>)
    returns (ok: bool, ghost t: Placement<Fieldset>)
    requires IsTree(root, at) && HasDefault(c, home) && at.Keys !! home.Keys
    modifies at.Keys
    ensures IsTree(root, t) && fresh(t.Keys - at.Keys - home.Keys) && ok == !Refused(old(Snap(at.Keys)), root, c)
    ensures if ok then Ruled(old(Snap(at.Keys)), root, c, old(Snap(home.Keys)), Snap(t.Keys))
            else t == at && Snap(at.Keys) == old(Snap(at.Keys))
  {
    ok, t := true, at;
    if c.exclude {
      t := RemoveAt(root, c.field, at);
    } else {
      var value := GetNestedValue(root, c.field, at);
      if IsMissing(value) {
        match c.strategy {
          case UseDefault =>
            if c.default_.Some? && !c.default_.value.Null? && |c.field| > 0 {
              hide Walk, Placed, Snap, IsTree, Rooted, Stored;
              t := SetNestedValue(root, c.field, c.default_.value, t, home);
            }
          case RemoveField =>
            t := RemoveAt(root, c.field, at);
          case FailIfRequired =>
            ok := !c.required;
          case IgnoreNull =>
        }
      }
    }
  }

  method RemoveAt(root: Fieldset, path: Path, ghost at: Placement<Fieldset>) returns (ghost t: Placement<Fieldset>)
    requires IsTree(root, at)
    modifies at.Keys
    ensures IsTree(root, t) && t.Keys <= at.Keys && Removed(old(Snap(at.Keys)), root, path, Snap(t.Keys))
  {
    hide Walk, Placed, Snap, IsTree;
    ghost var h := Snap(at.Keys);
    t := DeleteNestedValue(root, path, at);
    forall q ensures Walk(Snap(t.Keys), Map(root), q) == if path != [] && Starts(path, q) then None else Walk(h, Map(root), q) {
      assert Look(root, t, q) == Walk(Snap(t.Keys), Map(root), q);
    }
  }

  ghost function AllMaps(homes: seq<Placement<Fieldset>>): set<Fieldset> {
    set i, m | 0 <= i < |homes| && m in homes[i].Keys :: m
  }

  /** The default values of these rules have maps of their own, apart from each other and from the document. */
  ghost predicate HaveDefaults(configs: seq<FieldConfig>, homes: seq<Placement<Fieldset>>, at: Placement<Fieldset>)
    reads AllMaps(homes)
  {
    && |homes| == |configs|
    && (forall i | 0 <= i < |homes| :: HasDefault(configs[i], homes[i]) && at.Keys !! homes[i].Keys)
    && forall i, k | 0 <= i < k < |homes| :: homes[i].Keys !! homes[k].Keys
  }

  lemma InAllMaps(homes: seq<Placement<Fieldset>>, i: nat)
    requires i < |homes|
    ensures homes[i].Keys <= AllMaps(homes)
  {
  }

  /** What the default values hold. */
  ghost function Defaults(homes: seq<Placement<Fieldset>>): (owns: seq<Heap<Fieldset>>)
    reads AllMaps(homes)
    ensures |owns| == |homes| && forall i | 0 <= i < |homes| :: owns[i] == Snap(homes[i].Keys)
  {
    seq(|homes|, i requires 0 <= i < |homes| reads AllMaps(homes) => Snap(homes[i].Keys))
  }

  /** The states of the document: after each rule what that made of the state before. */
  ghost predicate RuledAll(data: Fieldset, configs: seq<FieldConfig>, owns: seq<Heap<Fieldset>>, trail: seq<Heap<Fieldset>>) {
    && 1 <= |trail| <= |configs| + 1 == |owns| + 1
    && forall i | 0 <= i < |trail| - 1 ::
         Ruled(trail[i], data, configs[i], owns[i], trail[i + 1]) && !Refused(trail[i], data, configs[i])
  }

  lemma RuledOneMore(data: Fieldset, configs: seq<FieldConfig>, owns: seq<Heap<Fieldset>>, trail: seq<Heap<Fieldset>>, t: Heap<Fieldset>)
    requires RuledAll(data, configs, owns, trail) && |trail| <= |configs|
    requires Ruled(trail[|trail| - 1], data, configs[|trail| - 1], owns[|trail| - 1], t)
    requires !Refused(trail[|trail| - 1], data, configs[|trail| - 1])
    ensures RuledAll(data, configs, owns, trail + [t])
  {
    hide Ruled;
  }

  /** The rules in order, in place, up to the first that is refused. */
  method ProcessFieldConfigs(data: Fieldset, configs: seq<FieldConfig>, ghost at: Placement<Fieldset>, ghost homes: seq<Placement<Fieldset>>)
    returns (ok: bool, ghost t: Placement<Fieldset>, ghost trail: seq<Heap<Fieldset>>)
    requires IsTree(data, at) && HaveDefaults(configs, homes, at)
    modifies at.Keys, AllMaps(homes)
    ensures IsTree(data, t) && RuledAll(data, configs, old(Defaults(homes)), trail)
    ensures trail[0] == old(Snap(at.Keys)) && trail[|trail| - 1] == Snap(t.Keys)
    ensures ok <==> |trail| == |configs| + 1
    ensures !ok ==> Refused(trail[|trail| - 1], data, configs[|trail| - 1])
  {
    t, trail := at, [Snap(at.Keys)];
    ghost var owns := Defaults(homes);
    hide Walk, Placed, Snap, IsTree, Ruled, Refused, Rooted;
    for i := 0 to |configs|
      invariant IsTree(data, t) && |trail| == i + 1 && trail[0] == old(Snap(at.Keys)) && trail[i] == Snap(t.Keys)
      invariant fresh(t.Keys - at.Keys - AllMaps(homes))
      invariant forall k | i <= k < |homes| :: homes[k].Keys !! t.Keys && Snap(homes[k].Keys) == owns[k]
      invariant RuledAll(data, configs, owns, trail)
    {
      InAllMaps(homes, i);
      assert HasDefault(configs[i], homes[i]);
      ok, t := ApplyRule(data, configs[i], t, homes[i]);
      if !ok {
        return;
      }
      RuledOneMore(data, configs, owns, trail, Snap(t.Keys));
      trail := trail + [Snap(t.Keys)];
    }
    ok := true;
  }
}
