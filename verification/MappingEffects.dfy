/**
 * What mappings and field rules come to for somebody who looks at paths: what one mapping leaves
 * where, that a rename can be taken back, and that rules over separate fields all hold at the end.
 */
module MappingEffects {
  import opened Wrappers
  import opened NestedPaths
  import opened FieldMapping

  ghost function At(h: Heap<Fieldset>, root: Fieldset, path: Path): Option<Value<Fieldset>> {
    Walk(h, Map(root), path)
  }

  // ---------------------------------------------------------------- mappings

  /** A value can be put in a second place without sharing a map exactly when it has none of its own. */
  lemma SharesExactly(v: Value<Fieldset>)
    ensures HoldsMap(v) <==> !Rooted(map[], map[], v)
  {
    if HoldsMap(v) {
      HasNoPlace(v, []);
    } else {
      NoMapsOfItsOwn(v);
    }
  }

  lemma {:induction false} HasNoPlace(v: Value<Fieldset>, place: Path)
    requires HoldsMap(v)
    ensures !Sits(v, map[], place)
    decreases v
  {
    if v.List? {
      var i :| 0 <= i < |v.items| && HoldsMap(v.items[i]);
      HasNoPlace(v.items[i], place + [Nth(i)]);
    }
  }

  /** A mapping is refused when it finds a value and has no known action, or would copy a map; then only. */
  lemma RefusedExactly(h: Heap<Fieldset>, root: Fieldset, m: Mapping)
    requires m.source != []
    ensures var v := At(h, root, m.source);
            Obstacle(ValueAt(h, root, m.source), m.action)
            == if v.Some? && m.action == Unknown then UnknownAction
               else if v.Some? && m.action == Copy && !Rooted(map[], map[], v.value) then SharesMap
               else Done
  {
    var v := At(h, root, m.source);
    hide Walk, HoldsMap, Rooted;
    if v.Some? {
      SharesExactly(v.value);
    }
  }

  /**
   * What a mapping does to the field it finds: the target holds it; the source still does after a
   * copy, and no longer after a rename or move; a path apart from both leads where it led.
   */
  lemma MappingMeans(h: Heap<Fieldset>, root: Fieldset, m: Mapping, t: Heap<Fieldset>, q: Path)
    requires Mapped(h, root, m, t) && MayMap(h, root, m) && At(h, root, m.source).Some?
    requires m.source != [] && m.target != [] && Apart(m.target, m.source)
    ensures At(t, root, m.target) == At(h, root, m.source)
    ensures At(t, root, m.source) == if m.action == Copy then At(h, root, m.source) else None
    ensures Apart(m.target, q) && Apart(m.source, q) ==> At(t, root, q) == At(h, root, q)
  {
    var v := At(h, root, m.source);
    assert m.target + [] == m.target && m.source + [] == m.source;
    if m.action == Copy {
      assert At(t, root, m.target) == Walk(map[], v.value, []);
    }
    hide Walk;
  }

  /** Without a field at the source nothing changes; without a target a rename or move only removes, and a copy does nothing. */
  lemma HalfMapping(h: Heap<Fieldset>, root: Fieldset, m: Mapping, t: Heap<Fieldset>, q: Path)
    requires Mapped(h, root, m, t) && MayMap(h, root, m)
    requires m.source == [] || At(h, root, m.source).None? || m.target == []
    ensures var removes := m.source != [] && At(h, root, m.source).Some? && m.action != Copy;
            && (removes && Starts(m.source, q) ==> At(t, root, q).None?)
            && (!removes || !Starts(m.source, q) ==> At(t, root, q) == At(h, root, q))
  {
    hide Walk, Stored, Moved;
  }

  lemma NothingBehind(h: Heap<Fieldset>, root: Fieldset, p: Path, q: Path)
    requires At(h, root, p).None? && Starts(p, q)
    ensures At(h, root, q).None?
  {
    WalkOn(h, Map(root), p, q[|p|..]);
    assert p + q[|p|..] == q;
  }

  /** Renaming a field to a free name and back again restores every path but those on the way to the two names. */
  lemma RenameUndone(h: Heap<Fieldset>, root: Fieldset, from: Path, to: Path, t: Heap<Fieldset>, u: Heap<Fieldset>, q: Path)
    requires from != [] && to != [] && Apart(to, from) && At(h, root, from).Some? && At(h, root, to).None?
    requires Mapped(h, root, Mapping(from, to, Rename), t) && Mapped(t, root, Mapping(to, from, Rename), u)
    requires !(q < from) && !(q < to)
    ensures At(u, root, q) == At(h, root, q)
  {
    assert to + [] == to && from + [] == from && Apart(from, to);
    assert Moved(h, root, from, to, t) && At(t, root, to) == At(h, root, from);
    assert Moved(t, root, to, from, u);
    if Starts(from, q) {
      var r := q[|from|..];
      assert from + r == q;
      assert Walk(u, Map(root), from + r) == Walk(t, Map(root), to + r) == Walk(h, Map(root), from + r);
    } else if Starts(to, q) {
      NothingBehind(h, root, to, q);
      NothingBehind(u, root, to, q);
    }
    hide Walk;
  }

  // ---------------------------------------------------------------- field rules

  /** A rule refuses a document exactly when it demands a field that is not there or null. */
  lemma RefusesExactly(h: Heap<Fieldset>, root: Fieldset, c: FieldConfig)
    requires c.field != []
    ensures Refused(h, root, c)
       <==> && !c.exclude && c.required && c.strategy == FailIfRequired
            && (At(h, root, c.field).None? || At(h, root, c.field) == Some(Null))
  {
    hide Walk;
  }

  /** What a path behind the rule's field leads to after a rule, seen from what the field held before. */
  ghost function AfterRule(h: Heap<Fieldset>, root: Fieldset, c: FieldConfig, own: Heap<Fieldset>, r: Path): Option<Value<Fieldset>> {
    var v := At(h, root, c.field);
    if c.exclude then None
    else if v.Some? && v != Some(Null) then At(h, root, c.field + r)
    else if c.strategy == RemoveField then None
    else if c.strategy == UseDefault && c.default_.Some? && c.default_ != Some(Null) then Walk(own, c.default_.value, r)
    else At(h, root, c.field + r)
  }

  lemma RuleMeans(h: Heap<Fieldset>, root: Fieldset, c: FieldConfig, own: Heap<Fieldset>, t: Heap<Fieldset>, r: Path)
    requires Ruled(h, root, c, own, t) && c.field != []
    ensures At(t, root, c.field + r) == AfterRule(h, root, c, own, r)
  {
    assert Starts(c.field, c.field + r);
    hide Walk;
  }

  lemma RuleApart(h: Heap<Fieldset>, root: Fieldset, c: FieldConfig, own: Heap<Fieldset>, t: Heap<Fieldset>, q: Path)
    requires Ruled(h, root, c, own, t) && (c.field == [] || Apart(c.field, q))
    ensures At(t, root, q) == At(h, root, q)
  {
    hide Walk;
  }

  /** The rules from `i` up to `n` have to do with fields apart from the path. */
  ghost predicate RulesApart(configs: seq<FieldConfig>, i: nat, n: nat, q: Path) {
    forall k | i <= k < n && k < |configs| :: configs[k].field == [] || Apart(configs[k].field, q)
  }

  lemma {:induction false} StaysApart(data: Fieldset, configs: seq<FieldConfig>, owns: seq<Heap<Fieldset>>, trail: seq<Heap<Fieldset>>, i: nat, n: nat, q: Path)
    requires RuledAll(data, configs, owns, trail) && i <= n < |trail| && RulesApart(configs, i, n, q)
    ensures At(trail[n], data, q) == At(trail[i], data, q)
    decreases n
  {
    if i < n {
      hide Ruled, Refused, At;
      StaysApart(data, configs, owns, trail, i, n - 1, q);
      RuleApart(trail[n - 1], data, configs[n - 1], owns[n - 1], trail[n], q);
    }
  }

  /** The fields of the rules lie apart from each other. */
  predicate FieldsApart(configs: seq<FieldConfig>) {
    forall i, k | 0 <= i < |configs| && 0 <= k < |configs| && i != k :: Apart(configs[i].field, configs[k].field)
  }

  lemma ApartBehind(p: Path, q: Path, r: Path)
    ensures Apart(p, q) ==> Apart(p, q + r)
  {
    if Starts(p, q + r) && |q| < |p| {
      assert p[..|q|] == (q + r)[..|q|] == q;
    }
    if Starts(q + r, p) {
      assert p[..|q|] == (q + r)[..|q|] == q;
    }
  }

  /**
   * Rules over separate fields, none of which was refused: in the end every one of them has done
   * to its field, from what that held at the start, what it does alone; and no demanded field is
   * missing or null.
   */
  lemma RulesAllHold(data: Fieldset, configs: seq<FieldConfig>, owns: seq<Heap<Fieldset>>, trail: seq<Heap<Fieldset>>, i: nat, r: Path)
    requires RuledAll(data, configs, owns, trail) && |trail| == |configs| + 1 && FieldsApart(configs)
    requires i < |configs| && configs[i].field != []
    ensures var c, last := configs[i], trail[|configs|];
            && At(last, data, c.field + r) == AfterRule(trail[0], data, c, owns[i], r)
            && (c.required && c.strategy == FailIfRequired && !c.exclude
                ==> At(last, data, c.field).Some? && At(last, data, c.field) != Some(Null))
  {
    var c := configs[i];
    forall s ensures At(trail[i], data, c.field + s) == At(trail[0], data, c.field + s)
      ensures At(trail[|configs|], data, c.field + s) == At(trail[i + 1], data, c.field + s)
    {
      forall k | 0 <= k < |configs| && k != i ensures Apart(configs[k].field, c.field + s) {
        ApartBehind(configs[k].field, c.field, s);
      }
      hide RuledAll, Apart, At;
      StaysApart(data, configs, owns, trail, 0, i, c.field + s);
      StaysApart(data, configs, owns, trail, i + 1, |configs|, c.field + s);
    }
    assert c.field + [] == c.field;
    RuleMeans(trail[i], data, c, owns[i], trail[i + 1], r);
    RuleMeans(trail[i], data, c, owns[i], trail[i + 1], []);
    RefusesExactly(trail[i], data, c);
    hide Ruled, Refused, Walk;
  }

  /** What lies apart from every rule's field is not touched. */
  lemma RulesTouchNothingElse(data: Fieldset, configs: seq<FieldConfig>, owns: seq<Heap<Fieldset>>, trail: seq<Heap<Fieldset>>, q: Path)
    requires RuledAll(data, configs, owns, trail)
    requires forall k | 0 <= k < |configs| :: configs[k].field == [] || Apart(configs[k].field, q)
    ensures At(trail[|trail| - 1], data, q) == At(trail[0], data, q)
  {
    hide Ruled, Refused, At;
    StaysApart(data, configs, owns, trail, 0, |trail| - 1, q);
  }
}
