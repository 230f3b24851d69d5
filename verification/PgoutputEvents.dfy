/**
 * What the change events say: which rows are sent at all, what their documents hold, and when two
 * rows get the same key, which is the identity of their documents in Elasticsearch.
 */
module PgoutputEvents {
  import opened Wrappers
  import opened Bytes
  import opened Pgoutput

  // ---------------------------------------------------------------- documents

  /** The cell that a column name stands for: the last one of that name. */
  predicate IsLast(cells: seq<Cell>, i: nat, name: ByteString) {
    i < |cells| && cells[i].name == name && forall k | i < k < |cells| :: cells[k].name != name
  }

  predicate Names(cells: seq<Cell>, name: ByteString) {
    exists i :: 0 <= i < |cells| && cells[i].name == name
  }

  lemma NamesSnoc(cells: seq<Cell>, name: ByteString)
    requires cells != []
    ensures Names(cells, name) <==> Names(cells[..|cells| - 1], name) || cells[|cells| - 1].name == name
  {
    if i :| 0 <= i < |cells| - 1 && cells[i].name == name {
      assert cells[..|cells| - 1][i].name == name;
    }
  }

  /**
   * A field of the document is the last column of its name; the table and the schema are there
   * under their own names unless a column has taken these; there are no other fields.
   */
  lemma {:induction false} DocumentHolds(relation: Relation, cells: seq<Cell>, name: ByteString)
    ensures var document := RowDocument(relation, cells);
            && (name in document <==> Names(cells, name) || name == FIELD_TABLE || name == FIELD_SCHEMA)
            && (forall i: nat | IsLast(cells, i, name) :: document[name] == Value(cells[i].value, cells[i].typeId))
            && (!Names(cells, name) && name == FIELD_TABLE ==> document[name] == Meta(relation.name))
            && (!Names(cells, name) && name == FIELD_SCHEMA ==> document[name] == Meta(relation.namespace))
    decreases |cells|
  {
    if cells != [] {
      var init := cells[..|cells| - 1];
      DocumentHolds(relation, init, name);
      NamesSnoc(cells, name);
      forall i: nat | IsLast(cells, i, name) ensures RowDocument(relation, cells)[name] == Value(cells[i].value, cells[i].typeId) {
        if i < |init| {
          assert IsLast(init, i, name);
        }
      }
    }
  }

  // ---------------------------------------------------------------- keys

  lemma {:induction false} CellValueIsLast(cells: seq<Cell>, name: ByteString)
    ensures CellValue(cells, name).Some? <==> Names(cells, name)
    ensures forall i: nat | IsLast(cells, i, name) :: CellValue(cells, name) == Some(cells[i].value)
    decreases |cells|
  {
    if cells != [] {
      var init := cells[..|cells| - 1];
      CellValueIsLast(init, name);
      NamesSnoc(cells, name);
      forall i: nat | IsLast(cells, i, name) ensures CellValue(cells, name) == Some(cells[i].value) {
        if i < |init| {
          assert IsLast(init, i, name);
        }
      }
    }
  }

  /** The parts of a key are the texts of its columns, in order; they exist exactly when every column is in the row. */
  lemma {:induction false} PartsAreColumns(cells: seq<Cell>, names: seq<ByteString>)
    ensures var r := KeyParts(cells, names);
            && (r.Success? <==> forall i | 0 <= i < |names| :: Names(cells, names[i]))
            && (r.Success? ==> forall i | 0 <= i < |names| :: CellValue(cells, names[i]).Some?
                                 && r.value[i] == KeyText(CellValue(cells, names[i]).value))
    decreases |names|
  {
    if names != [] {
      PartsAreColumns(cells, names[1..]);
      CellValueIsLast(cells, names[0]);
      hide Names, CellValue;
      assert forall i | 1 <= i < |names| :: names[i] == names[1..][i - 1];
    }
  }

  /** A row gets a key exactly when its relation has no key columns and it has a cell, or all key columns are in it. */
  lemma KeyExistsExactly(row: Row, relation: Relation)
    ensures RowKey(row, relation).Success? <==>
            if relation.keyColumns == [] then row.cells != []
            else forall i | 0 <= i < |relation.keyColumns| :: Names(row.cells, relation.keyColumns[i])
  {
    PartsAreColumns(row.cells, relation.keyColumns);
  }

  predicate ColonFree(s: ByteString) {
    forall i | 0 <= i < |s| :: s[i] != COLON
  }

  predicate AllColonFree(parts: seq<ByteString>) {
    forall i | 0 <= i < |parts| :: ColonFree(parts[i])
  }

  function FirstColon(s: ByteString): nat {
    if s == [] || s[0] == COLON then 0 else 1 + FirstColon(s[1..])
  }

  lemma {:induction false} ColonBehind(a: ByteString, b: ByteString)
    requires ColonFree(a)
    ensures FirstColon(a + b) == if b != [] && b[0] != COLON then |a| + FirstColon(b) else |a|
    decreases |a|
  {
    if a == [] {
      assert a + b == b;
    } else {
      assert (a + b)[0] == a[0] && (a + b)[1..] == a[1..] + b;
      ColonBehind(a[1..], b);
    }
  }

  /** Two rows with equally many key columns and no colon in them share a key exactly when they agree on all of them. */
  lemma {:induction false} JoinedApart(p: seq<ByteString>, q: seq<ByteString>)
    requires |p| == |q| && AllColonFree(p) && AllColonFree(q)
    ensures JoinParts(p) == JoinParts(q) <==> p == q
    decreases |p|
  {
    if |p| == 1 {
      assert p == [p[0]] && q == [q[0]];
    } else if |p| > 1 {
      JoinedApart(p[1..], q[1..]);
      FrontApart(p[0], JoinParts(p[1..]), q[0], JoinParts(q[1..]));
      assert p == [p[0]] + p[1..] && q == [q[0]] + q[1..];
    }
  }

  lemma FrontApart(a: ByteString, s: ByteString, b: ByteString, t: ByteString)
    requires ColonFree(a) && ColonFree(b)
    ensures a + [COLON] + s == b + [COLON] + t <==> a == b && s == t
  {
    var x, y: ByteString := a + [COLON] + s, b + [COLON] + t;
    assert x == a + ([COLON] + s) && y == b + ([COLON] + t);
    ColonBehind(a, [COLON] + s);
    ColonBehind(b, [COLON] + t);
    assert a == x[..|a|] && s == x[|a| + 1..] && b == y[..|b|] && t == y[|b| + 1..];
  }

  function Colons(s: ByteString): nat {
    if s == [] then 0 else (if s[0] == COLON then 1 else 0) + Colons(s[1..])
  }

  lemma {:induction false} ColonsInTwo(a: ByteString, b: ByteString)
    ensures Colons(a + b) == Colons(a) + Colons(b)
    decreases |a|
  {
    if a == [] {
      assert a + b == b;
    } else {
      assert (a + b)[0] == a[0] && (a + b)[1..] == a[1..] + b;
      ColonsInTwo(a[1..], b);
    }
  }

  lemma {:induction false} NoColons(s: ByteString)
    ensures Colons(s) == 0 <==> ColonFree(s)
    decreases |s|
  {
    if s != [] {
      NoColons(s[1..]);
      assert forall i | 1 <= i < |s| :: s[i] == s[1..][i - 1];
    }
  }

  /** A key of n parts has at least n - 1 colons, and no more exactly when its parts have none. */
  lemma {:induction false} JoinedColons(p: seq<ByteString>)
    requires p != []
    ensures Colons(JoinParts(p)) >= |p| - 1
    ensures Colons(JoinParts(p)) == |p| - 1 <==> AllColonFree(p)
    decreases |p|
  {
    NoColons(p[0]);
    if |p| > 1 {
      hide ColonFree;
      JoinedColons(p[1..]);
      ColonsInTwo(p[0] + [COLON], JoinParts(p[1..]));
      ColonsInTwo(p[0], [COLON]);
      assert Colons([COLON]) == 1 by {
        assert [COLON][1..] == [];
      }
      assert forall i | 1 <= i < |p| :: p[i] == p[1..][i - 1];
    }
  }

  /** A colon inside a key may stand between two of its parts wherever else there is one. */
  lemma {:induction false} Resplit(p: seq<ByteString>, i: nat, x: ByteString, y: ByteString)
    requires i + 1 < |p| && x + [COLON] + y == p[i] + [COLON] + p[i + 1]
    ensures JoinParts(p[i := x][i + 1 := y]) == JoinParts(p)
    decreases i
  {
    var q := p[i := x][i + 1 := y];
    if i > 0 {
      assert q[1..] == p[1..][i - 1 := x][i := y];
      Resplit(p[1..], i - 1, x, y);
    } else if |p| == 2 {
      assert q[1..] == [y] && p[1..] == [p[1]];
    } else {
      var rest := JoinParts(p[2..]);
      assert q[1..][1..] == p[2..] && p[1..][1..] == p[2..];
      assert JoinParts(q) == x + [COLON] + (y + [COLON] + rest) == (x + [COLON] + y) + [COLON] + rest;
      assert JoinParts(p) == p[0] + [COLON] + (p[1] + [COLON] + rest) == (p[0] + [COLON] + p[1]) + [COLON] + rest;
    }
  }

  /** With a colon in a part, there are other parts with the same key: one document then stands for both rows. */
  lemma OtherParts(p: seq<ByteString>, i: nat) returns (q: seq<ByteString>)
    requires |p| >= 2 && i < |p| && !ColonFree(p[i])
    ensures |q| == |p| && q != p && JoinParts(q) == JoinParts(p)
  {
    var n :| 0 <= n < |p[i]| && p[i][n] == COLON;
    var a, b := p[i][..n], p[i][n + 1..];
    assert p[i] == a + [COLON] + b;
    if i + 1 < |p| {
      var y := b + [COLON] + p[i + 1];
      assert a + [COLON] + y == p[i] + [COLON] + p[i + 1];
      q := p[i := a][i + 1 := y];
      Resplit(p, i, a, y);
      assert |q[i]| < |p[i]|;
    } else {
      var x := p[i - 1] + [COLON] + a;
      assert x + [COLON] + b == p[i - 1] + [COLON] + p[i];
      q := p[i - 1 := x][i := b];
      Resplit(p, i - 1, x, b);
      assert |q[i]| < |p[i]|;
    }
  }

  /** The parts of a key can be told from the key exactly when there is one part or no part has a colon. */
  lemma JoinIdentifiesExactly(p: seq<ByteString>)
    requires p != []
    ensures (forall q | |q| == |p| && JoinParts(q) == JoinParts(p) :: q == p) <==> |p| == 1 || AllColonFree(p)
  {
    if |p| == 1 {
    } else if AllColonFree(p) {
      forall q | |q| == |p| && JoinParts(q) == JoinParts(p) ensures q == p {
        JoinedColons(p);
        JoinedColons(q);
        JoinedApart(p, q);
      }
    } else {
      var i :| 0 <= i < |p| && !ColonFree(p[i]);
      var q := OtherParts(p, i);
    }
  }

  /** A NULL has the text of a value that spells it, and of no other. */
  lemma NullTextExactly(v: ByteString)
    ensures KeyText(None) == KeyText(Some(v)) <==> v == NIL_TEXT
  {
  }

  function Texts(values: seq<Option<ByteString>>): (texts: seq<ByteString>)
    ensures |texts| == |values| && forall i | 0 <= i < |values| :: texts[i] == KeyText(values[i])
  {
    seq(|values|, i requires 0 <= i < |values| => KeyText(values[i]))
  }

  function KeyOf(values: seq<Option<ByteString>>): ByteString {
    JoinParts(Texts(values))
  }

  predicate SpellsNull(value: Option<ByteString>) {
    value == None || value == Some(NIL_TEXT)
  }

  /** None of the values is NULL or spells it, and of several none has a colon. */
  predicate Unambiguous(values: seq<Option<ByteString>>) {
    && (forall i | 0 <= i < |values| :: !SpellsNull(values[i]))
    && (|values| == 1 || AllColonFree(Texts(values)))
  }

  lemma SameTexts(a: seq<Option<ByteString>>, b: seq<Option<ByteString>>)
    requires |a| == |b| && Texts(a) == Texts(b) && forall i | 0 <= i < |a| :: !SpellsNull(a[i])
    ensures a == b
  {
    forall i | 0 <= i < |a| ensures a[i] == b[i] {
      assert Texts(a)[i] == Texts(b)[i];
      NullTextExactly(a[i].value);
    }
  }

  lemma TextsOfValues(q: seq<ByteString>) returns (values: seq<Option<ByteString>>)
    ensures |values| == |q| && Texts(values) == q
  {
    values := seq(|q|, i requires 0 <= i < |q| => Some(q[i]));
  }

  /** With a value that is NULL or spells it, or a colon in one of several, there are others with the same key. */
  lemma OtherValues(values: seq<Option<ByteString>>) returns (others: seq<Option<ByteString>>)
    requires values != [] && !Unambiguous(values)
    ensures |others| == |values| && others != values && KeyOf(others) == KeyOf(values)
  {
    hide JoinParts;
    if i :| 0 <= i < |values| && SpellsNull(values[i]) {
      others := values[i := if values[i].Some? then None else Some(NIL_TEXT)];
      assert Texts(others) == Texts(values);
    } else {
      JoinIdentifiesExactly(Texts(values));
      var q :| |q| == |values| && JoinParts(q) == JoinParts(Texts(values)) && q != Texts(values);
      others := TextsOfValues(q);
    }
  }

  /** The column values behind a row's key. */
  function KeyValues(cells: seq<Cell>, names: seq<ByteString>): (values: seq<Option<ByteString>>)
    requires forall i | 0 <= i < |names| :: CellValue(cells, names[i]).Some?
    ensures |values| == |names| && forall i | 0 <= i < |names| :: CellValue(cells, names[i]) == Some(values[i])
  {
    seq(|names|, i requires 0 <= i < |names| => CellValue(cells, names[i]).value)
  }

  lemma KeyIsOfValues(row: Row, relation: Relation)
    requires relation.keyColumns != []
    ensures RowKey(row, relation).Success? <==>
            forall i | 0 <= i < |relation.keyColumns| :: CellValue(row.cells, relation.keyColumns[i]).Some?
    ensures RowKey(row, relation).Success? ==> RowKey(row, relation).value == KeyOf(KeyValues(row.cells, relation.keyColumns))
  {
    var names := relation.keyColumns;
    PartsAreColumns(row.cells, names);
    forall i | 0 <= i < |names| ensures Names(row.cells, names[i]) <==> CellValue(row.cells, names[i]).Some? {
      CellValueIsLast(row.cells, names[i]);
    }
    hide CellValue, KeyParts, JoinParts, Names;
    if KeyParts(row.cells, names).Success? {
      assert KeyParts(row.cells, names).value == Texts(KeyValues(row.cells, names));
    }
  }

  predicate SameColumns(a: seq<Cell>, b: seq<Cell>) {
    |a| == |b| && forall i | 0 <= i < |a| :: a[i].name == b[i].name && a[i].typeId == b[i].typeId
  }

  predicate NoRepeats(names: seq<ByteString>) {
    forall i, k | 0 <= i < k < |names| :: names[i] != names[k]
  }

  function IndexOf(names: seq<ByteString>, name: ByteString): (i: nat)
    ensures i < |names| ==> names[i] == name
    ensures i <= |names| && forall k | 0 <= k < i :: names[k] != name
  {
    if names == [] || names[0] == name then 0 else 1 + IndexOf(names[1..], name)
  }

  /** The cells with these values in the named columns. */
  function WithValues(cells: seq<Cell>, names: seq<ByteString>, values: seq<Option<ByteString>>): (others: seq<Cell>)
    requires |names| == |values|
    ensures SameColumns(others, cells)
  {
    if cells == [] then []
    else
      var last := cells[|cells| - 1];
      var n := IndexOf(names, last.name);
      WithValues(cells[..|cells| - 1], names, values) + [if n < |names| then last.(value := values[n]) else last]
  }

  lemma {:induction false} ValuesPut(cells: seq<Cell>, names: seq<ByteString>, values: seq<Option<ByteString>>, i: nat)
    requires |names| == |values| && NoRepeats(names) && i < |names| && CellValue(cells, names[i]).Some?
    ensures CellValue(WithValues(cells, names, values), names[i]) == Some(values[i])
    decreases |cells|
  {
    var last, init := cells[|cells| - 1], cells[..|cells| - 1];
    var others := WithValues(cells, names, values);
    assert others[..|cells| - 1] == WithValues(init, names, values);
    if last.name == names[i] {
      assert IndexOf(names, last.name) == i;
    } else {
      ValuesPut(init, names, values, i);
    }
  }

  /**
   * A row with a key is the only one of its columns with that key, up to the key columns' values,
   * exactly when none of these is NULL or spells it and, if there are several, none has a colon.
   */
  lemma RowIdentifiedExactly(row: Row, relation: Relation)
    requires relation.keyColumns != [] && NoRepeats(relation.keyColumns) && RowKey(row, relation).Success?
    ensures (forall i | 0 <= i < |relation.keyColumns| :: CellValue(row.cells, relation.keyColumns[i]).Some?)
    ensures (forall other: Row, i |
               && SameColumns(other.cells, row.cells) && RowKey(other, relation) == RowKey(row, relation)
               && 0 <= i < |relation.keyColumns| ::
               CellValue(other.cells, relation.keyColumns[i]) == CellValue(row.cells, relation.keyColumns[i])) <==>
            Unambiguous(KeyValues(row.cells, relation.keyColumns))
  {
    KeyIsOfValues(row, relation);
    var names := relation.keyColumns;
    var values := KeyValues(row.cells, names);
    hide RowKey, CellValue;
    if Unambiguous(values) {
      forall other: Row, i | SameColumns(other.cells, row.cells) && RowKey(other, relation) == RowKey(row, relation) && 0 <= i < |names|
        ensures CellValue(other.cells, names[i]) == CellValue(row.cells, names[i])
      {
        SameKeySameValues(row, other, relation);
      }
    } else {
      var others := OtherValues(values);
      var other := row.(cells := WithValues(row.cells, names, others));
      forall i | 0 <= i < |names| ensures CellValue(other.cells, names[i]) == Some(others[i]) {
        ValuesPut(row.cells, names, others, i);
      }
      KeyIsOfValues(other, relation);
      assert KeyValues(other.cells, names) == others;
      var i :| 0 <= i < |names| && others[i] != values[i];
      assert CellValue(other.cells, names[i]) != CellValue(row.cells, names[i]);
    }
  }

  lemma SameKeySameValues(row: Row, other: Row, relation: Relation)
    requires relation.keyColumns != [] && RowKey(row, relation).Success? && RowKey(other, relation) == RowKey(row, relation)
    requires forall i | 0 <= i < |relation.keyColumns| :: CellValue(row.cells, relation.keyColumns[i]).Some?
    requires Unambiguous(KeyValues(row.cells, relation.keyColumns))
    ensures forall i | 0 <= i < |relation.keyColumns| ::
              CellValue(other.cells, relation.keyColumns[i]) == CellValue(row.cells, relation.keyColumns[i])
  {
    KeyIsOfValues(row, relation);
    KeyIsOfValues(other, relation);
    hide RowKey, CellValue;
    var values, others := KeyValues(row.cells, relation.keyColumns), KeyValues(other.cells, relation.keyColumns);
    JoinIdentifiesExactly(Texts(values));
    SameTexts(values, others);
  }

  /** A row of the same columns with the same key. */
  predicate SharesKey(other: Row, row: Row, relation: Relation) {
    SameColumns(other.cells, row.cells) && RowKey(other, relation) == RowKey(row, relation)
  }

  /** The row with another value in one column. */
  lemma WithValue(row: Row, i: nat, value: Option<ByteString>) returns (other: Row)
    requires i < |row.cells| && value != row.cells[i].value
    ensures SameColumns(other.cells, row.cells) && other.cells[i].value == value && other.cells != row.cells
    ensures forall k | 0 <= k < |row.cells| && k != i :: other.cells[k] == row.cells[k]
  {
    other := row.(cells := row.cells[i := row.cells[i].(value := value)]);
    assert other.cells[i].value != row.cells[i].value;
  }

  /**
   * Without key columns the first column is the key: rows that share it agree on that column exactly
   * when it is neither NULL nor spells it, and are the same row exactly when there is no other column.
   */
  lemma UnkeyedRowIdentifiedExactly(row: Row, relation: Relation)
    requires relation.keyColumns == [] && row.cells != []
    ensures (forall other | SharesKey(other, row, relation) :: other.cells[0].value == row.cells[0].value) <==>
            !SpellsNull(row.cells[0].value)
    ensures (forall other | SharesKey(other, row, relation) :: other.cells == row.cells) <==>
            |row.cells| == 1 && !SpellsNull(row.cells[0].value)
  {
    var value := row.cells[0].value;
    if SpellsNull(value) {
      var other := WithValue(row, 0, if value.Some? then None else Some(NIL_TEXT));
      assert SharesKey(other, row, relation);
    } else if |row.cells| > 1 {
      var other := WithValue(row, 1, if row.cells[1].value.Some? then None else Some(NIL_TEXT));
      assert SharesKey(other, row, relation);
    }
  }

  // ---------------------------------------------------------------- what is sent

  /** The table passes the filters: there are none, or it is one of them. */
  predicate IsAllowed(filters: seq<ByteString>, relation: Relation) {
    filters == [] || relation.name in filters
  }

  /**
   * An operation on a row sends exactly one change, with the row's key and document, if its table
   * is known and allowed and the row has a key; it sends nothing, without a fault, exactly for
   * known tables that the filters hold back; anything else is a fault.
   */
  lemma SentExactly(relations: Relations, filters: seq<ByteString>, op: Op, id: nat, newRow: Option<Row>, oldRow: Option<Row>)
    requires newRow.Some? || oldRow.Some?
    ensures var r, row := ChangesFor(relations, filters, op, id, newRow, oldRow), if newRow.Some? then newRow.value else oldRow.value;
            && (r == Success([]) <==> id in relations && !IsAllowed(filters, relations[id]))
            && ((r.Success? && r.value != []) <==>
                (id in relations && IsAllowed(filters, relations[id]) && RowKey(row, relations[id]).Success?))
            && ((r.Success? && r.value != []) ==>
                (r.value == [Change(op, RowKey(row, relations[id]).value, RowDocument(relations[id], row.cells))]))
  {
    hide RowKey, RowDocument;
  }
}
