/**
 * Decoding undoes encoding. The wire messages below are those of section 55.9 of the
 * PostgreSQL 16 documentation, as a server writes them; the decoder gives back exactly
 * the messages written, takes exactly their bytes, and does with the whole stream what
 * executing the messages one after the other does, however the stream is fragmented.
 */
module PgoutputRoundTrip {
  import opened Wrappers
  import opened Bytes
  import opened Streaming
  import opened Pgoutput
  import opened PgoutputStability
  import Lsn

  // ---------------------------------------------------------------- what a server writes

  datatype WireCell = NullCell | TextCell(text: ByteString) | ToastCell

  datatype OldTuple = OldTuple(kind: Byte, cells: seq<WireCell>)

  datatype Wire =
    | WBegin(finalLsn: nat, commitTime: int, xid: nat)
    | WCommit(flags: Byte, commitLsn: nat, endLsn: nat, commitTime: int)
    | WRelation(id: nat, namespace: ByteString, name: ByteString, replicaIdentity: Byte, columns: seq<Column>)
    | WInsert(id: nat, newCells: seq<WireCell>)
    | WUpdate(id: nat, before: Option<OldTuple>, newCells: seq<WireCell>)
    | WDelete(id: nat, oldTuple: OldTuple)
    | WTruncate(options: Byte, ids: seq<nat>)
    | WType(id: nat, namespace: ByteString, name: ByteString)
    | WOrigin(commitLsn: nat, name: ByteString)
    | WLogical(flags: Byte, lsn: nat, prefix: ByteString, content: ByteString)

  function Unsigned(v: int, bits: nat): nat {
    if v >= 0 then v else if v + Pow256(bits / 8) >= 0 then v + Pow256(bits / 8) else 0
  }

  predicate FitsSigned(v: int, bits: nat) {
    var range: int := Pow256(bits / 8);
    -range <= 2 * v < range
  }

  function Terminated(s: ByteString): ByteString {
    s + [0]
  }

  function EncodeColumn(c: Column): ByteString {
    [c.flags] + (Terminated(c.name) + (ToBe(c.typeId, 4) + ToBe(Unsigned(c.typeMod, 32), 4)))
  }

  function EncodeColumns(columns: seq<Column>): ByteString {
    if columns == [] then [] else EncodeColumn(columns[0]) + EncodeColumns(columns[1..])
  }

  function EncodeCell(c: WireCell): ByteString {
    match c
    case NullCell => [CELL_NULL]
    case TextCell(text) => [CELL_TEXT] + (ToBe(|text|, 4) + text)
    case ToastCell => [CELL_TOAST]
  }

  function EncodeCells(cells: seq<WireCell>): ByteString {
    if cells == [] then [] else EncodeCell(cells[0]) + EncodeCells(cells[1..])
  }

  function EncodeTuple(cells: seq<WireCell>): ByteString {
    ToBe(|cells|, 2) + EncodeCells(cells)
  }

  function EncodeIds(ids: seq<nat>): ByteString {
    if ids == [] then [] else ToBe(ids[0], 4) + EncodeIds(ids[1..])
  }

  function Tag(w: Wire): Byte {
    match w
    case WBegin(_, _, _) => TAG_BEGIN
    case WCommit(_, _, _, _) => TAG_COMMIT
    case WRelation(_, _, _, _, _) => TAG_RELATION
    case WInsert(_, _) => TAG_INSERT
    case WUpdate(_, _, _) => TAG_UPDATE
    case WDelete(_, _) => TAG_DELETE
    case WTruncate(_, _) => TAG_TRUNCATE
    case WType(_, _, _) => TAG_TYPE
    case WOrigin(_, _) => TAG_ORIGIN
    case WLogical(_, _, _, _) => TAG_MESSAGE
  }

  function EncodeBody(w: Wire): ByteString {
    match w
    case WBegin(finalLsn, commitTime, xid) =>
      ToBe(finalLsn, 8) + (ToBe(Unsigned(commitTime, 64), 8) + ToBe(xid, 4))
    case WCommit(flags, commitLsn, endLsn, commitTime) =>
      [flags] + (ToBe(commitLsn, 8) + (ToBe(endLsn, 8) + ToBe(Unsigned(commitTime, 64), 8)))
    case WRelation(id, namespace, name, replicaIdentity, columns) =>
      ToBe(id, 4) + (Terminated(namespace) + (Terminated(name) +
      ([replicaIdentity] + (ToBe(|columns|, 2) + EncodeColumns(columns)))))
    case WInsert(id, cells) => ToBe(id, 4) + ([TUPLE_NEW] + EncodeTuple(cells))
    case WUpdate(id, None, cells) => ToBe(id, 4) + ([TUPLE_NEW] + EncodeTuple(cells))
    case WUpdate(id, Some(before), cells) =>
      ToBe(id, 4) + ([before.kind] + (EncodeTuple(before.cells) + ([TUPLE_NEW] + EncodeTuple(cells))))
    case WDelete(id, before) => ToBe(id, 4) + ([before.kind] + EncodeTuple(before.cells))
    case WTruncate(options, ids) => ToBe(|ids|, 4) + ([options] + EncodeIds(ids))
    case WType(id, namespace, name) => ToBe(id, 4) + (Terminated(namespace) + Terminated(name))
    case WOrigin(commitLsn, name) => ToBe(commitLsn, 8) + Terminated(name)
    case WLogical(flags, lsn, prefix, content) =>
      [flags] + (ToBe(lsn, 8) + (Terminated(prefix) + (ToBe(|content|, 4) + content)))
  }

  function Encode(w: Wire): (s: ByteString)
    ensures |s| >= 1
  {
    [Tag(w)] + EncodeBody(w)
  }

  // ---------------------------------------------------------------- what it means

  predicate FitsText(s: ByteString) {
    forall i | 0 <= i < |s| :: s[i] != 0
  }

  predicate FitsColumn(c: Column) {
    FitsText(c.name) && c.typeId < Pow256(4) && FitsSigned(c.typeMod, 32)
  }

  predicate FitsColumns(columns: seq<Column>) {
    && |columns| < 0x1_0000
    && forall i | 0 <= i < |columns| :: FitsColumn(columns[i])
  }

  predicate FitsCell(c: WireCell) {
    c.TextCell? ==> |c.text| < Pow256(4)
  }

  /** A tuple fits a relation the parser knows: no more cells than columns, and text lengths of 32 bits. */
  predicate FitsTuple(relations: Relations, id: nat, cells: seq<WireCell>) {
    && id < Pow256(4) && id in relations
    && |cells| <= |relations[id].columns| < 0x1_0000
    && forall i | 0 <= i < |cells| :: FitsCell(cells[i])
  }

  predicate FitsOld(relations: Relations, id: nat, before: OldTuple) {
    (before.kind == TUPLE_OLD || before.kind == TUPLE_KEY) && FitsTuple(relations, id, before.cells)
  }

  /** The message is one a server may write to a parser that knows these relations. */
  predicate WellFormed(relations: Relations, w: Wire) {
    match w
    case WBegin(finalLsn, commitTime, xid) => finalLsn < Pow256(8) && FitsSigned(commitTime, 64) && xid < Pow256(4)
    case WCommit(_, commitLsn, endLsn, commitTime) =>
      commitLsn < Pow256(8) && endLsn < Pow256(8) && FitsSigned(commitTime, 64)
    case WRelation(id, namespace, name, _, columns) =>
      id < Pow256(4) && FitsText(namespace) && FitsText(name) && FitsColumns(columns)
    case WInsert(id, cells) => FitsTuple(relations, id, cells)
    case WUpdate(id, before, cells) =>
      FitsTuple(relations, id, cells) && (before.Some? ==> FitsOld(relations, id, before.value))
    case WDelete(id, before) => FitsOld(relations, id, before)
    case WTruncate(_, ids) => |ids| < Pow256(4) && forall i | 0 <= i < |ids| :: ids[i] < Pow256(4)
    case WType(id, namespace, name) => id < Pow256(4) && FitsText(namespace) && FitsText(name)
    case WOrigin(commitLsn, name) => commitLsn < Pow256(8) && FitsText(name)
    case WLogical(_, lsn, prefix, content) => lsn < Pow256(8) && FitsText(prefix) && |content| < Pow256(4)
  }

  /** A tuple's cells under the names of the columns from `i` on; unchanged TOAST columns are omitted. */
  function ViewCells(columns: seq<Column>, i: nat, cells: seq<WireCell>): seq<Cell>
    decreases |cells|
  {
    if cells == [] || i >= |columns| then []
    else ViewCell(columns[i], cells[0]) + ViewCells(columns, i + 1, cells[1..])
  }

  function ViewCell(column: Column, c: WireCell): seq<Cell> {
    match c
    case NullCell => [Cell(column.name, None, column.typeId)]
    case TextCell(text) => [Cell(column.name, Some(text), column.typeId)]
    case ToastCell => []
  }

  function ViewRow(relations: Relations, id: nat, kind: Byte, cells: seq<WireCell>): Row {
    Row(id, kind, if id in relations then ViewCells(relations[id].columns, 0, cells) else [])
  }

  /** The message the decoder should arrive at. */
  function View(relations: Relations, w: Wire): Message {
    match w
    case WBegin(finalLsn, commitTime, xid) => Begin(Txn(xid, commitTime, Lsn.FormatUint64(finalLsn)))
    case WCommit(_, _, _, _) => Commit
    case WRelation(id, namespace, name, replicaIdentity, columns) =>
      RelationDef(Relation(id, namespace, name, replicaIdentity, columns, KeyColumns(columns)))
    case WInsert(id, cells) => Insert(ViewRow(relations, id, TUPLE_NEW, cells))
    case WUpdate(id, None, cells) => Update(id, None, Some(ViewRow(relations, id, TUPLE_NEW, cells)))
    case WUpdate(id, Some(before), cells) =>
      Update(id, Some(ViewRow(relations, id, before.kind, before.cells)), Some(ViewRow(relations, id, TUPLE_NEW, cells)))
    case WDelete(id, before) => Delete(ViewRow(relations, id, before.kind, before.cells))
    case WTruncate(_, ids) => Truncate(ids)
    case WType(_, _, _) => TypeDef
    case WOrigin(_, _) => Origin
    case WLogical(_, _, _, _) => Logical
  }

  // ---------------------------------------------------------------- one message

  lemma SignedUnsigned(v: int, bits: nat)
    requires bits == 32 || bits == 64
    requires FitsSigned(v, bits)
    ensures Unsigned(v, bits) < Pow256(bits / 8) && Signed(Unsigned(v, bits), bits) == v
  {
    Pow256Values();
  }

  lemma {:induction false} CStringAt(d: ByteString, o: nat, s: ByteString)
    requires FitsText(s) && At(d, o, Terminated(s))
    ensures CString(d, o) == Ok(s, o + |s| + 1)
    decreases |s|
  {
    assert d[o + 0] == Terminated(s)[0];
    if s != [] {
      assert Terminated(s) == [s[0]] + Terminated(s[1..]);
      ByteAt(d, o, s[0], Terminated(s[1..]));
      CStringAt(d, o + 1, s[1..]);
      assert [s[0]] + s[1..] == s;
    }
  }

  lemma TwoNamesAt(d: ByteString, o: nat, first: ByteString, second: ByteString)
    requires FitsText(first) && FitsText(second)
    requires At(d, o, Terminated(first)) && At(d, o + |first| + 1, Terminated(second))
    ensures TwoNames(d, o) == Ok((first, second), o + |first| + |second| + 2)
  {
    CStringAt(d, o, first);
    CStringAt(d, o + |first| + 1, second);
  }

  lemma ByteAt(d: ByteString, o: nat, b: Byte, s: ByteString)
    requires At(d, o, [b] + s)
    ensures d[o] == b && At(d, o + 1, s)
  {
    AtBoth(d, o, [b], s);
    assert d[o + 0] == [b][0];
  }

  lemma NumberAt(d: ByteString, o: nat, v: nat, n: nat, s: ByteString)
    requires At(d, o, ToBe(v, n) + s) && v < Pow256(n)
    ensures o + n <= |d| && Be(d, o, n) == v && At(d, o + n, s)
  {
    AtBoth(d, o, ToBe(v, n), s);
    BeAt(d, o, v, n);
  }

  lemma ColumnAt(d: ByteString, o: nat, c: Column)
    requires FitsColumn(c) && At(d, o, EncodeColumn(c))
    ensures ParseColumn(d, o) == Ok(c, o + |EncodeColumn(c)|)
  {
    hide At, Be, CString, Signed;
    var mod := ToBe(Unsigned(c.typeMod, 32), 4);
    ByteAt(d, o, c.flags, Terminated(c.name) + (ToBe(c.typeId, 4) + mod));
    AtBoth(d, o + 1, Terminated(c.name), ToBe(c.typeId, 4) + mod);
    CStringAt(d, o + 1, c.name);
    var p := o + |c.name| + 2;
    NumberAt(d, p, c.typeId, 4, mod);
    SignedUnsigned(c.typeMod, 32);
    BeAt(d, p + 4, Unsigned(c.typeMod, 32), 4);
  }

  lemma {:induction false} ColumnsAt(d: ByteString, o: nat, columns: seq<Column>)
    requires FitsColumns(columns) && At(d, o, EncodeColumns(columns))
    ensures ParseColumns(d, o, |columns|) == Ok(columns, o + |EncodeColumns(columns)|)
    decreases |columns|
  {
    hide At, ParseColumn, EncodeColumn, FitsColumn;
    if columns != [] {
      AtBoth(d, o, EncodeColumn(columns[0]), EncodeColumns(columns[1..]));
      ColumnAt(d, o, columns[0]);
      ColumnsAt(d, o + |EncodeColumn(columns[0])|, columns[1..]);
      assert [columns[0]] + columns[1..] == columns;
    }
  }

  lemma RelationColumnsAt(d: ByteString, o: nat, id: nat, namespace: ByteString, name: ByteString,
                          replicaIdentity: Byte, columns: seq<Column>)
    requires FitsColumns(columns)
    requires At(d, o, [replicaIdentity] + (ToBe(|columns|, 2) + EncodeColumns(columns)))
    ensures ParseRelationColumns(d, o, id, namespace, name)
         == Ok(RelationDef(Relation(id, namespace, name, replicaIdentity, columns, KeyColumns(columns))),
               o + 3 + |EncodeColumns(columns)|)
  {
    Pow256Values();
    ByteAt(d, o, replicaIdentity, ToBe(|columns|, 2) + EncodeColumns(columns));
    NumberAt(d, o + 1, |columns|, 2, EncodeColumns(columns));
    ColumnsAt(d, o + 3, columns);
  }

  lemma RelationAt(d: ByteString, o: nat, id: nat, namespace: ByteString, name: ByteString,
                   replicaIdentity: Byte, columns: seq<Column>)
    requires id < Pow256(4) && FitsText(namespace) && FitsText(name) && FitsColumns(columns)
    requires At(d, o, ToBe(id, 4) + (Terminated(namespace) + (Terminated(name) +
                      ([replicaIdentity] + (ToBe(|columns|, 2) + EncodeColumns(columns))))))
    ensures ParseRelation(d, o)
         == Ok(RelationDef(Relation(id, namespace, name, replicaIdentity, columns, KeyColumns(columns))),
               o + 9 + |namespace| + |name| + |EncodeColumns(columns)|)
  {
    var p := o + 6 + |namespace| + |name|;
    assert |d| >= p && Be(d, o, 4) == id && TwoNames(d, o + 4) == Ok((namespace, name), p)
        && ParseRelationColumns(d, p, id, namespace, name)
           == Ok(RelationDef(Relation(id, namespace, name, replicaIdentity, columns, KeyColumns(columns))),
                 p + 3 + |EncodeColumns(columns)|) by {
      NamedHeadAt(d, o, id, namespace, name, [replicaIdentity] + (ToBe(|columns|, 2) + EncodeColumns(columns)));
      RelationColumnsAt(d, p, id, namespace, name, replicaIdentity, columns);
    }
  }

  /** The identifier and the two names in front of RELATION and TYPE messages. */
  lemma NamedHeadAt(d: ByteString, o: nat, id: nat, namespace: ByteString, name: ByteString, tail: ByteString)
    requires id < Pow256(4) && FitsText(namespace) && FitsText(name)
    requires At(d, o, ToBe(id, 4) + (Terminated(namespace) + (Terminated(name) + tail)))
    ensures |d| >= o + 6 + |namespace| + |name| && Be(d, o, 4) == id
    ensures TwoNames(d, o + 4) == Ok((namespace, name), o + 6 + |namespace| + |name|)
    ensures At(d, o + 6 + |namespace| + |name|, tail)
  {
    NumberAt(d, o, id, 4, Terminated(namespace) + (Terminated(name) + tail));
    AtBoth(d, o + 4, Terminated(namespace), Terminated(name) + tail);
    AtBoth(d, o + 5 + |namespace|, Terminated(name), tail);
    TwoNamesAt(d, o + 4, namespace, name);
  }

  lemma CellAt(d: ByteString, o: nat, column: Column, c: WireCell)
    requires FitsCell(c) && At(d, o, EncodeCell(c))
    ensures ParseCell(d, o, column) == Ok(ViewCell(column, c), o + |EncodeCell(c)|)
  {
    match c
    case TextCell(text) =>
      ByteAt(d, o, CELL_TEXT, ToBe(|text|, 4) + text);
      NumberAt(d, o + 1, |text|, 4, text);
      AtEvery(d, o + 5, text);
    case _ =>
      assert d[o + 0] == EncodeCell(c)[0];
  }

  lemma {:induction false} CellsAt(d: ByteString, o: nat, columns: seq<Column>, i: nat, n: nat, cells: seq<WireCell>)
    requires i + |cells| == n <= |columns| && (forall j | 0 <= j < |cells| :: FitsCell(cells[j]))
    requires At(d, o, EncodeCells(cells))
    ensures ParseCells(d, o, columns, i, n) == Ok(ViewCells(columns, i, cells), o + |EncodeCells(cells)|)
    decreases |cells|
  {
    hide At, ParseCell, EncodeCell, ViewCell, FitsCell;
    if cells != [] {
      var p, q := o + |EncodeCell(cells[0])|, o + |EncodeCells(cells)|;
      assert FitsCell(cells[0]);
      AtBoth(d, o, EncodeCell(cells[0]), EncodeCells(cells[1..]));
      CellAt(d, o, columns[i], cells[0]);
      CellsAt(d, p, columns, i + 1, n, cells[1..]);
      OneMoreCell(d, o, columns, i, n, ViewCell(columns[i], cells[0]), p, ViewCells(columns, i + 1, cells[1..]), q);
    }
  }

  lemma OneMoreCell(d: ByteString, o: nat, columns: seq<Column>, i: nat, n: nat,
                    cell: seq<Cell>, p: nat, rest: seq<Cell>, q: nat)
    requires o <= |d| && i < n <= |columns|
    requires ParseCell(d, o, columns[i]) == Ok(cell, p) && ParseCells(d, p, columns, i + 1, n) == Ok(rest, q)
    ensures ParseCells(d, o, columns, i, n) == Ok(cell + rest, q)
  {
  }

  lemma TupleAt(relations: Relations, d: ByteString, o: nat, id: nat, kind: Byte, cells: seq<WireCell>)
    requires FitsTuple(relations, id, cells) && At(d, o, EncodeTuple(cells))
    ensures ParseTuple(relations, d, o, id, kind) == Ok(ViewRow(relations, id, kind, cells), o + |EncodeTuple(cells)|)
  {
    hide At, Be, ParseCells, ViewCells, EncodeCells;
    var columns := relations[id].columns;
    assert |d| >= o + 2 && Be(d, o, 2) == |cells| by {
      Pow256Values();
      NumberAt(d, o, |cells|, 2, EncodeCells(cells));
    }
    assert ParseCells(d, o + 2, columns, 0, |cells|) == Ok(ViewCells(columns, 0, cells), o + |EncodeTuple(cells)|) by {
      AtBoth(d, o, ToBe(|cells|, 2), EncodeCells(cells));
      CellsAt(d, o + 2, columns, 0, |cells|, cells);
    }
  }

  /** The relation, the tuple kind and the first tuple of a row message. */
  lemma RowAt(relations: Relations, d: ByteString, o: nat, id: nat, kind: Byte, cells: seq<WireCell>, tail: ByteString)
    requires FitsTuple(relations, id, cells) && At(d, o, ToBe(id, 4) + ([kind] + (EncodeTuple(cells) + tail)))
    ensures |d| >= o + 5 && Be(d, o, 4) == id && d[o + 4] == kind
    ensures ParseTuple(relations, d, o + 5, id, kind)
         == Ok(ViewRow(relations, id, kind, cells), o + 5 + |EncodeTuple(cells)|)
    ensures At(d, o + 5 + |EncodeTuple(cells)|, tail)
  {
    hide At, Be, ParseTuple, EncodeTuple, FitsCell, ViewRow, Pow256;
    NumberAt(d, o, id, 4, [kind] + (EncodeTuple(cells) + tail));
    ByteAt(d, o + 4, kind, EncodeTuple(cells) + tail);
    AtBoth(d, o + 5, EncodeTuple(cells), tail);
    TupleAt(relations, d, o + 5, id, kind, cells);
  }

  lemma InsertOrDeleteAt(relations: Relations, d: ByteString, o: nat, w: Wire)
    requires (w.WInsert? || w.WDelete?) && WellFormed(relations, w) && At(d, o, EncodeBody(w))
    ensures ParseBody(relations, Tag(w), d, o) == Ok(View(relations, w), o + |EncodeBody(w)|)
  {
    hide At, Be, ParseTuple, EncodeTuple, FitsTuple, ViewRow;
    var cells := if w.WDelete? then w.oldTuple.cells else w.newCells;
    var kind := if w.WDelete? then w.oldTuple.kind else TUPLE_NEW;
    assert EncodeTuple(cells) + [] == EncodeTuple(cells);
    RowAt(relations, d, o, w.id, kind, cells, []);
  }

  lemma PlainUpdateAt(relations: Relations, d: ByteString, o: nat, w: Wire)
    requires w.WUpdate? && w.before.None? && WellFormed(relations, w) && At(d, o, EncodeBody(w))
    ensures ParseUpdate(relations, d, o) == Ok(View(relations, w), o + |EncodeBody(w)|)
  {
    hide At, Be, ParseTuple, EncodeTuple, FitsTuple, ViewRow;
    assert EncodeTuple(w.newCells) + [] == EncodeTuple(w.newCells);
    RowAt(relations, d, o, w.id, TUPLE_NEW, w.newCells, []);
  }

  lemma AfterOldAt(relations: Relations, d: ByteString, o: nat, id: nat, oldRow: Row, cells: seq<WireCell>)
    requires FitsTuple(relations, id, cells) && At(d, o, [TUPLE_NEW] + EncodeTuple(cells))
    ensures ParseAfterOld(relations, d, o, id, oldRow)
         == Ok(Update(id, Some(oldRow), Some(ViewRow(relations, id, TUPLE_NEW, cells))), o + 1 + |EncodeTuple(cells)|)
  {
    ByteAt(d, o, TUPLE_NEW, EncodeTuple(cells));
    TupleAt(relations, d, o + 1, id, TUPLE_NEW, cells);
  }

  lemma UpdateAt(relations: Relations, d: ByteString, o: nat, id: nat, was: OldTuple, cells: seq<WireCell>)
    requires FitsOld(relations, id, was) && FitsTuple(relations, id, cells)
    requires At(d, o, ToBe(id, 4) + ([was.kind] + (EncodeTuple(was.cells) + ([TUPLE_NEW] + EncodeTuple(cells)))))
    ensures ParseUpdate(relations, d, o)
         == Ok(Update(id, Some(ViewRow(relations, id, was.kind, was.cells)), Some(ViewRow(relations, id, TUPLE_NEW, cells))),
               o + 6 + |EncodeTuple(was.cells)| + |EncodeTuple(cells)|)
  {
    hide At, Be, ParseTuple, ParseAfterOld, EncodeTuple, FitsTuple, ViewRow;
    var p, row := o + 5 + |EncodeTuple(was.cells)|, ViewRow(relations, id, was.kind, was.cells);
    RowAt(relations, d, o, id, was.kind, was.cells, [TUPLE_NEW] + EncodeTuple(cells));
    AfterOldAt(relations, d, p, id, row, cells);
    OldTupleFirst(relations, d, o, row, p);
  }

  lemma OldTupleFirst(relations: Relations, d: ByteString, o: nat, row: Row, p: nat)
    requires |d| >= o + 5 && (d[o + 4] == TUPLE_OLD || d[o + 4] == TUPLE_KEY)
    requires ParseTuple(relations, d, o + 5, Be(d, o, 4), d[o + 4]) == Ok(row, p)
    ensures ParseUpdate(relations, d, o) == ParseAfterOld(relations, d, p, Be(d, o, 4), row)
  {
  }

  lemma BeginAt(relations: Relations, d: ByteString, o: nat, w: Wire)
    requires w.WBegin? && WellFormed(relations, w) && At(d, o, EncodeBody(w))
    ensures ParseBegin(d, o) == Ok(View(relations, w), o + |EncodeBody(w)|)
  {
    hide At, Be, Pow256;
    var time := Unsigned(w.commitTime, 64);
    SignedUnsigned(w.commitTime, 64);
    NumberAt(d, o, w.finalLsn, 8, ToBe(time, 8) + ToBe(w.xid, 4));
    NumberAt(d, o + 8, time, 8, ToBe(w.xid, 4));
    BeAt(d, o + 16, w.xid, 4);
  }

  lemma {:induction false} IdsAt(d: ByteString, o: nat, ids: seq<nat>)
    requires (forall i | 0 <= i < |ids| :: ids[i] < Pow256(4)) && At(d, o, EncodeIds(ids))
    ensures |EncodeIds(ids)| == 4 * |ids| && RelationIds(d, o, |ids|) == ids
    decreases |ids|
  {
    hide At, Be;
    if ids != [] {
      NumberAt(d, o, ids[0], 4, EncodeIds(ids[1..]));
      IdsAt(d, o + 4, ids[1..]);
      assert [ids[0]] + ids[1..] == ids;
    }
  }

  lemma TruncateAt(relations: Relations, d: ByteString, o: nat, w: Wire)
    requires w.WTruncate? && WellFormed(relations, w) && At(d, o, EncodeBody(w))
    ensures ParseTruncate(d, o) == Ok(View(relations, w), o + |EncodeBody(w)|)
  {
    hide At, Be;
    NumberAt(d, o, |w.ids|, 4, [w.options] + EncodeIds(w.ids));
    ByteAt(d, o + 4, w.options, EncodeIds(w.ids));
    IdsAt(d, o + 5, w.ids);
  }

  lemma TypeAt(d: ByteString, o: nat, w: Wire)
    requires w.WType? && WellFormed(map[], w) && At(d, o, EncodeBody(w))
    ensures ParseType(d, o) == Ok(TypeDef, o + |EncodeBody(w)|)
  {
    assert Terminated(w.name) + [] == Terminated(w.name);
    NamedHeadAt(d, o, w.id, w.namespace, w.name, []);
  }

  lemma OriginAt(d: ByteString, o: nat, w: Wire)
    requires w.WOrigin? && WellFormed(map[], w) && At(d, o, EncodeBody(w))
    ensures ParseOrigin(d, o) == Ok(Origin, o + |EncodeBody(w)|)
  {
    NumberAt(d, o, w.commitLsn, 8, Terminated(w.name));
    CStringAt(d, o + 8, w.name);
  }

  lemma LogicalAt(d: ByteString, o: nat, w: Wire)
    requires w.WLogical? && WellFormed(map[], w) && At(d, o, EncodeBody(w))
    ensures ParseLogical(d, o) == Ok(Logical, o + |EncodeBody(w)|)
  {
    hide At, Be, CString, Pow256;
    var tail := ToBe(|w.content|, 4) + w.content;
    ByteAt(d, o, w.flags, ToBe(w.lsn, 8) + (Terminated(w.prefix) + tail));
    NumberAt(d, o + 1, w.lsn, 8, Terminated(w.prefix) + tail);
    AtBoth(d, o + 9, Terminated(w.prefix), tail);
    CStringAt(d, o + 9, w.prefix);
    NumberAt(d, o + 10 + |w.prefix|, |w.content|, 4, w.content);
  }

  lemma BodyAt(relations: Relations, d: ByteString, o: nat, w: Wire)
    requires WellFormed(relations, w) && At(d, o, EncodeBody(w))
    ensures ParseBody(relations, Tag(w), d, o) == Ok(View(relations, w), o + |EncodeBody(w)|)
  {
    hide At, ParseBegin, ParseRelation, ParseInsert, ParseUpdate, ParseDelete, ParseTruncate, ParseType, ParseOrigin, ParseLogical, EncodeTuple, EncodeColumns, FitsTuple, FitsColumns, FitsText, FitsOld, ViewRow;
    if w.WBegin? {
      BeginAt(relations, d, o, w);
    } else if w.WRelation? {
      RelationAt(d, o, w.id, w.namespace, w.name, w.replicaIdentity, w.columns);
    } else if w.WTruncate? {
      TruncateAt(relations, d, o, w);
    } else if w.WType? {
      TypeAt(d, o, w);
    } else if w.WOrigin? {
      OriginAt(d, o, w);
    } else if w.WLogical? {
      LogicalAt(d, o, w);
    } else if w.WUpdate? && w.before.Some? {
      UpdateAt(relations, d, o, w.id, w.before.value, w.newCells);
    } else if w.WUpdate? {
      PlainUpdateAt(relations, d, o, w);
    } else if w.WCommit? {
      AtFits(d, o, EncodeBody(w));
    } else {
      InsertOrDeleteAt(relations, d, o, w);
    }
  }

  /** Wherever the encoding of a message lies, whatever follows it, decoding gives back the message and its length. */
  lemma MessageRoundTrip(relations: Relations, d: ByteString, o: nat, w: Wire)
    requires WellFormed(relations, w) && At(d, o, Encode(w))
    ensures ParseMessage(relations, d, o) == Ok(View(relations, w), o + |Encode(w)|)
  {
    ByteAt(d, o, Tag(w), EncodeBody(w));
    BodyAt(relations, d, o + 1, w);
  }

  // ---------------------------------------------------------------- where cuts may fall

  /** How many bytes of an UPDATE lie in front of its new tuple. */
  function MarkerOffset(w: Wire): nat
    requires w.WUpdate? && w.before.Some?
  {
    7 + |EncodeTuple(w.before.value.cells)|
  }

  predicate IsMarker(w: Wire, k: nat) {
    w.WUpdate? && w.before.Some? && k == MarkerOffset(w)
  }

  /** A tuple decoded in a prefix of what was written is the tuple written, and ends where it ends. */
  lemma TuplePrefix(relations: Relations, d: ByteString, whole: ByteString, o: nat, id: nat, kind: Byte, cells: seq<WireCell>)
    requires d <= whole && o <= |d| && FitsTuple(relations, id, cells) && At(whole, o, EncodeTuple(cells))
    ensures var r := ParseTuple(relations, d, o, id, kind); var p := o + |EncodeTuple(cells)|;
            if p <= |d| then r == Ok(ViewRow(relations, id, kind, cells), p) else r.Incomplete?
  {
    hide At, ParseTuple, EncodeTuple, FitsTuple, ViewRow;
    if o + |EncodeTuple(cells)| <= |d| {
      AtExtends(d, whole, o, EncodeTuple(cells));
      TupleAt(relations, d, o, id, kind, cells);
    } else {
      assert Extends(d, whole, 0);
      TupleStands(relations, d, o, whole, 0, id, kind);
      TupleAt(relations, whole, o, id, kind, cells);
    }
  }

  lemma RowPrefix(relations: Relations, d: ByteString, whole: ByteString, o: nat, id: nat, kind: Byte,
                  cells: seq<WireCell>, tail: ByteString)
    requires d <= whole && o + 5 <= |d| && FitsTuple(relations, id, cells)
    requires At(whole, o, ToBe(id, 4) + ([kind] + (EncodeTuple(cells) + tail)))
    ensures d[o + 4] == kind
    ensures var r := ParseTuple(relations, d, o + 5, Be(d, o, 4), kind); var p := o + 5 + |EncodeTuple(cells)|;
            if p <= |d| then r == Ok(ViewRow(relations, id, kind, cells), p) else r.Incomplete?
    ensures At(whole, o + 5 + |EncodeTuple(cells)|, tail)
  {
    hide At, Be, ParseTuple, EncodeTuple, FitsCell, ViewRow, Pow256;
    NumberAt(whole, o, id, 4, [kind] + (EncodeTuple(cells) + tail));
    ByteAt(whole, o + 4, kind, EncodeTuple(cells) + tail);
    AtBoth(whole, o + 5, EncodeTuple(cells), tail);
    BeStands(d, o, whole, 0, 4);
    TuplePrefix(relations, d, whole, o + 5, id, kind, cells);
  }

  /** An UPDATE with an old tuple, cut short, is accepted exactly at its marker. */
  lemma PartialOldUpdate(relations: Relations, d: ByteString, whole: ByteString, id: nat, was: OldTuple, cells: seq<WireCell>)
    requires FitsOld(relations, id, was) && d <= whole && |d| >= 6
    requires At(whole, 1, ToBe(id, 4) + ([was.kind] + (EncodeTuple(was.cells) + ([TUPLE_NEW] + EncodeTuple(cells)))))
    ensures var r := ParseUpdate(relations, d, 1);
            r.Ok? && CutAtMarker(r.value) <==> |d| == 7 + |EncodeTuple(was.cells)|
  {
    var p := 6 + |EncodeTuple(was.cells)|;
    RowPrefix(relations, d, whole, 1, id, was.kind, was.cells, [TUPLE_NEW] + EncodeTuple(cells));
    ByteAt(whole, p, TUPLE_NEW, EncodeTuple(cells));
    AfterOldCut(relations, d, p, Be(d, 1, 4), ViewRow(relations, id, was.kind, was.cells));
  }

  lemma AfterOldCut(relations: Relations, d: ByteString, o: nat, id: nat, oldRow: Row)
    requires o < |d| ==> d[o] == TUPLE_NEW
    ensures o <= |d| ==>
            var r := ParseAfterOld(relations, d, o, id, oldRow); (r.Ok? && CutAtMarker(r.value) <==> |d| == o + 1)
  {
  }

  lemma PartialPlainUpdate(relations: Relations, w: Wire, k: nat)
    requires WellFormed(relations, w) && w.WUpdate? && w.before.None? && 6 <= k < |Encode(w)|
    ensures var r := ParseUpdate(relations, Encode(w)[..k], 1); !(r.Ok? && CutAtMarker(r.value))
  {
    AtFront(Encode(w), []);
    ByteAt(Encode(w), 0, TAG_UPDATE, EncodeBody(w));
    assert EncodeTuple(w.newCells) + [] == EncodeTuple(w.newCells);
    RowPrefix(relations, Encode(w)[..k], Encode(w), 1, w.id, TUPLE_NEW, w.newCells, []);
  }

  /** A proper prefix of an encoded message is never refused, and is complete only at the marker. */
  lemma PartialMessage(relations: Relations, w: Wire, k: nat)
    requires WellFormed(relations, w) && 0 < k < |Encode(w)|
    ensures var r := ParseMessage(relations, Encode(w)[..k], 0);
            if IsMarker(w, k) then r.Ok? && CutAtMarker(r.value) else r.Incomplete?
  {
    hide At, ParseMessage, EncodeBody, WellFormed, View;
    var d := Encode(w)[..k];
    assert var r := ParseMessage(relations, d, 0); r.Incomplete? || (r.Ok? && CutAtMarker(r.value)) by {
      AtFront(Encode(w), []);
      MessageRoundTrip(relations, Encode(w), 0, w);
      MessageStands(relations, d, 0, Encode(w), 0);
    }
    PartialMarker(relations, w, k);
  }

  lemma ShortUpdate(relations: Relations, d: ByteString)
    requires 0 < |d| < 6
    ensures ParseUpdate(relations, d, 1).Incomplete?
  {
  }

  lemma PartialMarker(relations: Relations, w: Wire, k: nat)
    requires WellFormed(relations, w) && 0 < k < |Encode(w)|
    ensures var r := ParseMessage(relations, Encode(w)[..k], 0); (r.Ok? && CutAtMarker(r.value) <==> IsMarker(w, k))
  {
    hide At, Be, ParseUpdate, EncodeTuple, FitsTuple, ViewRow;
    var d := Encode(w)[..k];
    assert d[0] == Tag(w);
    if w.WUpdate? && k < 6 {
      ShortUpdate(relations, d);
    } else if !w.WUpdate? {
      var r := ParseMessage(relations, d, 0);
      if r.Ok? && CutAtMarker(r.value) {
        MarkerVerdictFalls(relations, d, 0);
      }
    } else if w.before.Some? {
      AtFront(Encode(w), []);
      ByteAt(Encode(w), 0, TAG_UPDATE, EncodeBody(w));
      PartialOldUpdate(relations, d, Encode(w), w.id, w.before.value, w.newCells);
    } else {
      PartialPlainUpdate(relations, w, k);
    }
  }

  // ---------------------------------------------------------------- whole streams

  /** A server as a writer of streams for the parser. */
  function Server(): Writer<State, Wire, Message> {
    Writer(
      (w: Wire) => Encode(w),
      (s: State, w: Wire) => WellFormed(s.relations, w),
      (s: State, w: Wire) => View(s.relations, w),
      (w: Wire, k: nat) => IsMarker(w, k))
  }

  /** A run of a server's messages: the meaning of its stream. */
  function Meaning(filters: seq<ByteString>, s: State, ms: seq<Wire>): Session {
    Run(Codec(filters), Server(), s, ms)
  }

  predicate WritableTo(filters: seq<ByteString>, s: State, ms: seq<Wire>) {
    Writable(Codec(filters), Server(), s, ms)
  }

  lemma ViewIsWhole(relations: Relations, w: Wire)
    ensures !CutAtMarker(View(relations, w))
  {
    hide ViewRow;
  }

  /** The parser reads back what a server writes, and takes only an UPDATE's marker for an end. */
  lemma ServerIsReadBack(filters: seq<ByteString>)
    ensures ReadsBack(Codec(filters), Server()) && CutsAtMarkers(Codec(filters), Server())
  {
    hide At, ParseMessage, Encode, View, WellFormed, IsMarker;
    var c, w := Codec(filters), Server();
    forall s, m, d, o: nat | w.fits(s, m) && At(d, o, w.encode(m))
      ensures !c.partial(w.view(s, m)) && c.parse(s, d, o) == Ok(w.view(s, m), o + |w.encode(m)|)
    {
      AtFits(d, o, Encode(m));
      ViewIsWhole(s.relations, m);
      MessageRoundTrip(s.relations, d, o, m);
    }
    forall s, m, k | w.fits(s, m) && 0 < k < |w.encode(m)|
      ensures if w.marker(m, k) then c.Cut(s, w.encode(m)[..k], 0) else c.parse(s, w.encode(m)[..k], 0).Incomplete?
    {
      PartialMessage(s.relations, m, k);
    }
  }

  /** Round trip of whole streams: a server's messages are consumed to the last byte and executed as written. */
  lemma ServerStreamRoundTrip(filters: seq<ByteString>, s: State, ms: seq<Wire>, rest: ByteString)
    requires WritableTo(filters, s, ms)
    ensures var c, run, stream := Codec(filters), Meaning(filters, s, ms), EncodeAll(Server(), ms);
            && Drain(c, s, stream, 0) == run
            && Drain(c, s, stream + rest, 0) ==
               if run.stop.Some? then run else After(run.sent, Drain(c, run.state, stream + rest, |stream|))
  {
    hide At, Codec, Server, Drain, Run, EncodeAll, Writable;
    ServerIsReadBack(filters);
    WholeStream(Codec(filters), Server(), s, ms);
    AtFront(EncodeAll(Server(), ms), rest);
    StreamRoundTrip(Codec(filters), Server(), s, EncodeAll(Server(), ms) + rest, 0, ms);
  }

  /**
   * End to end: however the bytes of a server's messages are fragmented, short of a cut right
   * after an UPDATE's marker, the session ends as if the messages had been executed one by one;
   * if one of them is refused, after the same changes and with the same fault.
   */
  lemma ServerDelivers(filters: seq<ByteString>, s: State, ms: seq<Wire>, fragments: seq<ByteString>)
    requires WritableTo(filters, s, ms) && Concat(fragments) == EncodeAll(Server(), ms)
    requires forall k | 0 < k < |fragments| :: !AtMarker(Server(), ms, |Concat(fragments[..k])|)
    ensures FeedAll(Codec(filters), Fresh(s), fragments) == Meaning(filters, s, ms)
  {
    CodecIsStable(filters);
    ServerIsReadBack(filters);
    DeliveredAsWritten(Codec(filters), Server(), s, ms, fragments);
  }

  /** Without old tuples on UPDATEs, any fragmentation at all delivers the stream as written. */
  lemma ServerDeliversWithoutOldTuples(filters: seq<ByteString>, s: State, ms: seq<Wire>, fragments: seq<ByteString>)
    requires WritableTo(filters, s, ms) && Concat(fragments) == EncodeAll(Server(), ms)
    requires forall m <- ms :: m.WUpdate? ==> m.before.None?
    ensures FeedAll(Codec(filters), Fresh(s), fragments) == Meaning(filters, s, ms)
  {
    forall k | 0 < k < |fragments| ensures !AtMarker(Server(), ms, |Concat(fragments[..k])|) {
      NoMarkers(ms, |Concat(fragments[..k])|);
    }
    ServerDelivers(filters, s, ms, fragments);
  }

  lemma {:induction false} NoMarkers(ms: seq<Wire>, k: nat)
    requires forall m <- ms :: m.WUpdate? ==> m.before.None?
    ensures !AtMarker(Server(), ms, k)
    decreases |ms|
  {
    if ms != [] && k > 0 {
      assert ms[0] in ms;
      if k >= |Encode(ms[0])| {
        NoMarkers(ms[1..], k - |Encode(ms[0])|);
      }
    }
  }

  // ---------------------------------------------------------------- what never arrives

  /** Building the event of a TRUNCATE succeeds only by being filtered out: nothing is ever sent. */
  lemma TruncateSendsNothing(relations: Relations, filters: seq<ByteString>, id: nat)
    ensures var r := ChangesFor(relations, filters, OpTruncate, id, None, None);
            && (r.Success? ==> r.value == [])
            && (r.Success? <==> id in relations && filters != [] && relations[id].name !in filters)
  {
  }

  lemma ExecSendsNoTruncate(s: State, filters: seq<ByteString>, m: Message)
    ensures var r := Exec(s, filters, m); r.Success? ==> forall c <- r.value.1 :: c.op != OpTruncate
  {
  }

  /** So no run of messages sends a TRUNCATE, whatever tables it names. */
  lemma {:induction false} RunSendsNoTruncate(filters: seq<ByteString>, s: State, ms: seq<Wire>)
    ensures forall c <- Meaning(filters, s, ms).sent :: c.op != OpTruncate
    decreases |ms|
  {
    if ms != [] {
      var m := View(s.relations, ms[0]);
      ExecSendsNoTruncate(s, filters, m);
      var r := Exec(s, filters, m);
      if r.Success? {
        RunSendsNoTruncate(filters, r.value.0, ms[1..]);
      }
    }
  }
}
