/**
 * The pgoutput decoder as functions on bytes: what one message means, what it does
 * to the parser's relation table and transaction, and what draining a buffer yields.
 * The format is section 55.9 (Logical Replication Message Formats) of the
 * PostgreSQL 16 documentation.
 *
 * The class in WalParser.dfy does the same work step by step, with offsets and loops,
 * and is proved against these functions.
 */
module Pgoutput {
  import opened Wrappers
  import opened Bytes
  import opened Streaming
  import Lsn

  // ---------------------------------------------------------------- entities

  datatype Column = Column(flags: Byte, name: ByteString, typeId: nat, typeMod: int)

  datatype Relation = Relation(
    id: nat, namespace: ByteString, name: ByteString, replicaIdentity: Byte,
    columns: seq<Column>, keyColumns: seq<ByteString>)

  type Relations = map<nat, Relation>

  /** One decoded column; a None value is SQL NULL. */
  datatype Cell = Cell(name: ByteString, value: Option<ByteString>, typeId: nat)

  datatype Row = Row(relationId: nat, tupleType: Byte, cells: seq<Cell>)

  datatype Txn = Txn(xid: nat, commitTime: int, finalLsn: string)

  datatype Message =
    | Begin(txn: Txn)
    | Commit
    | RelationDef(relation: Relation)
    | Insert(row: Row)
    | Update(relationId: nat, oldRow: Option<Row>, newRow: Option<Row>)
    | Delete(row: Row)
    | Truncate(relationIds: seq<nat>)
    | TypeDef
    | Origin
    | Logical

  /** Every error other than "more bytes are needed". */
  datatype Fault =
    | UnsupportedMessage(tag: Byte)
    | UnexpectedTuple(tag: Byte)
    | UnknownRelation(id: nat)
    | UnknownColumnType(tag: Byte)
    | TooManyColumns(count: nat, id: nat)
    | NoData
    | NoColumns
    | MissingKeyColumn(name: ByteString)

  /** The verdict of a parser that reads a buffer from an offset on, as the source reads a slice. */
  type Decoded<T> = Parsed<T, Fault>

  const TAG_BEGIN: Byte := 66
  const TAG_COMMIT: Byte := 67
  const TAG_RELATION: Byte := 82
  const TAG_INSERT: Byte := 73
  const TAG_UPDATE: Byte := 85
  const TAG_DELETE: Byte := 68
  const TAG_TRUNCATE: Byte := 84
  const TAG_TYPE: Byte := 89
  const TAG_ORIGIN: Byte := 79
  const TAG_MESSAGE: Byte := 77

  const TUPLE_NEW: Byte := 78
  const TUPLE_OLD: Byte := 79
  const TUPLE_KEY: Byte := 75

  const CELL_NULL: Byte := 110
  const CELL_TEXT: Byte := 116
  const CELL_TOAST: Byte := 117

  // ---------------------------------------------------------------- parsing

  function CString(d: ByteString, o: nat): (r: Decoded<ByteString>)
    requires o <= |d|
    ensures r.Ok? ==> r.next == o + |r.value| + 1 <= |d|
    ensures !r.Fatal?
    decreases |d| - o
  {
    if o == |d| then Incomplete
    else if d[o] == 0 then Ok([], o + 1)
    else
      match CString(d, o + 1)
      case Ok(tail, next) => Ok([d[o]] + tail, next)
      case _ => Incomplete
  }

  function ParseBegin(d: ByteString, o: nat): (r: Decoded<Message>)
    requires o <= |d|
    ensures r.Ok? ==> o <= r.next <= |d|
  {
    if |d| < o + 20 then Incomplete
    else
      var txn := Txn(Be(d, o + 16, 4), Signed(Be(d, o + 8, 8), 64), Lsn.FormatUint64(Be(d, o, 8)));
      Ok(Begin(txn), o + 20)
  }

  function ParseCommit(d: ByteString, o: nat): (r: Decoded<Message>)
    requires o <= |d|
    ensures r.Ok? ==> o <= r.next <= |d|
  {
    if |d| < o + 25 then Incomplete else Ok(Commit, o + 25)
  }

  function ParseColumn(d: ByteString, o: nat): (r: Decoded<Column>)
    requires o <= |d|
    ensures r.Ok? ==> o < r.next <= |d|
    ensures !r.Fatal?
  {
    if |d| < o + 1 then Incomplete
    else
      match CString(d, o + 1)
      case Ok(name, p) =>
        if |d| < p + 8 then Incomplete
        else Ok(Column(d[o], name, Be(d, p, 4), Signed(Be(d, p + 4, 4), 32)), p + 8)
      case _ => Incomplete
  }

  function ParseColumns(d: ByteString, o: nat, count: nat): (r: Decoded<seq<Column>>)
    requires o <= |d|
    ensures r.Ok? ==> o <= r.next <= |d| && |r.value| == count
    ensures !r.Fatal?
    decreases count
  {
    if count == 0 then Ok([], o)
    else
      match ParseColumn(d, o)
      case Ok(column, p) =>
        (match ParseColumns(d, p, count - 1)
         case Ok(rest, q) => Ok([column] + rest, q)
         case _ => Incomplete)
      case _ => Incomplete
  }

  /** The names of the columns flagged as part of the key, in table order. */
  function KeyColumns(columns: seq<Column>): seq<ByteString> {
    if columns == [] then []
    else
      var last := columns[|columns| - 1];
      KeyColumns(columns[..|columns| - 1]) + if last.flags % 2 == 1 then [last.name] else []
  }

  /** Two names in a row, as in RELATION and TYPE messages. */
  function TwoNames(d: ByteString, o: nat): (r: Decoded<(ByteString, ByteString)>)
    requires o <= |d|
    ensures r.Ok? ==> r.next == o + |r.value.0| + |r.value.1| + 2 <= |d|
    ensures !r.Fatal?
  {
    match CString(d, o)
    case Ok(first, p) =>
      (match CString(d, p)
       case Ok(second, q) => Ok((first, second), q)
       case _ => Incomplete)
    case _ => Incomplete
  }

  function ParseRelation(d: ByteString, o: nat): (r: Decoded<Message>)
    requires o <= |d|
    ensures r.Ok? ==> o <= r.next <= |d|
  {
    if |d| < o + 7 then Incomplete
    else
      match TwoNames(d, o + 4)
      case Ok(names, p) => ParseRelationColumns(d, p, Be(d, o, 4), names.0, names.1)
      case _ => Incomplete
  }

  /** The part of a RELATION message behind its names: replica identity and columns. */
  function ParseRelationColumns(d: ByteString, o: nat, id: nat, namespace: ByteString, name: ByteString): (r: Decoded<Message>)
    requires o <= |d|
    ensures r.Ok? ==> o <= r.next <= |d|
  {
    if |d| < o + 1 then Incomplete
    else if |d| < o + 3 then Incomplete
    else
      match ParseColumns(d, o + 3, Be(d, o + 1, 2))
      case Ok(columns, p) => Ok(RelationDef(Relation(id, namespace, name, d[o], columns, KeyColumns(columns))), p)
      case _ => Incomplete
  }

  /** One column's value: a cell, or none for an unchanged TOAST value. */
  function ParseCell(d: ByteString, o: nat, column: Column): (r: Decoded<seq<Cell>>)
    requires o <= |d|
    ensures r.Ok? ==> o < r.next <= |d|
  {
    if |d| < o + 1 then Incomplete
    else if d[o] == CELL_NULL then Ok([Cell(column.name, None, column.typeId)], o + 1)
    else if d[o] == CELL_TEXT then
      if |d| < o + 5 then Incomplete
      else
        var length := Be(d, o + 1, 4);
        if |d| < o + 5 + length then Incomplete
        else Ok([Cell(column.name, Some(d[o + 5..o + 5 + length]), column.typeId)], o + 5 + length)
    else if d[o] == CELL_TOAST then Ok([], o + 1)
    else Fatal(UnknownColumnType(d[o]))
  }

  /** The cells of a tuple, one column after the other from column `i` to before `n`. */
  function ParseCells(d: ByteString, o: nat, columns: seq<Column>, i: nat, n: nat): (r: Decoded<seq<Cell>>)
    requires o <= |d| && i <= n <= |columns|
    ensures r.Ok? ==> o <= r.next <= |d|
    decreases n - i
  {
    if i == n then Ok([], o)
    else
      match ParseCell(d, o, columns[i])
      case Ok(cell, p) =>
        (match ParseCells(d, p, columns, i + 1, n)
         case Ok(rest, q) => Ok(cell + rest, q)
         case Incomplete => Incomplete
         case Fatal(fault) => Fatal(fault))
      case Incomplete => Incomplete
      case Fatal(fault) => Fatal(fault)
  }

  function Min(a: nat, b: nat): (m: nat)
    ensures m <= a && m <= b
  {
    if a < b then a else b
  }

  /** How many columns the parser counts in a relation: uint16(len(relation.Columns)). */
  function Width(relation: Relation): (w: nat)
    ensures w <= |relation.columns|
  {
    |relation.columns| % 0x1_0000
  }

  function ParseTuple(relations: Relations, d: ByteString, o: nat, id: nat, tupleType: Byte): (r: Decoded<Row>)
    requires o <= |d|
    ensures r.Ok? ==> o + 2 <= r.next <= |d| && r.value.relationId == id && r.value.tupleType == tupleType
    ensures r.Ok? ==> id in relations
  {
    if |d| < o + 2 then Incomplete
    else if id !in relations then Fatal(UnknownRelation(id))
    else
      var count := Be(d, o, 2);
      var relation := relations[id];
      match ParseCells(d, o + 2, relation.columns, 0, Min(count, Width(relation)))
      case Ok(cells, p) =>
        if count > Width(relation) then Fatal(TooManyColumns(count, id)) else Ok(Row(id, tupleType, cells), p)
      case Incomplete => Incomplete
      case Fatal(fault) => Fatal(fault)
  }

  function ParseInsert(relations: Relations, d: ByteString, o: nat): (r: Decoded<Message>)
    requires o <= |d|
    ensures r.Ok? ==> o <= r.next <= |d|
  {
    if |d| < o + 5 then Incomplete
    else if d[o + 4] != TUPLE_NEW then Fatal(UnexpectedTuple(d[o + 4]))
    else
      match ParseTuple(relations, d, o + 5, Be(d, o, 4), d[o + 4])
      case Ok(row, p) => Ok(Insert(row), p)
      case Incomplete => Incomplete
      case Fatal(fault) => Fatal(fault)
  }

  /**
   * An old tuple must be followed by the marker 'N'; when the bytes end right after
   * that marker, the message is accepted without its new tuple.
   */
  function ParseAfterOld(relations: Relations, d: ByteString, o: nat, id: nat, oldRow: Row): (r: Decoded<Message>)
    requires o <= |d|
    ensures r.Ok? ==> o <= r.next <= |d|
  {
    if |d| <= o || d[o] != TUPLE_NEW then Incomplete
    else if |d| == o + 1 then Ok(Update(id, Some(oldRow), None), o + 1)
    else
      match ParseTuple(relations, d, o + 1, id, TUPLE_NEW)
      case Ok(newRow, p) => Ok(Update(id, Some(oldRow), Some(newRow)), p)
      case Incomplete => Incomplete
      case Fatal(fault) => Fatal(fault)
  }

  function ParseUpdate(relations: Relations, d: ByteString, o: nat): (r: Decoded<Message>)
    requires o <= |d|
    ensures r.Ok? ==> o <= r.next <= |d|
  {
    if |d| < o + 5 then Incomplete
    else
      var id := Be(d, o, 4);
      if d[o + 4] != TUPLE_OLD && d[o + 4] != TUPLE_KEY && d[o + 4] != TUPLE_NEW then Fatal(UnexpectedTuple(d[o + 4]))
      else
        match ParseTuple(relations, d, o + 5, id, d[o + 4])
        case Ok(row, p) =>
          if d[o + 4] == TUPLE_NEW then Ok(Update(id, None, Some(row)), p) else ParseAfterOld(relations, d, p, id, row)
        case Incomplete => Incomplete
        case Fatal(fault) => Fatal(fault)
  }

  function ParseDelete(relations: Relations, d: ByteString, o: nat): (r: Decoded<Message>)
    requires o <= |d|
    ensures r.Ok? ==> o <= r.next <= |d|
  {
    if |d| < o + 5 then Incomplete
    else if d[o + 4] != TUPLE_OLD && d[o + 4] != TUPLE_KEY then Fatal(UnexpectedTuple(d[o + 4]))
    else
      match ParseTuple(relations, d, o + 5, Be(d, o, 4), d[o + 4])
      case Ok(row, p) => Ok(Delete(row), p)
      case Incomplete => Incomplete
      case Fatal(fault) => Fatal(fault)
  }

  function RelationIds(d: ByteString, o: nat, count: nat): (ids: seq<nat>)
    requires o + 4 * count <= |d|
    ensures |ids| == count
    decreases count
  {
    if count == 0 then [] else [Be(d, o, 4)] + RelationIds(d, o + 4, count - 1)
  }

  function ParseTruncate(d: ByteString, o: nat): (r: Decoded<Message>)
    requires o <= |d|
    ensures r.Ok? ==> o <= r.next <= |d|
  {
    if |d| < o + 5 then Incomplete
    else
      var count := Be(d, o, 4);
      if |d| < o + 5 + 4 * count then Incomplete
      else Ok(Truncate(RelationIds(d, o + 5, count)), o + 5 + 4 * count)
  }

  function ParseType(d: ByteString, o: nat): (r: Decoded<Message>)
    requires o <= |d|
    ensures r.Ok? ==> o <= r.next <= |d|
  {
    if |d| < o + 4 then Incomplete
    else
      match TwoNames(d, o + 4)
      case Ok(_, p) => Ok(TypeDef, p)
      case _ => Incomplete
  }

  function ParseOrigin(d: ByteString, o: nat): (r: Decoded<Message>)
    requires o <= |d|
    ensures r.Ok? ==> o <= r.next <= |d|
  {
    if |d| < o + 8 then Incomplete
    else
      match CString(d, o + 8)
      case Ok(_, p) => Ok(Origin, p)
      case _ => Incomplete
  }

  function ParseLogical(d: ByteString, o: nat): (r: Decoded<Message>)
    requires o <= |d|
    ensures r.Ok? ==> o <= r.next <= |d|
  {
    if |d| < o + 13 then Incomplete
    else
      match CString(d, o + 9)
      case Ok(_, p) =>
        if |d| < p + 4 then Incomplete
        else if |d| < p + 4 + Be(d, p, 4) then Incomplete
        else Ok(Logical, p + 4 + Be(d, p, 4))
      case _ => Incomplete
  }

  function ParseBody(relations: Relations, tag: Byte, d: ByteString, o: nat): (r: Decoded<Message>)
    requires o <= |d|
    ensures r.Ok? ==> o <= r.next <= |d|
  {
    if tag == TAG_BEGIN then ParseBegin(d, o)
    else if tag == TAG_COMMIT then ParseCommit(d, o)
    else if tag == TAG_RELATION then ParseRelation(d, o)
    else if tag == TAG_INSERT then ParseInsert(relations, d, o)
    else if tag == TAG_UPDATE then ParseUpdate(relations, d, o)
    else if tag == TAG_DELETE then ParseDelete(relations, d, o)
    else if tag == TAG_TRUNCATE then ParseTruncate(d, o)
    else if tag == TAG_TYPE then ParseType(d, o)
    else if tag == TAG_ORIGIN then ParseOrigin(d, o)
    else if tag == TAG_MESSAGE then ParseLogical(d, o)
    else Fatal(UnsupportedMessage(tag))
  }

  /** One whole message: a type byte and its body. */
  function ParseMessage(relations: Relations, d: ByteString, o: nat): (r: Decoded<Message>)
    requires o < |d|
    ensures r.Ok? ==> o < r.next <= |d|
  {
    ParseBody(relations, d[o], d, o + 1)
  }

  // ---------------------------------------------------------------- change events

  datatype Op = OpInsert | OpUpdate | OpDelete | OpTruncate

  /** A field of the event document: the table, the schema, or a column's value with its type. */
  datatype Field = Meta(text: ByteString) | Value(value: Option<ByteString>, typeId: nat)

  type Document = map<ByteString, Field>

  /** What an event says, apart from the LSN it is stamped with. */
  datatype Change = Change(op: Op, key: ByteString, data: Document)

  const FIELD_TABLE: ByteString := [95, 116, 97, 98, 108, 101]        // _table
  const FIELD_SCHEMA: ByteString := [95, 115, 99, 104, 101, 109, 97]  // _schema
  const NIL_TEXT: ByteString := [60, 110, 105, 108, 62]               // <nil>
  const COLON: Byte := 58

  /** The document of a row: a later column overwrites an earlier field of the same name. */
  function RowDocument(relation: Relation, cells: seq<Cell>): Document {
    if cells == [] then map[FIELD_TABLE := Meta(relation.name), FIELD_SCHEMA := Meta(relation.namespace)]
    else
      var last := cells[|cells| - 1];
      RowDocument(relation, cells[..|cells| - 1])[last.name := Value(last.value, last.typeId)]
  }

  function KeyText(value: Option<ByteString>): ByteString {
    if value.Some? then value.value else NIL_TEXT
  }

  /** The value of the last cell with the given name, if there is one. */
  function CellValue(cells: seq<Cell>, name: ByteString): Option<Option<ByteString>> {
    if cells == [] then None
    else
      var last := cells[|cells| - 1];
      if last.name == name then Some(last.value) else CellValue(cells[..|cells| - 1], name)
  }

  function KeyParts(cells: seq<Cell>, names: seq<ByteString>): (r: Result<seq<ByteString>, Fault>)
    ensures r.Success? ==> |r.value| == |names|
  {
    if names == [] then Success([])
    else
      match CellValue(cells, names[0])
      case None => Failure(MissingKeyColumn(names[0]))
      case Some(value) =>
        var rest :- KeyParts(cells, names[1..]);
        Success([KeyText(value)] + rest)
  }

  /** strings.Join(parts, ":"). */
  function JoinParts(parts: seq<ByteString>): ByteString {
    if parts == [] then []
    else if |parts| == 1 then parts[0]
    else parts[0] + [COLON] + JoinParts(parts[1..])
  }

  function RowKey(row: Row, relation: Relation): Result<ByteString, Fault> {
    if relation.keyColumns == [] then
      if row.cells == [] then Failure(NoColumns) else Success(KeyText(row.cells[0].value))
    else
      var parts :- KeyParts(row.cells, relation.keyColumns);
      Success(JoinParts(parts))
  }

  /** The changes sent for one operation: none for a filtered table, otherwise one. */
  function ChangesFor(relations: Relations, filters: seq<ByteString>, op: Op, id: nat,
                      newRow: Option<Row>, oldRow: Option<Row>): (r: Result<seq<Change>, Fault>)
    ensures r.Success? ==> |r.value| <= 1
  {
    if id !in relations then Failure(UnknownRelation(id))
    else
      var relation := relations[id];
      if filters != [] && relation.name !in filters then Success([])
      else
        var row := if newRow.Some? then newRow else oldRow;
        if row.None? then Failure(NoData)
        else
          var key :- RowKey(row.value, relation);
          Success([Change(op, key, RowDocument(relation, row.value.cells))])
  }

  /** What the parser remembers between messages. */
  datatype State = State(relations: Relations, txn: Option<Txn>)

  /** The effect of one message. TRUNCATE only ever logs, see TruncateSendsNothing. */
  function Exec(state: State, filters: seq<ByteString>, message: Message): Result<(State, seq<Change>), Fault> {
    match message
    case Begin(txn) => Success((state.(txn := Some(txn)), []))
    case Commit => Success((state.(txn := None), []))
    case RelationDef(relation) => Success((state.(relations := state.relations[relation.id := relation]), []))
    case Insert(row) =>
      var changes :- ChangesFor(state.relations, filters, OpInsert, row.relationId, Some(row), None);
      Success((state, changes))
    case Update(id, oldRow, newRow) =>
      var changes :- ChangesFor(state.relations, filters, OpUpdate, id, newRow, oldRow);
      Success((state, changes))
    case Delete(row) =>
      var changes :- ChangesFor(state.relations, filters, OpDelete, row.relationId, None, Some(row));
      Success((state, changes))
    case Truncate(_) => Success((state, []))
    case TypeDef => Success((state, []))
    case Origin => Success((state, []))
    case Logical => Success((state, []))
  }

  /** The message was accepted at its new-tuple marker, without its new tuple. */
  predicate CutAtMarker(message: Message) {
    message.Update? && message.newRow.None?
  }

  /** The parser as a decoder of streams, for a given list of tables to let through. */
  function Codec(filters: seq<ByteString>): Decoder<State, Message, Change, Fault> {
    Decoder(
      (s: State, d: ByteString, o: nat) => if o < |d| then ParseMessage(s.relations, d, o) else Incomplete,
      (s: State, m: Message) => Exec(s, filters, m),
      (m: Message) => CutAtMarker(m))
  }

  type Session = Drained<State, Change, Fault>
}
