/**
 * The WAL parser as it runs: a mutable relation table, transaction and byte buffer, and loops
 * that advance offsets. Every method is proved to do what the functions of Pgoutput.dfy and
 * the drain of Streaming.dfy say, so that fragment independence and the round trip hold of it.
 *
 * A Go slice `data[offset:]` appears here as the pair of `data` and the offset.
 */
module WalParsing {
  import opened Wrappers
  import opened Bytes
  import opened Streaming
  import opened Pgoutput
  import opened WalFrames
  import Lsn

  /** Put what a loop has read so far in front of what is still to be read. */
  function Behind<T>(read: seq<T>, r: Decoded<seq<T>>): Decoded<seq<T>> {
    match r
    case Ok(rest, next) => Ok(read + rest, next)
    case Incomplete => Incomplete
    case Fatal(fault) => Fatal(fault)
  }

  lemma BehindNothing<T>(r: Decoded<seq<T>>)
    ensures Behind([], r) == r
  {
    if r.Ok? {
      assert [] + r.value == r.value;
    }
  }

  // ---------------------------------------------------------------- reading

  method ReadCString(d: ByteString, o: nat) returns (r: Decoded<ByteString>)
    requires o <= |d|
    ensures r == CString(d, o)
  {
    var i := o;
    BehindNothing(CString(d, o));
    assert d[o..o] == [];
    while i < |d|
      invariant o <= i <= |d|
      invariant CString(d, o) == Behind(d[o..i], CString(d, i))
    {
      if d[i] == 0 {
        assert d[o..i] + [] == d[o..i];
        return Ok(d[o..i], i + 1);
      }
      OneMoreByte(d, o, i);
      i := i + 1;
    }
    return Incomplete;
  }

  lemma OneMoreByte(d: ByteString, o: nat, i: nat)
    requires o <= i < |d| && d[i] != 0
    ensures Behind(d[o..i], CString(d, i)) == Behind(d[o..i + 1], CString(d, i + 1))
  {
    var r := CString(d, i + 1);
    if r.Ok? {
      assert d[o..i] + ([d[i]] + r.value) == d[o..i + 1] + r.value;
    }
  }

  method ReadColumn(d: ByteString, o: nat) returns (r: Decoded<Column>)
    requires o <= |d|
    ensures r == ParseColumn(d, o)
  {
    if o + 1 > |d| {
      return Incomplete;
    }
    var name := ReadCString(d, o + 1);
    if !name.Ok? || name.next + 8 > |d| {
      return Incomplete;
    }
    r := Ok(Column(d[o], name.value, Be(d, name.next, 4), Signed(Be(d, name.next + 4, 4), 32)), name.next + 8);
  }

  method ReadColumns(d: ByteString, o: nat, count: nat) returns (r: Decoded<seq<Column>>, keyColumns: seq<ByteString>)
    requires o <= |d|
    ensures r == ParseColumns(d, o, count)
    ensures r.Ok? ==> keyColumns == KeyColumns(r.value)
  {
    var columns, p, i := [], o, 0;
    keyColumns := [];
    BehindNothing(ParseColumns(d, o, count));
    while i < count
      invariant o <= p <= |d| && i <= count
      invariant ParseColumns(d, o, count) == Behind(columns, ParseColumns(d, p, count - i))
      invariant keyColumns == KeyColumns(columns)
    {
      var column := ReadColumn(d, p);
      if !column.Ok? {
        return Incomplete, [];
      }
      OneMoreColumn(d, p, count - i, columns);
      columns := columns + [column.value];
      if column.value.flags % 2 == 1 {
        keyColumns := keyColumns + [column.value.name];
      }
      p, i := column.next, i + 1;
    }
    assert columns + [] == columns;
    r := Ok(columns, p);
  }

  lemma OneMoreColumn(d: ByteString, p: nat, left: nat, columns: seq<Column>)
    requires p <= |d| && left > 0 && ParseColumn(d, p).Ok?
    ensures var c := ParseColumn(d, p);
            && Behind(columns, ParseColumns(d, p, left)) == Behind(columns + [c.value], ParseColumns(d, c.next, left - 1))
            && KeyColumns(columns + [c.value]) == KeyColumns(columns) + if c.value.flags % 2 == 1 then [c.value.name] else []
  {
    hide ParseColumn;
    var c := ParseColumn(d, p);
    assert (columns + [c.value])[..|columns|] == columns;
    var r := ParseColumns(d, c.next, left - 1);
    if r.Ok? {
      assert columns + ([c.value] + r.value) == (columns + [c.value]) + r.value;
    }
  }

  method ReadCell(d: ByteString, o: nat, column: Column) returns (r: Decoded<seq<Cell>>)
    requires o <= |d|
    ensures r == ParseCell(d, o, column)
  {
    if o >= |d| {
      return Incomplete;
    }
    match d[o] {
      case 110 =>
        r := Ok([Cell(column.name, None, column.typeId)], o + 1);
      case 116 =>
        if o + 5 > |d| {
          return Incomplete;
        }
        var length := Be(d, o + 1, 4);
        if o + 5 + length > |d| {
          return Incomplete;
        }
        r := Ok([Cell(column.name, Some(d[o + 5..o + 5 + length]), column.typeId)], o + 5 + length);
      case 117 =>
        r := Ok([], o + 1);
      case _ =>
        r := Fatal(UnknownColumnType(d[o]));
    }
  }

  method ReadCells(d: ByteString, o: nat, columns: seq<Column>, n: nat) returns (r: Decoded<seq<Cell>>)
    requires o <= |d| && n <= |columns|
    ensures r == ParseCells(d, o, columns, 0, n)
  {
    var cells, p, i := [], o, 0;
    BehindNothing(ParseCells(d, o, columns, 0, n));
    while i < n
      invariant o <= p <= |d| && i <= n
      invariant ParseCells(d, o, columns, 0, n) == Behind(cells, ParseCells(d, p, columns, i, n))
    {
      var cell := ReadCell(d, p, columns[i]);
      if !cell.Ok? {
        return if cell.Fatal? then Fatal(cell.fault) else Incomplete;
      }
      AnotherCell(d, p, columns, i, n, cells);
      cells := cells + cell.value;
      p, i := cell.next, i + 1;
    }
    assert cells + [] == cells;
    r := Ok(cells, p);
  }

  lemma AnotherCell(d: ByteString, p: nat, columns: seq<Column>, i: nat, n: nat, cells: seq<Cell>)
    requires p <= |d| && i < n <= |columns| && ParseCell(d, p, columns[i]).Ok?
    ensures var c := ParseCell(d, p, columns[i]);
            Behind(cells, ParseCells(d, p, columns, i, n)) == Behind(cells + c.value, ParseCells(d, c.next, columns, i + 1, n))
  {
    hide ParseCell;
    var c := ParseCell(d, p, columns[i]);
    var r := ParseCells(d, c.next, columns, i + 1, n);
    if r.Ok? {
      assert cells + (c.value + r.value) == (cells + c.value) + r.value;
    }
  }

  method ReadTypeMessage(d: ByteString, o: nat) returns (r: Decoded<Message>)
    requires o <= |d|
    ensures r == ParseType(d, o) && !r.Fatal? && (r.Ok? ==> r.value == TypeDef)
  {
    if |d| < o + 4 {
      return Incomplete;
    }
    var name := ReadCString(d, o + 4);
    if !name.Ok? {
      return Incomplete;
    }
    name := ReadCString(d, name.next);
    if !name.Ok? {
      return Incomplete;
    }
    r := Ok(TypeDef, name.next);
  }

  method ReadOriginMessage(d: ByteString, o: nat) returns (r: Decoded<Message>)
    requires o <= |d|
    ensures r == ParseOrigin(d, o) && !r.Fatal? && (r.Ok? ==> r.value == Origin)
  {
    if |d| < o + 8 {
      return Incomplete;
    }
    var name := ReadCString(d, o + 8);
    r := if name.Ok? then Ok(Origin, name.next) else Incomplete;
  }

  method ReadGenericMessage(d: ByteString, o: nat) returns (r: Decoded<Message>)
    requires o <= |d|
    ensures r == ParseLogical(d, o) && !r.Fatal? && (r.Ok? ==> r.value == Logical)
  {
    if |d| < o + 13 {
      return Incomplete;
    }
    var prefix := ReadCString(d, o + 9);
    if !prefix.Ok? || |d| < prefix.next + 4 {
      return Incomplete;
    }
    var length := Be(d, prefix.next, 4);
    r := if |d| < prefix.next + 4 + length then Incomplete else Ok(Logical, prefix.next + 4 + length);
  }

  // ---------------------------------------------------------------- keys and documents

  method BuildDocument(relation: Relation, cells: seq<Cell>) returns (document: Document)
    ensures document == RowDocument(relation, cells)
  {
    document := map[FIELD_TABLE := Meta(relation.name), FIELD_SCHEMA := Meta(relation.namespace)];
    for i := 0 to |cells|
      invariant document == RowDocument(relation, cells[..i])
    {
      document := document[cells[i].name := Value(cells[i].value, cells[i].typeId)];
      assert cells[..i + 1][..i] == cells[..i];
    }
    assert cells[..|cells|] == cells;
  }

  /** The map holds, for every name, the value of the last cell of that name. */
  ghost predicate HoldsLastValues(valuesByName: map<ByteString, Option<ByteString>>, cells: seq<Cell>) {
    forall name :: CellValue(cells, name) == if name in valuesByName then Some(valuesByName[name]) else None
  }

  method ValuesByName(cells: seq<Cell>) returns (valuesByName: map<ByteString, Option<ByteString>>)
    ensures HoldsLastValues(valuesByName, cells)
  {
    valuesByName := map[];
    for i := 0 to |cells|
      invariant HoldsLastValues(valuesByName, cells[..i])
    {
      valuesByName := valuesByName[cells[i].name := cells[i].value];
      assert cells[..i + 1][..i] == cells[..i];
    }
    assert cells[..|cells|] == cells;
  }

  method ExtractPrimaryKey(row: Row, relation: Relation) returns (r: Result<ByteString, Fault>)
    ensures r == RowKey(row, relation)
  {
    var names := relation.keyColumns;
    if |names| == 0 {
      return if |row.cells| == 0 then Failure(NoColumns) else Success(KeyText(row.cells[0].value));
    }
    var valuesByName := ValuesByName(row.cells);
    var parts: seq<ByteString> := [];
    NoPartsYet(KeyParts(row.cells, names));
    assert names[0..] == names;
    for i := 0 to |names|
      invariant KeyParts(row.cells, names) == Parts(parts, KeyParts(row.cells, names[i..]))
    {
      assert names[i..][1..] == names[i + 1..];
      assert CellValue(row.cells, names[i]) == if names[i] in valuesByName then Some(valuesByName[names[i]]) else None;
      if names[i] !in valuesByName {
        return Failure(MissingKeyColumn(names[i]));
      }
      OneMorePart(parts, KeyText(valuesByName[names[i]]), KeyParts(row.cells, names[i + 1..]));
      parts := parts + [KeyText(valuesByName[names[i]])];
    }
    assert parts + [] == parts;
    r := Success(JoinParts(parts));
  }

  function Parts(parts: seq<ByteString>, r: Result<seq<ByteString>, Fault>): Result<seq<ByteString>, Fault> {
    if r.Success? then Success(parts + r.value) else r
  }

  lemma NoPartsYet(r: Result<seq<ByteString>, Fault>)
    ensures Parts([], r) == r
  {
    if r.Success? {
      assert [] + r.value == r.value;
    }
  }

  lemma OneMorePart(parts: seq<ByteString>, part: ByteString, r: Result<seq<ByteString>, Fault>)
    ensures Parts(parts, Parts([part], r)) == Parts(parts + [part], r)
  {
    if r.Success? {
      assert parts + ([part] + r.value) == (parts + [part]) + r.value;
    }
  }

  // ---------------------------------------------------------------- the parser

  /** The receiving end: the LSN of the frame being processed and the stream to the orchestrator. */
  class EventHandler {
    var currentLsn: string
    var sent: seq<Event>

    constructor (startLsn: string)
      ensures currentLsn == startLsn && sent == []
    {
      currentLsn, sent := startLsn, [];
    }
  }

  /** The round of the drain loop for a message with the given verdict. */
  function Effect(verdict: Decoded<Message>, s: State, filters: seq<ByteString>): Parsed<(State, seq<Change>), Fault> {
    match verdict
    case Incomplete => Incomplete
    case Fatal(fault) => Fatal(fault)
    case Ok(message, next) => Executed(Exec(s, filters, message), next)
  }

  lemma EffectIsStep(s: State, filters: seq<ByteString>, d: ByteString, o: nat)
    requires o < |d|
    ensures Effect(ParseMessage(s.relations, d, o), s, filters) == Codec(filters).Step(s, d, o)
  {
    hide ParseMessage, Exec;
  }

  /** A parser's state and what it has sent, before and after a round. */
  datatype Moment = Moment(state: State, sent: seq<Event>)

  /** The parser returned `r` and did what the round of the drain loop does; short of a message, nothing. */
  predicate Follows(effect: Parsed<(State, seq<Change>), Fault>, lsn: string, r: Decoded<()>, before: Moment, after: Moment) {
    match effect
    case Incomplete => r == Incomplete && after == before
    case Fatal(fault) => r == Fatal(fault) && after == before
    case Ok(result, next) =>
      r == Ok((), next) && after == Moment(result.0, before.sent + Stamped(lsn, result.1))
  }

  /** A round that sends nothing sends nothing whatever was sent before. */
  lemma Quietly(effect: Parsed<(State, seq<Change>), Fault>, lsn: string, r: Decoded<()>, s: State, t: State, sent: seq<Event>)
    requires Follows(effect, "", r, Moment(s, []), Moment(t, []))
    ensures Follows(effect, lsn, r, Moment(s, sent), Moment(t, sent))
  {
    if effect.Ok? {
      assert [] + Stamped("", effect.value.1) == Stamped("", effect.value.1);
      assert sent + Stamped(lsn, effect.value.1) == sent;
    }
  }

  /**
   * Draining ended as `run` says, with its changes stamped: either the undecoded tail is kept, or
   * the fault is returned and the buffer is left as it was.
   */
  predicate Drains(run: Session, lsn: string, r: Result<(), Stop<Fault>>, bufferBefore: ByteString, bufferAfter: ByteString,
                   sentBefore: seq<Event>, after: Moment) {
    && after == Moment(run.state, sentBefore + Stamped(lsn, run.sent))
    && if run.stop.None? then r == Success(()) && bufferAfter == run.tail
       else r == Failure(run.stop.value) && bufferAfter == bufferBefore
  }

  lemma MoreSent(rest: Session, sent: seq<Change>, more: seq<Change>, lsn: string, before: seq<Event>)
    ensures After(sent, After(more, rest)) == After(sent + more, rest)
    ensures before + Stamped(lsn, sent) + Stamped(lsn, more) == before + Stamped(lsn, sent + more)
  {
    AfterTwice(sent, more, rest);
    StampedInTwo(lsn, sent, more);
  }

  class WalParser {
    var relations: Relations
    var currentTxn: Option<Txn>
    const tableFilters: seq<ByteString>
    var logicalBuf: ByteString

    constructor (tableFilters: seq<ByteString>)
      ensures Session() == Fresh(State(map[], None)) && this.tableFilters == tableFilters
    {
      relations, currentTxn, logicalBuf := map[], None, [];
      this.tableFilters := tableFilters;
    }

    ghost function Current(): State
      reads this
    {
      State(relations, currentTxn)
    }

    /** The parser as a session of the stream decoder that nothing has stopped yet. */
    ghost function Session(): Session
      reads this
    {
      Drained(Current(), [], logicalBuf, None)
    }

    ghost function Now(handler: EventHandler): Moment
      reads this, handler
    {
      Moment(Current(), handler.sent)
    }

    method CreateChangeEvent(op: Op, lsn: string, id: nat, newRow: Option<Row>, oldRow: Option<Row>, handler: EventHandler)
      returns (r: Result<(), Fault>)
      modifies handler`sent
      ensures var changes := ChangesFor(relations, tableFilters, op, id, newRow, oldRow);
              if changes.Success? then r == Success(()) && handler.sent == old(handler.sent) + Stamped(lsn, changes.value)
              else r == Failure(changes.error) && handler.sent == old(handler.sent)
    {
      if id !in relations {
        return Failure(UnknownRelation(id));
      }
      var relation := relations[id];
      if |tableFilters| > 0 {
        var found := IsAllowed(relation.name);
        if !found {
          return Success(());
        }
      }
      var row := if newRow.Some? then newRow else oldRow;
      if row.None? {
        return Failure(NoData);
      }
      var document := BuildDocument(relation, row.value.cells);
      var key := ExtractPrimaryKey(row.value, relation);
      if key.Failure? {
        return Failure(key.error);
      }
      handler.sent := handler.sent + [Event(lsn, Change(op, key.value, document))];
      r := Success(());
    }

    method IsAllowed(name: ByteString) returns (found: bool)
      ensures found <==> name in tableFilters
    {
      found := false;
      for i := 0 to |tableFilters|
        invariant name !in tableFilters[..i]
      {
        if tableFilters[i] == name {
          return true;
        }
      }
    }

    method ReadTuple(d: ByteString, o: nat, id: nat, tupleType: Byte) returns (r: Decoded<Row>)
      requires o <= |d|
      ensures r == ParseTuple(relations, d, o, id, tupleType)
    {
      if |d| < o + 2 {
        return Incomplete;
      }
      var count := Be(d, o, 2);
      if id !in relations {
        return Fatal(UnknownRelation(id));
      }
      var relation := relations[id];
      var cells := ReadCells(d, o + 2, relation.columns, Min(count, Width(relation)));
      if !cells.Ok? {
        return if cells.Fatal? then Fatal(cells.fault) else Incomplete;
      }
      r := if count > Width(relation) then Fatal(TooManyColumns(count, id)) else Ok(Row(id, tupleType, cells.value), cells.next);
    }

    method HandleBegin(d: ByteString, o: nat) returns (r: Decoded<()>)
      requires o <= |d|
      modifies this`currentTxn
      ensures Follows(Effect(ParseBegin(d, o), old(Current()), tableFilters), "", r, Moment(old(Current()), []), Moment(Current(), []))
    {
      if |d| < o + 20 {
        return Incomplete;
      }
      var finalLsn, commitTime, xid := Be(d, o, 8), Signed(Be(d, o + 8, 8), 64), Be(d, o + 16, 4);
      currentTxn := Some(Txn(xid, commitTime, Lsn.FormatUint64(finalLsn)));
      r := Ok((), o + 20);
    }

    method HandleCommit(d: ByteString, o: nat) returns (r: Decoded<()>)
      requires o <= |d|
      modifies this`currentTxn
      ensures Follows(Effect(ParseCommit(d, o), old(Current()), tableFilters), "", r, Moment(old(Current()), []), Moment(Current(), []))
    {
      if |d| < o + 25 {
        return Incomplete;
      }
      currentTxn := None;
      r := Ok((), o + 25);
    }

    method HandleRelation(d: ByteString, o: nat) returns (r: Decoded<()>)
      requires o <= |d|
      modifies this`relations
      ensures Follows(Effect(ParseRelation(d, o), old(Current()), tableFilters), "", r, Moment(old(Current()), []), Moment(Current(), []))
    {
      if |d| < o + 7 {
        return Incomplete;
      }
      var id := Be(d, o, 4);
      var namespace := ReadCString(d, o + 4);
      if !namespace.Ok? {
        return Incomplete;
      }
      var name := ReadCString(d, namespace.next);
      if !name.Ok? {
        return Incomplete;
      }
      var p := name.next;
      if p >= |d| || p + 3 > |d| {
        return Incomplete;
      }
      hide CString, ParseColumns, Be;
      var columns, keyColumns := ReadColumns(d, p + 3, Be(d, p + 1, 2));
      if !columns.Ok? {
        return Incomplete;
      }
      relations := relations[id := Relation(id, namespace.value, name.value, d[p], columns.value, keyColumns)];
      r := Ok((), columns.next);
    }

    method HandleInsert(d: ByteString, o: nat, handler: EventHandler) returns (r: Decoded<()>)
      requires o <= |d|
      modifies handler`sent
      ensures Follows(Effect(ParseInsert(relations, d, o), Current(), tableFilters), handler.currentLsn, r, old(Now(handler)), Now(handler))
    {
      if |d| < o + 5 {
        return Incomplete;
      }
      var id, tupleType := Be(d, o, 4), d[o + 4];
      if tupleType != TUPLE_NEW {
        return Fatal(UnexpectedTuple(tupleType));
      }
      var row := ReadTuple(d, o + 5, id, tupleType);
      if !row.Ok? {
        return if row.Fatal? then Fatal(row.fault) else Incomplete;
      }
      var sent := CreateChangeEvent(OpInsert, handler.currentLsn, id, Some(row.value), None, handler);
      r := if sent.Failure? then Fatal(sent.error) else Ok((), row.next);
    }

    method HandleUpdate(d: ByteString, o: nat, handler: EventHandler) returns (r: Decoded<()>)
      requires o <= |d|
      modifies handler`sent
      ensures Follows(Effect(ParseUpdate(relations, d, o), Current(), tableFilters), handler.currentLsn, r, old(Now(handler)), Now(handler))
    {
      var rows := ReadUpdateRows(d, o);
      if !rows.Ok? {
        return if rows.Fatal? then Fatal(rows.fault) else Incomplete;
      }
      var sent := CreateChangeEvent(OpUpdate, handler.currentLsn, rows.value.relationId,
                                    rows.value.newRow, rows.value.oldRow, handler);
      r := if sent.Failure? then Fatal(sent.error) else Ok((), rows.next);
    }

    /** The tuples of an UPDATE: the old one if there is one, then the new one if any bytes are left for it. */
    method ReadUpdateRows(d: ByteString, o: nat) returns (r: Decoded<Message>)
      requires o <= |d|
      ensures r == ParseUpdate(relations, d, o)
      ensures r.Ok? ==> r.value.Update?
    {
      if |d| < o + 5 {
        return Incomplete;
      }
      var id, tupleType := Be(d, o, 4), d[o + 4];
      var oldRow, newRow, p := None, None, o + 5;
      if tupleType == TUPLE_OLD || tupleType == TUPLE_KEY {
        var row := ReadTuple(d, p, id, tupleType);
        if !row.Ok? {
          return if row.Fatal? then Fatal(row.fault) else Incomplete;
        }
        oldRow, p := Some(row.value), row.next;
        if p >= |d| || d[p] != TUPLE_NEW {
          return Incomplete;
        }
        p := p + 1;
      } else if tupleType == TUPLE_NEW {
        var row := ReadTuple(d, p, id, tupleType);
        if !row.Ok? {
          return if row.Fatal? then Fatal(row.fault) else Incomplete;
        }
        newRow, p := Some(row.value), row.next;
      } else {
        return Fatal(UnexpectedTuple(tupleType));
      }
      if newRow.None? && p < |d| {
        var row := ReadTuple(d, p, id, TUPLE_NEW);
        if !row.Ok? {
          return if row.Fatal? then Fatal(row.fault) else Incomplete;
        }
        newRow, p := Some(row.value), row.next;
      }
      r := Ok(Update(id, oldRow, newRow), p);
    }

    method HandleDelete(d: ByteString, o: nat, handler: EventHandler) returns (r: Decoded<()>)
      requires o <= |d|
      modifies handler`sent
      ensures Follows(Effect(ParseDelete(relations, d, o), Current(), tableFilters), handler.currentLsn, r, old(Now(handler)), Now(handler))
    {
      if |d| < o + 5 {
        return Incomplete;
      }
      var id, tupleType := Be(d, o, 4), d[o + 4];
      if tupleType != TUPLE_OLD && tupleType != TUPLE_KEY {
        return Fatal(UnexpectedTuple(tupleType));
      }
      var row := ReadTuple(d, o + 5, id, tupleType);
      if !row.Ok? {
        return if row.Fatal? then Fatal(row.fault) else Incomplete;
      }
      var sent := CreateChangeEvent(OpDelete, handler.currentLsn, id, None, Some(row.value), handler);
      r := if sent.Failure? then Fatal(sent.error) else Ok((), row.next);
    }

    /** Every event this method tries to send fails or is filtered out; the failures are only logged. */
    method HandleTruncate(d: ByteString, o: nat, handler: EventHandler) returns (r: Decoded<()>)
      requires o <= |d|
      modifies handler`sent
      ensures Follows(Effect(ParseTruncate(d, o), Current(), tableFilters), handler.currentLsn, r, old(Now(handler)), Now(handler))
    {
      if |d| < o + 5 {
        return Incomplete;
      }
      var count := Be(d, o, 4);
      if |d| < o + 5 + count * 4 {
        return Incomplete;
      }
      for i := 0 to count
        invariant handler.sent == old(handler.sent)
      {
        var _ := CreateChangeEvent(OpTruncate, "", Be(d, o + 5 + 4 * i, 4), None, None, handler);
      }
      assert Stamped(handler.currentLsn, []) == [];
      r := Ok((), o + 5 + 4 * count);
    }

    /** Decode and execute one message, if there is a whole one. */
    method ParseSingle(d: ByteString, o: nat, handler: EventHandler) returns (r: Decoded<()>)
      requires o < |d|
      modifies this`relations, this`currentTxn, handler`sent
      ensures Follows(Effect(ParseMessage(old(relations), d, o), old(Current()), tableFilters),
                      handler.currentLsn, r, old(Now(handler)), Now(handler))
    {
      hide ParseBegin, ParseCommit, ParseRelation, ParseInsert, ParseUpdate, ParseDelete, ParseTruncate,
        ParseType, ParseOrigin, ParseLogical, ChangesFor;
      assert handler.sent + Stamped(handler.currentLsn, []) == handler.sent;
      match d[o] {
        case 66 =>
          r := HandleBegin(d, o + 1);
          Quietly(Effect(ParseBegin(d, o + 1), old(Current()), tableFilters), handler.currentLsn, r, old(Current()), Current(), handler.sent);
        case 67 =>
          r := HandleCommit(d, o + 1);
          Quietly(Effect(ParseCommit(d, o + 1), old(Current()), tableFilters), handler.currentLsn, r, old(Current()), Current(), handler.sent);
        case 82 =>
          r := HandleRelation(d, o + 1);
          Quietly(Effect(ParseRelation(d, o + 1), old(Current()), tableFilters), handler.currentLsn, r, old(Current()), Current(), handler.sent);
        case 73 => r := HandleInsert(d, o + 1, handler);
        case 85 => r := HandleUpdate(d, o + 1, handler);
        case 68 => r := HandleDelete(d, o + 1, handler);
        case 84 => r := HandleTruncate(d, o + 1, handler);
        case 89 =>
          var message := ReadTypeMessage(d, o + 1);
          r := if message.Ok? then Ok((), message.next) else Incomplete;
        case 79 =>
          var message := ReadOriginMessage(d, o + 1);
          r := if message.Ok? then Ok((), message.next) else Incomplete;
        case 77 =>
          var message := ReadGenericMessage(d, o + 1);
          r := if message.Ok? then Ok((), message.next) else Incomplete;
        case tag => r := Fatal(UnsupportedMessage(tag));
      }
    }

    /** Decode and execute messages for as long as whole ones are buffered; keep the rest. */
    method ProcessBufferedMessages(handler: EventHandler) returns (r: Result<(), Stop<Fault>>)
      modifies this`relations, this`currentTxn, this`logicalBuf, handler`sent
      ensures Drains(Drain(Codec(tableFilters), old(Current()), old(logicalBuf), 0), handler.currentLsn, r,
                     old(logicalBuf), logicalBuf, old(handler.sent), Now(handler))
    {
      hide ParseMessage, Exec;
      var offset := 0;
      ghost var sent: seq<Change> := [];
      AfterTwice([], [], Drain(Codec(tableFilters), Current(), logicalBuf, 0));
      NothingStamped(handler.currentLsn, handler.sent);
      while offset < |logicalBuf|
        invariant offset <= |logicalBuf| && logicalBuf == old(logicalBuf)
        invariant Drain(Codec(tableFilters), old(Current()), logicalBuf, 0)
               == After(sent, Drain(Codec(tableFilters), Current(), logicalBuf, offset))
        invariant handler.sent == old(handler.sent) + Stamped(handler.currentLsn, sent)
      {
        ghost var step := Codec(tableFilters).Step(Current(), logicalBuf, offset);
        EffectIsStep(Current(), tableFilters, logicalBuf, offset);
        var consumed := ParseSingle(logicalBuf, offset, handler);
        match consumed {
          case Incomplete =>
            break;
          case Fatal(fault) =>
            assert sent + [] == sent;
            return Failure(Refused(fault));
          case Ok(_, next) =>
            MoreSent(Drain(Codec(tableFilters), step.value.0, logicalBuf, next), sent, step.value.1, handler.currentLsn, old(handler.sent));
            sent := sent + step.value.1;
            offset := next;
        }
      }
      assert sent + [] == sent;
      assert logicalBuf[0..] == logicalBuf && logicalBuf[|logicalBuf|..] == [];
      logicalBuf := logicalBuf[offset..];
      r := Success(());
    }

    /** Take over the frame's LSN, buffer its payload, and process what is buffered. */
    method ParseXLogData(frame: Frame, handler: EventHandler) returns (r: Result<(), Stop<Fault>>)
      modifies this`relations, this`currentTxn, this`logicalBuf, handler
      ensures handler.currentLsn == LsnAt(old(handler.currentLsn), frame)
      ensures Drains(Feed(Codec(tableFilters), old(Session()), frame.payload), handler.currentLsn, r,
                     old(logicalBuf) + frame.payload, logicalBuf, old(handler.sent), Now(handler))
    {
      var lsn := frame.walStart;
      if lsn == 0 {
        lsn := frame.serverWalEnd;
      }
      if lsn > 0 {
        handler.currentLsn := Lsn.FormatUint64(lsn);
      }
      NothingStamped(handler.currentLsn, handler.sent);
      assert logicalBuf + [] == logicalBuf;
      if |frame.payload| == 0 {
        return Success(());
      }
      AfterTwice([], [], Drain(Codec(tableFilters), Current(), logicalBuf + frame.payload, 0));
      logicalBuf := logicalBuf + frame.payload;
      r := ProcessBufferedMessages(handler);
    }

    /** The parser and its handler as a connection that nothing has stopped yet. */
    ghost function Connected(handler: EventHandler): Connection
      reads this, handler
    {
      Connection(handler.currentLsn, Session(), handler.sent)
    }

    /** The receive loop: frames are processed until there are no more or one fails. */
    method ProcessMessages(frames: seq<Frame>, handler: EventHandler) returns (r: Result<(), Stop<Fault>>)
      modifies this`relations, this`currentTxn, this`logicalBuf, handler
      ensures var end := ReceiveAll(tableFilters, old(Connected(handler)), frames);
              && Current() == end.session.state && handler.sent == end.sent && handler.currentLsn == end.lsn
              && if end.session.stop.None? then r == Success(()) && logicalBuf == end.session.tail
                 else r == Failure(end.session.stop.value)
    {
      hide Feed, Codec, LsnAt;
      ghost var start := Connected(handler);
      var i := 0;
      while i < |frames|
        invariant i <= |frames|
        invariant Reached(ReceiveAll(tableFilters, start, frames[..i]), Connected(handler))
      {
        ghost var before := Connected(handler);
        r := ParseXLogData(frames[i], handler);
        assert frames[..i + 1][..i] == frames[..i];
        ReachedNext(tableFilters, ReceiveAll(tableFilters, start, frames[..i]), before, frames[i]);
        if r.Failure? {
          OnceStopped(tableFilters, start, frames, i + 1);
          return;
        }
        i := i + 1;
      }
      assert frames[..|frames|] == frames;
      r := Success(());
    }
  }
}
