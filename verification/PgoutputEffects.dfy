/**
 * What each message of the stream does, told by its bytes: which change a row's message sends, with
 * which key and document, what a RELATION, BEGIN or COMMIT message leaves in the parser, and that
 * the other messages do nothing. The last part reads a stream of literal bytes.
 */
module PgoutputEffects {
  import opened Wrappers
  import opened Bytes
  import opened Streaming
  import opened Pgoutput
  import opened PgoutputEvents
  import opened PgoutputStability
  import opened PgoutputRoundTrip
  import Lsn

  // ---------------------------------------------------------------- the row that was written

  predicate Given(cells: seq<WireCell>, k: nat) {
    k < |cells| && !cells[k].ToastCell?
  }

  function TextOf(c: WireCell): Option<ByteString> {
    if c.TextCell? then Some(c.text) else None
  }

  /** The last column of this name whose value was written is column `k`. */
  predicate LastGiven(columns: seq<Column>, cells: seq<WireCell>, k: nat, name: ByteString)
    requires |cells| <= |columns|
  {
    Given(cells, k) && columns[k].name == name && forall n | k < n < |cells| && Given(cells, n) :: columns[n].name != name
  }

  predicate IsGiven(columns: seq<Column>, cells: seq<WireCell>, name: ByteString)
    requires |cells| <= |columns|
  {
    exists k :: 0 <= k < |cells| && LastGiven(columns, cells, k, name)
  }

  /** The field of this name: the written value of the last such column with its type, or the table's own fields. */
  ghost predicate FieldSays(relation: Relation, cells: seq<WireCell>, data: Document, name: ByteString)
    requires |cells| <= |relation.columns|
  {
    && (name in data <==> IsGiven(relation.columns, cells, name) || name == FIELD_TABLE || name == FIELD_SCHEMA)
    && (forall k: nat | LastGiven(relation.columns, cells, k, name) ::
          name in data && data[name] == Value(TextOf(cells[k]), relation.columns[k].typeId))
    && (!IsGiven(relation.columns, cells, name) && name == FIELD_TABLE ==> data[name] == Meta(relation.name))
    && (!IsGiven(relation.columns, cells, name) && name == FIELD_SCHEMA ==> data[name] == Meta(relation.namespace))
  }

  /** The document holds what was written, and nothing else. */
  ghost predicate DocumentSays(relation: Relation, cells: seq<WireCell>, data: Document)
    requires |cells| <= |relation.columns|
  {
    forall name :: FieldSays(relation, cells, data, name)
  }

  /** The key's parts are the texts of the key columns, each from the last column of its name. */
  ghost predicate PartsSay(relation: Relation, cells: seq<WireCell>, parts: seq<ByteString>)
    requires |cells| <= |relation.columns|
  {
    && |parts| == |relation.keyColumns|
    && forall i | 0 <= i < |parts| :: exists k: nat ::
         LastGiven(relation.columns, cells, k, relation.keyColumns[i]) && parts[i] == KeyText(TextOf(cells[k]))
  }

  /** The key joins these parts; without key columns it is the first value that was written. */
  ghost predicate KeySays(relation: Relation, cells: seq<WireCell>, key: ByteString)
    requires |cells| <= |relation.columns|
  {
    if relation.keyColumns == [] then
      exists k: nat :: Given(cells, k) && (forall n: nat | n < k :: !Given(cells, n)) && key == KeyText(TextOf(cells[k]))
    else exists parts :: PartsSay(relation, cells, parts) && key == JoinParts(parts)
  }

  // ---------------------------------------------------------------- the row as it is read

  /** How many values were written in front of column `k`. */
  function Place(cells: seq<WireCell>, k: nat): (p: nat)
    requires k <= |cells|
  {
    if k == 0 then 0 else (if cells[0].ToastCell? then 0 else 1) + Place(cells[1..], k - 1)
  }

  lemma {:induction false} PlaceGrows(cells: seq<WireCell>, k: nat, n: nat)
    requires k < n <= |cells|
    ensures Place(cells, k) <= Place(cells, n) && (Given(cells, k) ==> Place(cells, k) < Place(cells, n))
    decreases k
  {
    if k > 0 {
      PlaceGrows(cells[1..], k - 1, n - 1);
    }
  }

  /** Each written value is read at its place, and nothing else is read. */
  lemma {:induction false} ReadAtPlace(columns: seq<Column>, i: nat, cells: seq<WireCell>)
    requires i + |cells| <= |columns|
    ensures |ViewCells(columns, i, cells)| == Place(cells, |cells|)
    ensures forall k: nat | Given(cells, k) ::
              Place(cells, k) < Place(cells, |cells|) &&
              ViewCells(columns, i, cells)[Place(cells, k)] == Cell(columns[i + k].name, TextOf(cells[k]), columns[i + k].typeId)
    decreases |cells|
  {
    if cells != [] {
      ReadAtPlace(columns, i + 1, cells[1..]);
      forall k: nat | Given(cells, k)
        ensures Place(cells, k) < Place(cells, |cells|)
        ensures ViewCells(columns, i, cells)[Place(cells, k)] == Cell(columns[i + k].name, TextOf(cells[k]), columns[i + k].typeId)
      {
        PlaceGrows(cells, k, |cells|);
        if k > 0 {
          assert Given(cells[1..], k - 1) && cells[1..][k - 1] == cells[k];
        }
      }
    }
  }

  lemma {:induction false} PlaceIsTaken(cells: seq<WireCell>, p: nat) returns (k: nat)
    requires p < Place(cells, |cells|)
    ensures Given(cells, k) && Place(cells, k) == p
    decreases |cells|
  {
    if cells[0].ToastCell? {
      k := PlaceIsTaken(cells[1..], p);
      k := k + 1;
    } else if p == 0 {
      k := 0;
    } else {
      k := PlaceIsTaken(cells[1..], p - 1);
      k := k + 1;
    }
  }

  /** The last written column of a name is the last one that is read under it. */
  lemma LastRead(columns: seq<Column>, cells: seq<WireCell>, k: nat, name: ByteString)
    requires |cells| <= |columns| && LastGiven(columns, cells, k, name)
    ensures var view := ViewCells(columns, 0, cells); IsLast(view, Place(cells, k), name) && Names(view, name)
  {
    var view, p := ViewCells(columns, 0, cells), Place(cells, k);
    ReadAtPlace(columns, 0, cells);
    assert view[p].name == name;
    forall q | p < q < |view| ensures view[q].name != name {
      var n := PlaceIsTaken(cells, q);
      if n < k {
        PlaceGrows(cells, n, k);
      }
    }
  }

  lemma GivenRead(columns: seq<Column>, cells: seq<WireCell>, name: ByteString)
    requires |cells| <= |columns|
    ensures Names(ViewCells(columns, 0, cells), name) <==> IsGiven(columns, cells, name)
  {
    var view := ViewCells(columns, 0, cells);
    ReadAtPlace(columns, 0, cells);
    if Names(view, name) {
      var q :| 0 <= q < |view| && view[q].name == name;
      var k := PlaceIsTaken(cells, q);
      k := LastOfName(columns, cells, k);
    }
    if k :| 0 <= k < |cells| && LastGiven(columns, cells, k, name) {
      LastRead(columns, cells, k, name);
    }
  }

  lemma {:induction false} LastOfName(columns: seq<Column>, cells: seq<WireCell>, k: nat) returns (last: nat)
    requires |cells| <= |columns| && Given(cells, k)
    ensures LastGiven(columns, cells, last, columns[k].name)
    decreases |cells| - k
  {
    if n: nat :| k < n < |cells| && Given(cells, n) && columns[n].name == columns[k].name {
      last := LastOfName(columns, cells, n);
    } else {
      last := k;
    }
  }

  lemma DocumentRead(relation: Relation, cells: seq<WireCell>)
    requires |cells| <= |relation.columns|
    ensures DocumentSays(relation, cells, RowDocument(relation, ViewCells(relation.columns, 0, cells)))
  {
    var view := ViewCells(relation.columns, 0, cells);
    var data := RowDocument(relation, view);
    forall name ensures FieldSays(relation, cells, data, name) {
      DocumentHolds(relation, view, name);
      GivenRead(relation.columns, cells, name);
      hide ViewCells, RowDocument, Names;
      ReadAtPlace(relation.columns, 0, cells);
      forall k: nat | LastGiven(relation.columns, cells, k, name)
        ensures name in data && data[name] == Value(TextOf(cells[k]), relation.columns[k].typeId)
      {
        LastRead(relation.columns, cells, k, name);
        assert IsGiven(relation.columns, cells, name);
      }
    }
  }

  lemma PartRead(relation: Relation, cells: seq<WireCell>, name: ByteString) returns (k: nat)
    requires |cells| <= |relation.columns| && CellValue(ViewCells(relation.columns, 0, cells), name).Some?
    ensures LastGiven(relation.columns, cells, k, name)
    ensures CellValue(ViewCells(relation.columns, 0, cells), name) == Some(TextOf(cells[k]))
  {
    var view := ViewCells(relation.columns, 0, cells);
    CellValueIsLast(view, name);
    GivenRead(relation.columns, cells, name);
    k :| 0 <= k < |cells| && LastGiven(relation.columns, cells, k, name);
    LastRead(relation.columns, cells, k, name);
    ReadAtPlace(relation.columns, 0, cells);
  }

  /** A row that is read has a key exactly when one can be told from what was written, and it is that key. */
  lemma KeyRead(relation: Relation, id: nat, kind: Byte, cells: seq<WireCell>)
    requires |cells| <= |relation.columns|
    ensures var r := RowKey(Row(id, kind, ViewCells(relation.columns, 0, cells)), relation);
            && (r.Success? ==> KeySays(relation, cells, r.value))
            && (forall key :: KeySays(relation, cells, key) ==> r == Success(key))
  {
    if relation.keyColumns == [] {
      FirstRead(relation, cells);
    } else {
      JoinedRead(relation, cells);
    }
  }

  lemma FirstRead(relation: Relation, cells: seq<WireCell>)
    requires |cells| <= |relation.columns|
    ensures var view := ViewCells(relation.columns, 0, cells);
            && (view != [] <==> exists k: nat :: Given(cells, k))
            && forall k: nat | Given(cells, k) && forall n: nat | n < k :: !Given(cells, n) :: view != [] && view[0].value == TextOf(cells[k])
    ensures ViewCells(relation.columns, 0, cells) != [] ==> exists k: nat :: Given(cells, k) && forall n: nat | n < k :: !Given(cells, n)
  {
    var view := ViewCells(relation.columns, 0, cells);
    ReadAtPlace(relation.columns, 0, cells);
    if view != [] {
      var k := PlaceIsTaken(cells, 0);
      forall n: nat | n < k ensures !Given(cells, n) {
        PlaceGrows(cells, n, k);
      }
    }
    forall k: nat | Given(cells, k) && forall n: nat | n < k :: !Given(cells, n) ensures view != [] && view[0].value == TextOf(cells[k]) {
      var first := PlaceIsTaken(cells, 0);
      if first > k {
        PlaceGrows(cells, k, first);
      }
      assert first == k;
    }
  }

  lemma JoinedRead(relation: Relation, cells: seq<WireCell>)
    requires |cells| <= |relation.columns| && relation.keyColumns != []
    ensures var r := KeyParts(ViewCells(relation.columns, 0, cells), relation.keyColumns);
            && (r.Success? ==> PartsSay(relation, cells, r.value))
            && (forall parts :: PartsSay(relation, cells, parts) ==> r == Success(parts))
  {
    var view, names := ViewCells(relation.columns, 0, cells), relation.keyColumns;
    var r := KeyParts(view, names);
    if r.Success? {
      PartsAreSaid(relation, cells);
    }
    hide KeyParts, ViewCells, PartsSay;
    forall parts | PartsSay(relation, cells, parts) ensures r == Success(parts) {
      SaidParts(relation, cells, parts);
    }
  }

  lemma PartsAreSaid(relation: Relation, cells: seq<WireCell>)
    requires |cells| <= |relation.columns| && KeyParts(ViewCells(relation.columns, 0, cells), relation.keyColumns).Success?
    ensures PartsSay(relation, cells, KeyParts(ViewCells(relation.columns, 0, cells), relation.keyColumns).value)
  {
    var view, names := ViewCells(relation.columns, 0, cells), relation.keyColumns;
    var parts := KeyParts(view, names).value;
    assert |parts| == |names|;
    hide KeyParts, ViewCells, Names, CellValue, LastGiven;
    PartsAreColumns(view, names);
    forall i | 0 <= i < |names|
      ensures exists k: nat :: LastGiven(relation.columns, cells, k, names[i]) && parts[i] == KeyText(TextOf(cells[k]))
    {
      var k := PartRead(relation, cells, names[i]);
    }
  }

  lemma SaidParts(relation: Relation, cells: seq<WireCell>, parts: seq<ByteString>)
    requires |cells| <= |relation.columns| && PartsSay(relation, cells, parts)
    ensures KeyParts(ViewCells(relation.columns, 0, cells), relation.keyColumns) == Success(parts)
  {
    var view, names := ViewCells(relation.columns, 0, cells), relation.keyColumns;
    hide KeyParts, ViewCells, Names, CellValue;
    forall i | 0 <= i < |names| ensures Names(view, names[i]) && CellValue(view, names[i]).Some? && KeyText(CellValue(view, names[i]).value) == parts[i] {
      SaidPart(relation, cells, parts, i);
    }
    PartsAreColumns(view, names);
    assert KeyParts(view, names).value == parts;
  }

  lemma SaidPart(relation: Relation, cells: seq<WireCell>, parts: seq<ByteString>, i: nat)
    requires |cells| <= |relation.columns| && PartsSay(relation, cells, parts) && i < |parts|
    ensures var view, name := ViewCells(relation.columns, 0, cells), relation.keyColumns[i];
            Names(view, name) && CellValue(view, name).Some? && KeyText(CellValue(view, name).value) == parts[i]
  {
    var view, name := ViewCells(relation.columns, 0, cells), relation.keyColumns[i];
    var k: nat :| LastGiven(relation.columns, cells, k, name) && parts[i] == KeyText(TextOf(cells[k]));
    hide ViewCells, CellValue;
    LastRead(relation.columns, cells, k, name);
    ReadAtPlace(relation.columns, 0, cells);
    CellValueIsLast(view, name);
  }

  // ---------------------------------------------------------------- one message

  function Executed(s: State, r: Result<(State, seq<Change>), Fault>): Session {
    match r
    case Failure(fault) => Drained(s, [], [], Some(Refused(fault)))
    case Success(result) => Drained(result.0, result.1, [], None)
  }

  /** One payload that is one message: the message is executed, or its fault stops the session. */
  lemma OneMessage(filters: seq<ByteString>, s: State, w: Wire)
    requires WellFormed(s.relations, w)
    ensures Feed(Codec(filters), Fresh(s), Encode(w)) == Executed(s, Exec(s, filters, View(s.relations, w)))
  {
    var d := Encode(w);
    AtFront(d, []);
    MessageRoundTrip(s.relations, d, 0, w);
    hide At, View, Encode, WellFormed, Exec;
    assert d + [] == d;
    var start: Session := Fresh(s);
    assert start.tail + d == d;
    OneDrained(filters, s, d, View(s.relations, w));
  }

  lemma OneDrained(filters: seq<ByteString>, s: State, d: ByteString, m: Message)
    requires d != [] && ParseMessage(s.relations, d, 0) == Ok(m, |d|)
    ensures After([], Drain(Codec(filters), s, d, 0)) == Executed(s, Exec(s, filters, m))
  {
    hide ParseMessage, Exec;
    var c, r := Codec(filters), Exec(s, filters, m);
    if r.Success? {
      assert Drain(c, s, d, 0) == After(r.value.1, Drain(c, r.value.0, d, |d|));
      assert r.value.1 + [] == r.value.1;
    }
  }

  /** The bytes, received as one payload by a parser in this state. */
  function Received(filters: seq<ByteString>, s: State, d: ByteString): Session {
    Feed(Codec(filters), Fresh(s), d)
  }

  /**
   * Exactly one change has been sent, of this kind, with the key and the document of the written
   * cells; or there is no key in what was written, and that is a fault.
   */
  ghost predicate SendsRow(r: Session, s: State, op: Op, relation: Relation, cells: seq<WireCell>)
    requires |cells| <= |relation.columns|
  {
    && r.state == s && r.tail == []
    && if exists key :: KeySays(relation, cells, key)
       then && r.stop.None? && |r.sent| == 1 && r.sent[0].op == op
            && KeySays(relation, cells, r.sent[0].key) && DocumentSays(relation, cells, r.sent[0].data)
       else r.stop.Some? && r.sent == []
  }

  lemma RowIsSent(filters: seq<ByteString>, s: State, op: Op, id: nat, kind: Byte, cells: seq<WireCell>)
    requires id in s.relations && |cells| <= |s.relations[id].columns| && IsAllowed(filters, s.relations[id])
    ensures var row, relation := ViewRow(s.relations, id, kind, cells), s.relations[id];
            && (forall oldRow :: ChangesFor(s.relations, filters, op, id, Some(row), oldRow) ==
                                 ChangesFor(s.relations, filters, op, id, None, Some(row)))
            && match ChangesFor(s.relations, filters, op, id, Some(row), None)
               case Failure(_) => !exists key :: KeySays(relation, cells, key)
               case Success(changes) =>
                 && |changes| == 1 && changes[0].op == op
                 && KeySays(relation, cells, changes[0].key) && DocumentSays(relation, cells, changes[0].data)
  {
    KeyRead(s.relations[id], id, kind, cells);
    DocumentRead(s.relations[id], cells);
    hide KeySays, DocumentSays, ViewCells, RowKey, RowDocument;
  }

  /** An INSERT of an allowed table sends one insert of the row that was written. */
  lemma InsertIsSent(filters: seq<ByteString>, s: State, id: nat, cells: seq<WireCell>)
    requires WellFormed(s.relations, WInsert(id, cells)) && IsAllowed(filters, s.relations[id])
    ensures SendsRow(Received(filters, s, Encode(WInsert(id, cells))), s, OpInsert, s.relations[id], cells)
  {
    OneMessage(filters, s, WInsert(id, cells));
    RowIsSent(filters, s, OpInsert, id, TUPLE_NEW, cells);
    hide Encode, Codec, KeySays, DocumentSays, ViewRow, ChangesFor, Feed, IsAllowed, FitsCell;
  }

  /** An UPDATE sends one update of the new row, with or without an old one in front of it. */
  lemma UpdateIsSent(filters: seq<ByteString>, s: State, id: nat, before: Option<OldTuple>, cells: seq<WireCell>)
    requires WellFormed(s.relations, WUpdate(id, before, cells)) && IsAllowed(filters, s.relations[id])
    ensures SendsRow(Received(filters, s, Encode(WUpdate(id, before, cells))), s, OpUpdate, s.relations[id], cells)
  {
    var w := WUpdate(id, before, cells);
    OneMessage(filters, s, w);
    RowIsSent(filters, s, OpUpdate, id, TUPLE_NEW, cells);
    UpdateViewed(s.relations, w);
    hide WellFormed, View, Encode, Codec, KeySays, DocumentSays, ViewRow, ChangesFor, Feed, IsAllowed;
  }

  lemma UpdateViewed(relations: Relations, w: Wire)
    requires w.WUpdate?
    ensures var m := View(relations, w);
            m.Update? && m.relationId == w.id && m.newRow == Some(ViewRow(relations, w.id, TUPLE_NEW, w.newCells))
  {
    hide ViewRow;
  }

  /** A DELETE sends one delete of the old row. */
  lemma DeleteIsSent(filters: seq<ByteString>, s: State, id: nat, before: OldTuple)
    requires WellFormed(s.relations, WDelete(id, before)) && IsAllowed(filters, s.relations[id])
    ensures SendsRow(Received(filters, s, Encode(WDelete(id, before))), s, OpDelete, s.relations[id], before.cells)
  {
    OneMessage(filters, s, WDelete(id, before));
    RowIsSent(filters, s, OpDelete, id, before.kind, before.cells);
    assert View(s.relations, WDelete(id, before)) == Delete(ViewRow(s.relations, id, before.kind, before.cells));
    hide WellFormed, View, Encode, Codec, KeySays, DocumentSays, ViewRow, ChangesFor, Feed, IsAllowed, FitsCell;
  }

  /** A row's message of a table that the filters hold back does nothing. */
  lemma HeldBack(filters: seq<ByteString>, s: State, w: Wire, id: nat)
    requires WellFormed(s.relations, w) && id in s.relations && !IsAllowed(filters, s.relations[id])
    requires (w.WInsert? && w.id == id) || (w.WUpdate? && w.id == id) || (w.WDelete? && w.id == id)
    ensures Received(filters, s, Encode(w)) == Drained(s, [], [], None)
  {
    OneMessage(filters, s, w);
    NothingFor(filters, s, id);
    NothingRun(filters, s, w, id);
    hide WellFormed, Encode, Codec, View, Exec, Feed, ChangesFor, IsAllowed;
  }

  lemma NothingRun(filters: seq<ByteString>, s: State, w: Wire, id: nat)
    requires (w.WInsert? && w.id == id) || (w.WUpdate? && w.id == id) || (w.WDelete? && w.id == id)
    requires forall op, newRow, oldRow :: ChangesFor(s.relations, filters, op, id, newRow, oldRow) == Success([])
    ensures Exec(s, filters, View(s.relations, w)) == Success((s, []))
  {
    hide ViewCells, ChangesFor;
    if w.WUpdate? {
      UpdateViewed(s.relations, w);
      hide View;
    }
  }

  lemma NothingFor(filters: seq<ByteString>, s: State, id: nat)
    requires id in s.relations && !IsAllowed(filters, s.relations[id])
    ensures forall op, newRow, oldRow :: ChangesFor(s.relations, filters, op, id, newRow, oldRow) == Success([])
  {
  }

  /** A RELATION message replaces exactly its own entry of the relation table. */
  lemma RelationIsLearnt(filters: seq<ByteString>, s: State, w: Wire)
    requires WellFormed(s.relations, w) && w.WRelation?
    ensures var r := Received(filters, s, Encode(w));
            && r == Drained(s.(relations := r.state.relations), [], [], None)
            && r.state.relations.Keys == s.relations.Keys + {w.id}
            && (forall id | id in s.relations && id != w.id :: r.state.relations[id] == s.relations[id])
            && var known := r.state.relations[w.id];
               && known.id == w.id && known.namespace == w.namespace && known.name == w.name
               && known.replicaIdentity == w.replicaIdentity && known.columns == w.columns && known.keyColumns == KeyColumns(w.columns)
  {
    OneMessage(filters, s, w);
    hide Encode, Codec, Feed, FitsColumns, KeyColumns;
  }

  /** The key columns are the flagged ones, in the order of the table. */
  lemma {:induction false} KeyColumnsInTwo(a: seq<Column>, b: seq<Column>)
    ensures KeyColumns(a + b) == KeyColumns(a) + KeyColumns(b)
    ensures |a| == 1 ==> KeyColumns(a) == if a[0].flags % 2 == 1 then [a[0].name] else []
    decreases |b|
  {
    if |a| == 1 {
      assert a[..0] == [] && KeyColumns([]) == [];
    }
    if b == [] {
      assert a + b == a;
    } else {
      var n := |b| - 1;
      KeyColumnsInTwo(a, b[..n]);
      FrontOfTwo(a, b);
      hide KeyColumns;
      KeyColumnsSnoc(a + b);
      KeyColumnsSnoc(b);
    }
  }

  lemma FrontOfTwo(a: seq<Column>, b: seq<Column>)
    requires b != []
    ensures (a + b)[..|a + b| - 1] == a + b[..|b| - 1] && (a + b)[|a + b| - 1] == b[|b| - 1]
  {
  }

  lemma KeyColumnsSnoc(a: seq<Column>)
    requires a != []
    ensures var last := a[|a| - 1];
            KeyColumns(a) == KeyColumns(a[..|a| - 1]) + if last.flags % 2 == 1 then [last.name] else []
  {
  }

  /** A BEGIN sets the transaction, with the position it will be committed at. */
  lemma BeginSetsTransaction(filters: seq<ByteString>, s: State, finalLsn: nat, commitTime: int, xid: nat)
    requires WellFormed(s.relations, WBegin(finalLsn, commitTime, xid))
    ensures var r := Received(filters, s, Encode(WBegin(finalLsn, commitTime, xid)));
            && r == Drained(s.(txn := r.state.txn), [], [], None) && r.state.txn.Some?
            && r.state.txn.value.xid == xid && r.state.txn.value.commitTime == commitTime
            && Lsn.LsnToUint64(r.state.txn.value.finalLsn) == Success(finalLsn)
  {
    OneMessage(filters, s, WBegin(finalLsn, commitTime, xid));
    Pow256Values();
    Lsn.FormatThenParse(finalLsn);
    hide Encode, Codec, Feed, FitsSigned;
  }

  /** A COMMIT clears it. */
  lemma CommitClearsTransaction(filters: seq<ByteString>, s: State, w: Wire)
    requires WellFormed(s.relations, w) && w.WCommit?
    ensures Received(filters, s, Encode(w)) == Drained(s.(txn := None), [], [], None)
  {
    OneMessage(filters, s, w);
    hide Encode, Codec, Feed, FitsSigned;
  }

  /** The other messages do nothing. */
  lemma OthersDoNothing(filters: seq<ByteString>, s: State, w: Wire)
    requires WellFormed(s.relations, w) && (w.WTruncate? || w.WType? || w.WOrigin? || w.WLogical?)
    ensures Received(filters, s, Encode(w)) == Drained(s, [], [], None)
  {
    OneMessage(filters, s, w);
    hide Encode, Codec, Feed, FitsText;
  }

  // ---------------------------------------------------------------- texts

  /** Parts are joined by single colons, and one part stands for itself. */
  lemma {:induction false} JoinInTwo(p: seq<ByteString>, q: seq<ByteString>)
    requires p != [] && q != []
    ensures JoinParts(p + q) == JoinParts(p) + [':' as int] + JoinParts(q)
    ensures |p| == 1 ==> JoinParts(p) == p[0]
    decreases |p|
  {
    if |p| == 1 {
      assert (p + q)[1..] == q;
    } else {
      assert (p + q)[1..] == p[1..] + q;
      JoinInTwo(p[1..], q);
      var rest: ByteString := [':' as int] + JoinParts(q);
      assert p[0] + [COLON] + (JoinParts(p[1..]) + rest) == (p[0] + [COLON] + JoinParts(p[1..])) + rest;
    }
  }

  /** The bytes are these characters. */
  predicate Spells(s: ByteString, text: string) {
    |s| == |text| && forall i | 0 <= i < |s| :: s[i] == text[i] as int
  }

  /** The texts that the parser puts into keys and documents of its own. */
  lemma OwnTexts()
    ensures Spells(KeyText(None), "<nil>") && Spells(FIELD_TABLE, "_table") && Spells(FIELD_SCHEMA, "_schema")
  {
  }

  // ---------------------------------------------------------------- a stream of literal bytes

  const ID_COLUMN := Column(1, [105, 100], 23, -1)
  const NAME_COLUMN := Column(0, [110, 97, 109, 101], 25, -1)

  /** public.users (id integer primary key, name text) */
  const USERS := Relation(16385, [112, 117, 98, 108, 105, 99], [117, 115, 101, 114, 115], 100,
                          [ID_COLUMN, NAME_COLUMN], [[105, 100]])

  /** A transaction that inserts the row (7, 'Ann'), renames it and deletes it, behind the table's description. */
  const WRITTEN: seq<Wire> := [
    WBegin(0x16B3748, 5, 739),
    WRelation(16385, USERS.namespace, USERS.name, 100, USERS.columns),
    WInsert(16385, [TextCell([55]), TextCell([65, 110, 110])]),
    WUpdate(16385, None, [TextCell([55]), NullCell]),
    WDelete(16385, OldTuple(TUPLE_KEY, [TextCell([55]), NullCell])),
    WCommit(0, 0x16B3748, 0x16B3778, 5)]

  const BEGIN_BYTES: ByteString := [66, 0, 0, 0, 0, 1, 0x6B, 0x37, 0x48, 0, 0, 0, 0, 0, 0, 0, 5, 0, 0, 2, 0xE3]
  const RELATION_BYTES: ByteString := [
    82, 0, 0, 0x40, 1, 112, 117, 98, 108, 105, 99, 0, 117, 115, 101, 114, 115, 0, 100, 0, 2,
    1, 105, 100, 0, 0, 0, 0, 23, 255, 255, 255, 255,
    0, 110, 97, 109, 101, 0, 0, 0, 0, 25, 255, 255, 255, 255]
  const WHOLE_ROW: ByteString := [0, 2, 116, 0, 0, 0, 1, 55, 116, 0, 0, 0, 3, 65, 110, 110]
  const KEY_ROW: ByteString := [0, 2, 116, 0, 0, 0, 1, 55, 110]
  const INSERT_BYTES: ByteString := [73, 0, 0, 0x40, 1, 78] + WHOLE_ROW
  const UPDATE_BYTES: ByteString := [85, 0, 0, 0x40, 1, 78] + KEY_ROW
  const DELETE_BYTES: ByteString := [68, 0, 0, 0x40, 1, 75] + KEY_ROW
  const COMMIT_BYTES: ByteString := [
    67, 0, 0, 0, 0, 0, 1, 0x6B, 0x37, 0x48, 0, 0, 0, 0, 1, 0x6B, 0x37, 0x78, 0, 0, 0, 0, 0, 0, 0, 5]

  lemma BeSnoc(v: nat, low: Byte, n: nat)
    ensures ToBe(256 * v + low, n + 1) == ToBe(v, n) + [low]
  {
    assert (256 * v + low) / 256 == v && (256 * v + low) % 256 == low;
  }

  lemma Be2(a: Byte, b: Byte)
    ensures ToBe(256 * a + b, 2) == [a, b]
  {
    assert ToBe(0, 0) == [];
    BeSnoc(0, a, 0);
    BeSnoc(a, b, 1);
    hide ToBe;
  }

  lemma Be4(a: Byte, b: Byte, c: Byte, d: Byte)
    ensures ToBe(256 * (256 * (256 * a + b) + c) + d, 4) == [a, b, c, d]
  {
    hide ToBe;
    Be2(a, b);
    BeSnoc(256 * a + b, c, 2);
    BeSnoc(256 * (256 * a + b) + c, d, 3);
  }

  lemma Be8(a: Byte, b: Byte, c: Byte, d: Byte)
    ensures ToBe(256 * (256 * (256 * a + b) + c) + d, 8) == [0, 0, 0, 0, a, b, c, d]
  {
    hide ToBe;
    Be4(0, 0, 0, 0);
    BeSnoc(0, a, 4);
    BeSnoc(a, b, 5);
    BeSnoc(256 * a + b, c, 6);
    BeSnoc(256 * (256 * a + b) + c, d, 7);
  }

  lemma Numbers()
    ensures ToBe(0x16B3748, 8) == [0, 0, 0, 0, 1, 0x6B, 0x37, 0x48] && ToBe(0x16B3778, 8) == [0, 0, 0, 0, 1, 0x6B, 0x37, 0x78]
    ensures ToBe(5, 8) == [0, 0, 0, 0, 0, 0, 0, 5]
  {
    hide ToBe;
    Be8(1, 0x6B, 0x37, 0x48);
    Be8(1, 0x6B, 0x37, 0x78);
    Be8(0, 0, 0, 5);
  }

  lemma SmallNumbers()
    ensures ToBe(739, 4) == [0, 0, 2, 0xE3] && ToBe(16385, 4) == [0, 0, 0x40, 1] && ToBe(23, 4) == [0, 0, 0, 23]
    ensures ToBe(25, 4) == [0, 0, 0, 25] && ToBe(0xFFFF_FFFF, 4) == [255, 255, 255, 255] && ToBe(2, 2) == [0, 2]
    ensures ToBe(1, 4) == [0, 0, 0, 1] && ToBe(3, 4) == [0, 0, 0, 3]
  {
    hide ToBe;
    Be4(0, 0, 2, 0xE3);
    Be4(0, 0, 0x40, 1);
    Be4(0, 0, 0, 23);
    Be4(0, 0, 0, 25);
    Be4(255, 255, 255, 255);
    Be4(0, 0, 0, 1);
    Be4(0, 0, 0, 3);
    Be2(0, 2);
  }

  lemma BeginBytes()
    ensures Encode(WRITTEN[0]) == BEGIN_BYTES
  {
    Numbers();
    SmallNumbers();
    hide ToBe;
    assert EncodeBody(WRITTEN[0]) == ToBe(0x16B3748, 8) + (ToBe(5, 8) + ToBe(739, 4));
  }

  const ID_BYTES: ByteString := [1, 105, 100, 0, 0, 0, 0, 23, 255, 255, 255, 255]
  const NAME_BYTES: ByteString := [0, 110, 97, 109, 101, 0, 0, 0, 0, 25, 255, 255, 255, 255]

  lemma ColumnBytes()
    ensures EncodeColumns(USERS.columns) == ID_BYTES + NAME_BYTES
  {
    var id, name := ID_COLUMN, NAME_COLUMN;
    OneColumnBytes();
    assert USERS.columns[1..] == [name] && [name][1..] == [];
    hide EncodeColumn, ID_COLUMN, NAME_COLUMN, ID_BYTES, NAME_BYTES;
    assert EncodeColumns([]) == [];
    assert EncodeColumns([name]) == EncodeColumn(name) + [] == EncodeColumn(name);
  }

  lemma OneColumnBytes()
    ensures EncodeColumn(ID_COLUMN) == ID_BYTES && EncodeColumn(NAME_COLUMN) == NAME_BYTES
  {
    Pow256Values();
    SmallNumbers();
    hide ToBe, Pow256;
    assert Unsigned(-1, 32) == 0xFFFF_FFFF;
    hide Unsigned;
  }

  const HEAD_BYTES: ByteString := [82, 0, 0, 0x40, 1, 112, 117, 98, 108, 105, 99, 0, 117, 115, 101, 114, 115, 0, 100, 0, 2]

  lemma RelationBytes()
    ensures Encode(WRITTEN[1]) == RELATION_BYTES
  {
    ColumnBytes();
    var namespace, name, columns := Terminated(USERS.namespace), Terminated(USERS.name), EncodeColumns(USERS.columns);
    assert Encode(WRITTEN[1]) == [82] + (ToBe(16385, 4) + (namespace + (name + ([100] + (ToBe(2, 2) + columns)))));
    HeadJoined(ToBe(16385, 4), namespace, name, ToBe(2, 2), columns);
    HeadBytes();
    LiteralRelation();
    hide Encode, EncodeColumns, ToBe, Terminated, HEAD_BYTES, ID_BYTES, NAME_BYTES, RELATION_BYTES;
  }

  lemma HeadBytes()
    ensures [82] + ToBe(16385, 4) + Terminated(USERS.namespace) + Terminated(USERS.name) + [100] + ToBe(2, 2) == HEAD_BYTES
  {
    SmallNumbers();
    hide ToBe;
  }

  lemma LiteralRelation()
    ensures HEAD_BYTES + (ID_BYTES + NAME_BYTES) == RELATION_BYTES
  {
  }

  lemma HeadJoined(a: ByteString, b: ByteString, c: ByteString, d: ByteString, e: ByteString)
    ensures [82] + (a + (b + (c + ([100] + (d + e))))) == ([82] + a + b + c + [100] + d) + e
  {
  }

  lemma CellBytes()
    ensures EncodeCell(TextCell([55])) == [116, 0, 0, 0, 1, 55] && EncodeCell(NullCell) == [110]
    ensures EncodeCell(TextCell([65, 110, 110])) == [116, 0, 0, 0, 3, 65, 110, 110]
  {
    SmallNumbers();
    hide ToBe;
  }

  lemma PairBytes(a: WireCell, b: WireCell)
    ensures EncodeTuple([a, b]) == ToBe(2, 2) + (EncodeCell(a) + EncodeCell(b))
  {
    hide EncodeCell, ToBe;
    assert [a, b][1..] == [b] && [b][1..] == [];
    assert EncodeCells([b]) == EncodeCell(b) + EncodeCells([]) == EncodeCell(b);
  }

  lemma TupleBytes()
    ensures EncodeTuple([TextCell([55]), TextCell([65, 110, 110])]) == WHOLE_ROW
    ensures EncodeTuple([TextCell([55]), NullCell]) == KEY_ROW
  {
    hide EncodeTuple, EncodeCell, ToBe;
    PairBytes(TextCell([55]), TextCell([65, 110, 110]));
    PairBytes(TextCell([55]), NullCell);
    CellBytes();
    TwoBytes();
    Tuples();
    hide WHOLE_ROW, KEY_ROW;
  }

  lemma TwoBytes()
    ensures ToBe(2, 2) == [0, 2]
  {
    hide ToBe;
    Be2(0, 2);
  }

  lemma Tuples()
    ensures [0, 2] + ([116, 0, 0, 0, 1, 55] + [116, 0, 0, 0, 3, 65, 110, 110]) == WHOLE_ROW
    ensures [0, 2] + ([116, 0, 0, 0, 1, 55] + [110]) == KEY_ROW
  {
  }

  lemma RowJoined(tag: Byte, kind: Byte, tuple: ByteString)
    ensures [tag] + (ToBe(16385, 4) + ([kind] + tuple)) == [tag, 0, 0, 0x40, 1, kind] + tuple
  {
    SmallNumbers();
    hide ToBe;
  }

  lemma RowBytes()
    ensures Encode(WRITTEN[2]) == INSERT_BYTES && Encode(WRITTEN[3]) == UPDATE_BYTES && Encode(WRITTEN[4]) == DELETE_BYTES
  {
    TupleBytes();
    RowJoined(73, 78, WHOLE_ROW);
    RowJoined(85, 78, KEY_ROW);
    RowJoined(68, 75, KEY_ROW);
    hide ToBe, EncodeTuple, WHOLE_ROW, KEY_ROW;
  }

  lemma CommitBytes()
    ensures Encode(WRITTEN[5]) == COMMIT_BYTES
  {
    Numbers();
    hide ToBe;
    assert EncodeBody(WRITTEN[5]) == [0] + (ToBe(0x16B3748, 8) + (ToBe(0x16B3778, 8) + ToBe(5, 8)));
  }

  const STREAM: ByteString := BEGIN_BYTES + (RELATION_BYTES + (INSERT_BYTES + (UPDATE_BYTES + (DELETE_BYTES + COMMIT_BYTES))))

  lemma StreamBytes()
    ensures EncodeAll(Server(), WRITTEN) == STREAM
  {
    BeginBytes();
    RelationBytes();
    RowBytes();
    CommitBytes();
    hide Encode;
    var w := Server();
    assert WRITTEN[1..][1..] == WRITTEN[2..] && WRITTEN[2..][1..] == WRITTEN[3..] && WRITTEN[3..][1..] == WRITTEN[4..];
    assert WRITTEN[4..][1..] == WRITTEN[5..] && WRITTEN[5..][1..] == [];
    assert EncodeAll(w, WRITTEN[5..]) == COMMIT_BYTES + [] == COMMIT_BYTES;
    assert EncodeAll(w, WRITTEN[4..]) == DELETE_BYTES + COMMIT_BYTES;
    assert EncodeAll(w, WRITTEN[3..]) == UPDATE_BYTES + EncodeAll(w, WRITTEN[4..]);
    assert EncodeAll(w, WRITTEN[2..]) == INSERT_BYTES + EncodeAll(w, WRITTEN[3..]);
    assert EncodeAll(w, WRITTEN[1..]) == RELATION_BYTES + EncodeAll(w, WRITTEN[2..]);
  }

  function Named(name: ByteString, text: Option<ByteString>): Document {
    map[FIELD_TABLE := Meta(USERS.name), FIELD_SCHEMA := Meta(USERS.namespace),
        ID_COLUMN.name := Value(Some([55]), 23), name := Value(text, 25)]
  }

  const KNOWING := State(map[16385 := USERS], Some(Txn(739, 5, Lsn.FormatUint64(0x16B3748))))

  lemma UsersRow(kind: Byte, c: WireCell, op: Op)
    requires c == NullCell || c == TextCell([65, 110, 110])
    ensures var row := ViewRow(KNOWING.relations, 16385, kind, [TextCell([55]), c]);
            && ChangesFor(KNOWING.relations, [], op, 16385, Some(row), None)
               == ChangesFor(KNOWING.relations, [], op, 16385, None, Some(row))
               == Success([Change(op, [55], Named(NAME_COLUMN.name, TextOf(c)))])
  {
    var cells, id, name := [TextCell([55]), c], Cell(ID_COLUMN.name, Some([55]), 23), Cell(NAME_COLUMN.name, TextOf(c), 25);
    assert cells[1..] == [c] && [c][1..] == [];
    assert ViewCells(USERS.columns, 1, [c]) == [name];
    var view := ViewCells(USERS.columns, 0, cells);
    assert view == [id, name];
    assert view[..1] == [id] && [id][..0] == [];
    assert RowDocument(USERS, [id]) == map[FIELD_TABLE := Meta(USERS.name), FIELD_SCHEMA := Meta(USERS.namespace), id.name := Value(id.value, 23)];
    assert RowDocument(USERS, view) == Named(NAME_COLUMN.name, TextOf(c));
    assert CellValue(view, ID_COLUMN.name) == Some(Some([55])) by {
      assert CellValue([id], ID_COLUMN.name) == Some(Some([55]));
    }
    var none: seq<ByteString> := [];
    assert USERS.keyColumns == [ID_COLUMN.name] && USERS.keyColumns[1..] == none && KeyParts(view, none) == Success(none);
    assert KeyText(Some([55])) == [55];
    var key: ByteString := [55];
    assert [key] + none == [key];
    assert KeyParts(view, USERS.keyColumns) == Success([key]);
    assert JoinParts([key]) == key;
  }

  /** One more message in front of a run. */
  lemma RunOn(s: State, ms: seq<Wire>, t: State, sent: seq<Change>)
    requires ms != [] && WellFormed(s.relations, ms[0]) && Exec(s, [], View(s.relations, ms[0])) == Success((t, sent))
    requires WritableTo([], t, ms[1..])
    ensures WritableTo([], s, ms) && Meaning([], s, ms) == After(sent, Meaning([], t, ms[1..]))
  {
    hide WellFormed, Exec, View, Encode;
  }

  const DONE := State(map[16385 := USERS], None)

  function Told(op: Op, text: Option<ByteString>): Change {
    Change(op, [55], Named(NAME_COLUMN.name, text))
  }

  lemma RowsFit()
    ensures WellFormed(KNOWING.relations, WRITTEN[2]) && WellFormed(KNOWING.relations, WRITTEN[3]) && WellFormed(KNOWING.relations, WRITTEN[4])
  {
    Pow256Values();
  }

  lemma InsertRuns()
    ensures Exec(KNOWING, [], View(KNOWING.relations, WRITTEN[2])) == Success((KNOWING, [Told(OpInsert, Some([65, 110, 110]))]))
  {
    var row := ViewRow(KNOWING.relations, 16385, TUPLE_NEW, [TextCell([55]), TextCell([65, 110, 110])]);
    hide ViewCells, ChangesFor, Named, KNOWING;
    UsersRow(TUPLE_NEW, TextCell([65, 110, 110]), OpInsert);
    assert View(KNOWING.relations, WRITTEN[2]) == Insert(row) && row.relationId == 16385;
    hide View, ViewRow, WRITTEN;
  }

  lemma UpdateRuns()
    ensures Exec(KNOWING, [], View(KNOWING.relations, WRITTEN[3])) == Success((KNOWING, [Told(OpUpdate, None)]))
  {
    var row := ViewRow(KNOWING.relations, 16385, TUPLE_NEW, [TextCell([55]), NullCell]);
    hide ViewCells, ChangesFor, Named, KNOWING;
    UsersRow(TUPLE_NEW, NullCell, OpUpdate);
    assert View(KNOWING.relations, WRITTEN[3]) == Update(16385, None, Some(row));
    hide View, ViewRow, WRITTEN;
  }

  lemma DeleteRuns()
    ensures Exec(KNOWING, [], View(KNOWING.relations, WRITTEN[4])) == Success((KNOWING, [Told(OpDelete, None)]))
  {
    var row := ViewRow(KNOWING.relations, 16385, TUPLE_KEY, [TextCell([55]), NullCell]);
    hide ViewCells, ChangesFor, Named, KNOWING;
    UsersRow(TUPLE_KEY, NullCell, OpDelete);
    assert View(KNOWING.relations, WRITTEN[4]) == Delete(row) && row.relationId == 16385;
    hide View, ViewRow, WRITTEN;
  }

  lemma CommitRuns()
    ensures WellFormed(KNOWING.relations, WRITTEN[5]) && Exec(KNOWING, [], View(KNOWING.relations, WRITTEN[5])) == Success((DONE, []))
  {
    Pow256Values();
  }

  lemma NothingRuns()
    ensures WritableTo([], DONE, []) && Meaning([], DONE, []) == Drained(DONE, [], [], None)
  {
  }

  lemma Tails()
    ensures WRITTEN[1..][1..] == WRITTEN[2..] && WRITTEN[2..][1..] == WRITTEN[3..] && WRITTEN[3..][1..] == WRITTEN[4..]
    ensures WRITTEN[4..][1..] == WRITTEN[5..] && WRITTEN[5..][1..] == [] && |WRITTEN| == 6
  {
  }

  lemma RowsRun()
    ensures WritableTo([], KNOWING, WRITTEN[2..])
    ensures Meaning([], KNOWING, WRITTEN[2..]) ==
            Drained(DONE, [Told(OpInsert, Some([65, 110, 110])), Told(OpUpdate, None), Told(OpDelete, None)], [], None)
  {
    RowsFit();
    InsertRuns();
    UpdateRuns();
    DeleteRuns();
    CommitRuns();
    NothingRuns();
    Tails();
    hide WellFormed, View, Exec, Meaning, WritableTo, WRITTEN, KNOWING, DONE, Told;
    RunOn(KNOWING, WRITTEN[5..], DONE, []);
    RunOn(KNOWING, WRITTEN[4..], KNOWING, [Told(OpDelete, None)]);
    RunOn(KNOWING, WRITTEN[3..], KNOWING, [Told(OpUpdate, None)]);
    RunOn(KNOWING, WRITTEN[2..], KNOWING, [Told(OpInsert, Some([65, 110, 110]))]);
  }

  const BEGUN := State(map[], KNOWING.txn)

  lemma BeginRuns()
    ensures WellFormed(map[], WRITTEN[0]) && Exec(State(map[], None), [], View(map[], WRITTEN[0])) == Success((BEGUN, []))
  {
    Pow256Values();
  }

  lemma RelationRuns()
    ensures WellFormed(BEGUN.relations, WRITTEN[1]) && Exec(BEGUN, [], View(BEGUN.relations, WRITTEN[1])) == Success((KNOWING, []))
  {
    hide KeyColumns, Pow256, FitsColumns;
    UsersKey();
    UsersFit();
  }

  lemma UsersFit()
    ensures 16385 < Pow256(4) && FitsColumns(USERS.columns)
  {
    Pow256Values();
  }

  lemma UsersKey()
    ensures KeyColumns(USERS.columns) == USERS.keyColumns
  {
    KeyColumnsInTwo([ID_COLUMN], [NAME_COLUMN]);
    KeyColumnsInTwo([NAME_COLUMN], []);
    assert USERS.columns == [ID_COLUMN] + [NAME_COLUMN];
    hide KeyColumns;
  }

  lemma HeadRuns()
    ensures WritableTo([], State(map[], None), WRITTEN)
    ensures Meaning([], State(map[], None), WRITTEN) == After([], After([], Meaning([], KNOWING, WRITTEN[2..])))
  {
    RowsRun();
    BeginRuns();
    RelationRuns();
    Tails();
    hide WellFormed, View, Exec, Meaning, WritableTo, WRITTEN, KNOWING, BEGUN, DONE, Told;
    RunOn(BEGUN, WRITTEN[1..], KNOWING, []);
    RunOn(State(map[], None), WRITTEN, BEGUN, []);
  }

  /** These bytes, received at once by a parser that knows nothing, send the three changes and leave the table known. */
  lemma KnownStream()
    ensures Received([], State(map[], None), STREAM) ==
            Drained(DONE, [Told(OpInsert, Some([65, 110, 110])), Told(OpUpdate, None), Told(OpDelete, None)], [], None)
  {
    StreamBytes();
    RowsRun();
    HeadRuns();
    hide Meaning, WritableTo, STREAM, WRITTEN, Codec, Told, DONE;
    var fragments := [STREAM];
    assert fragments[..0] == [] && Concat(fragments) == Concat([]) + STREAM == STREAM;
    ServerDelivers([], State(map[], None), WRITTEN, fragments);
    assert FeedAll(Codec([]), Fresh(State(map[], None)), fragments) == Received([], State(map[], None), STREAM);
  }
}
