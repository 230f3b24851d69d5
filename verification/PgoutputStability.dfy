/**
 * Decoding does not depend on how the stream was cut into fragments.
 *
 * Prefix stability: a verdict on a buffer stands when more bytes follow, with one
 * exception that the decoder's own code makes, an UPDATE whose bytes end right after
 * the marker that should introduce its new tuple. Fragment independence follows for
 * every cut that does not fall there, and fails for every cut that does.
 */
module PgoutputStability {
  import opened Wrappers
  import opened Bytes
  import opened Streaming
  import opened Pgoutput

  // ---------------------------------------------------------------- prefix stability

  lemma {:induction false} BeStands(d: ByteString, o: nat, later: ByteString, k: int, n: nat)
    requires Extends(d, later, k) && 0 <= o + k && o + n <= |d|
    ensures Be(later, o + k, n) == Be(d, o, n)
  {
    if n != 0 {
      BeStands(d, o, later, k, n - 1);
      assert later[o + n - 1 + k] == d[o + n - 1];
    }
  }

  lemma {:induction false} CStringStands(d: ByteString, o: nat, later: ByteString, k: int)
    requires Extends(d, later, k) && 0 <= o + k && o <= |d|
    ensures Stands(CString(d, o), CString(later, o + k), k)
    decreases |d| - o
  {
    if o < |d| {
      assert later[o + k] == d[o];
      CStringStands(d, o + 1, later, k);
    }
  }

  lemma ColumnStands(d: ByteString, o: nat, later: ByteString, k: int)
    requires Extends(d, later, k) && 0 <= o + k && o <= |d|
    ensures Stands(ParseColumn(d, o), ParseColumn(later, o + k), k)
  {
    if o < |d| {
      assert later[o + k] == d[o];
      CStringStands(d, o + 1, later, k);
      var r := CString(d, o + 1);
      if r.Ok? && r.next + 8 <= |d| {
        BeStands(d, r.next, later, k, 4);
        BeStands(d, r.next + 4, later, k, 4);
      }
    }
  }

  lemma {:induction false} ColumnsStand(d: ByteString, o: nat, later: ByteString, k: int, count: nat)
    requires Extends(d, later, k) && 0 <= o + k && o <= |d|
    ensures Stands(ParseColumns(d, o, count), ParseColumns(later, o + k, count), k)
    decreases count
  {
    if count != 0 {
      ColumnStands(d, o, later, k);
      var r := ParseColumn(d, o);
      if r.Ok? {
        ColumnsStand(d, r.next, later, k, count - 1);
      }
    }
  }

  lemma TwoNamesStand(d: ByteString, o: nat, later: ByteString, k: int)
    requires Extends(d, later, k) && 0 <= o + k && o <= |d|
    ensures Stands(TwoNames(d, o), TwoNames(later, o + k), k)
  {
    CStringStands(d, o, later, k);
    var r := CString(d, o);
    if r.Ok? {
      CStringStands(d, r.next, later, k);
    }
  }

  lemma RelationStands(d: ByteString, o: nat, later: ByteString, k: int)
    requires Extends(d, later, k) && 0 <= o + k && o <= |d|
    ensures Stands(ParseRelation(d, o), ParseRelation(later, o + k), k)
  {
    hide Be, TwoNames, ParseRelationColumns;
    if |d| >= o + 7 {
      TwoNamesStand(d, o + 4, later, k);
      BeStands(d, o, later, k, 4);
      var r := TwoNames(d, o + 4);
      if r.Ok? {
        RelationColumnsStand(d, r.next, later, k, Be(d, o, 4), r.value.0, r.value.1);
      }
    }
  }

  lemma RelationColumnsStand(d: ByteString, o: nat, later: ByteString, k: int, id: nat, namespace: ByteString, name: ByteString)
    requires Extends(d, later, k) && 0 <= o + k && o <= |d|
    ensures Stands(ParseRelationColumns(d, o, id, namespace, name), ParseRelationColumns(later, o + k, id, namespace, name), k)
  {
    if |d| >= o + 3 {
      assert later[o + k] == d[o];
      BeStands(d, o + 1, later, k, 2);
      ColumnsStand(d, o + 3, later, k, Be(d, o + 1, 2));
    }
  }

  lemma CellStands(d: ByteString, o: nat, later: ByteString, k: int, column: Column)
    requires Extends(d, later, k) && 0 <= o + k && o <= |d|
    ensures Stands(ParseCell(d, o, column), ParseCell(later, o + k, column), k)
  {
    if o < |d| {
      assert later[o + k] == d[o];
      if o + 5 <= |d| {
        BeStands(d, o + 1, later, k, 4);
        var length := Be(d, o + 1, 4);
        if o + 5 + length <= |d| {
          assert later[o + k + 5..o + k + 5 + length] == d[o + 5..o + 5 + length];
        }
      }
    }
  }

  lemma {:induction false} CellsStand(d: ByteString, o: nat, later: ByteString, k: int, columns: seq<Column>, i: nat, n: nat)
    requires Extends(d, later, k) && 0 <= o + k && o <= |d| && i <= n <= |columns|
    ensures Stands(ParseCells(d, o, columns, i, n), ParseCells(later, o + k, columns, i, n), k)
    decreases n - i
  {
    if i < n {
      CellStands(d, o, later, k, columns[i]);
      var r := ParseCell(d, o, columns[i]);
      if r.Ok? {
        CellsStand(d, r.next, later, k, columns, i + 1, n);
      }
    }
  }

  lemma TupleStands(relations: Relations, d: ByteString, o: nat, later: ByteString, k: int, id: nat, kind: Byte)
    requires Extends(d, later, k) && 0 <= o + k && o <= |d|
    ensures Stands(ParseTuple(relations, d, o, id, kind), ParseTuple(relations, later, o + k, id, kind), k)
  {
    if |d| >= o + 2 && id in relations {
      BeStands(d, o, later, k, 2);
      var relation := relations[id];
      CellsStand(d, o + 2, later, k, relation.columns, 0, Min(Be(d, o, 2), Width(relation)));
    }
  }

  lemma RowMessagesStand(relations: Relations, d: ByteString, o: nat, later: ByteString, k: int)
    requires Extends(d, later, k) && 0 <= o + k && o <= |d|
    ensures Stands(ParseInsert(relations, d, o), ParseInsert(relations, later, o + k), k)
    ensures Stands(ParseDelete(relations, d, o), ParseDelete(relations, later, o + k), k)
  {
    hide Be, ParseTuple;
    if |d| >= o + 5 {
      assert later[o + 4 + k] == d[o + 4];
      BeStands(d, o, later, k, 4);
      TupleStands(relations, d, o + 5, later, k, Be(d, o, 4), d[o + 4]);
    }
  }

  lemma UpdateStands(relations: Relations, d: ByteString, o: nat, later: ByteString, k: int)
    requires Extends(d, later, k) && 0 <= o + k && o <= |d|
    ensures var r := ParseUpdate(relations, d, o);
            (r.Ok? && CutAtMarker(r.value) ==> |later| == |d| + k) ==> Stands(r, ParseUpdate(relations, later, o + k), k)
  {
    hide Be, ParseTuple, ParseAfterOld;
    if |d| >= o + 5 {
      assert later[o + 4 + k] == d[o + 4];
      BeStands(d, o, later, k, 4);
      var id := Be(d, o, 4);
      TupleStands(relations, d, o + 5, later, k, id, d[o + 4]);
      var r := ParseTuple(relations, d, o + 5, id, d[o + 4]);
      if r.Ok? {
        AfterOldStands(relations, d, r.next, later, k, id, r.value);
      }
    }
  }

  lemma AfterOldStands(relations: Relations, d: ByteString, o: nat, later: ByteString, k: int, id: nat, oldRow: Row)
    requires Extends(d, later, k) && 0 <= o + k && o <= |d|
    ensures var r := ParseAfterOld(relations, d, o, id, oldRow);
            (r.Ok? && CutAtMarker(r.value) ==> |later| == |d| + k) ==>
            Stands(r, ParseAfterOld(relations, later, o + k, id, oldRow), k)
  {
    if o < |d| {
      assert later[o + k] == d[o];
      TupleStands(relations, d, o + 1, later, k, id, TUPLE_NEW);
    }
  }

  lemma {:induction false} IdsStand(d: ByteString, o: nat, later: ByteString, k: int, count: nat)
    requires Extends(d, later, k) && 0 <= o + k && o <= |d| && o + 4 * count <= |d|
    ensures RelationIds(later, o + k, count) == RelationIds(d, o, count)
    decreases count
  {
    if count != 0 {
      BeStands(d, o, later, k, 4);
      IdsStand(d, o + 4, later, k, count - 1);
    }
  }

  lemma TruncateStands(d: ByteString, o: nat, later: ByteString, k: int)
    requires Extends(d, later, k) && 0 <= o + k && o <= |d|
    ensures Stands(ParseTruncate(d, o), ParseTruncate(later, o + k), k)
  {
    if |d| >= o + 5 {
      BeStands(d, o, later, k, 4);
      if o + 5 + 4 * Be(d, o, 4) <= |d| {
        IdsStand(d, o + 5, later, k, Be(d, o, 4));
      }
    }
  }

  lemma FixedMessagesStand(d: ByteString, o: nat, later: ByteString, k: int)
    requires Extends(d, later, k) && 0 <= o + k && o <= |d|
    ensures Stands(ParseBegin(d, o), ParseBegin(later, o + k), k)
    ensures Stands(ParseCommit(d, o), ParseCommit(later, o + k), k)
  {
    if |d| >= o + 20 {
      BeStands(d, o, later, k, 8);
      BeStands(d, o + 8, later, k, 8);
      BeStands(d, o + 16, later, k, 4);
    }
  }

  lemma NamedMessagesStand(d: ByteString, o: nat, later: ByteString, k: int)
    requires Extends(d, later, k) && 0 <= o + k && o <= |d|
    ensures Stands(ParseType(d, o), ParseType(later, o + k), k)
    ensures Stands(ParseOrigin(d, o), ParseOrigin(later, o + k), k)
  {
    if |d| >= o + 4 {
      TwoNamesStand(d, o + 4, later, k);
    }
    if |d| >= o + 8 {
      CStringStands(d, o + 8, later, k);
    }
  }

  lemma LogicalStands(d: ByteString, o: nat, later: ByteString, k: int)
    requires Extends(d, later, k) && 0 <= o + k && o <= |d|
    ensures Stands(ParseLogical(d, o), ParseLogical(later, o + k), k)
  {
    if |d| >= o + 13 {
      CStringStands(d, o + 9, later, k);
      var r := CString(d, o + 9);
      if r.Ok? && r.next + 4 <= |d| {
        BeStands(d, r.next, later, k, 4);
      }
    }
  }

  lemma BodyStands(relations: Relations, tag: Byte, d: ByteString, o: nat, later: ByteString, k: int)
    requires Extends(d, later, k) && 0 <= o + k && o <= |d|
    ensures var r := ParseBody(relations, tag, d, o);
            (r.Ok? && CutAtMarker(r.value) ==> |later| == |d| + k) ==>
            Stands(r, ParseBody(relations, tag, later, o + k), k)
  {
    if tag == TAG_RELATION {
      RelationStands(d, o, later, k);
    } else if tag == TAG_INSERT || tag == TAG_DELETE {
      RowMessagesStand(relations, d, o, later, k);
    } else if tag == TAG_UPDATE {
      UpdateStands(relations, d, o, later, k);
    } else if tag == TAG_TRUNCATE {
      TruncateStands(d, o, later, k);
    } else if tag == TAG_MESSAGE {
      LogicalStands(d, o, later, k);
    } else if tag == TAG_BEGIN || tag == TAG_COMMIT {
      FixedMessagesStand(d, o, later, k);
    } else {
      NamedMessagesStand(d, o, later, k);
    }
  }

  /**
   * A verdict on a buffer stands when more bytes follow, and wherever the bytes lie, unless it
   * was reached at the marker and more bytes do follow.
   */
  lemma MessageStands(relations: Relations, d: ByteString, o: nat, later: ByteString, k: int)
    requires Extends(d, later, k) && 0 <= o + k && o <= |d| && o < |d|
    ensures var r := ParseMessage(relations, d, o);
            (r.Ok? && CutAtMarker(r.value) ==> |later| == |d| + k) ==>
            Stands(r, ParseMessage(relations, later, o + k), k)
  {
    hide ParseBody, CutAtMarker;
    assert later[o + k] == d[o];
    BodyStands(relations, d[o], d, o + 1, later, k);
  }

  /** An UPDATE accepted at its marker ends the buffer, and one more zero byte unmakes it. */
  lemma MarkerVerdictFalls(relations: Relations, d: ByteString, o: nat)
    requires o < |d| && ParseMessage(relations, d, o).Ok? && CutAtMarker(ParseMessage(relations, d, o).value)
    ensures d[o] == TAG_UPDATE && ParseMessage(relations, d, o).next == |d|
    ensures ParseMessage(relations, d + [0], o).Incomplete?
  {
    var later := d + [0];
    assert ParseBody(relations, d[o], d, o + 1).value.Update?;
    assert d[o] == TAG_UPDATE;
    BeStands(d, o + 1, later, 0, 4);
    TupleStands(relations, d, o + 6, later, 0, Be(d, o + 1, 4), d[o + 5]);
  }

  /** Prefix stability holds at a buffer exactly when it was not accepted at the marker. */
  lemma PrefixStabilityExactly(relations: Relations, d: ByteString, o: nat)
    requires o < |d|
    ensures (forall e :: Stands(ParseMessage(relations, d, o), ParseMessage(relations, d + e, o), 0))
       <==> !(ParseMessage(relations, d, o).Ok? && CutAtMarker(ParseMessage(relations, d, o).value))
  {
    hide ParseMessage, CutAtMarker;
    var r := ParseMessage(relations, d, o);
    if r.Ok? && CutAtMarker(r.value) {
      MarkerVerdictFalls(relations, d, o);
    } else {
      forall e ensures Stands(r, ParseMessage(relations, d + e, o), 0) {
        MessageStands(relations, d, o, d + e, 0);
      }
    }
  }

  // ---------------------------------------------------------------- the parser as a decoder

  lemma CodecProgresses(filters: seq<ByteString>)
    ensures Progresses(Codec(filters))
  {
  }

  /** The parser's verdicts stand, except at a marker; each message takes at least one byte. */
  lemma CodecIsStable(filters: seq<ByteString>)
    ensures Progresses(Codec(filters)) && Stable(Codec(filters))
  {
    hide ParseMessage, CutAtMarker;
    CodecProgresses(filters);
    var c := Codec(filters);
    forall s, d, o: nat, later, p: nat
      | o < |d| && Extends(d, later, p - o) && (c.Cut(s, d, o) ==> |later| - p == |d| - o)
      ensures Stands(c.parse(s, d, o), c.parse(s, later, p), p - o)
    {
      MessageStands(s.relations, d, o, later, p - o);
    }
  }

  lemma CodecIsSharp(filters: seq<ByteString>)
    ensures Sharp(Codec(filters))
  {
    var c := Codec(filters);
    forall s, d, o: nat | o < |d| && c.Cut(s, d, o)
      ensures c.parse(s, d + [0], o).Incomplete? && c.parse(s, d, o).next == |d|
    {
      MarkerVerdictFalls(s.relations, d, o);
    }
  }

  /**
   * Fragment independence of the WAL parser: however a byte stream is cut into payloads, short
   * of a cut right after an UPDATE's marker, the same changes are sent in the same order and the
   * same relations, transaction and undecoded tail are left as when it arrives in one piece; a
   * fault arises after the same changes, and the drain loop never stops for want of progress.
   */
  lemma PayloadsAgree(filters: seq<ByteString>, r: Session, fragments: seq<ByteString>)
    requires CleanCuts(Codec(filters), r, fragments)
    ensures FeedAll(Codec(filters), r, fragments) == Feed(Codec(filters), r, Concat(fragments))
    ensures r.stop != Some(NoProgress) ==> FeedAll(Codec(filters), r, fragments).stop != Some(NoProgress)
  {
    CodecIsStable(filters);
    FragmentIndependence(Codec(filters), r, fragments);
    DrainProgresses(Codec(filters), r.state, r.tail + Concat(fragments), 0);
  }

  /** A cut after `d` cannot be noticed later exactly when it does not fall at an UPDATE's marker. */
  lemma CutCannotBeNoticedExactly(filters: seq<ByteString>, s: State, d: ByteString)
    ensures (forall e :: Drain(Codec(filters), s, d + e, 0) == Resume(Codec(filters), Drain(Codec(filters), s, d, 0), e))
       <==> !EndsAtCut(Codec(filters), s, d, 0)
  {
    CodecIsStable(filters);
    CodecIsSharp(filters);
    CutIsInvisibleExactly(Codec(filters), s, d);
  }
}
