/**
 * XLogData frames: each carries a WAL position and a fragment of the message stream. The
 * changes decoded while a frame is processed are sent with that frame's LSN.
 */
module WalFrames {
  import opened Wrappers
  import opened Bytes
  import opened Streaming
  import opened Pgoutput
  import opened PgoutputStability
  import Lsn

  /** What is sent to the orchestrator: a change stamped with the LSN of the frame being processed. */
  datatype Event = Event(lsn: string, change: Change)

  function Stamped(lsn: string, changes: seq<Change>): (events: seq<Event>)
    ensures |events| == |changes|
  {
    seq(|changes|, i requires 0 <= i < |changes| => Event(lsn, changes[i]))
  }

  lemma StampedInTwo(lsn: string, a: seq<Change>, b: seq<Change>)
    ensures Stamped(lsn, a + b) == Stamped(lsn, a) + Stamped(lsn, b)
  {
  }

  lemma NothingStamped(lsn: string, sent: seq<Event>)
    ensures sent + Stamped(lsn, []) == sent
  {
  }

  datatype Frame = Frame(walStart: nat, serverWalEnd: nat, payload: ByteString)

  /** The WAL position of a frame: its start, or the server's end when the start is not given. */
  function FrameLsn(frame: Frame): nat {
    if frame.walStart == 0 then frame.serverWalEnd else frame.walStart
  }

  /** The handler's LSN once a frame has arrived: a frame without a position leaves it alone. */
  function LsnAt(lsn: string, frame: Frame): string {
    if FrameLsn(frame) > 0 then Lsn.FormatUint64(FrameLsn(frame)) else lsn
  }

  /** A replication connection: the current LSN, the decoding session, and the events sent. */
  datatype Connection = Connection(lsn: string, session: Session, sent: seq<Event>)

  function Receive(filters: seq<ByteString>, c: Connection, frame: Frame): Connection {
    if c.session.stop.Some? then c
    else
      var run := Feed(Codec(filters), c.session.(sent := []), frame.payload);
      var lsn := LsnAt(c.lsn, frame);
      Connection(lsn, After(c.session.sent, run), c.sent + Stamped(lsn, run.sent))
  }

  function ReceiveAll(filters: seq<ByteString>, c: Connection, frames: seq<Frame>): Connection {
    if frames == [] then c
    else Receive(filters, ReceiveAll(filters, c, frames[..|frames| - 1]), frames[|frames| - 1])
  }

  /**
   * What a frame's events are stamped with: they all carry the handler's LSN as the frame has left
   * it, which reads back as the WAL start of the frame, whatever the server's end is; as the server's
   * end if the start is not given; and is as before if neither is.
   */
  lemma FrameStamps(filters: seq<ByteString>, c: Connection, frame: Frame)
    requires c.session.stop.None? && frame.walStart < Lsn.TWO64 && frame.serverWalEnd < Lsn.TWO64
    ensures var t := Receive(filters, c, frame);
            && c.sent <= t.sent && (forall i | |c.sent| <= i < |t.sent| :: t.sent[i].lsn == t.lsn)
            && (frame.walStart > 0 ==> Lsn.LsnToUint64(t.lsn) == Success(frame.walStart))
            && (frame.walStart == 0 < frame.serverWalEnd ==> Lsn.LsnToUint64(t.lsn) == Success(frame.serverWalEnd))
            && (frame.walStart == frame.serverWalEnd == 0 ==> t.lsn == c.lsn)
  {
    hide Codec, Feed;
    Lsn.FormatThenParse(frame.walStart);
    Lsn.FormatThenParse(frame.serverWalEnd);
  }

  /** Two connections that differ only in how much of what was sent the session remembers. */
  predicate Reached(c: Connection, now: Connection) {
    c.(session := c.session.(sent := [])) == now.(session := now.session.(sent := []))
  }

  lemma ReachedNext(filters: seq<ByteString>, c: Connection, now: Connection, frame: Frame)
    requires Reached(c, now)
    ensures Reached(Receive(filters, c, frame), Receive(filters, now, frame))
  {
  }

  /** Once a connection has stopped, later frames change nothing. */
  lemma {:induction false} OnceStopped(filters: seq<ByteString>, c: Connection, frames: seq<Frame>, i: nat)
    requires i <= |frames| && ReceiveAll(filters, c, frames[..i]).session.stop.Some?
    ensures ReceiveAll(filters, c, frames) == ReceiveAll(filters, c, frames[..i])
    decreases |frames|
  {
    if i == |frames| {
      assert frames[..i] == frames;
    } else {
      var init := frames[..|frames| - 1];
      assert init[..i] == frames[..i];
      OnceStopped(filters, c, init, i);
    }
  }

  // ---------------------------------------------------------------- what is sent

  function Payloads(frames: seq<Frame>): (payloads: seq<ByteString>)
    ensures |payloads| == |frames|
  {
    if frames == [] then [] else Payloads(frames[..|frames| - 1]) + [frames[|frames| - 1].payload]
  }

  function Changes(events: seq<Event>): (changes: seq<Change>)
    ensures |changes| == |events|
  {
    seq(|events|, i requires 0 <= i < |events| => events[i].change)
  }

  lemma FeedAfter(filters: seq<ByteString>, r: Session, fragment: ByteString)
    requires r.stop.None?
    ensures Feed(Codec(filters), r, fragment) == After(r.sent, Feed(Codec(filters), r.(sent := []), fragment))
  {
    hide Codec, Drain;
    if fragment == [] {
      assert r.sent + [] == r.sent;
    } else {
      ResumeAfter(Codec(filters), r.sent, r.(sent := []), fragment);
      assert r.sent + [] == r.sent;
    }
  }

  lemma ChangesStamped(events: seq<Event>, lsn: string, changes: seq<Change>)
    ensures Changes(events + Stamped(lsn, changes)) == Changes(events) + changes
  {
  }

  /** A connection sends, in order, exactly the changes of the session that its payloads make up. */
  lemma {:induction false} SentAsDecoded(filters: seq<ByteString>, c: Connection, frames: seq<Frame>)
    requires Changes(c.sent) == c.session.sent
    ensures var end := ReceiveAll(filters, c, frames);
            && end.session == FeedAll(Codec(filters), c.session, Payloads(frames))
            && Changes(end.sent) == end.session.sent
    decreases |frames|
  {
    hide Codec, Feed, LsnAt;
    if frames != [] {
      var n := |frames| - 1;
      SentAsDecoded(filters, c, frames[..n]);
      assert Payloads(frames)[..n] == Payloads(frames[..n]);
      var before := ReceiveAll(filters, c, frames[..n]);
      if before.session.stop.None? {
        FeedAfter(filters, before.session, frames[n].payload);
        var run := Feed(Codec(filters), before.session.(sent := []), frames[n].payload);
        ChangesStamped(before.sent, LsnAt(before.lsn, frames[n]), run.sent);
      } else {
        StoppedStays(filters, before.session, frames[n].payload);
      }
    }
  }

  lemma StoppedStays(filters: seq<ByteString>, r: Session, fragment: ByteString)
    requires r.stop.Some?
    ensures Feed(Codec(filters), r, fragment) == r
  {
  }

  /** The changes that two connections send are the same if their payloads make up the same bytes, cut cleanly. */
  lemma FramingIsInvisible(filters: seq<ByteString>, s: State, lsn: string, frames: seq<Frame>, others: seq<Frame>)
    requires Concat(Payloads(frames)) == Concat(Payloads(others))
    requires CleanCuts(Codec(filters), Fresh(s), Payloads(frames)) && CleanCuts(Codec(filters), Fresh(s), Payloads(others))
    ensures var a, b := ReceiveAll(filters, Connection(lsn, Fresh(s), []), frames),
                        ReceiveAll(filters, Connection(lsn, Fresh(s), []), others);
            a.session == b.session && Changes(a.sent) == Changes(b.sent)
  {
    hide Codec, CleanCuts, ReceiveAll, FeedAll;
    SentAsDecoded(filters, Connection(lsn, Fresh(s), []), frames);
    SentAsDecoded(filters, Connection(lsn, Fresh(s), []), others);
    PayloadsAgree(filters, Fresh(s), Payloads(frames));
    PayloadsAgree(filters, Fresh(s), Payloads(others));
  }

  // ---------------------------------------------------------------- in which order

  /** The last position that the frames carry, or `at` if none does. */
  function Position(at: nat, frames: seq<Frame>): nat {
    if frames == [] then at
    else if FrameLsn(frames[|frames| - 1]) > 0 then FrameLsn(frames[|frames| - 1])
    else Position(at, frames[..|frames| - 1])
  }

  /** The positions of the frames are 64-bit and never go back, starting from `at`; a missing one does not count. */
  predicate NeverBack(at: nat, frames: seq<Frame>) {
    frames != [] ==>
      var last := FrameLsn(frames[|frames| - 1]);
      && NeverBack(at, frames[..|frames| - 1])
      && last < Lsn.TWO64 && (last == 0 || Position(at, frames[..|frames| - 1]) <= last)
  }

  /** The frame gives this position: as its WAL start, or without one as the server's end. */
  predicate Gives(frame: Frame, p: nat) {
    p > 0 && (frame.walStart == p || (frame.walStart == 0 && frame.serverWalEnd == p))
  }

  /** No frame gives a position in front of the start or of one that a frame before it has given. */
  ghost predicate InSequence(at: nat, frames: seq<Frame>) {
    && (forall i | 0 <= i < |frames| :: frames[i].walStart < Lsn.TWO64 && frames[i].serverWalEnd < Lsn.TWO64)
    && (forall i, p: nat | 0 <= i < |frames| && Gives(frames[i], p) :: at <= p)
    && forall i, k, p: nat, q: nat | 0 <= i < k < |frames| && Gives(frames[i], p) && Gives(frames[k], q) :: p <= q
  }

  lemma {:induction false} PositionIsGiven(at: nat, frames: seq<Frame>)
    ensures Position(at, frames) == at || exists i :: 0 <= i < |frames| && Gives(frames[i], Position(at, frames))
    decreases |frames|
  {
    if frames != [] {
      var n := |frames| - 1;
      if FrameLsn(frames[n]) > 0 {
        assert Gives(frames[n], FrameLsn(frames[n]));
      } else {
        PositionIsGiven(at, frames[..n]);
        if i :| 0 <= i < n && Gives(frames[..n][i], Position(at, frames[..n])) {
          assert frames[i] == frames[..n][i];
        }
      }
    }
  }

  lemma {:induction false} SequenceNeverBack(at: nat, frames: seq<Frame>)
    requires InSequence(at, frames)
    ensures NeverBack(at, frames)
    decreases |frames|
  {
    if frames != [] {
      var n := |frames| - 1;
      var init := frames[..n];
      assert forall i | 0 <= i < n :: init[i] == frames[i];
      SequenceNeverBack(at, init);
      PositionIsGiven(at, init);
      var last := FrameLsn(frames[n]);
      if last > 0 {
        assert Gives(frames[n], last);
      }
    }
  }

  function Number(lsn: string): int {
    var n := Lsn.LsnToUint64(lsn);
    if n.Success? then n.value else -1
  }

  predicate InOrder(sent: seq<Event>, top: int) {
    && (forall i | 0 <= i < |sent| :: 0 <= Number(sent[i].lsn) <= top)
    && forall i, j | 0 <= i <= j < |sent| :: Number(sent[i].lsn) <= Number(sent[j].lsn)
  }

  lemma InOrderStill(sent: seq<Event>, top: int, lsn: string, changes: seq<Change>)
    requires InOrder(sent, top) && 0 <= Number(lsn) && top <= Number(lsn)
    ensures InOrder(sent + Stamped(lsn, changes), Number(lsn))
  {
    hide Number;
  }

  lemma {:induction false} SentInOrder(filters: seq<ByteString>, c: Connection, at: nat, frames: seq<Frame>)
    requires Number(c.lsn) == at && InOrder(c.sent, at) && NeverBack(at, frames)
    requires c.session.stop.None?
    ensures var end := ReceiveAll(filters, c, frames);
            && InOrder(end.sent, Number(end.lsn))
            && (end.session.stop.None? ==> Number(end.lsn) == Position(at, frames))
    decreases |frames|
  {
    hide Number, Codec, Feed, InOrder;
    if frames != [] {
      var n := |frames| - 1;
      SentInOrder(filters, c, at, frames[..n]);
      var before := ReceiveAll(filters, c, frames[..n]);
      if before.session.stop.None? {
        var run, lsn := Feed(Codec(filters), before.session.(sent := []), frames[n].payload), LsnAt(before.lsn, frames[n]);
        FrameNumber(before.lsn, frames[n]);
        assert ReceiveAll(filters, c, frames).sent == before.sent + Stamped(lsn, run.sent);
        InOrderStill(before.sent, Number(before.lsn), lsn, run.sent);
      }
    }
  }

  lemma FrameNumber(lsn: string, frame: Frame)
    requires FrameLsn(frame) < Lsn.TWO64
    ensures Number(LsnAt(lsn, frame)) == if FrameLsn(frame) > 0 then FrameLsn(frame) else Number(lsn)
  {
    Lsn.FormatThenParse(FrameLsn(frame));
  }

  /**
   * When the positions given by the frames never go back, the LSNs on the events sent never decrease under
   * the comparison the checkpoints use, wherever in the frames each message began or ended.
   */
  lemma EventsInLsnOrder(filters: seq<ByteString>, s: State, startLsn: string, frames: seq<Frame>, i: nat, j: nat)
    requires Lsn.LsnToUint64(startLsn).Success? && InSequence(Lsn.LsnToUint64(startLsn).value, frames)
    requires i <= j < |ReceiveAll(filters, Connection(startLsn, Fresh(s), []), frames).sent|
    ensures var sent := ReceiveAll(filters, Connection(startLsn, Fresh(s), []), frames).sent;
            Lsn.CompareLsn(sent[i].lsn, sent[j].lsn).Success? && Lsn.CompareLsn(sent[i].lsn, sent[j].lsn).value <= 0
  {
    SequenceNeverBack(Lsn.LsnToUint64(startLsn).value, frames);
    hide ReceiveAll, Codec;
    SentInOrder(filters, Connection(startLsn, Fresh(s), []), Lsn.LsnToUint64(startLsn).value, frames);
    var sent := ReceiveAll(filters, Connection(startLsn, Fresh(s), []), frames).sent;
    assert 0 <= Number(sent[i].lsn) <= Number(sent[j].lsn);
    ComparedInOrder(sent[i].lsn, sent[j].lsn);
  }

  lemma ComparedInOrder(a: string, b: string)
    requires 0 <= Number(a) <= Number(b)
    ensures Lsn.CompareLsn(a, b).Success? && Lsn.CompareLsn(a, b).value <= 0
  {
    hide Lsn.CompareLsn, Lsn.LsnToUint64;
    Lsn.ComparisonsAreNumeric(a, b);
  }
}
