/**
 * A buffered decoder of messages that arrive in arbitrary fragments, for any message format.
 *
 * Fragments are appended to a buffer, whole messages are decoded off its front against a
 * state, and the undecoded tail is kept. When the verdicts of the decoder stand as more bytes
 * follow, the outcome does not depend on how the stream was cut. A decoder may own up to
 * verdicts that do not stand; then the outcome is the same exactly for the cuts that avoid them.
 */
module Streaming {
  import opened Wrappers
  import opened Bytes

  /** A verdict: more bytes are needed, or decoding fails for good, or a value and the offset behind it. */
  datatype Parsed<+T, +F> = Incomplete | Fatal(fault: F) | Ok(value: T, next: nat)

  /**
   * `parse` reads one message at an offset against a state and `exec` executes it, yielding the
   * next state and what the message sends. `partial` marks the messages that are accepted only
   * because the bytes end there.
   */
  datatype Decoder<!S, !M, !C, !F> = Decoder(
    parse: (S, ByteString, nat) -> Parsed<M, F>,
    exec: (S, M) -> Result<(S, seq<C>), F>,
    partial: M -> bool)
  {
    /** One round of the drain loop. */
    function Step(s: S, d: ByteString, o: nat): Parsed<(S, seq<C>), F> {
      match parse(s, d, o)
      case Incomplete => Incomplete
      case Fatal(fault) => Fatal(fault)
      case Ok(message, next) => Executed(exec(s, message), next)
    }

    /** The message at this offset is accepted only because the bytes end behind it. */
    predicate Cut(s: S, d: ByteString, o: nat) {
      var r := parse(s, d, o);
      r.Ok? && partial(r.value)
    }
  }

  /** An executed message as a verdict on the bytes it came in. */
  function Executed<S, C, F>(r: Result<(S, seq<C>), F>, next: nat): Parsed<(S, seq<C>), F> {
    match r
    case Failure(fault) => Fatal(fault)
    case Success(result) => Ok(result, next)
  }

  datatype Stop<+F> = Refused(fault: F) | NoProgress

  /** The result of draining a buffer: what was sent, what is left, and what stopped it, if anything. */
  datatype Drained<+S, +C, +F> = Drained(state: S, sent: seq<C>, tail: ByteString, stop: Option<Stop<F>>)

  /** Put what was sent before a drain in front of what it sends. */
  function After<S, C, F>(sent: seq<C>, r: Drained<S, C, F>): Drained<S, C, F> {
    r.(sent := sent + r.sent)
  }

  /** Decode messages from offset `o` on for as long as whole ones are there. */
  function Drain<S, M, C, F>(c: Decoder<S, M, C, F>, s: S, d: ByteString, o: nat): Drained<S, C, F>
    requires o <= |d|
    decreases |d| - o
  {
    if o == |d| then Drained(s, [], [], None)
    else
      match c.Step(s, d, o)
      case Incomplete => Drained(s, [], d[o..], None)
      case Fatal(fault) => Drained(s, [], [], Some(Refused(fault)))
      case Ok(result, next) =>
        if o < next <= |d| then After(result.1, Drain(c, result.0, d, next))
        else Drained(s, [], [], Some(NoProgress))
  }

  /** Continue a drained buffer with further bytes; once stopped, a session stays stopped. */
  function Resume<S, M, C, F>(c: Decoder<S, M, C, F>, r: Drained<S, C, F>, e: ByteString): Drained<S, C, F> {
    if r.stop.Some? then r else After(r.sent, Drain(c, r.state, r.tail + e, 0))
  }

  /** An empty fragment is ignored; any other is appended to what is left and drained. */
  function Feed<S, M, C, F>(c: Decoder<S, M, C, F>, r: Drained<S, C, F>, fragment: ByteString): Drained<S, C, F> {
    if fragment == [] then r else Resume(c, r, fragment)
  }

  function FeedAll<S, M, C, F>(c: Decoder<S, M, C, F>, r: Drained<S, C, F>, fragments: seq<ByteString>): Drained<S, C, F> {
    if fragments == [] then r
    else Feed(c, FeedAll(c, r, fragments[..|fragments| - 1]), fragments[|fragments| - 1])
  }

  function Concat(fragments: seq<ByteString>): ByteString {
    if fragments == [] then []
    else Concat(fragments[..|fragments| - 1]) + fragments[|fragments| - 1]
  }

  // ---------------------------------------------------------------- what a decoder must keep

  /** `later` holds what `d` holds, `k` places further on, and may hold more behind it. */
  predicate Extends(d: ByteString, later: ByteString, k: int) {
    && 0 <= |d| + k <= |later|
    && forall i | 0 <= i < |d| && 0 <= i + k :: later[i + k] == d[i]
  }

  /** `after` is the verdict on a buffer that extends another: it may differ only where bytes were missing. */
  predicate Stands<T(==), F(==)>(verdict: Parsed<T, F>, after: Parsed<T, F>, k: int) {
    match verdict
    case Incomplete => true
    case Fatal(_) => after == verdict
    case Ok(value, next) => after.Ok? && after.value == value && after.next == next + k
  }

  /** Every message takes at least one byte and no more than there are. */
  ghost predicate Progresses<S(!new), M(!new), C(!new), F(!new)>(c: Decoder<S, M, C, F>) {
    forall s, d, o: nat :: o < |d| && c.parse(s, d, o).Ok? ==> o < c.parse(s, d, o).next <= |d|
  }

  /** Verdicts other than those at a cut stand when more bytes follow, and wherever the bytes lie. */
  ghost predicate Stable<S(!new), M(!new), C(!new), F(!new)>(c: Decoder<S, M, C, F>) {
    forall s, d, o: nat, later, p: nat {:trigger c.parse(s, d, o), c.parse(s, later, p)} ::
      o < |d| && Extends(d, later, p - o) && (c.Cut(s, d, o) ==> |later| - p == |d| - o) ==>
      Stands(c.parse(s, d, o), c.parse(s, later, p), p - o)
  }

  /** A message accepted at a cut takes the whole buffer, and a zero byte behind it makes it incomplete. */
  ghost predicate Sharp<S(!new), M(!new), C(!new), F(!new)>(c: Decoder<S, M, C, F>) {
    && (forall s, d, o: nat :: o < |d| && c.Cut(s, d, o) ==>
          c.parse(s, d + [0], o).Incomplete? && c.parse(s, d, o).next == |d|)
    && (forall s :: c.parse(s, [0], 0).Fatal?)
  }

  /** Draining `d` from offset `o` on ends with a verdict at a cut. */
  predicate EndsAtCut<S, M, C, F>(c: Decoder<S, M, C, F>, s: S, d: ByteString, o: nat)
    requires o <= |d|
    decreases |d| - o
  {
    o < |d| &&
    (c.Cut(s, d, o) ||
     (var r := c.Step(s, d, o);
      r.Ok? && o < r.next <= |d| && EndsAtCut(c, r.value.0, d, r.next)))
  }

  // ---------------------------------------------------------------- draining in two goes

  lemma AfterTwice<S, C, F>(a: seq<C>, b: seq<C>, r: Drained<S, C, F>)
    ensures After(a, After(b, r)) == After(a + b, r) && After([], r) == r
  {
    assert a + (b + r.sent) == (a + b) + r.sent;
    assert [] + r.sent == r.sent;
  }

  lemma ResumeAfter<S, M, C, F>(c: Decoder<S, M, C, F>, sent: seq<C>, r: Drained<S, C, F>, e: ByteString)
    ensures Resume(c, After(sent, r), e) == After(sent, Resume(c, r, e))
  {
    if r.stop.None? {
      AfterTwice(sent, r.sent, Drain(c, r.state, r.tail + e, 0));
    }
  }

  /** The drain loop never stops for want of progress. */
  lemma {:induction false} DrainProgresses<S(!new), M(!new), C(!new), F(!new)>(c: Decoder<S, M, C, F>, s: S, d: ByteString, o: nat)
    requires Progresses(c) && o <= |d|
    ensures Drain(c, s, d, o).stop != Some(NoProgress)
    decreases |d| - o
  {
    if o < |d| {
      var r := c.Step(s, d, o);
      if r.Ok? {
        DrainProgresses(c, r.value.0, d, r.next);
      }
    }
  }

  /** Draining from an offset is draining what lies behind it: the buffer may be trimmed at will. */
  lemma {:induction false} DrainTrimmed<S(!new), M(!new), C(!new), F(!new)>(c: Decoder<S, M, C, F>, s: S, d: ByteString, p: nat, o: nat)
    requires Progresses(c) && Stable(c) && p <= o <= |d|
    ensures Drain(c, s, d, o) == Drain(c, s, d[p..], o - p)
    decreases |d| - o
  {
    var trimmed := d[p..];
    if o < |d| {
      assert Extends(d, trimmed, (o - p) - o) && Extends(trimmed, d, o - (o - p));
      var r, t := c.Step(s, d, o), c.Step(s, trimmed, o - p);
      assert d[o..] == trimmed[o - p..];
      if r.Ok? {
        DrainTrimmed(c, r.value.0, d, p, r.next);
      }
    }
  }

  /** Whether a message is accepted at a cut does not depend on where the bytes lie. */
  lemma CutTrimmed<S(!new), M(!new), C(!new), F(!new)>(c: Decoder<S, M, C, F>, s: S, d: ByteString, p: nat, o: nat)
    requires Stable(c) && p <= o < |d|
    ensures c.Cut(s, d, o) == c.Cut(s, d[p..], o - p)
  {
    var trimmed := d[p..];
    assert Extends(d, trimmed, (o - p) - o) && Extends(trimmed, d, o - (o - p));
    var r, t := c.parse(s, d, o), c.parse(s, trimmed, o - p);
  }

  /** Where a drain ends does not depend on what lies in front of the offset either. */
  lemma {:induction false} EndsTrimmed<S(!new), M(!new), C(!new), F(!new)>(c: Decoder<S, M, C, F>, s: S, d: ByteString, p: nat, o: nat)
    requires Progresses(c) && Stable(c) && p <= o <= |d|
    ensures EndsAtCut(c, s, d, o) <==> EndsAtCut(c, s, d[p..], o - p)
    decreases |d| - o
  {
    var trimmed := d[p..];
    if o < |d| {
      assert Extends(d, trimmed, (o - p) - o) && Extends(trimmed, d, o - (o - p));
      hide Extends;
      CutTrimmed(c, s, d, p, o);
      var r, t := c.Step(s, d, o), c.Step(s, trimmed, o - p);
      if r.Ok? {
        EndsTrimmed(c, r.value.0, d, p, r.next);
      }
    }
  }

  lemma {:induction false} DrainInTwo<S(!new), M(!new), C(!new), F(!new)>(c: Decoder<S, M, C, F>, s: S, d: ByteString, o: nat, e: ByteString)
    requires Progresses(c) && Stable(c)
    requires o <= |d| && !EndsAtCut(c, s, d, o)
    ensures Drain(c, s, d + e, o) == Resume(c, Drain(c, s, d, o), e)
    decreases |d| - o
  {
    if o == |d| || c.Step(s, d, o).Incomplete? {
      assert Drain(c, s, d, o) == Drained(s, [], d[o..], None);
      DrainTrimmed(c, s, d + e, o, o);
      assert (d + e)[o..] == d[o..] + e;
      AfterTwice([], [], Drain(c, s, d + e, o));
    } else {
      assert Extends(d, d + e, o - o);
      var r, t := c.Step(s, d, o), c.Step(s, d + e, o);
      if r.Ok? {
        DrainInTwo(c, r.value.0, d, r.next, e);
        ResumeAfter(c, r.value.1, Drain(c, r.value.0, d, r.next), e);
      }
    }
  }

  lemma {:induction false} CutBreaksDrain<S(!new), M(!new), C(!new), F(!new)>(c: Decoder<S, M, C, F>, s: S, d: ByteString, o: nat)
    requires Progresses(c) && Stable(c) && Sharp(c)
    requires o <= |d| && EndsAtCut(c, s, d, o)
    ensures Drain(c, s, d + [0], o).stop.None? && Drain(c, s, d + [0], o).tail != []
    ensures Drain(c, s, d, o).stop.None? ==> Drain(c, s, d, o).tail == []
    decreases |d| - o
  {
    var r, t := c.Step(s, d, o), c.Step(s, d + [0], o);
    if !c.Cut(s, d, o) {
      assert Extends(d, d + [0], o - o);
      CutBreaksDrain(c, r.value.0, d, r.next);
    }
  }

  /** A cut after `d` is invisible, whatever follows, exactly when draining `d` does not end at a cut. */
  lemma CutIsInvisibleExactly<S(!new), M(!new), C(!new), F(!new)>(c: Decoder<S, M, C, F>, s: S, d: ByteString)
    requires Progresses(c) && Stable(c) && Sharp(c)
    ensures (forall e :: Drain(c, s, d + e, 0) == Resume(c, Drain(c, s, d, 0), e)) <==> !EndsAtCut(c, s, d, 0)
  {
    if EndsAtCut(c, s, d, 0) {
      CutBreaksDrain(c, s, d, 0);
      var r := Drain(c, s, d, 0);
      assert r.stop.None? ==> r.tail + [0] == [0];
      assert c.Step(r.state, [0], 0).Fatal?;
      assert Drain(c, s, d + [0], 0) != Resume(c, r, [0]);
    } else {
      forall e ensures Drain(c, s, d + e, 0) == Resume(c, Drain(c, s, d, 0), e) {
        DrainInTwo(c, s, d, 0, e);
      }
    }
  }

  // ---------------------------------------------------------------- whole sessions

  /** The cut in front of fragment `k` is not one that a verdict depends on. */
  predicate CleanCut<S, M, C, F>(c: Decoder<S, M, C, F>, r: Drained<S, C, F>, fragments: seq<ByteString>, k: nat)
    requires k < |fragments|
  {
    fragments[k] == [] || !EndsAtCut(c, r.state, r.tail + Concat(fragments[..k]), 0)
  }

  predicate CleanCuts<S, M, C, F>(c: Decoder<S, M, C, F>, r: Drained<S, C, F>, fragments: seq<ByteString>) {
    forall k | 0 < k < |fragments| :: CleanCut(c, r, fragments, k)
  }

  lemma ResumeInTwo<S(!new), M(!new), C(!new), F(!new)>(c: Decoder<S, M, C, F>, r: Drained<S, C, F>, d: ByteString, e: ByteString)
    requires Progresses(c) && Stable(c)
    requires r.stop.None? ==> !EndsAtCut(c, r.state, r.tail + d, 0)
    ensures Resume(c, r, d + e) == Resume(c, Resume(c, r, d), e)
  {
    if r.stop.None? {
      assert r.tail + (d + e) == (r.tail + d) + e;
      DrainInTwo(c, r.state, r.tail + d, 0, e);
      ResumeAfter(c, r.sent, Drain(c, r.state, r.tail + d, 0), e);
    }
  }

  lemma FeedInTwo<S(!new), M(!new), C(!new), F(!new)>(c: Decoder<S, M, C, F>, r: Drained<S, C, F>, d: ByteString, e: ByteString)
    requires Progresses(c) && Stable(c)
    requires d != [] && e != [] ==> !EndsAtCut(c, r.state, r.tail + d, 0)
    ensures Feed(c, r, d + e) == Feed(c, Feed(c, r, d), e)
  {
    if e == [] {
      assert d + e == d;
    } else if d == [] {
      assert d + e == e;
    } else {
      ResumeInTwo(c, r, d, e);
    }
  }

  lemma CleanCutsOfPrefix<S, M, C, F>(c: Decoder<S, M, C, F>, r: Drained<S, C, F>, fragments: seq<ByteString>)
    requires fragments != [] && CleanCuts(c, r, fragments)
    ensures CleanCuts(c, r, fragments[..|fragments| - 1])
  {
    var init := fragments[..|fragments| - 1];
    forall k | 0 < k < |init| ensures CleanCut(c, r, init, k) {
      assert CleanCut(c, r, fragments, k);
      assert init[..k] == fragments[..k];
    }
  }

  /**
   * Fragment independence: however a byte stream is cut into payloads, the same things are
   * sent in the same order and the same state and undecoded tail are left as when the stream
   * arrives in one piece; if decoding fails, it fails the same way after the same things sent.
   */
  lemma {:induction false} FragmentIndependence<S(!new), M(!new), C(!new), F(!new)>(
    c: Decoder<S, M, C, F>, r: Drained<S, C, F>, fragments: seq<ByteString>)
    requires Progresses(c) && Stable(c) && CleanCuts(c, r, fragments)
    ensures FeedAll(c, r, fragments) == Feed(c, r, Concat(fragments))
    decreases |fragments|
  {
    if fragments != [] {
      var n := |fragments| - 1;
      CleanCutsOfPrefix(c, r, fragments);
      FragmentIndependence(c, r, fragments[..n]);
      if n > 0 {
        assert CleanCut(c, r, fragments, n);
      }
      FeedInTwo(c, r, Concat(fragments[..n]), fragments[n]);
    }
  }

  lemma {:induction false} ConcatPrefix(fragments: seq<ByteString>, k: nat)
    requires k <= |fragments|
    ensures Concat(fragments[..k]) <= Concat(fragments)
    decreases |fragments|
  {
    if k == |fragments| {
      assert fragments[..k] == fragments;
    } else {
      var init := fragments[..|fragments| - 1];
      assert fragments[..k] == init[..k];
      ConcatPrefix(init, k);
    }
  }

  // ---------------------------------------------------------------- encoded streams

  /**
   * The other end of the stream: how a message is encoded, which messages may be written in a
   * state, what the decoder should take them for, and which prefixes of an encoding it takes
   * for a whole message.
   */
  datatype Writer<!S, !W, !M> = Writer(
    encode: W -> ByteString,
    fits: (S, W) -> bool,
    view: (S, W) -> M,
    marker: (W, nat) -> bool)

  /** Wherever an encoded message lies, whatever follows it, it is read as written. */
  ghost predicate ReadsBack<S(!new), W(!new), M(!new), C(!new), F(!new)>(c: Decoder<S, M, C, F>, w: Writer<S, W, M>) {
    && (forall m :: w.encode(m) != [])
    && forall s, m, d, o: nat :: w.fits(s, m) && At(d, o, w.encode(m)) ==>
         !c.partial(w.view(s, m)) && c.parse(s, d, o) == Ok(w.view(s, m), o + |w.encode(m)|)
  }

  /** A proper part of an encoded message is incomplete, except at its marker, where it is accepted at a cut. */
  ghost predicate CutsAtMarkers<S(!new), W(!new), M(!new), C(!new), F(!new)>(c: Decoder<S, M, C, F>, w: Writer<S, W, M>) {
    forall s, m, k :: w.fits(s, m) && 0 < k < |w.encode(m)| ==>
      if w.marker(m, k) then c.Cut(s, w.encode(m)[..k], 0) else c.parse(s, w.encode(m)[..k], 0).Incomplete?
  }

  function EncodeAll<S, W, M>(w: Writer<S, W, M>, ms: seq<W>): ByteString {
    if ms == [] then [] else w.encode(ms[0]) + EncodeAll(w, ms[1..])
  }

  /** Execute the messages in order, stopping at the first fault: the meaning of a stream. */
  function Run<S, W, M, C, F>(c: Decoder<S, M, C, F>, w: Writer<S, W, M>, s: S, ms: seq<W>): Drained<S, C, F>
    decreases |ms|
  {
    if ms == [] then Drained(s, [], [], None)
    else
      match c.exec(s, w.view(s, ms[0]))
      case Failure(fault) => Drained(s, [], [], Some(Refused(fault)))
      case Success(result) => After(result.1, Run(c, w, result.0, ms[1..]))
  }

  /** Each message may be written in the state that those before it lead to. */
  predicate Writable<S, W, M, C, F>(c: Decoder<S, M, C, F>, w: Writer<S, W, M>, s: S, ms: seq<W>)
    decreases |ms|
  {
    ms != [] ==>
      && w.fits(s, ms[0])
      && match c.exec(s, w.view(s, ms[0]))
         case Failure(_) => true
         case Success(result) => Writable(c, w, result.0, ms[1..])
  }

  /** The positions in an encoded stream that lie at a marker of one of its messages. */
  predicate AtMarker<S, W, M>(w: Writer<S, W, M>, ms: seq<W>, k: nat)
    decreases |ms|
  {
    ms != [] && k > 0 &&
    if k < |w.encode(ms[0])| then w.marker(ms[0], k) else AtMarker(w, ms[1..], k - |w.encode(ms[0])|)
  }

  /** Draining an encoded stream, whatever follows it, is running its messages and then draining what follows. */
  lemma {:induction false} StreamRoundTrip<S(!new), W(!new), M(!new), C(!new), F(!new)>(
    c: Decoder<S, M, C, F>, w: Writer<S, W, M>, s: S, d: ByteString, o: nat, ms: seq<W>)
    requires ReadsBack(c, w) && Writable(c, w, s, ms) && At(d, o, EncodeAll(w, ms))
    ensures var run := Run(c, w, s, ms);
            Drain(c, s, d, o) ==
            if run.stop.Some? then run else After(run.sent, Drain(c, run.state, d, o + |EncodeAll(w, ms)|))
    decreases |ms|
  {
    hide At;
    AtFits(d, o, EncodeAll(w, ms));
    if ms == [] {
      AfterTwice([], [], Drain(c, s, d, o));
    } else {
      AtBoth(d, o, w.encode(ms[0]), EncodeAll(w, ms[1..]));
      assert c.parse(s, d, o) == Ok(w.view(s, ms[0]), o + |w.encode(ms[0])|);
      var r := c.exec(s, w.view(s, ms[0]));
      if r.Success? {
        StreamRoundTrip(c, w, r.value.0, d, o + |w.encode(ms[0])|, ms[1..]);
        var rest := Run(c, w, r.value.0, ms[1..]);
        AfterTwice(r.value.1, rest.sent, Drain(c, rest.state, d, o + |EncodeAll(w, ms)|));
      }
    }
  }

  lemma {:induction false} RunLeavesNothing<S, W, M, C, F>(c: Decoder<S, M, C, F>, w: Writer<S, W, M>, s: S, ms: seq<W>)
    ensures Run(c, w, s, ms).tail == []
    decreases |ms|
  {
    if ms != [] {
      var r := c.exec(s, w.view(s, ms[0]));
      if r.Success? {
        RunLeavesNothing(c, w, r.value.0, ms[1..]);
      }
    }
  }

  /** A stream of encoded messages alone is consumed to its last byte, and has exactly the effect of running them. */
  lemma WholeStream<S(!new), W(!new), M(!new), C(!new), F(!new)>(c: Decoder<S, M, C, F>, w: Writer<S, W, M>, s: S, ms: seq<W>)
    requires ReadsBack(c, w) && Writable(c, w, s, ms)
    ensures Drain(c, s, EncodeAll(w, ms), 0) == Run(c, w, s, ms)
  {
    AtFront(EncodeAll(w, ms), []);
    StreamRoundTrip(c, w, s, EncodeAll(w, ms), 0, ms);
    RunLeavesNothing(c, w, s, ms);
    var run := Run(c, w, s, ms);
    assert run.sent + [] == run.sent;
  }

  /** The cuts that a verdict depends on are markers; in a stream that runs without a fault they are exactly the markers. */
  lemma {:induction false} UnsafeCutsAreMarkers<S(!new), W(!new), M(!new), C(!new), F(!new)>(
    c: Decoder<S, M, C, F>, w: Writer<S, W, M>, s: S, ms: seq<W>, k: nat)
    requires Progresses(c) && Stable(c) && ReadsBack(c, w) && CutsAtMarkers(c, w)
    requires Writable(c, w, s, ms) && k <= |EncodeAll(w, ms)|
    ensures EndsAtCut(c, s, EncodeAll(w, ms)[..k], 0) ==> AtMarker(w, ms, k)
    ensures Run(c, w, s, ms).stop.None? && AtMarker(w, ms, k) ==> EndsAtCut(c, s, EncodeAll(w, ms)[..k], 0)
    decreases |ms|
  {
    hide At;
    if ms != [] && k > 0 {
      var first, tail := w.encode(ms[0]), EncodeAll(w, ms[1..]);
      var n, d := |first|, EncodeAll(w, ms)[..k];
      if k < n {
        assert d == first[..k];
        assert c.Cut(s, d, 0) == w.marker(ms[0], k) && (c.Cut(s, d, 0) || c.parse(s, d, 0).Incomplete?);
      } else {
        assert d == first + tail[..k - n];
        AtFront(first, tail[..k - n]);
        var r := c.exec(s, w.view(s, ms[0]));
        if r.Success? {
          EndsTrimmed(c, r.value.0, d, n, n);
          assert d[n..] == tail[..k - n];
          UnsafeCutsAreMarkers(c, w, r.value.0, ms[1..], k - n);
        }
      }
    }
  }

  /** The start of a session in a given state. */
  function Fresh<S, C, F>(s: S): Drained<S, C, F> {
    Drained(s, [], [], None)
  }

  /**
   * End to end: however the bytes of written messages are fragmented, short of a cut at a
   * marker, the session ends as if the messages had been executed one by one, at the same fault
   * if one of them fails.
   */
  lemma DeliveredAsWritten<S(!new), W(!new), M(!new), C(!new), F(!new)>(
    c: Decoder<S, M, C, F>, w: Writer<S, W, M>, s: S, ms: seq<W>, fragments: seq<ByteString>)
    requires Progresses(c) && Stable(c) && ReadsBack(c, w) && CutsAtMarkers(c, w)
    requires Writable(c, w, s, ms) && Concat(fragments) == EncodeAll(w, ms)
    requires forall k | 0 < k < |fragments| :: !AtMarker(w, ms, |Concat(fragments[..k])|)
    ensures FeedAll(c, Fresh(s), fragments) == Run(c, w, s, ms)
  {
    var start: Drained<S, C, F>, stream := Fresh(s), EncodeAll(w, ms);
    forall k | 0 < k < |fragments| ensures CleanCut(c, start, fragments, k) {
      ConcatPrefix(fragments, k);
      var cut := |Concat(fragments[..k])|;
      UnsafeCutsAreMarkers(c, w, s, ms, cut);
      assert start.tail + Concat(fragments[..k]) == stream[..cut];
    }
    FragmentIndependence(c, start, fragments);
    WholeStream(c, w, s, ms);
    assert start.tail + stream == stream;
    AfterTwice([], [], Drain(c, s, stream, 0));
    assert ms != [] ==> w.encode(ms[0]) != [];
  }
}
