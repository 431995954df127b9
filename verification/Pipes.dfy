/** Two endpoints over two segment logs: every run of the pipe, and what holds after each. */
module Pipes {
  import opened Options
  import opened Bytes
  import opened Seqs
  import opened Frames
  import opened SegLog
  import opened Endpoints
  import opened PipeInv

  datatype Pipe = Pipe(a: Endpoint, b: Endpoint)

  datatype Event = Event(atA: bool, act: Action)

  function Me(p: Pipe, atA: bool): Endpoint {
    if atA then p.a else p.b
  }

  function With(p: Pipe, atA: bool, e: Endpoint): Pipe {
    if atA then p.(a := e) else p.(b := e)
  }

  function Step(crc: Crc, p: Pipe, ev: Event): Option<Pipe> {
    match Act(crc, Me(p, ev.atA), Me(p, !ev.atA), ev.act)
    case Some(e') => Some(With(p, ev.atA, e'))
    case None => None
  }

  /** The pipe after a run of events in this order, or None where some event was not enabled. */
  function Run(crc: Crc, p: Pipe, evs: seq<Event>): Option<Pipe>
    decreases |evs|
  {
    if evs == [] then Some(p) else
    match Step(crc, p, evs[0])
    case Some(p') => Run(crc, p', evs[1..])
    case None => None
  }

  /** Each side has written its SYN; neither has read the other's. */
  function Start(crc: Crc, pa: Params, pb: Params): Pipe
    requires ParamsOk(pa) && ParamsOk(pb)
  {
    Pipe(Opening(Encoder(crc), pa), Opening(Encoder(crc), pb))
  }

  ghost predicate PipeOk(crc: Crc, p: Pipe) {
    Inv(Encoder(crc), p.a, p.b)
  }

  // ---------- every run keeps the invariant ----------

  lemma SingleLoad(enc: Enc, fs: seq<Frame>, i: nat)
    requires i < |fs|
    ensures FlatMap(enc, fs[i..i + 1]) == enc(fs[i])
  {
    assert fs[i..i + 1] == [] + [fs[i]];
    FlatMapSnoc(enc, [], fs[i]);
  }

  lemma OpeningLog(crc: Crc, p: Params)
    requires ParamsOk(p)
    ensures var e := Opening(Encoder(crc), p);
            LogInv(Encoder(crc), e.conn.log, e.hist) && Payload(e.hist.frames) == []
  {
    hide Encode, FlatMap, EncodeSyn;
    var enc := Encoder(crc);
    var e := Opening(enc, p);
    SingleLoad(enc, e.hist.frames, 0);
    SingleLoad(DataBytes, e.hist.frames, 0);
    assert e.hist.frames[0..1] == e.hist.frames;
  }

  lemma OpeningGood(crc: Crc, p: Params)
    requires ParamsOk(p)
    ensures Good(Encoder(crc), Opening(Encoder(crc), p))
  {
    hide LogInv, Append, EncodeSyn, Encoder;
    OpeningLog(crc, p);
    var e := Opening(Encoder(crc), p);
    assert e.hist.frames[..0] == [];
    MaxAckSnoc([], e.hist.frames[0]);
    OpeningReaped(crc, p);
  }

  lemma OpeningReaped(crc: Crc, p: Params)
    requires ParamsOk(p)
    ensures ReapedUpTo(Opening(Encoder(crc), p).conn.log, [], 0)
  {
    hide Encode, EncodeSyn;
  }

  lemma OpeningLinks(crc: Crc, s: Params, r: Params)
    requires ParamsOk(s) && ParamsOk(r)
    ensures Link(Encoder(crc), Opening(Encoder(crc), s), Opening(Encoder(crc), r))
  {
    OpeningGood(crc, s);
    var e := Opening(Encoder(crc), s);
    assert e.hist.frames[..0] == [];
  }

  lemma StepKeeps(crc: Crc, p: Pipe, ev: Event, p': Pipe)
    requires PipeOk(crc, p) && Step(crc, p, ev) == Some(p')
    ensures PipeOk(crc, p')
  {
    hide Act, Good, Link;
    ActKeeps(crc, Me(p, ev.atA), Me(p, !ev.atA), ev.act, Me(p', ev.atA));
  }

  lemma {:induction false} RunConcat(crc: Crc, p: Pipe, evs: seq<Event>, q: Pipe, more: seq<Event>)
    requires Run(crc, p, evs) == Some(q)
    ensures Run(crc, p, evs + more) == Run(crc, q, more)
    decreases |evs|
  {
    hide Step;
    if evs == [] {
      assert evs + more == more;
    } else {
      RunConcat(crc, Step(crc, p, evs[0]).value, evs[1..], q, more);
      assert (evs + more)[1..] == evs[1..] + more;
    }
  }

  /** Some run leads from p to q. */
  ghost predicate Leads(crc: Crc, p: Pipe, q: Pipe) {
    exists evs :: Run(crc, p, evs) == Some(q)
  }

  lemma LeadsNowhere(crc: Crc, p: Pipe)
    ensures Leads(crc, p, p)
  {
    assert Run(crc, p, []) == Some(p);
  }

  lemma LeadsOn(crc: Crc, p: Pipe, q: Pipe, q': Pipe)
    requires Leads(crc, p, q) && Leads(crc, q, q')
    ensures Leads(crc, p, q')
  {
    hide Run;
    var evs :| Run(crc, p, evs) == Some(q);
    var more :| Run(crc, q, more) == Some(q');
    RunConcat(crc, p, evs, q, more);
  }

  /** One event of an end, when it is enabled, leads on and keeps the invariant. */
  lemma LeadsBy(crc: Crc, p: Pipe, atA: bool, act: Action, e': Endpoint)
    requires PipeOk(crc, p) && Act(crc, Me(p, atA), Me(p, !atA), act) == Some(e')
    ensures Leads(crc, p, With(p, atA, e')) && PipeOk(crc, With(p, atA, e'))
  {
    hide Act, Good, Link;
    var ev, q := Event(atA, act), With(p, atA, e');
    StepKeeps(crc, p, ev, q);
    assert [ev][1..] == [];
    assert Run(crc, q, []) == Some(q);
    assert Run(crc, p, [ev]) == Some(q);
  }

  lemma {:induction false} RunKeeps(crc: Crc, p: Pipe, evs: seq<Event>, q: Pipe)
    requires PipeOk(crc, p) && Run(crc, p, evs) == Some(q)
    ensures PipeOk(crc, q)
    decreases |evs|
  {
    hide Act, Good, Link;
    if evs != [] {
      var p' := Step(crc, p, evs[0]).value;
      StepKeeps(crc, p, evs[0], p');
      RunKeeps(crc, p', evs[1..], q);
    }
  }

  lemma RunOk(crc: Crc, pa: Params, pb: Params, evs: seq<Event>, p: Pipe)
    requires ParamsOk(pa) && ParamsOk(pb) && Run(crc, Start(crc, pa, pb), evs) == Some(p)
    ensures PipeOk(crc, p)
  {
    hide Run, Good, Link, Opening;
    OpeningGood(crc, pa);
    OpeningGood(crc, pb);
    OpeningLinks(crc, pa, pb);
    OpeningLinks(crc, pb, pa);
    RunKeeps(crc, Start(crc, pa, pb), evs, p);
  }

  // ---------- delivery ----------

  /** What Read has returned is a prefix of what the other side's Write accepted. */
  ghost predicate Delivered(s: Endpoint, r: Endpoint) {
    r.returned <= s.written
  }

  /** End-to-end delivery, in both directions, after every run: no loss, duplication or reordering. */
  lemma Delivery(crc: Crc, pa: Params, pb: Params, evs: seq<Event>, p: Pipe)
    requires ParamsOk(pa) && ParamsOk(pb) && Run(crc, Start(crc, pa, pb), evs) == Some(p)
    ensures Delivered(p.a, p.b) && Delivered(p.b, p.a)
  {
    hide Run, Start, Good, Link;
    RunOk(crc, pa, pb, evs, p);
    Ordering(Encoder(crc), p.a, p.b);
    Ordering(Encoder(crc), p.b, p.a);
  }

  /** Acknowledged, returned, taken, sent; never more than a window apart. */
  ghost predicate InOrder(s: Endpoint, r: Endpoint) {
    && s.conn.peerAck <= r.conn.recvData == |r.returned|
    && r.conn.recvData + |r.conn.recvBuf| == DataIn(s.hist.frames[..Min(r.taken, |s.hist.frames|)])
    && r.conn.recvData + |r.conn.recvBuf| <= s.conn.sentData == |s.written|
    && s.conn.sentData - s.conn.peerAck <= s.conn.params.window
    && |r.conn.recvBuf| <= s.conn.params.window
  }

  function Min(x: nat, y: nat): nat {
    if x < y then x else y
  }

  lemma FlowInOrder(crc: Crc, pa: Params, pb: Params, evs: seq<Event>, p: Pipe)
    requires ParamsOk(pa) && ParamsOk(pb) && Run(crc, Start(crc, pa, pb), evs) == Some(p)
    ensures InOrder(p.a, p.b) && InOrder(p.b, p.a)
  {
    hide Run, Start, LogInv, ReaderInv, MaxAck, HasFin, ReapedUpTo, Numbered, Chunked, Payload;
    RunOk(crc, pa, pb, evs, p);
    Ordering(Encoder(crc), p.a, p.b);
    Ordering(Encoder(crc), p.b, p.a);
  }

  /** The k-th frame of a direction carries number k and the DATA total before it. */
  lemma FramesNumbered(crc: Crc, pa: Params, pb: Params, evs: seq<Event>, p: Pipe)
    requires ParamsOk(pa) && ParamsOk(pb) && Run(crc, Start(crc, pa, pb), evs) == Some(p)
    ensures Numbered(p.a.hist.frames) && Numbered(p.b.hist.frames)
    ensures p.a.written == Payload(p.a.hist.frames) && p.b.written == Payload(p.b.hist.frames)
  {
    hide Run, Start, LogInv, Numbered, Payload, Acker, Windowed, ReapedUpTo, Link;
    RunOk(crc, pa, pb, evs, p);
  }

  /**
   * The acknowledgement an end acts on is the highest of the ACKs it has taken, in whatever order they came;
   * and neither unsigned subtraction of the flow control wraps.
   */
  ghost predicate AcksExact(e: Endpoint, peer: Endpoint) {
    && e.taken <= |peer.hist.frames| && e.conn.peerAck == MaxAck(peer.hist.frames[..e.taken])
    && Room(e.conn) == e.conn.params.window - (e.conn.sentData - e.conn.peerAck) >= 0
    && (e.readAck.Captured? ==>
          && e.readAck.rd == e.conn.recvData >= e.conn.lastAckSent
          && Sub64(e.readAck.rd, e.conn.lastAckSent) == e.readAck.rd - e.conn.lastAckSent)
  }

  lemma AcksAreRunningMaximum(crc: Crc, pa: Params, pb: Params, evs: seq<Event>, p: Pipe)
    requires ParamsOk(pa) && ParamsOk(pb) && Run(crc, Start(crc, pa, pb), evs) == Some(p)
    ensures AcksExact(p.a, p.b) && AcksExact(p.b, p.a)
  {
    hide Run, Start, LogInv, ReaderInv, MaxAck, HasFin, ReapedUpTo, Numbered, Chunked, Payload, Room, Sub64;
    RunOk(crc, pa, pb, evs, p);
    NoWrap(Encoder(crc), p.a);
    NoWrap(Encoder(crc), p.b);
  }

  /** The next frame the reader can take is the next one appended; it never meets a frame it cannot accept. */
  ghost predicate ReadsOn(crc: Crc, s: Endpoint, r: Endpoint) {
    r.reader.isOpen ==>
      match TryDecode(crc, r.reader).1
      case Broken => false
      case Got(f) => r.taken < |s.hist.frames| && f == s.hist.frames[r.taken]
      case Rolled => r.taken < |s.hist.frames|
      case NeedMore => true
  }

  /** Torn tails: however the bytes become visible, the reader takes the frames in order and never fails. */
  lemma ReaderNeverFails(crc: Crc, pa: Params, pb: Params, evs: seq<Event>, p: Pipe)
    requires ParamsOk(pa) && ParamsOk(pb) && Run(crc, Start(crc, pa, pb), evs) == Some(p)
    ensures ReadsOn(crc, p.a, p.b) && ReadsOn(crc, p.b, p.a)
  {
    hide Run, Start, Good, Link, ReadsOn;
    RunOk(crc, pa, pb, evs, p);
    ReadsNext(crc, p.a, p.b);
    ReadsNext(crc, p.b, p.a);
  }

  lemma ReadsNext(crc: Crc, s: Endpoint, r: Endpoint)
    requires Inv(Encoder(crc), s, r)
    ensures ReadsOn(crc, s, r)
  {
    hide LogInv, Synced, SegBytes, MaxAck, HasFin, ReapedUpTo, Numbered, Chunked, Payload, TryDecode, Encoder;
    LinkFacts(Encoder(crc), s, r);
    if r.reader.isOpen {
      TryDecodeRefines(crc, s.conn.log, s.hist, r.reader, r.taken);
    }
  }

  /** A FIN the reader has taken, with everything sent before it returned by Read. */
  ghost predicate FinishedBefore(s: Endpoint, r: Endpoint, k: nat) {
    && k < r.taken && k < |s.hist.frames| && s.hist.frames[k].typ == FIN
    && Payload(s.hist.frames[..k]) <= r.returned
    && s.hist.frames[k].dataOff <= |r.returned|
  }

  /** End-of-file is reported only after a FIN, with every byte sent before any FIN taken already returned. */
  ghost predicate EofJustified(s: Endpoint, r: Endpoint) {
    ReadsEOF(r) ==>
      && (exists k :: FinishedBefore(s, r, k))
      && (forall k :: 0 <= k < r.taken && k < |s.hist.frames| && s.hist.frames[k].typ == FIN ==>
            FinishedBefore(s, r, k))
  }

  lemma EofComplete(enc: Enc, s: Endpoint, r: Endpoint)
    requires Inv(enc, s, r)
    ensures EofJustified(s, r)
  {
    hide LogInv, ReaderInv, MaxAck, ReapedUpTo, Chunked, Payload;
    var fs := s.hist.frames;
    if ReadsEOF(r) {
      forall k | 0 <= k < r.taken && k < |fs| && fs[k].typ == FIN
        ensures FinishedBefore(s, r, k)
      {
        PayloadSplit(fs, k, r.taken);
        assert r.returned == Payload(fs[..r.taken]);
      }
      var k :| 0 <= k < |fs[..r.taken]| && fs[..r.taken][k].typ == FIN;
      assert FinishedBefore(s, r, k);
    }
  }

  /** Half-close, in every run. */
  lemma EofAfterAllData(crc: Crc, pa: Params, pb: Params, evs: seq<Event>, p: Pipe)
    requires ParamsOk(pa) && ParamsOk(pb) && Run(crc, Start(crc, pa, pb), evs) == Some(p)
    ensures EofJustified(p.a, p.b) && EofJustified(p.b, p.a)
  {
    hide Run, Start, Good, Link, EofJustified;
    RunOk(crc, pa, pb, evs, p);
    EofComplete(Encoder(crc), p.a, p.b);
    EofComplete(Encoder(crc), p.b, p.a);
  }

  // ---------- what a blocked sender waits for ----------

  predicate Blocked(s: Endpoint) {
    Room(s.conn) <= 0
  }

  /** DATA that the receiver has not yet returned: in the log, or in its buffer. */
  predicate DataPending(s: Endpoint, r: Endpoint) {
    r.conn.recvData < s.conn.sentData
  }

  /** An ACK frame beyond what the sender has taken that raises its acknowledgement. */
  ghost predicate AckPending(s: Endpoint, r: Endpoint) {
    s.conn.peerAck < MaxAck(r.hist.frames)
  }

  predicate TickWouldAck(r: Endpoint) {
    r.conn.recvData > r.conn.lastAckSent
  }

  /**
   * A sender without room has data still to be returned, or an ACK on its way, or a receiver whose next
   * maintenance tick acknowledges; and no tick is needed when a quarter of the receiver's window is at most
   * the sender's window, once the receiver's Read is through with its own acknowledgement.
   */
  ghost predicate HasCause(s: Endpoint, r: Endpoint) {
    Blocked(s) ==>
      && (DataPending(s, r) || AckPending(s, r) || TickWouldAck(r))
      && (AckSlack(r.conn.params) <= s.conn.params.window && r.readAck.Idle? && !r.conn.sendClosed ==>
            DataPending(s, r) || AckPending(s, r))
  }

  lemma Unblocks(enc: Enc, s: Endpoint, r: Endpoint)
    requires Inv(enc, s, r)
    ensures HasCause(s, r)
  {
    hide LogInv, ReaderInv, MaxAck, HasFin, ReapedUpTo, Numbered, Chunked, Payload, Room, AckSlack;
    Ordering(enc, s, r);
    NoWrap(enc, s);
  }

  /** After every run, in either direction; whether what a blocked sender waits for can still come is another matter. */
  lemma BlockedHasCause(crc: Crc, pa: Params, pb: Params, evs: seq<Event>, p: Pipe)
    requires ParamsOk(pa) && ParamsOk(pb) && Run(crc, Start(crc, pa, pb), evs) == Some(p)
    ensures HasCause(p.a, p.b) && HasCause(p.b, p.a)
  {
    hide Run, Start, Good, Link, HasCause;
    RunOk(crc, pa, pb, evs, p);
    Unblocks(Encoder(crc), p.a, p.b);
    Unblocks(Encoder(crc), p.b, p.a);
  }

  /** A receiver that has returned all of a blocked sender's data is past its handshake. */
  lemma SomethingTaken(enc: Enc, s: Endpoint, r: Endpoint)
    requires Inv(enc, s, r) && Blocked(s) && !DataPending(s, r)
    ensures Established(r)
  {
    hide LogInv, ReaderInv, MaxAck, HasFin, ReapedUpTo, Numbered, Chunked, Room;
    NoWrap(enc, s);
    Ordering(enc, s, r);
    assert s.hist.frames[..0] == [];
  }

  /** The tick of a receiver that has returned everything puts an ACK for all of it in its log. */
  lemma TickAcknowledges(crc: Crc, s: Endpoint, r: Endpoint)
    requires Inv(Encoder(crc), s, r) && Blocked(s) && !DataPending(s, r) && !AckPending(s, r)
    requires r.maintAck.Idle? && !r.conn.recvErr && !r.conn.sendClosed
    requires Writable(r, ACK, PutUint(8, r.conn.recvData))
    ensures exists r1, r2, r' ::
              && Act(crc, r, s, MaintStart) == Some(r1)
              && Act(crc, r1, s, AckCheck(Maintaining)) == Some(r2)
              && Act(crc, r2, s, AckEmit(Maintaining)) == Some(r')
              && MaxAck(r'.hist.frames) == s.conn.sentData
  {
    hide LogInv, ReaderInv, HasFin, MaxAck, ReapedUpTo, Numbered, Chunked, Payload, Append, Record, Blocked;
    var enc := Encoder(crc);
    Unblocks(enc, s, r);
    Ordering(enc, s, r);
    SomethingTaken(enc, s, r);
    var rd := r.conn.recvData;
    var r1 := DoMaintStart(r).value;
    var r2 := DoAckCheck(r1, Maintaining).value;
    var r' := DoAckEmit(enc, r2, Maintaining).value;
    Pow256Values();
    GetPut(8, rd);
    MaxAckSnoc(r.hist.frames, NextFrameOut(r2.conn, ACK, PutUint(8, rd)));
    assert Act(crc, r, s, MaintStart) == Some(r1);
    assert Act(crc, r1, s, AckCheck(Maintaining)) == Some(r2);
    assert Act(crc, r2, s, AckEmit(Maintaining)) == Some(r');
  }

  // ---------- reaping ----------

  /**
   * The unlinked names are a prefix of the indices; every byte sent before the first linked segment has
   * been returned; and the reader has reached each segment up to it that begins with a DATA frame,
   * so it has left every unlinked segment whose roll a DATA frame caused.
   */
  ghost predicate ReapedSafely(s: Endpoint, r: Endpoint) {
    && Shape(s.hist)
    && FirstLinked(s.conn.log) <= |s.hist.ends|
    && (forall i: nat :: i in s.conn.log.unlinked <==> i < FirstLinked(s.conn.log))
    && (forall j :: 0 < j <= FirstLinked(s.conn.log) ==> Payload(s.hist.frames[..s.hist.starts[j]]) <= r.returned)
    && (forall j :: 0 < j <= FirstLinked(s.conn.log) && s.hist.frames[s.hist.starts[j]].typ == DATA ==>
          r.reader.cur >= j)
  }

  lemma ReapedSegmentReturned(enc: Enc, s: Endpoint, r: Endpoint, j: nat)
    requires Inv(enc, s, r) && 0 < j <= FirstLinked(s.conn.log)
    ensures j <= |s.hist.ends| && Shape(s.hist)
    ensures Payload(s.hist.frames[..s.hist.starts[j]]) <= r.returned
    ensures s.hist.frames[s.hist.starts[j]].typ == DATA ==> r.reader.cur >= j
  {
    hide Holds, FramesOk, Sized, Numbered, MaxAck, HasFin, Payload, Synced;
    var fs, t := s.hist.frames, s.hist.starts[j];
    assert s.hist.ends[j - 1] <= s.reapedTo;
    assert s.hist.ends[j - 1] == DataIn(fs[..s.hist.starts[(j - 1) + 1] + 1]);
    Ordering(enc, s, r);
    PayloadNext(fs, t);
    PayloadSplit(fs, t, |fs|);
    assert fs[..|fs|] == fs;
    LinkFacts(enc, s, r);
    if r.taken <= t {
      PayloadSplit(fs, r.taken, t);
    }
    assert |Payload(fs[..t])| <= |r.returned|;
    assert Payload(fs[..t]) <= s.written && r.returned <= s.written;
  }

  lemma ReapSafety(crc: Crc, pa: Params, pb: Params, evs: seq<Event>, p: Pipe)
    requires ParamsOk(pa) && ParamsOk(pb) && Run(crc, Start(crc, pa, pb), evs) == Some(p)
    ensures ReapedSafely(p.a, p.b) && ReapedSafely(p.b, p.a)
  {
    hide Run, Start, Good, Link, Payload;
    RunOk(crc, pa, pb, evs, p);
    ReapSafe(Encoder(crc), p.a, p.b);
    ReapSafe(Encoder(crc), p.b, p.a);
  }

  lemma ReapSafe(enc: Enc, s: Endpoint, r: Endpoint)
    requires Inv(enc, s, r)
    ensures ReapedSafely(s, r)
  {
    hide Holds, FramesOk, Sized, Numbered, MaxAck, HasFin, Payload, Synced, Link;
    forall j | 0 < j <= FirstLinked(s.conn.log)
      ensures Payload(s.hist.frames[..s.hist.starts[j]]) <= r.returned
      ensures s.hist.frames[s.hist.starts[j]].typ == DATA ==> r.reader.cur >= j
    {
      ReapedSegmentReturned(enc, s, r, j);
    }
  }

  // ---------- the log on disk ----------

  function Max(x: nat, y: nat): nat {
    if x < y then y else x
  }

  /** The most DATA one segment can hold. */
  function SegData(p: Params): nat {
    Max(p.segmentSize, p.maxFrame)
  }

  /** DATA bytes in the segments not yet unlinked. */
  function Backlog(e: Endpoint): nat
    requires 0 <= FirstLinked(e.conn.log) < |e.hist.starts| && e.hist.starts[FirstLinked(e.conn.log)] <= |e.hist.frames|
  {
    DataIn(e.hist.frames[e.hist.starts[FirstLinked(e.conn.log)]..])
  }

  lemma {:induction false} EncodedHoldsPayload(enc: Enc, fs: seq<Frame>)
    requires forall f :: |enc(f)| >= |f.payload|
    ensures DataIn(fs) <= |FlatMap(enc, fs)|
  {
    if fs != [] {
      EncodedHoldsPayload(enc, fs[..|fs| - 1]);
      PayloadSnoc(fs[..|fs| - 1], fs[|fs| - 1]);
      assert fs == fs[..|fs| - 1] + [fs[|fs| - 1]];
    }
  }

  /** A run of frames carries no more DATA than its encoding is long, and a single frame no more than the limit. */
  lemma StretchData(enc: Enc, fs: seq<Frame>, from: nat, to: nat, p: Params)
    requires from < to <= |fs| && Chunked(fs, p.maxFrame)
    requires |FlatMap(enc, fs[from..to])| <= p.segmentSize || to == from + 1
    requires forall f :: |enc(f)| >= |f.payload|
    ensures DataIn(fs[..to]) - DataIn(fs[..from]) <= SegData(p)
  {
    hide Payload, FlatMap;
    PayloadSplit(fs, from, to);
    if to == from + 1 {
      PayloadNext(fs, from);
      assert PayloadOk(fs[from].typ, |fs[from].payload|, p.maxFrame);
    } else {
      EncodedHoldsPayload(enc, fs[from..to]);
    }
  }

  lemma SegmentData(enc: Enc, e: Endpoint, i: nat)
    requires Sender(enc, e) && i < |e.hist.starts|
    requires forall f :: |enc(f)| >= |f.payload|
    ensures Shape(e.hist)
    ensures DataIn(e.hist.frames[..SegTo(e.hist, i)]) - DataIn(e.hist.frames[..e.hist.starts[i]])
            <= SegData(e.conn.params)
  {
    hide Holds, FramesOk, EndsOk, ReapOk, Numbered, Chunked, DataIn, FlatMap, SegData;
    StretchData(enc, e.hist.frames, e.hist.starts[i], SegTo(e.hist, i), e.conn.params);
  }

  /**
   * The DATA bytes kept on disk stay within the window, one segment and one frame, or within two windows
   * while an acknowledgement has been recorded and not yet reaped with.
   */
  ghost predicate BacklogBounded(e: Endpoint) {
    && 0 <= FirstLinked(e.conn.log) < |e.hist.starts| && e.hist.starts[FirstLinked(e.conn.log)] <= |e.hist.frames|
    && var p := e.conn.params;
       Backlog(e) <= (if e.reapDue.None? then p.window else 2 * p.window) + SegData(p) + p.maxFrame
  }

  lemma BacklogBound(enc: Enc, e: Endpoint)
    requires Good(enc, e)
    requires forall f :: |enc(f)| >= |f.payload|
    ensures BacklogBounded(e)
  {
    hide FramesOk, Numbered, Payload, FlatMap, Acker, MaxAck, SegData, SegBytes, Sized;
    var fs, lo := e.hist.frames, FirstLinked(e.conn.log);
    var from := e.hist.starts[lo];
    SegmentData(enc, e, lo);
    PayloadSplit(fs, from, |fs|);
    assert fs[..|fs|] == fs && fs[from..|fs|] == fs[from..];
    if lo < |e.hist.ends| {
      var t := e.hist.starts[lo + 1];
      assert e.hist.ends[lo] == DataIn(fs[..t + 1]);
      PayloadNext(fs, t);
      assert PayloadOk(fs[t].typ, |fs[t].payload|, e.conn.params.maxFrame);
    }
  }

  /** Bounded backlog, on both sides, after every run. */
  lemma BoundedBacklog(crc: Crc, pa: Params, pb: Params, evs: seq<Event>, p: Pipe)
    requires ParamsOk(pa) && ParamsOk(pb) && Run(crc, Start(crc, pa, pb), evs) == Some(p)
    ensures BacklogBounded(p.a) && BacklogBounded(p.b)
  {
    hide Run, Start, Good, Link, BacklogBounded;
    RunOk(crc, pa, pb, evs, p);
    BacklogBound(Encoder(crc), p.a);
    BacklogBound(Encoder(crc), p.b);
  }

  /**
   * The bytes of a closed segment decode to at least one ordinary frame and then, last, one ROLL
   * that names the next index; and the segment is at most one ROLL longer than it may grow.
   */
  ghost predicate ClosedWell(crc: Crc, e: Endpoint, i: nat) {
    var p := e.conn.params;
    var got := if i < |e.conn.log.segs| then DecodeAll(crc, e.conn.log.segs[i]) else [];
    && |got| >= 2
    && got[|got| - 1] == RollFrame(i + 1)
    && (forall k :: 0 <= k < |got| - 1 ==> got[k].typ != ROLL)
    && e.conn.log.segs[i] == EncodeAll(crc, got)
    && |e.conn.log.segs[i]| <= Max(p.segmentSize, 26 + Max(p.maxFrame, 22)) + 30
  }

  lemma SegmentDecodes(crc: Crc, l: Log, h: Hist, i: nat)
    requires Holds(Encoder(crc), l, h) && FramesOk(h) && i < l.cur
    ensures var all := h.frames[h.starts[i]..h.starts[i + 1]] + [RollFrame(i + 1)];
            l.segs[i] == EncodeAll(crc, all) && DecodeAll(crc, l.segs[i]) == all
  {
    hide FlatMap, DecodeAll, Encode, Encoder, FrameOk;
    var enc := Encoder(crc);
    var mine := h.frames[h.starts[i]..h.starts[i + 1]];
    var all := mine + [RollFrame(i + 1)];
    FlatMapSnoc(enc, mine, RollFrame(i + 1));
    assert AllFit(all) by {
      assert forall k :: 0 <= k < |mine| ==> mine[k] == h.frames[h.starts[i] + k];
      FramesFit(h);
    }
    DecodeAllEncoded(crc, all);
  }

  lemma FramesFit(h: Hist)
    requires FramesOk(h)
    ensures forall k :: 0 <= k < |h.frames| ==> Fits(h.frames[k]) && h.frames[k].typ != ROLL
  {
    forall k | 0 <= k < |h.frames|
      ensures Fits(h.frames[k]) && h.frames[k].typ != ROLL
    {
      assert FrameOk(h.frames[k]);
    }
  }

  lemma LoadBound(crc: Crc, e: Endpoint, i: nat)
    requires Sender(Encoder(crc), e) && i < |e.hist.starts|
    ensures Shape(e.hist)
    ensures var p := e.conn.params;
            |Load(Encoder(crc), e.hist, i)| <= Max(p.segmentSize, 26 + Max(p.maxFrame, 22))
  {
    hide Holds, FramesOk, EndsOk, ReapOk, Numbered, Payload, Encode, FlatMap;
    var h, enc := e.hist, Encoder(crc);
    var from := h.starts[i];
    if SegTo(h, i) == from + 1 {
      assert PayloadOk(h.frames[from].typ, |h.frames[from].payload|, e.conn.params.maxFrame);
      SingleLoad(enc, h.frames, from);
    }
  }

  lemma SegmentClosedWell(crc: Crc, e: Endpoint, i: nat)
    requires Sender(Encoder(crc), e) && i < e.conn.log.cur
    ensures ClosedWell(crc, e, i)
  {
    hide EndsOk, ReapOk, Sized, Numbered, Chunked, Payload, FlatMap, DecodeAll, FramesOk, EncodeAll, Encode;
    var h := e.hist;
    var mine := h.frames[h.starts[i]..h.starts[i + 1]];
    SegmentDecodes(crc, e.conn.log, h, i);
    LoadBound(crc, e, i);
    SegmentLength(crc, e.conn.log, h, i);
    FramesFit(h);
    assert forall k :: 0 <= k < |mine| ==> mine[k] == h.frames[h.starts[i] + k];
  }

  lemma SegmentLength(crc: Crc, l: Log, h: Hist, i: nat)
    requires Holds(Encoder(crc), l, h) && i < l.cur
    ensures |l.segs[i]| == |Load(Encoder(crc), h, i)| + 30
  {
    hide FlatMap, Load;
    assert l.segs[i] == SegBytes(Encoder(crc), h, i);
  }

  /** Every closed segment of every run has that shape. */
  lemma SegmentsClosedWell(crc: Crc, pa: Params, pb: Params, evs: seq<Event>, p: Pipe)
    requires ParamsOk(pa) && ParamsOk(pb) && Run(crc, Start(crc, pa, pb), evs) == Some(p)
    ensures forall i: nat :: i < p.a.conn.log.cur ==> ClosedWell(crc, p.a, i)
    ensures forall i: nat :: i < p.b.conn.log.cur ==> ClosedWell(crc, p.b, i)
  {
    hide Run, Start, Sender, Link, ClosedWell;
    RunOk(crc, pa, pb, evs, p);
    forall i: nat | i < p.a.conn.log.cur ensures ClosedWell(crc, p.a, i) {
      SegmentClosedWell(crc, p.a, i);
    }
    forall i: nat | i < p.b.conn.log.cur ensures ClosedWell(crc, p.b, i) {
      SegmentClosedWell(crc, p.b, i);
    }
  }

  /** Each closed segment would have exceeded the segment size with the frame that opened the next one. */
  ghost predicate RolledWhenFull(crc: Crc, e: Endpoint) {
    var enc, size := Encoder(crc), e.conn.params.segmentSize;
    && Shape(e.hist) && |e.conn.log.segs| == |e.hist.starts|
    && (forall i :: 0 <= i < |e.hist.ends| ==>
          |Load(enc, e.hist, i)| + |Encode(crc, e.hist.frames[e.hist.starts[i + 1]])| > size)
  }

  /** The frames of a direction that fit one segment are in one; otherwise two segments hold more than one size. */
  ghost predicate SegmentsBounded(crc: Crc, e: Endpoint) {
    var segs, size, bytes := |e.conn.log.segs|, e.conn.params.segmentSize, |EncodeAll(crc, e.hist.frames)|;
    && (bytes <= size ==> segs == 1)
    && (segs > 1 ==> segs / 2 * size < bytes)
  }

  lemma RollsWhenFull(crc: Crc, e: Endpoint)
    requires Sender(Encoder(crc), e)
    ensures RolledWhenFull(crc, e) && SegmentsBounded(crc, e)
  {
    hide Numbered, Chunked, Payload, FlatMap, FramesOk, Encode, EndsOk, ReapOk, SegBytes;
    SegmentsFill(Encoder(crc), e.conn.log, e.hist);
    forall i | 0 <= i < |e.hist.ends|
      ensures |Load(Encoder(crc), e.hist, i)| + |Encode(crc, e.hist.frames[e.hist.starts[i + 1]])|
              > e.conn.params.segmentSize
    {
      assert ClosedFull(Encoder(crc), e.conn.log.maxSeg, e.hist, i);
    }
  }

  /** In every run a direction rolls only when it must, so its segments are as few as the bytes written demand. */
  lemma RollsOnlyWhenFull(crc: Crc, pa: Params, pb: Params, evs: seq<Event>, p: Pipe)
    requires ParamsOk(pa) && ParamsOk(pb) && Run(crc, Start(crc, pa, pb), evs) == Some(p)
    ensures RolledWhenFull(crc, p.a) && SegmentsBounded(crc, p.a)
    ensures RolledWhenFull(crc, p.b) && SegmentsBounded(crc, p.b)
  {
    hide Run, Start, Sender, Link, RolledWhenFull, SegmentsBounded;
    RunOk(crc, pa, pb, evs, p);
    RollsWhenFull(crc, p.a);
    RollsWhenFull(crc, p.b);
  }
}
