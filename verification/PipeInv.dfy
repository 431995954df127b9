/** What every step of either end of a pipe keeps. */
module PipeInv {
  import opened Options
  import opened Bytes
  import opened Seqs
  import opened Frames
  import opened SegLog
  import opened Endpoints

  // ---------- acknowledgements in a run of frames ----------

  /** The highest value acknowledged by the ACK frames of a run. */
  function MaxAck(fs: seq<Frame>): nat {
    if fs == [] then 0 else
    var last := fs[|fs| - 1];
    var before := MaxAck(fs[..|fs| - 1]);
    if last.typ == ACK && GetUint(last.payload) > before then GetUint(last.payload) else before
  }

  lemma MaxAckSnoc(fs: seq<Frame>, f: Frame)
    ensures MaxAck(fs + [f]) ==
            if f.typ == ACK && GetUint(f.payload) > MaxAck(fs) then GetUint(f.payload) else MaxAck(fs)
  {
    assert (fs + [f])[..|fs|] == fs;
  }

  lemma MaxAckNext(fs: seq<Frame>, i: nat)
    requires i < |fs|
    ensures MaxAck(fs[..i + 1]) ==
            if fs[i].typ == ACK && GetUint(fs[i].payload) > MaxAck(fs[..i])
            then GetUint(fs[i].payload) else MaxAck(fs[..i])
  {
    assert fs[..i + 1] == fs[..i] + [fs[i]];
    MaxAckSnoc(fs[..i], fs[i]);
  }

  lemma {:induction false} MaxAckGrows(fs: seq<Frame>, i: nat)
    requires i <= |fs|
    ensures MaxAck(fs[..i]) <= MaxAck(fs)
    decreases |fs| - i
  {
    if i == |fs| {
      assert fs[..i] == fs;
    } else {
      MaxAckGrows(fs, i + 1);
      MaxAckNext(fs, i);
    }
  }

  // ---------- the invariant ----------

  ghost predicate Numbered(fs: seq<Frame>) {
    forall k :: 0 <= k < |fs| ==> fs[k].seqNo == k && fs[k].dataOff == DataIn(fs[..k])
  }

  /** DATA frames carry between one byte and the frame limit; control frames at most a SYN payload. */
  predicate PayloadOk(typ: byte, n: nat, maxFrame: nat) {
    if typ == DATA then 0 < n <= maxFrame else n <= 22
  }

  ghost predicate Chunked(fs: seq<Frame>, maxFrame: nat) {
    forall k :: 0 <= k < |fs| ==> PayloadOk(fs[k].typ, |fs[k].payload|, maxFrame)
  }

  /** The send direction's log, numbering and totals. */
  ghost predicate Sender(enc: Enc, e: Endpoint) {
    && LogInv(enc, e.conn.log, e.hist)
    && ParamsOk(e.conn.params) && e.conn.log.maxSeg == e.conn.params.segmentSize
    && Numbered(e.hist.frames) && Chunked(e.hist.frames, e.conn.params.maxFrame)
    && e.conn.sendSeq == |e.hist.frames| < U64
    && e.written == Payload(e.hist.frames)
    && e.conn.sentData == |e.written| < U64
  }

  function AckSlack(p: Params): nat {
    if p.window / 4 > 1 then p.window / 4 else 1
  }

  /** What has been acknowledged never exceeds what Read returned, nor what the ACK frames say. */
  ghost predicate Acker(e: Endpoint) {
    && e.conn.recvData == |e.returned| < U64
    && e.conn.lastAckSent <= MaxAck(e.hist.frames) <= e.conn.recvData
    && (!e.readAck.Idle? ==> e.readAck.rd == e.conn.recvData)
    && (!e.maintAck.Idle? ==> e.maintAck.rd <= e.conn.recvData)
    && (e.readAck.Sent? ==> e.readAck.rd <= MaxAck(e.hist.frames))
    && (e.maintAck.Sent? ==> e.maintAck.rd <= MaxAck(e.hist.frames))
    && (e.readAck.Idle? && !e.conn.sendClosed ==>
          e.conn.recvData - e.conn.lastAckSent < AckSlack(e.conn.params))
  }

  /** The flow-control window, and how far reaping has come. */
  ghost predicate Windowed(e: Endpoint) {
    && e.conn.peerAck <= e.conn.sentData <= e.conn.peerAck + e.conn.params.window
    && (e.room > 0 ==> e.conn.sentData + e.room <= e.conn.peerAck + e.conn.params.window)
    && e.reapedTo <= e.conn.peerAck <= e.reapedTo + e.conn.params.window
    && e.reapDue == (if e.reapDue.None? then None else Some(e.conn.peerAck))
    && (e.reapDue.None? ==> e.reapedTo == e.conn.peerAck)
  }

  ghost predicate ReapedUpTo(l: Log, ends: seq<nat>, reapedTo: nat) {
    && ReapOk(l, ends)
    && (forall i :: 0 <= i < |ends| ==> (i < FirstLinked(l) ==> ends[i] <= reapedTo))
    && (forall i :: 0 <= i < |ends| ==> (FirstLinked(l) <= i ==> reapedTo <= ends[i]))
  }

  /** No goroutine emits an ERROR frame. */
  ghost predicate NoErrors(fs: seq<Frame>) {
    forall k :: 0 <= k < |fs| ==> fs[k].typ != ERROR
  }

  ghost predicate Good(enc: Enc, e: Endpoint) {
    && Sender(enc, e) && Acker(e) && Windowed(e) && ReapedUpTo(e.conn.log, e.hist.ends, e.reapedTo)
    && NoErrors(e.hist.frames)
  }

  ghost predicate HasFin(fs: seq<Frame>) {
    exists k :: 0 <= k < |fs| && fs[k].typ == FIN
  }

  /** On a local filesystem an open segment is never lost, so a closed reader is at a segment's start. */
  ghost predicate ClosedAtStart(h: Hist, r: Endpoint) {
    !r.conn.params.netFS && !r.reader.isOpen ==>
      r.reader.buf == [] && r.reader.cur < |h.starts| && r.taken == h.starts[r.reader.cur]
  }

  /** An acknowledgement not yet reaped with is the frame taken last, from the segment still open. */
  ghost predicate ReapPending(h: Hist, r: Endpoint) {
    r.reapDue.Some? ==>
      && r.reader.isOpen && r.reader.cur < |h.starts| && h.starts[r.reader.cur] < r.taken <= |h.frames|
      && h.frames[r.taken - 1].typ == ACK
  }

  /** How what `r` received relates to what `s` sent. */
  ghost predicate Link(enc: Enc, s: Endpoint, r: Endpoint) {
    && ReaderInv(enc, s.conn.log, s.hist, r.reader, r.taken)
    && ClosedAtStart(s.hist, r) && ReapPending(s.hist, r)
    && r.taken <= |s.hist.frames|
    && r.returned + r.conn.recvBuf == Payload(s.hist.frames[..r.taken])
    && r.conn.peerAck == MaxAck(s.hist.frames[..r.taken])
    && (r.conn.recvEOF <==> HasFin(s.hist.frames[..r.taken]))
  }

  ghost predicate Inv(enc: Enc, a: Endpoint, b: Endpoint) {
    Good(enc, a) && Good(enc, b) && Link(enc, a, b) && Link(enc, b, a)
  }

  // ---------- what the invariant bounds ----------

  /** Bytes returned, then bytes taken, then bytes sent; and acknowledgements below what was returned. */
  lemma Ordering(enc: Enc, s: Endpoint, r: Endpoint)
    requires Inv(enc, s, r)
    ensures r.returned + r.conn.recvBuf <= s.written
    ensures s.conn.peerAck <= MaxAck(r.hist.frames) <= r.conn.recvData
    ensures r.conn.recvData + |r.conn.recvBuf| == DataIn(s.hist.frames[..r.taken]) <= s.conn.sentData
  {
    hide LogInv, ReapedUpTo, Numbered, Chunked, MaxAck, ReaderInv, HasFin;
    var fs := s.hist.frames;
    assert fs[..|fs|] == fs;
    PayloadSplit(fs, r.taken, |fs|);
    MaxAckGrows(r.hist.frames, s.taken);
  }

  lemma NoWrap(enc: Enc, e: Endpoint)
    requires Good(enc, e)
    ensures Room(e.conn) == e.conn.params.window - (e.conn.sentData - e.conn.peerAck)
    ensures e.readAck.Captured? ==> Sub64(e.readAck.rd, e.conn.lastAckSent) == e.readAck.rd - e.conn.lastAckSent
  {
    hide LogInv, ReapedUpTo, Numbered, Chunked, MaxAck;
  }

  // ---------- emitting a frame ----------

  lemma EmitSender(enc: Enc, e: Endpoint, typ: byte, payload: seq<byte>)
    requires Sender(enc, e) && Writable(e, typ, payload)
    requires forall g :: |enc(g)| > 0
    requires typ != ROLL && PayloadOk(typ, |payload|, e.conn.params.maxFrame) && (typ == ACK ==> |payload| == 8)
    ensures Sender(enc, Emitted(enc, e, typ, payload))
  {
    hide LogInv, Append, Numbered, Chunked, Record, Payload;
    var f := NextFrameOut(e.conn, typ, payload);
    var e' := Emitted(enc, e, typ, payload);
    PayloadSnoc(e.hist.frames, f);
    AppendKeeps(enc, e.conn.log, e.hist, f, e'.conn.sentData);
    NumberedSnoc(e.hist.frames, f, e.conn.params.maxFrame);
  }

  lemma NumberedSnoc(fs: seq<Frame>, f: Frame, maxFrame: nat)
    requires Numbered(fs) && Chunked(fs, maxFrame)
    requires f.seqNo == |fs| && f.dataOff == DataIn(fs)
    requires PayloadOk(f.typ, |f.payload|, maxFrame)
    ensures Numbered(fs + [f]) && Chunked(fs + [f], maxFrame)
  {
    var fs' := fs + [f];
    assert fs[..|fs|] == fs;
    forall k | 0 <= k < |fs'|
      ensures fs'[k].seqNo == k && fs'[k].dataOff == DataIn(fs'[..k])
    {
      assert fs'[..k] == fs[..k];
    }
  }

  lemma AppendReaped(enc: Enc, l: Log, h: Hist, f: Frame, dataEnd: nat, reapedTo: nat)
    requires ReapedUpTo(l, h.ends, reapedTo) && l.cur + 1 == |l.segs|
    requires dataEnd == DataIn(h.frames + [f]) >= reapedTo
    ensures ReapedUpTo(Append(enc, l, f, dataEnd), Record(enc, l, h, f).ends, reapedTo)
  {
    AppendReapOk(enc, l, h, f, dataEnd);
  }

  lemma EmitLinks(enc: Enc, s: Endpoint, r: Endpoint, typ: byte, payload: seq<byte>)
    requires Sender(enc, s) && Writable(s, typ, payload) && Link(enc, s, r)
    ensures Link(enc, Emitted(enc, s, typ, payload), r)
  {
    hide LogInv, ReaderInv, Append, Payload, MaxAck, HasFin, Record;
    var f := NextFrameOut(s.conn, typ, payload);
    var s' := Emitted(enc, s, typ, payload);
    AppendKeepsReader(enc, s.conn.log, s.hist, f, s'.conn.sentData, r.reader, r.taken);
    assert s'.hist.frames[..r.taken] == s.hist.frames[..r.taken];
  }

  /** Emitting a control frame, or DATA within the window, keeps the invariant. */
  lemma EmitKeeps(enc: Enc, e: Endpoint, peer: Endpoint, typ: byte, payload: seq<byte>)
    requires Inv(enc, e, peer) && Writable(e, typ, payload)
    requires forall g :: |enc(g)| > 0
    requires typ != ROLL && typ != ERROR && PayloadOk(typ, |payload|, e.conn.params.maxFrame)
    requires typ == ACK ==> |payload| == 8 && GetUint(payload) <= e.conn.recvData
    requires typ == DATA ==> e.conn.sentData + |payload| <= e.conn.peerAck + e.conn.params.window && e.room == 0
    ensures Inv(enc, Emitted(enc, e, typ, payload), peer)
    ensures var e' := Emitted(enc, e, typ, payload);
            typ == ACK ==> GetUint(payload) <= MaxAck(e'.hist.frames)
  {
    hide Sender, ReaderInv, ReapedUpTo, Append, Payload, MaxAck, HasFin, Record, Acker, Windowed;
    var e' := Emitted(enc, e, typ, payload);
    EmitSender(enc, e, typ, payload);
    EmitReaped(enc, e, typ, payload);
    EmitLinks(enc, e, peer, typ, payload);
    EmitAccounts(enc, e, typ, payload);
  }

  lemma EmitReaped(enc: Enc, e: Endpoint, typ: byte, payload: seq<byte>)
    requires Good(enc, e) && Writable(e, typ, payload)
    ensures var e' := Emitted(enc, e, typ, payload);
            ReapedUpTo(e'.conn.log, e'.hist.ends, e'.reapedTo)
  {
    hide LogInv, ReapedUpTo, Append, Payload, Numbered, Chunked, MaxAck, Record, Acker;
    var f := NextFrameOut(e.conn, typ, payload);
    var e' := Emitted(enc, e, typ, payload);
    PayloadSnoc(e.hist.frames, f);
    AppendReaped(enc, e.conn.log, e.hist, f, e'.conn.sentData, e.reapedTo);
  }

  lemma EmitAccounts(enc: Enc, e: Endpoint, typ: byte, payload: seq<byte>)
    requires Acker(e) && Windowed(e) && Writable(e, typ, payload)
    requires typ == ACK ==> GetUint(payload) <= e.conn.recvData
    requires typ == DATA ==> e.conn.sentData + |payload| <= e.conn.peerAck + e.conn.params.window && e.room == 0
    ensures var e' := Emitted(enc, e, typ, payload);
            Acker(e') && Windowed(e') && (typ == ACK ==> GetUint(payload) <= MaxAck(e'.hist.frames))
  {
    hide Append, Record, MaxAck;
    MaxAckSnoc(e.hist.frames, NextFrameOut(e.conn, typ, payload));
  }

  // ---------- the other steps ----------

  lemma WriteWaitKeeps(enc: Enc, e: Endpoint, peer: Endpoint, e': Endpoint)
    requires Inv(enc, e, peer) && DoWriteWait(e) == Some(e')
    ensures Inv(enc, e', peer)
  {
    hide LogInv, ReaderInv, ReapedUpTo, Payload, Numbered, Chunked, MaxAck, HasFin, Room;
    NoWrap(enc, e);
  }

  lemma WriteChunkKeeps(enc: Enc, e: Endpoint, peer: Endpoint, chunk: seq<byte>, e': Endpoint)
    requires Inv(enc, e, peer) && DoWriteChunk(enc, e, chunk) == Some(e')
    requires forall g :: |enc(g)| > 0
    ensures Inv(enc, e', peer)
  {
    hide LogInv, ReaderInv, ReapedUpTo, Append, Payload, Numbered, Chunked, MaxAck, HasFin, Record;
    var e0 := e.(room := 0);
    assert Inv(enc, e0, peer);
    if !Refused(e.conn, DATA) {
      EmitKeeps(enc, e0, peer, DATA, chunk);
      assert e' == Emitted(enc, e0, DATA, chunk);
    }
  }

  lemma AckEmitKeeps(enc: Enc, e: Endpoint, peer: Endpoint, who: Who, e': Endpoint)
    requires Inv(enc, e, peer) && DoAckEmit(enc, e, who) == Some(e')
    requires forall g :: |enc(g)| > 0
    ensures Inv(enc, e', peer)
  {
    hide LogInv, ReaderInv, ReapedUpTo, Append, Payload, Numbered, Chunked, MaxAck, HasFin, Record;
    if !Refused(e.conn, ACK) {
      var rd := Pc(e, who).rd;
      Pow256Values();
      GetPut(8, rd);
      EmitKeeps(enc, e, peer, ACK, PutUint(8, rd));
    }
  }

  lemma AckCheckAcks(enc: Enc, e: Endpoint, who: Who, e': Endpoint)
    requires Good(enc, e) && DoAckCheck(e, who) == Some(e')
    ensures Acker(e')
  {
    hide Sender, ReapedUpTo, MaxAck, Sub64, NoErrors;
    NoWrap(enc, e);
  }

  lemma AckCheckKeeps(enc: Enc, e: Endpoint, peer: Endpoint, who: Who, e': Endpoint)
    requires Inv(enc, e, peer) && DoAckCheck(e, who) == Some(e')
    ensures Inv(enc, e', peer)
  {
    hide LogInv, ReaderInv, ReapedUpTo, Payload, Numbered, Chunked, MaxAck, HasFin, AckIsDue, Acker, NoErrors;
    AckCheckAcks(enc, e, who, e');
  }

  lemma AckRecordKeeps(enc: Enc, e: Endpoint, peer: Endpoint, who: Who, e': Endpoint)
    requires Inv(enc, e, peer) && DoAckRecord(e, who) == Some(e')
    ensures Inv(enc, e', peer)
  {
    hide LogInv, ReaderInv, ReapedUpTo, Payload, Numbered, Chunked, MaxAck, HasFin;
  }

  lemma ReadSomeKeeps(enc: Enc, e: Endpoint, peer: Endpoint, n: nat, e': Endpoint)
    requires Inv(enc, e, peer) && DoReadSome(e, n) == Some(e')
    ensures Inv(enc, e', peer)
  {
    hide LogInv, ReaderInv, ReapedUpTo, Payload, Numbered, Chunked, MaxAck, HasFin;
    Ordering(enc, peer, e);
    var buf := e.conn.recvBuf;
    assert buf == buf[..n] + buf[n..];
    Assoc(e.returned, buf[..n], buf[n..]);
  }

  lemma MaintStartKeeps(enc: Enc, e: Endpoint, peer: Endpoint, e': Endpoint)
    requires Inv(enc, e, peer)
    requires DoMaintStart(e) == Some(e') || DoIdleFail(e) == Some(e') || DoCloseSend(e) == Some(e')
    ensures Inv(enc, e', peer)
  {
    hide LogInv, ReaderInv, ReapedUpTo, Payload, Numbered, Chunked, MaxAck, HasFin;
  }

  lemma ControlEmitKeeps(enc: Enc, e: Endpoint, peer: Endpoint, stamp: nat, e': Endpoint)
    requires Inv(enc, e, peer) && (DoBeat(enc, e, stamp) == Some(e') || DoCloseFin(enc, e) == Some(e'))
    requires forall g :: |enc(g)| > 0
    ensures Inv(enc, e', peer)
  {
    hide LogInv, ReaderInv, ReapedUpTo, Append, Payload, Numbered, Chunked, MaxAck, HasFin, Record;
    if DoBeat(enc, e, stamp) == Some(e') {
      if !Refused(e.conn, HEARTBEAT) {
        EmitKeeps(enc, e, peer, HEARTBEAT, PutUint(8, stamp));
      }
    } else {
      EmitKeeps(enc, e, peer, FIN, []);
    }
  }

  lemma RecvReapKeeps(enc: Enc, e: Endpoint, peer: Endpoint, e': Endpoint)
    requires Inv(enc, e, peer) && DoRecvReap(e) == Some(e')
    ensures Inv(enc, e', peer)
  {
    hide LogInv, ReaderInv, ReapedUpTo, Payload, Numbered, Chunked, MaxAck, HasFin;
    var ack := e.reapDue.value;
    ReapKeeps(enc, e.conn.log, e.hist, ack);
    ReapReaped(enc, e.conn.log, e.hist, e.reapedTo, ack);
    ReapKeepsReader(enc, e.conn.log, e.hist, ack, peer.reader, peer.taken);
  }

  lemma ReapReaped(enc: Enc, l: Log, h: Hist, reapedTo: nat, acked: nat)
    requires LogInv(enc, l, h) && ReapedUpTo(l, h.ends, reapedTo) && reapedTo <= acked
    ensures ReapedUpTo(Reap(l, acked), h.ends, acked)
  {
    hide Holds, FramesOk, Sized, EndsOk, Reap;
    ReapKeeps(enc, l, h, acked);
  }

  lemma RecvOpenKeeps(crc: Crc, e: Endpoint, peer: Endpoint, e': Endpoint)
    requires Inv(Encoder(crc), e, peer) && (DoRecvOpen(e, peer) == Some(e') || DoRecvLose(crc, e, peer) == Some(e'))
    ensures Inv(Encoder(crc), e', peer)
  {
    hide LogInv, ReaderInv, ReapedUpTo, Payload, Numbered, Chunked, MaxAck, HasFin, TryDecode, Encoder;
    var enc := Encoder(crc);
    if DoRecvOpen(e, peer) == Some(e') {
      OpenKeeps(enc, peer.conn.log, peer.hist, e.reader, e.taken);
    } else {
      LoseKeeps(enc, peer.conn.log, peer.hist, e.reader, e.taken);
    }
  }

  lemma RecvFillKeeps(crc: Crc, e: Endpoint, peer: Endpoint, size: nat, e': Endpoint)
    requires Inv(Encoder(crc), e, peer) && DoRecvFill(crc, e, peer, size) == Some(e')
    ensures Inv(Encoder(crc), e', peer)
  {
    hide LogInv, ReaderInv, ReapedUpTo, Payload, Numbered, Chunked, MaxAck, HasFin, TryDecode, Encoder;
    FillKeeps(Encoder(crc), peer.conn.log, peer.hist, e.reader, e.taken, size);
  }

  lemma HasFinNext(fs: seq<Frame>, i: nat)
    requires i < |fs|
    ensures HasFin(fs[..i + 1]) <==> HasFin(fs[..i]) || fs[i].typ == FIN
  {
    if HasFin(fs[..i]) {
      var k :| 0 <= k < i && fs[..i][k].typ == FIN;
      assert fs[..i + 1][k].typ == FIN;
    }
    if fs[i].typ == FIN {
      assert fs[..i + 1][i].typ == FIN;
    }
    if HasFin(fs[..i + 1]) && fs[i].typ != FIN {
      var k :| 0 <= k < i + 1 && fs[..i + 1][k].typ == FIN;
      assert fs[..i][k].typ == FIN;
    }
  }

  /** Dispatching the peer's next frame keeps the invariant, whichever frame it is. */
  lemma DispatchKeeps(enc: Enc, e: Endpoint, peer: Endpoint, r': Reader)
    requires Inv(enc, e, peer) && e.reapDue.None? && e.taken < |peer.hist.frames|
    requires ReaderInv(enc, peer.conn.log, peer.hist, r', e.taken + 1) && r'.isOpen
    requires r'.cur < |peer.hist.starts| && peer.hist.starts[r'.cur] <= e.taken
    requires FrameOk(peer.hist.frames[e.taken])
    ensures var f := peer.hist.frames[e.taken];
            var c := Dispatch(e.conn, f);
            Inv(enc, e.(reader := r', conn := c, taken := e.taken + 1,
                        reapDue := if f.typ == ACK && |f.payload| == 8 then Some(c.peerAck) else None), peer)
  {
    hide LogInv, ReaderInv, ReapedUpTo, Payload, Numbered, Chunked, MaxAck, HasFin;
    var fs := peer.hist.frames;
    var f := fs[e.taken];
    Ordering(enc, e, peer);
    MaxAckNext(fs, e.taken);
    MaxAckGrows(fs, e.taken + 1);
    PayloadNext(fs, e.taken);
    HasFinNext(fs, e.taken);
    Assoc(e.returned, e.conn.recvBuf, DataBytes(f));
  }

  lemma RecvDecodeKeeps(crc: Crc, e: Endpoint, peer: Endpoint, e': Endpoint)
    requires Inv(Encoder(crc), e, peer) && DoRecvDecode(crc, e) == Some(e')
    ensures Inv(Encoder(crc), e', peer)
    ensures e'.conn.recvErr == e.conn.recvErr
  {
    hide LogInv, ReaderInv, ReapedUpTo, Payload, Numbered, Chunked, MaxAck, HasFin, TryDecode, Encoder;
    var enc := Encoder(crc);
    LinkFacts(enc, peer, e);
    TryDecodeRefines(crc, peer.conn.log, peer.hist, e.reader, e.taken);
    var (r', out) := TryDecode(crc, e.reader);
    if out.Got? {
      DispatchKeeps(enc, e, peer, r');
    }
  }

  lemma LinkFacts(enc: Enc, s: Endpoint, r: Endpoint)
    requires Good(enc, s) && Link(enc, s, r)
    ensures FramesOk(s.hist) && ReaderInv(enc, s.conn.log, s.hist, r.reader, r.taken)
    ensures r.taken < |s.hist.frames| ==> FrameOk(s.hist.frames[r.taken])
    ensures r.reader.cur < |s.hist.starts| == s.conn.log.cur + 1
    ensures s.hist.starts[r.reader.cur] <= r.taken <= SegTo(s.hist, r.reader.cur) <= |s.hist.frames|
  {
    hide Sized, EndsOk, ReapOk, ReapedUpTo, Numbered, Chunked, MaxAck, HasFin, Synced, SegBytes;
  }

  /** Every action of either end keeps the invariant. */
  lemma ActKeeps(crc: Crc, e: Endpoint, peer: Endpoint, act: Action, e': Endpoint)
    requires Inv(Encoder(crc), e, peer) && Act(crc, e, peer, act) == Some(e')
    ensures Inv(Encoder(crc), e', peer)
  {
    hide Inv, Encoder;
    hide DoWriteWait, DoWriteChunk, DoRecvOpen, DoRecvFill, DoRecvLose, DoRecvDecode, DoRecvReap, DoReadSome;
    hide DoAckCheck, DoAckEmit, DoAckRecord, DoMaintStart, DoBeat, DoIdleFail, DoCloseFin, DoCloseSend;
    var enc := Encoder(crc);
    match act
    case WriteWait => WriteWaitKeeps(enc, e, peer, e');
    case WriteChunk(chunk) => WriteChunkKeeps(enc, e, peer, chunk, e');
    case RecvOpen => RecvOpenKeeps(crc, e, peer, e');
    case RecvFill(size) => RecvFillKeeps(crc, e, peer, size, e');
    case RecvLose => RecvOpenKeeps(crc, e, peer, e');
    case RecvDecode => RecvDecodeKeeps(crc, e, peer, e');
    case RecvReap => RecvReapKeeps(enc, e, peer, e');
    case ReadSome(n) => ReadSomeKeeps(enc, e, peer, n, e');
    case AckCheck(who) => AckCheckKeeps(enc, e, peer, who, e');
    case AckEmit(who) => AckEmitKeeps(enc, e, peer, who, e');
    case AckRecord(who) => AckRecordKeeps(enc, e, peer, who, e');
    case MaintStart => MaintStartKeeps(enc, e, peer, e');
    case Beat(stamp) => ControlEmitKeeps(enc, e, peer, stamp, e');
    case IdleFail => MaintStartKeeps(enc, e, peer, e');
    case CloseFin => ControlEmitKeeps(enc, e, peer, 0, e');
    case CloseSend => MaintStartKeeps(enc, e, peer, e');
  }
}
