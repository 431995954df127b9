/** Runs in which reaping strands a reader, built step by step for every checksum function. */
module Scenes {
  import opened Options
  import opened Bytes
  import opened Frames
  import opened SegLog
  import opened Endpoints
  import opened PipeInv
  import opened Pipes
  import opened Reach
  import opened Progress

  // ---------- a log that rolls at every frame ----------

  /** With a roll size of one byte every frame has a segment of its own. */
  ghost predicate OnePerSegment(l: Log, h: Hist) {
    && l.maxSeg == 1 && l.size > 0 && |h.starts| == |h.frames|
    && (forall k :: 0 <= k < |h.starts| ==> h.starts[k] == k)
  }

  ghost predicate FinelyCut(e: Endpoint) {
    OnePerSegment(e.conn.log, e.hist)
  }

  /** One more frame was sent, and nothing else happened. */
  ghost predicate SentOne(e: Endpoint, e': Endpoint, typ: byte, payload: seq<byte>) {
    && e' == e.(conn := e'.conn, hist := e'.hist, written := e'.written)
    && e'.conn == e.conn.(log := e'.conn.log, sendSeq := e.conn.sendSeq + 1,
                          sentData := e.conn.sentData + if typ == DATA then |payload| else 0)
    && FinelyCut(e') && FirstLinked(e'.conn.log) == FirstLinked(e.conn.log)
    && e'.conn.log.cur == e.conn.log.cur + 1
    && e'.hist.frames == e.hist.frames + [NextFrameOut(e.conn, typ, payload)]
    && e'.hist.ends == e.hist.ends + [e'.conn.sentData]
  }

  lemma EmitsOne(crc: Crc, e: Endpoint, peer: Endpoint, typ: byte, payload: seq<byte>)
    requires Inv(Encoder(crc), e, peer) && Writable(e, typ, payload) && FinelyCut(e)
    ensures SentOne(e, Emitted(Encoder(crc), e, typ, payload), typ, payload)
  {
    hide LogInv, ReapedUpTo, Payload, Numbered, Chunked, MaxAck, HasFin, Link, Encode;
    PayloadSnoc(e.hist.frames, NextFrameOut(e.conn, typ, payload));
    UnlinkedPrefix(Encoder(crc), e);
  }

  /** An end of a healthy pipe that is sending few and small frames. */
  ghost predicate Sending(e: Endpoint, n: nat) {
    && FinelyCut(e) && |e.hist.frames| == n < 100 && e.conn.sentData < 100
    && Established(e) && Healthy(e) && e.room == 0
  }

  lemma SmallCounters(crc: Crc, e: Endpoint, peer: Endpoint, n: nat)
    requires Inv(Encoder(crc), e, peer) && Sending(e, n)
    ensures forall typ: byte, payload: seq<byte> :: |payload| < 100 ==> Writable(e, typ, payload)
  {
    hide LogInv, ReapedUpTo, Payload, Numbered, Chunked, MaxAck, HasFin, Link;
    UnlinkedPrefix(Encoder(crc), e);
  }

  lemma SendByte(crc: Crc, p: Pipe, atA: bool, n: nat) returns (q: Pipe)
    requires PipeOk(crc, p) && Sending(Me(p, atA), n) && !Blocked(Me(p, atA))
    ensures Leads(crc, p, q) && PipeOk(crc, q) && Me(q, !atA) == Me(p, !atA)
    ensures SentOne(Me(p, atA), Me(q, atA), DATA, [7])
  {
    hide Good, Link, Run, OnePerSegment, Emit;
    var e, peer, enc := Me(p, atA), Me(p, !atA), Encoder(crc);
    SmallCounters(crc, e, peer, n);
    assert Writable(e, DATA, [7]);
    var e1 := e.(room := Room(e.conn));
    LeadsBy(crc, p, atA, WriteWait, e1);
    var e2 := Emitted(enc, e1, DATA, [7]).(room := 0);
    FrameLimit(enc, e);
    assert DoWriteChunk(enc, e1, [7]) == Some(e2);
    var p1 := With(p, atA, e1);
    LeadsBy(crc, p1, atA, WriteChunk([7]), e2);
    q := With(p1, atA, e2);
    LeadsOn(crc, p, p1, q);
    EmitsOne(crc, e, peer, DATA, [7]);
    assert e2 == Emitted(enc, e, DATA, [7]);
  }

  lemma FrameLimit(enc: Enc, e: Endpoint)
    requires Good(enc, e)
    ensures e.conn.params.maxFrame > 0
  {
  }

  lemma SendBeat(crc: Crc, p: Pipe, atA: bool, n: nat) returns (q: Pipe)
    requires PipeOk(crc, p) && Sending(Me(p, atA), n) && Me(p, atA).maintAck.Idle?
    ensures Leads(crc, p, q) && PipeOk(crc, q) && Me(q, !atA) == Me(p, !atA)
    ensures SentOne(Me(p, atA), Me(q, atA), HEARTBEAT, PutUint(8, 0))
  {
    hide Good, Link, Run, OnePerSegment, Emit, PutUint;
    var e, peer := Me(p, atA), Me(p, !atA);
    SmallCounters(crc, e, peer, n);
    var e' := Emitted(Encoder(crc), e, HEARTBEAT, PutUint(8, 0));
    LeadsBy(crc, p, atA, Beat(0), e');
    EmitsOne(crc, e, peer, HEARTBEAT, PutUint(8, 0));
    q := With(p, atA, e');
  }

  // ---------- reading such a log ----------

  /** The reader has not opened segment k. */
  predicate Before(e: Endpoint, k: nat) {
    e.reader == Reader(k, false, e.reader.off, []) && e.taken == k && e.reapDue.None?
  }

  /** The reader has taken the frame of segment k, and seen nothing behind it. */
  predicate After(e: Endpoint, k: nat) {
    e.reader == Reader(k, true, e.reader.off, []) && e.taken == k + 1 && e.reapDue.None?
  }

  lemma SegmentBegins(crc: Crc, e: Endpoint, k: nat)
    requires Good(Encoder(crc), e) && FinelyCut(e) && k < |e.hist.frames|
    ensures k < |e.conn.log.segs| && Encode(crc, e.hist.frames[k]) <= e.conn.log.segs[k]
    ensures FrameOk(e.hist.frames[k])
  {
    hide Sized, EndsOk, ReapOk, ReapedUpTo, Payload, Numbered, Chunked, MaxAck, Encode, Acker, Windowed, FrameOk;
    assert e.conn.log.segs[k] == SegBytes(Encoder(crc), e.hist, k);
    assert SegTo(e.hist, k) == k + 1;
    SingleLoad(Encoder(crc), e.hist.frames, k);
    assert FrameOk(e.hist.frames[k]);
  }

  lemma NothingToDecode(crc: Crc, r: Reader)
    requires r.isOpen && r.buf == []
    ensures Starved(crc, r)
  {
  }

  lemma DecodesOne(crc: Crc, r: Reader, f: Frame)
    requires FrameOk(f) && r.buf == Encode(crc, f)
    ensures TryDecode(crc, r) == (r.(buf := []), Got(f))
  {
    hide Decode, Encode;
    DecodeWhole(crc, f, r.buf);
    assert r.buf[|r.buf|..] == [];
  }

  /** The reader opens segment k and takes its frame. */
  lemma TakeOne(crc: Crc, p: Pipe, atA: bool, k: nat) returns (q: Pipe)
    requires PipeOk(crc, p) && FinelyCut(Me(p, !atA)) && Before(Me(p, atA), k)
    requires FirstLinked(Me(p, !atA).conn.log) <= k < |Me(p, !atA).hist.frames|
    ensures Leads(crc, p, q) && PipeOk(crc, q) && Me(q, !atA) == Me(p, !atA)
    ensures var e, e', f := Me(p, atA), Me(q, atA), Me(p, !atA).hist.frames[k];
            var c := Dispatch(e.conn, f);
            e' == e.(reader := Reader(k, true, e'.reader.off, []), conn := c, taken := k + 1,
                     reapDue := if f.typ == ACK && |f.payload| == 8 then Some(c.peerAck) else None)
  {
    hide Good, Link, Run, TryDecode, Encode, OnePerSegment;
    var e, peer := Me(p, atA), Me(p, !atA);
    var f := peer.hist.frames[k];
    UnlinkedPrefix(Encoder(crc), peer);
    SegmentBegins(crc, peer, k);
    var n := |Encode(crc, f)|;
    var e1 := e.(reader := OpenSeg(e.reader));
    LeadsBy(crc, p, atA, RecvOpen, e1);
    NothingToDecode(crc, e1.reader);
    var e2 := e1.(reader := Fill(peer.conn.log, e1.reader, n));
    var p1 := With(p, atA, e1);
    LeadsBy(crc, p1, atA, RecvFill(n), e2);
    assert e2.reader.buf == Encode(crc, f);
    DecodesOne(crc, e2.reader, f);
    var e3 := DoRecvDecode(crc, e2).value;
    var p2 := With(p1, atA, e2);
    LeadsBy(crc, p2, atA, RecvDecode, e3);
    q := With(p2, atA, e3);
    LeadsOn(crc, p, p1, p2);
    LeadsOn(crc, p, p2, q);
  }

  /** The reader sees the ROLL of segment k and follows it. */
  lemma FollowOne(crc: Crc, p: Pipe, atA: bool, k: nat) returns (q: Pipe)
    requires PipeOk(crc, p) && FinelyCut(Me(p, !atA)) && After(Me(p, atA), k)
    requires FirstLinked(Me(p, !atA).conn.log) <= k && k + 1 < |Me(p, !atA).hist.frames|
    ensures Leads(crc, p, q) && PipeOk(crc, q) && Me(q, !atA) == Me(p, !atA)
    ensures Me(q, atA) == Me(p, atA).(reader := Reader(k + 1, false, Me(q, atA).reader.off, []))
  {
    hide LogInv, ReaderInv, ReapedUpTo, Payload, Numbered, Chunked, MaxAck, HasFin, Run, TryDecode;
    var e, peer := Me(p, atA), Me(p, !atA);
    UnlinkedPrefix(Encoder(crc), peer);
    ReadWithin(Encoder(crc), peer, e);
    NothingToDecode(crc, e.reader);
    var n := |peer.conn.log.segs[k]|;
    var e1 := e.(reader := Fill(peer.conn.log, e.reader, n));
    LeadsBy(crc, p, atA, RecvFill(n), e1);
    var p1 := With(p, atA, e1);
    LinkFacts(Encoder(crc), peer, e1);
    TryDecodeRefines(crc, peer.conn.log, peer.hist, e1.reader, e1.taken);
    var e2 := DoRecvDecode(crc, e1).value;
    LeadsBy(crc, p1, atA, RecvDecode, e2);
    q := With(p1, atA, e2);
    LeadsOn(crc, p, p1, q);
  }

  // ---------- acknowledging ----------

  /** Read returns the one byte buffered. */
  lemma ReadByte(crc: Crc, p: Pipe, atA: bool) returns (q: Pipe)
    requires PipeOk(crc, p) && |Me(p, atA).conn.recvBuf| == 1 && Me(p, atA).readAck.Idle?
    ensures Leads(crc, p, q) && PipeOk(crc, q) && Me(q, !atA) == Me(p, !atA)
    ensures var e, e' := Me(p, atA), Me(q, atA);
            e' == e.(conn := e.conn.(recvBuf := [], recvData := e.conn.recvData + 1), returned := e'.returned,
                     readAck := Captured(e.conn.recvData + 1))
  {
    hide Good, Link, Run;
    var e' := DoReadSome(Me(p, atA), 1).value;
    LeadsBy(crc, p, atA, ReadSome(1), e');
    q := With(p, atA, e');
  }

  /** A goroutine that has decided to acknowledge does so. */
  lemma SendAck(crc: Crc, p: Pipe, atA: bool, who: Who, n: nat) returns (q: Pipe)
    requires PipeOk(crc, p) && Sending(Me(p, atA), n) && Pc(Me(p, atA), who).Due?
    ensures Leads(crc, p, q) && PipeOk(crc, q) && Me(q, !atA) == Me(p, !atA)
    ensures var e, e' := Me(p, atA), Me(q, atA);
            var rd := Pc(e, who).rd;
            var e1 := SetPc(e', who, Pc(e, who));
            SentOne(e, e1.(conn := e1.conn.(lastAckSent := e.conn.lastAckSent)), ACK, PutUint(8, rd))
            && e'.conn.lastAckSent == (if rd > e.conn.lastAckSent then rd else e.conn.lastAckSent)
            && Pc(e', who).Idle?
  {
    hide Good, Link, Run, OnePerSegment, Emit, PutUint;
    var e, peer := Me(p, atA), Me(p, !atA);
    var rd := Pc(e, who).rd;
    SmallCounters(crc, e, peer, n);
    assert Writable(e, ACK, PutUint(8, rd));
    EmitsOne(crc, e, peer, ACK, PutUint(8, rd));
    var sent := Emitted(Encoder(crc), e, ACK, PutUint(8, rd));
    var e1 := SetPc(sent, who, Sent(rd));
    LeadsBy(crc, p, atA, AckEmit(who), e1);
    var p1 := With(p, atA, e1);
    var e2 := DoAckRecord(e1, who).value;
    LeadsBy(crc, p1, atA, AckRecord(who), e2);
    q := With(p1, atA, e2);
    LeadsOn(crc, p, p1, q);
    SentKeeps(e, sent, who, rd);
  }

  lemma SentKeeps(e: Endpoint, sent: Endpoint, who: Who, rd: nat)
    requires SentOne(e, sent, ACK, PutUint(8, rd)) && Pc(e, who).Due? && Pc(e, who).rd == rd
    ensures var e2 := SetPc(SetPc(sent, who, Sent(rd)).(conn := RecordAck(sent.conn, rd)), who, Idle);
            var e1 := SetPc(e2, who, Pc(e, who));
            SentOne(e, e1.(conn := e1.conn.(lastAckSent := e.conn.lastAckSent)), ACK, PutUint(8, rd))
  {
  }

  /** The receive loop reaps with the acknowledgement it has recorded: exactly the ends it covers. */
  lemma ReapNow(crc: Crc, p: Pipe, atA: bool) returns (q: Pipe)
    requires PipeOk(crc, p) && Me(p, atA).reapDue.Some? && FinelyCut(Me(p, atA))
    ensures Leads(crc, p, q) && PipeOk(crc, q) && Me(q, !atA) == Me(p, !atA)
    ensures var e, e' := Me(p, atA), Me(q, atA);
            && e' == e.(conn := e.conn.(log := e'.conn.log), reapDue := None, reapedTo := e.reapDue.value)
            && FinelyCut(e') && e'.conn.log.cur == e.conn.log.cur == |e.hist.ends|
            && FirstLinked(e.conn.log) <= FirstLinked(e'.conn.log) <= e.conn.log.cur
            && (forall i :: FirstLinked(e.conn.log) <= i < |e.hist.ends| ==>
                  (i < FirstLinked(e'.conn.log) <==> e.hist.ends[i] <= e.reapDue.value))
  {
    hide LogInv, ReaderInv, ReapedUpTo, Payload, Numbered, Chunked, MaxAck, HasFin, Link, Run, Kept, Passed;
    var e := Me(p, atA);
    var e' := DoRecvReap(e).value;
    ReapKeeps(Encoder(crc), e.conn.log, e.hist, e.reapDue.value);
    UnlinkedPrefix(Encoder(crc), e);
    LeadsBy(crc, p, atA, RecvReap, e');
    q := With(p, atA, e');
  }

  // ---------- a stranded reader ----------

  /** Parameters that make every frame roll. */
  function Narrow(window: nat, netFS: bool): Params {
    Params(1, window, 1, netFS)
  }

  /** An end that has taken the peer's SYN and done nothing else. */
  ghost predicate Greeted(e: Endpoint, p: Params) {
    && e.conn == Conn(p, e.conn.log, 1, 0, 0, 0, false, [], 0, false, false)
    && After(e, 0) && e.room == 0 && e.readAck.Idle? && e.maintAck.Idle? && !e.finSent
    && FinelyCut(e) && |e.hist.frames| == 1 && e.hist.frames[0].typ == SYN && e.hist.ends == []
    && FirstLinked(e.conn.log) == 0
  }

  lemma OpeningNarrow(crc: Crc, window: nat, netFS: bool)
    requires 0 < window < I64
    ensures var e := Opening(Encoder(crc), Narrow(window, netFS));
            && e.conn == Conn(Narrow(window, netFS), e.conn.log, 1, 0, 0, 0, false, [], 0, false, false)
            && Before(e, 0) && e.room == 0 && e.readAck.Idle? && e.maintAck.Idle? && !e.finSent
            && FinelyCut(e) && |e.hist.frames| == 1 && e.hist.frames[0].typ == SYN && e.hist.ends == []
            && FirstLinked(e.conn.log) == 0
  {
    hide Encode, EncodeSyn;
  }

  /** Both ends take the other's SYN. */
  lemma Greet(crc: Crc, wa: nat, na: bool, wb: nat, nb: bool) returns (p: Pipe)
    requires 0 < wa < I64 && 0 < wb < I64
    ensures Leads(crc, Start(crc, Narrow(wa, na), Narrow(wb, nb)), p) && PipeOk(crc, p)
    ensures Greeted(p.a, Narrow(wa, na)) && Greeted(p.b, Narrow(wb, nb))
  {
    hide Run, OnePerSegment, Good, Link, Opening;
    var p0 := Start(crc, Narrow(wa, na), Narrow(wb, nb));
    OpeningNarrow(crc, wa, na);
    OpeningNarrow(crc, wb, nb);
    StartOk(crc, Narrow(wa, na), Narrow(wb, nb));
    var p1 := TakeOne(crc, p0, true, 0);
    p := TakeOne(crc, p1, false, 0);
    LeadsOn(crc, p0, p1, p);
  }

  lemma StartOk(crc: Crc, pa: Params, pb: Params)
    requires ParamsOk(pa) && ParamsOk(pb)
    ensures PipeOk(crc, Start(crc, pa, pb))
  {
    hide Good, Link, Opening;
    RunOk(crc, pa, pb, [], Start(crc, pa, pb));
  }

  /** A has sent one byte of DATA and two heartbeats. */
  lemma StrandSend(crc: Crc, na: bool, nb: bool) returns (p: Pipe)
    ensures Leads(crc, Start(crc, Narrow(8, na), Narrow(1, nb)), p) && PipeOk(crc, p)
    ensures Greeted(p.b, Narrow(1, nb))
    ensures After(p.a, 0) && Sending(p.a, 4) && FirstLinked(p.a.conn.log) == 0 && p.a.hist.ends == [1, 1, 1]
    ensures p.a.conn.peerAck == 0 && p.a.hist.frames[1].typ == DATA && |p.a.hist.frames[1].payload| == 1
  {
    hide Leads, PipeOk, OnePerSegment, PutUint;
    var p0 := Start(crc, Narrow(8, na), Narrow(1, nb));
    var p1 := Greet(crc, 8, na, 1, nb);
    var p2 := SendByte(crc, p1, true, 1);
    var p3 := SendBeat(crc, p2, true, 2);
    p := SendBeat(crc, p3, true, 3);
    LeadsOn(crc, p0, p1, p2);
    LeadsOn(crc, p0, p2, p3);
    LeadsOn(crc, p0, p3, p);
  }

  /** B has taken that byte, returned it and acknowledged it, and stands before the ROLL of segment 1. */
  lemma StrandAck(crc: Crc, na: bool, nb: bool) returns (p: Pipe)
    ensures Leads(crc, Start(crc, Narrow(8, na), Narrow(1, nb)), p) && PipeOk(crc, p)
    ensures After(p.a, 0) && Sending(p.a, 4) && FirstLinked(p.a.conn.log) == 0 && p.a.hist.ends == [1, 1, 1]
    ensures p.a.conn.peerAck == 0
    ensures p.b.reader.cur == 1 && Healthy(p.b) && FinelyCut(p.b) && FirstLinked(p.b.conn.log) == 0
    ensures |p.b.hist.frames| == 2 && p.b.hist.frames[1].typ == ACK && p.b.hist.frames[1].payload == PutUint(8, 1)
  {
    hide Leads, PipeOk, OnePerSegment, PutUint;
    var p0 := Start(crc, Narrow(8, na), Narrow(1, nb));
    var p1 := StrandSend(crc, na, nb);
    var p2 := FollowOne(crc, p1, false, 0);
    var p3 := TakeOne(crc, p2, false, 1);
    var p4 := ReadByte(crc, p3, false);
    var e5 := p4.b.(readAck := Due(1));
    LeadsBy(crc, p4, false, AckCheck(Reading), e5);
    var p5 := With(p4, false, e5);
    p := SendAck(crc, p5, false, Reading, 1);
    LeadsOn(crc, p0, p1, p2);
    LeadsOn(crc, p0, p2, p3);
    LeadsOn(crc, p0, p3, p4);
    LeadsOn(crc, p0, p4, p5);
    LeadsOn(crc, p0, p5, p);
  }

  /** A takes the acknowledgement and reaps with it: the three segments it has closed. */
  lemma StrandReap(crc: Crc, na: bool, nb: bool) returns (p: Pipe)
    ensures Leads(crc, Start(crc, Narrow(8, na), Narrow(1, nb)), p) && PipeOk(crc, p)
    ensures p.b.reader.cur == 1 && FirstLinked(p.a.conn.log) == 3
    ensures Healthy(p.a) && Healthy(p.b)
  {
    hide Leads, PipeOk, OnePerSegment, PutUint;
    var p0 := Start(crc, Narrow(8, na), Narrow(1, nb));
    var p1 := StrandAck(crc, na, nb);
    var p2 := FollowOne(crc, p1, true, 0);
    var p3 := TakeOne(crc, p2, true, 1);
    AckOfOne();
    p := ReapNow(crc, p3, true);
    assert p3.a.hist.ends[2] <= 1;
    LeadsOn(crc, p0, p1, p2);
    LeadsOn(crc, p0, p2, p3);
    LeadsOn(crc, p0, p3, p);
  }

  /**
   * The property "whatever was sent can still be delivered" fails: in this run the sender reaps three
   * segments while the reader still stands in the second, and the reader can never take another segment,
   * whichever filesystem either end is on, for every checksum function.
   */
  lemma StrandedRun(crc: Crc, na: bool, nb: bool) returns (evs: seq<Event>, p: Pipe)
    ensures Run(crc, Start(crc, Narrow(8, na), Narrow(1, nb)), evs) == Some(p)
    ensures Healthy(p.a) && Healthy(p.b) && !InReach(p.a, p.b) && !CanTakeAll(crc, p.a, p.b)
  {
    hide Run, Good, Link, CanTakeAll, Start;
    p := StrandReap(crc, na, nb);
    LinkDeliverable(crc, p.a, p.b);
    evs :| Run(crc, Start(crc, Narrow(8, na), Narrow(1, nb)), evs) == Some(p);
  }

  lemma AckOfOne()
    ensures GetUint(PutUint(8, 1)) == 1
  {
    Pow256Values();
    GetPut(8, 1);
  }
}
