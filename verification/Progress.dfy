/** When a blocked sender can be unblocked: a run that does it, and why none does once the reader is out of reach. */
module Progress {
  import opened Options
  import opened Bytes
  import opened Frames
  import opened SegLog
  import opened Endpoints
  import opened PipeInv
  import opened Pipes
  import opened Drain
  import opened Reach

  // ---------- one end receives all there is ----------

  /** Only the receive loop has acted: it took frames and reaped. */
  ghost predicate OnlyReceived(e: Endpoint, e': Endpoint) {
    && e' == e.(reader := e'.reader, reapDue := e'.reapDue, taken := e'.taken, reapedTo := e'.reapedTo,
                conn := e.conn.(log := e'.conn.log, recvBuf := e'.conn.recvBuf,
                                peerAck := e'.conn.peerAck, recvEOF := e'.conn.recvEOF))
    && e'.conn.log.cur == e.conn.log.cur && e'.conn.log.segs == e.conn.log.segs
    && FirstLinked(e.conn.log) <= FirstLinked(e'.conn.log)
  }

  /** A step of the receive loop that reads all there is to read. */
  ghost predicate ReadsAhead(peer: Endpoint, e: Endpoint, act: Action) {
    || act.RecvOpen? || act.RecvDecode? || act.RecvReap?
    || (act.RecvFill? && e.reader.cur < |peer.conn.log.segs| && act.size == |peer.conn.log.segs[e.reader.cur]|)
  }

  lemma DecodeReceives(crc: Crc, e: Endpoint, peer: Endpoint, e': Endpoint)
    requires Inv(Encoder(crc), e, peer) && DoRecvDecode(crc, e) == Some(e')
    ensures OnlyReceived(e, e') && e'.conn.log == e.conn.log
    ensures Attempt(crc, e.conn.params.netFS, peer.conn.log, Place(e.reader, e.taken), TryTake)
            == Some(Place(e'.reader, e'.taken))
  {
    hide LogInv, ReaderInv, ReapedUpTo, Payload, Numbered, Chunked, MaxAck, HasFin, TryDecode, Encoder;
    LinkFacts(Encoder(crc), peer, e);
    UnlinkedPrefix(Encoder(crc), peer);
    TryDecodeRefines(crc, peer.conn.log, peer.hist, e.reader, e.taken);
  }

  lemma CanDecode(crc: Crc, e: Endpoint, peer: Endpoint)
    requires Attempt(crc, e.conn.params.netFS, peer.conn.log, Place(e.reader, e.taken), TryTake).Some?
    requires e.reapDue.None?
    ensures DoRecvDecode(crc, e).Some?
  {
    hide TryDecode;
  }

  lemma RecvStep(crc: Crc, e: Endpoint, peer: Endpoint) returns (act: Action, e': Endpoint)
    requires Inv(Encoder(crc), e, peer) && e.reapDue.None? && InReach(peer, e) && e.taken < |peer.hist.frames|
    ensures Act(crc, e, peer, act) == Some(e') && InReach(peer, e') && OnlyReceived(e, e')
    ensures ReadsAhead(peer, e, act) && !act.RecvReap? && e'.conn.log == e.conn.log
    ensures Closer(peer.conn.log, peer.hist, Place(e.reader, e.taken), Place(e'.reader, e'.taken))
  {
    hide LogInv, ReaderInv, ReapedUpTo, Payload, Numbered, Chunked, MaxAck, HasFin;
    hide WithinReach, Closer, Encoder, Starved, DoRecvDecode;
    LinkFacts(Encoder(crc), peer, e);
    var t, at' := NextAttempt(crc, e.conn.params.netFS, peer.conn.log, peer.hist, Place(e.reader, e.taken));
    if t.TryTake? {
      CanDecode(crc, e, peer);
      act, e' := RecvDecode, DoRecvDecode(crc, e).value;
      DecodeReceives(crc, e, peer, e');
    } else {
      act := if t.TryOpen? then RecvOpen else RecvFill(t.size);
      e' := e.(reader := at'.reader);
    }
  }

  lemma ReapStep(crc: Crc, e: Endpoint, peer: Endpoint) returns (e': Endpoint)
    requires Inv(Encoder(crc), e, peer) && e.reapDue.Some?
    ensures Act(crc, e, peer, RecvReap) == Some(e') && OnlyReceived(e, e') && e'.reapDue.None?
    ensures e'.reader == e.reader && e'.taken == e.taken
  {
    hide LogInv, ReaderInv, ReapedUpTo, Payload, Numbered, Chunked, MaxAck, HasFin, Kept, Passed, Encoder;
    e' := DoRecvReap(e).value;
    ReapGrows(crc, e, peer, e');
  }

  function Turn(e: Endpoint): nat {
    if e.reapDue.Some? then 1 else 0
  }

  /** The receive loop of one end, run alone, takes every frame the other has appended. */
  lemma {:induction false} DrainEnd(crc: Crc, p: Pipe, atA: bool) returns (q: Pipe)
    requires PipeOk(crc, p) && InReach(Me(p, !atA), Me(p, atA))
    ensures Leads(crc, p, q) && PipeOk(crc, q) && Me(q, !atA) == Me(p, !atA)
    ensures OnlyReceived(Me(p, atA), Me(q, atA))
    ensures Me(q, atA).reapDue.None? && Me(q, atA).taken == |Me(p, !atA).hist.frames|
    decreases Me(p, !atA).conn.log.cur - Me(p, atA).reader.cur, |Me(p, !atA).hist.frames| - Me(p, atA).taken,
              Phase(Me(p, !atA).conn.log, Me(p, atA).reader), Turn(Me(p, atA))
  {
    hide Act, Good, Link, WithinReach, Phase, Run;
    var e, peer := Me(p, atA), Me(p, !atA);
    LinkFacts(Encoder(crc), peer, e);
    if e.reapDue.None? && e.taken == |peer.hist.frames| {
      q := p;
      LeadsNowhere(crc, p);
    } else {
      var act, e';
      if e.reapDue.Some? {
        act := RecvReap;
        e' := ReapStep(crc, e, peer);
      } else {
        act, e' := RecvStep(crc, e, peer);
      }
      LeadsBy(crc, p, atA, act, e');
      LinkFacts(Encoder(crc), peer, e');
      q := DrainEnd(crc, With(p, atA, e'), atA);
      LeadsOn(crc, p, With(p, atA, e'), q);
    }
  }

  // ---------- one end acknowledges all it has received ----------

  predicate Healthy(e: Endpoint) {
    !e.conn.recvErr && !e.finSent && !e.conn.sendClosed
  }

  /** The counters have room for n more control frames. */
  predicate Spare(e: Endpoint, n: nat) {
    e.conn.sendSeq + n < U64 && e.conn.log.cur + n < U32
  }

  /** Only bytes were returned and acknowledgements sent; a reader of the log is as well off as before. */
  ghost predicate OnlyAcked(e: Endpoint, e': Endpoint) {
    && e' == e.(conn := e'.conn, readAck := e'.readAck, maintAck := e'.maintAck, hist := e'.hist,
                returned := e'.returned)
    && e'.conn == e.conn.(log := e'.conn.log, sendSeq := e'.conn.sendSeq, lastAckSent := e'.conn.lastAckSent,
                          recvBuf := e'.conn.recvBuf, recvData := e'.conn.recvData)
    && e.conn.lastAckSent <= e'.conn.lastAckSent
    && e'.conn.recvData + |e'.conn.recvBuf| == e.conn.recvData + |e.conn.recvBuf|
    && FirstLinked(e'.conn.log) == FirstLinked(e.conn.log)
    && |e.conn.log.segs| <= |e'.conn.log.segs|
    && (forall i :: 0 <= i < FirstLinked(e.conn.log) && i < |e.conn.log.segs| ==>
          e'.conn.log.segs[i] == e.conn.log.segs[i])
  }

  lemma AckedReach(e: Endpoint, e': Endpoint, peer: Endpoint)
    requires OnlyAcked(e, e') && InReach(e, peer)
    ensures InReach(e', peer)
  {
  }

  lemma AckFrameOut(enc: Enc, e: Endpoint, rd: nat)
    requires Good(enc, e) && Spare(e, 1)
    ensures Writable(e, ACK, PutUint(8, rd))
    ensures var e' := Emitted(enc, e, ACK, PutUint(8, rd));
            && OnlyAcked(e, e') && e'.readAck == e.readAck && e'.maintAck == e.maintAck
            && e'.conn.recvBuf == e.conn.recvBuf
            && e'.conn.sendSeq == e.conn.sendSeq + 1 && e'.conn.log.cur <= e.conn.log.cur + 1
  {
    hide LogInv, ReapedUpTo, Payload, Numbered, Chunked, MaxAck, PutUint, Record;
    UnlinkedPrefix(enc, e);
    assert e.written + [] == e.written;
  }

  /** How many frames a goroutine may still send on its way back to idle. */
  function Owed(pc: AckPc): nat {
    if pc.Captured? || pc.Due? then 1 else 0
  }

  function Rank(pc: AckPc): nat {
    match pc
    case Idle => 0
    case Sent(_) => 1
    case Due(_) => 2
    case Captured(_) => 3
  }

  /** What a goroutine's step on its way back to idle keeps. */
  ghost predicate OneAckStep(e: Endpoint, e': Endpoint, who: Who, n: nat) {
    && !Pc(e, who).Idle? && OnlyAcked(e, e') && Healthy(e')
    && Rank(Pc(e', who)) < Rank(Pc(e, who)) && Spare(e', n + Owed(Pc(e', who)))
    && (who == Maintaining ==> e'.readAck == e.readAck)
    && (who == Reading ==> e'.maintAck == e.maintAck)
    && e'.conn.recvBuf == e.conn.recvBuf
    && if Pc(e', who).Idle? then who == Maintaining ==> e'.conn.lastAckSent >= Pc(e, who).rd
       else Pc(e', who).rd == Pc(e, who).rd
  }

  lemma EmitStep(enc: Enc, e: Endpoint, who: Who, n: nat) returns (e': Endpoint)
    requires Good(enc, e) && Healthy(e) && Pc(e, who).Due? && Spare(e, n + 1)
    ensures DoAckEmit(enc, e, who) == Some(e') && OneAckStep(e, e', who, n)
  {
    hide Good, PutUint, Emitted;
    AckFrameOut(enc, e, Pc(e, who).rd);
    e' := DoAckEmit(enc, e, who).value;
  }

  lemma AckStep(crc: Crc, e: Endpoint, peer: Endpoint, who: Who, n: nat) returns (act: Action, e': Endpoint)
    requires Inv(Encoder(crc), e, peer) && Healthy(e) && !Pc(e, who).Idle? && Spare(e, n + Owed(Pc(e, who)))
    ensures Act(crc, e, peer, act) == Some(e') && OneAckStep(e, e', who, n)
  {
    hide Good, Link, Encoder, AckIsDue, DoAckEmit;
    match Pc(e, who) {
      case Captured(_) =>
        act, e' := AckCheck(who), DoAckCheck(e, who).value;
      case Due(_) =>
        act := AckEmit(who);
        e' := EmitStep(Encoder(crc), e, who, n);
      case Sent(_) =>
        act, e' := AckRecord(who), DoAckRecord(e, who).value;
    }
  }

  /** A goroutine part-way through an acknowledgement comes back to idle. */
  lemma {:induction false} FinishAck(crc: Crc, p: Pipe, atA: bool, who: Who, n: nat) returns (q: Pipe)
    requires PipeOk(crc, p) && Healthy(Me(p, atA)) && Spare(Me(p, atA), n + Owed(Pc(Me(p, atA), who)))
    ensures Leads(crc, p, q) && PipeOk(crc, q) && Me(q, !atA) == Me(p, !atA)
    ensures var e, e' := Me(p, atA), Me(q, atA);
            && OnlyAcked(e, e') && Healthy(e') && Spare(e', n) && Pc(e', who).Idle?
            && (who == Maintaining ==> e'.readAck == e.readAck) && (who == Reading ==> e'.maintAck == e.maintAck)
            && e'.conn.recvBuf == e.conn.recvBuf
            && (who == Maintaining && !e.maintAck.Idle? ==> e'.conn.lastAckSent >= e.maintAck.rd)
    decreases Rank(Pc(Me(p, atA), who))
  {
    hide Act, Good, Link, Run;
    var e, peer := Me(p, atA), Me(p, !atA);
    if Pc(e, who).Idle? {
      q := p;
      LeadsNowhere(crc, p);
    } else {
      var act, e' := AckStep(crc, e, peer, who, n);
      LeadsBy(crc, p, atA, act, e');
      q := FinishAck(crc, With(p, atA, e'), atA, who, n);
      LeadsOn(crc, p, With(p, atA, e'), q);
    }
  }

  lemma ReadAll(crc: Crc, p: Pipe, atA: bool) returns (q: Pipe)
    requires PipeOk(crc, p) && Me(p, atA).readAck.Idle?
    ensures Leads(crc, p, q) && PipeOk(crc, q) && Me(q, !atA) == Me(p, !atA)
    ensures var e, e' := Me(p, atA), Me(q, atA);
            && OnlyAcked(e, e') && e'.maintAck == e.maintAck && e'.conn.recvBuf == []
            && e'.conn.sendSeq == e.conn.sendSeq && e'.conn.log == e.conn.log
  {
    hide Good, Link, Run;
    var e := Me(p, atA);
    if e.conn.recvBuf == [] {
      q := p;
      LeadsNowhere(crc, p);
    } else {
      var e' := DoReadSome(e, |e.conn.recvBuf|).value;
      LeadsBy(crc, p, atA, ReadSome(|e.conn.recvBuf|), e');
      q := With(p, atA, e');
    }
  }

  /** Its reader returns all that is buffered and its next tick acknowledges all that was returned. */
  lemma AckAll(crc: Crc, p: Pipe, atA: bool) returns (q: Pipe)
    requires PipeOk(crc, p) && Healthy(Me(p, atA)) && Established(Me(p, atA)) && Spare(Me(p, atA), 4)
    ensures Leads(crc, p, q) && PipeOk(crc, q) && Me(q, !atA) == Me(p, !atA)
    ensures OnlyAcked(Me(p, atA), Me(q, atA))
    ensures Me(q, atA).conn.recvBuf == [] && Me(q, atA).conn.lastAckSent >= Me(q, atA).conn.recvData
  {
    hide Leads, PipeOk, OnlyAcked;
    var e := Me(p, atA);
    var p1 := FinishAck(crc, p, atA, Reading, 3);
    var p2 := ReadAll(crc, p1, atA);
    AckedOn(crc, p, p1, p2, atA);
    var p3 := FinishAck(crc, p2, atA, Maintaining, 1);
    AckedOn(crc, p, p2, p3, atA);
    var e4 := Me(p3, atA).(maintAck := Captured(Me(p3, atA).conn.recvData));
    var p4 := With(p3, atA, e4);
    LeadsBy(crc, p3, atA, MaintStart, e4);
    TickIsAcking(Me(p3, atA), e4);
    AckedOn(crc, p, p3, p4, atA);
    q := FinishAck(crc, p4, atA, Maintaining, 0);
    AckedOn(crc, p, p4, q, atA);
    SameTotal(e4, Me(q, atA));
  }

  lemma AckedOn(crc: Crc, p: Pipe, q: Pipe, q': Pipe, atA: bool)
    requires Leads(crc, p, q) && Leads(crc, q, q')
    requires OnlyAcked(Me(p, atA), Me(q, atA)) && OnlyAcked(Me(q, atA), Me(q', atA))
    ensures Leads(crc, p, q') && OnlyAcked(Me(p, atA), Me(q', atA))
    ensures var e, e' := Me(p, atA), Me(q', atA);
            && e'.taken == e.taken && e'.finSent == e.finSent && e'.conn.recvErr == e.conn.recvErr
            && e'.conn.sendClosed == e.conn.sendClosed
  {
    hide Leads;
    LeadsOn(crc, p, q, q');
  }

  lemma TickIsAcking(e: Endpoint, e': Endpoint)
    requires e' == e.(maintAck := e'.maintAck)
    ensures OnlyAcked(e, e')
  {
  }

  lemma SameTotal(e: Endpoint, e': Endpoint)
    requires OnlyAcked(e, e') && e'.conn.recvBuf == e.conn.recvBuf
    ensures e'.conn.recvData == e.conn.recvData
  {
  }

  // ---------- a sender is unblocked ----------

  /** The reader of `s`'s log stays within reach even when `s` reaps with every acknowledgement in the other log. */
  ghost predicate StaysInReach(s: Endpoint, r: Endpoint) {
    WithinReach(r.conn.params.netFS, Reap(s.conn.log, MaxAck(r.hist.frames)), r.reader)
  }

  lemma StaysInReachAfter(enc: Enc, s: Endpoint, s': Endpoint, r: Endpoint)
    requires Inv(enc, s, r) && Inv(enc, s', r) && OnlyReceived(s, s') && StaysInReach(s, r)
    ensures InReach(s', r)
  {
    hide Holds, FramesOk, Sized, EndsOk, ReapOk, Payload, Numbered, Chunked, MaxAck, HasFin, ReaderInv, Reap;
    var ack := MaxAck(r.hist.frames);
    ReapKeeps(enc, s.conn.log, s.hist, ack);
    MaxAckGrows(r.hist.frames, s'.taken);
    UnlinkedPrefix(enc, s');
    UnlinkedPrefix(enc, s);
    var m, m' := FirstLinked(Reap(s.conn.log, ack)), FirstLinked(s'.conn.log);
    assert m' > 0 ==> s.hist.ends[m' - 1] <= s'.reapedTo <= ack;
    ReapSameFiles(s.conn.log, ack);
  }

  lemma ReapSameFiles(l: Log, acked: nat)
    ensures Reap(l, acked).segs == l.segs && Reap(l, acked).cur == l.cur
  {
  }

  lemma AtEndInReach(enc: Enc, s: Endpoint, r: Endpoint)
    requires Inv(enc, s, r) && r.taken == |s.hist.frames|
    ensures InReach(s, r)
  {
    hide LogInv, ReaderInv, ReapedUpTo, Payload, Numbered, Chunked, MaxAck, HasFin;
    LinkFacts(enc, s, r);
    UnlinkedPrefix(enc, s);
  }

  lemma AllTaken(enc: Enc, s: Endpoint, r: Endpoint)
    requires Inv(enc, s, r) && r.taken == |s.hist.frames|
    ensures Established(r) && r.conn.recvData + |r.conn.recvBuf| == s.conn.sentData
    ensures r.conn.peerAck == MaxAck(s.hist.frames)
  {
    hide LogInv, ReaderInv, ReapedUpTo, Payload, Numbered, Chunked, MaxAck, HasFin;
    Ordering(enc, s, r);
    UnlinkedPrefix(enc, s);
    assert s.hist.starts[0] < |s.hist.frames|;
    assert s.hist.frames[..r.taken] == s.hist.frames;
  }

  /** A receiver that has taken everything acknowledges it, and the sender takes the acknowledgement. */
  lemma AckThenRead(crc: Crc, p: Pipe, atA: bool) returns (q: Pipe)
    requires PipeOk(crc, p) && Me(p, !atA).taken == |Me(p, atA).hist.frames|
    requires Healthy(Me(p, !atA)) && Spare(Me(p, !atA), 4) && InReach(Me(p, !atA), Me(p, atA))
    ensures Leads(crc, p, q) && !Blocked(Me(q, atA))
  {
    hide Run, Good, Link, MaxAck, Room, WithinReach;
    var s, r := Me(p, atA), Me(p, !atA);
    AllTaken(Encoder(crc), s, r);
    var p' := AckAll(crc, p, !atA);
    AckedReach(r, Me(p', !atA), s);
    q := DrainEnd(crc, p', atA);
    LeadsOn(crc, p, p', q);
    AllTaken(Encoder(crc), Me(q, !atA), Me(q, atA));
    RoomAgain(Encoder(crc), Me(q, atA), Me(q, !atA));
  }

  lemma RoomAgain(enc: Enc, s: Endpoint, r: Endpoint)
    requires Inv(enc, s, r) && s.conn.peerAck == MaxAck(r.hist.frames) && r.conn.lastAckSent >= s.conn.sentData
    ensures !Blocked(s)
  {
    hide LogInv, ReapedUpTo, Payload, Numbered, Chunked, MaxAck, HasFin, Link, Room;
    NoWrap(enc, s);
  }

  /** The way back for acknowledgements: open now, and not cut by what either end will reap on the way. */
  ghost predicate WayBack(s: Endpoint, r: Endpoint) {
    InReach(r, s) && (StaysInReach(r, s) || StaysInReach(s, r))
  }

  /** A run that unblocks the sender: the receiver takes all, acknowledges all, and the sender takes that. */
  lemma Unblocked(crc: Crc, p: Pipe, atA: bool) returns (q: Pipe)
    requires PipeOk(crc, p) && InReach(Me(p, atA), Me(p, !atA)) && WayBack(Me(p, atA), Me(p, !atA))
    requires Healthy(Me(p, !atA)) && Spare(Me(p, !atA), 4)
    ensures Leads(crc, p, q) && !Blocked(Me(q, atA))
  {
    hide Leads, Good, Link, WithinReach, StaysInReach, Blocked;
    var s, r := Me(p, atA), Me(p, !atA);
    var p1 := p;
    if StaysInReach(r, s) {
      LeadsNowhere(crc, p);
    } else {
      p1 := DrainEnd(crc, p, atA);
      StaysInReachAfter(Encoder(crc), s, Me(p1, atA), r);
    }
    var p2 := DrainEnd(crc, p1, !atA);
    LeadsOn(crc, p, p1, p2);
    if StaysInReach(r, s) {
      StaysInReachAfter(Encoder(crc), r, Me(p2, !atA), s);
    } else {
      AtEndInReach(Encoder(crc), Me(p2, !atA), Me(p2, atA));
    }
    q := AckThenRead(crc, p2, atA);
    LeadsOn(crc, p, p2, q);
  }

  // ---------- or never ----------

  lemma LostAcks(enc: Enc, m: nat, s: Endpoint, s': Endpoint, r: Endpoint)
    requires Good(enc, s) && Inv(enc, s', r) && Grows(s, s') && Lost(m, s', r) && m == FirstLinked(s.conn.log)
    ensures s'.conn.peerAck <= s.conn.peerAck && s.conn.sentData <= s'.conn.sentData
  {
    hide Holds, FramesOk, Sized, Payload, Numbered, Chunked, MaxAck, HasFin, ReaderInv, Synced;
    UnlinkedPrefix(enc, s);
    LostTakes(enc, m, s', r);
    Ordering(enc, s', r);
    var fs, gs := s.hist.frames, s'.hist.frames;
    var t := s.hist.starts[m];
    assert m > 0;
    assert s.hist.ends[m - 1] == DataIn(fs[..s.hist.starts[(m - 1) + 1] + 1]);
    PayloadSplit(gs, r.taken, t);
    assert gs[..t] == fs[..t];
    PayloadSplit(fs, t, t + 1);
    PayloadSplit(gs, |fs|, |gs|);
    assert gs[..|fs|] == fs && gs[..|gs|] == gs;
  }

  /** A sender blocked by a reader out of reach is blocked in every continuation. */
  lemma BlockedForever(crc: Crc, p: Pipe, atA: bool, q: Pipe)
    requires PipeOk(crc, p) && Blocked(Me(p, atA)) && !InReach(Me(p, atA), Me(p, !atA))
    requires Leads(crc, p, q)
    ensures Blocked(Me(q, atA))
  {
    var evs :| Run(crc, p, evs) == Some(q);
    hide Run, Good, Link, Room, Lost;
    OutOfReachIsLost(crc, p, atA);
    var m := FirstLinked(Me(p, atA).conn.log);
    LostRun(crc, m, p, atA, evs, q);
    LostAcks(Encoder(crc), m, Me(p, atA), Me(q, atA), Me(q, !atA));
    NoWrap(Encoder(crc), Me(p, atA));
    NoWrap(Encoder(crc), Me(q, atA));
  }
}
