/** Whether what was sent can still be delivered, over whole runs; and that a reader out of reach stays so. */
module Reach {
  import opened Options
  import opened Bytes
  import opened Frames
  import opened SegLog
  import opened Endpoints
  import opened PipeInv
  import opened Pipes
  import opened Drain

  /** `r` can still take everything `s` sent. */
  predicate InReach(s: Endpoint, r: Endpoint) {
    WithinReach(r.conn.params.netFS, s.conn.log, r.reader)
  }

  ghost predicate CanTakeAll(crc: Crc, s: Endpoint, r: Endpoint) {
    exists ts :: TakesAll(crc, r.conn.params.netFS, s.conn.log, s.hist, Place(r.reader, r.taken), ts)
  }

  /**
   * Everything `s` sent can still be taken by `r` exactly when its reader is within reach. What `s` has
   * seen acknowledged rules out every reader that is not exactly when it covers the unlinked segments.
   */
  ghost predicate Deliverable(crc: Crc, s: Endpoint, r: Endpoint) {
    var netFS := r.conn.params.netFS;
    && (CanTakeAll(crc, s, r) <==> InReach(s, r))
    && Possible(Encoder(crc), netFS, s.conn.log, s.hist, s.reapedTo, r.reader, r.taken)
    && ((forall x, pos :: Possible(Encoder(crc), netFS, s.conn.log, s.hist, s.reapedTo, x, pos) ==>
          WithinReach(netFS, s.conn.log, x))
        <==> Covered(netFS, s.conn.log, s.hist, s.reapedTo))
  }

  lemma ReaderIsPossible(enc: Enc, s: Endpoint, r: Endpoint)
    requires Inv(enc, s, r)
    ensures Possible(enc, r.conn.params.netFS, s.conn.log, s.hist, s.reapedTo, r.reader, r.taken)
  {
    hide LogInv, ReaderInv, ReapedUpTo, Numbered, Chunked, MaxAck, HasFin, Payload;
    Ordering(enc, s, r);
  }

  lemma LinkDeliverable(crc: Crc, s: Endpoint, r: Endpoint)
    requires Inv(Encoder(crc), s, r)
    ensures Deliverable(crc, s, r)
  {
    hide LogInv, ReaderInv, ReapedUpTo, Numbered, Chunked, MaxAck, HasFin, Payload;
    hide TakesAll, WithinReach, Possible, Covered;
    var netFS := r.conn.params.netFS;
    DeliverableIff(crc, netFS, s.conn.log, s.hist, Place(r.reader, r.taken));
    ReaderIsPossible(Encoder(crc), s, r);
    ReachKnownIff(Encoder(crc), netFS, s.conn.log, s.hist, s.reapedTo);
  }

  lemma DeliverableInEveryRun(crc: Crc, pa: Params, pb: Params, evs: seq<Event>, p: Pipe)
    requires ParamsOk(pa) && ParamsOk(pb) && Run(crc, Start(crc, pa, pb), evs) == Some(p)
    ensures Deliverable(crc, p.a, p.b) && Deliverable(crc, p.b, p.a)
    ensures Covered(pb.netFS, p.a.conn.log, p.a.hist, p.a.reapedTo) ==> CanTakeAll(crc, p.a, p.b)
    ensures Covered(pa.netFS, p.b.conn.log, p.b.hist, p.b.reapedTo) ==> CanTakeAll(crc, p.b, p.a)
  {
    hide Run, Good, Link, CanTakeAll, WithinReach, Possible, Covered;
    RunOk(crc, pa, pb, evs, p);
    LinkDeliverable(crc, p.a, p.b);
    LinkDeliverable(crc, p.b, p.a);
    ParamsStay(crc, Start(crc, pa, pb), evs, p);
  }

  lemma SafeRollCovers(enc: Enc, netFS: bool, s: Endpoint)
    requires Good(enc, s) && FirstLinked(s.conn.log) > 0
    ensures var m, h := FirstLinked(s.conn.log), s.hist;
            && m < |h.starts| && h.starts[m] < |h.frames|
            && (h.frames[h.starts[m]].typ == DATA || (!netFS && HoldsData(h, m - 1)) ==>
                  Covered(netFS, s.conn.log, h, s.reapedTo))
  {
    hide Holds, FramesOk, Sized, Payload, Numbered, MaxAck, Acker, Windowed, DataIn;
    var m, h := FirstLinked(s.conn.log), s.hist;
    UnlinkedPrefix(enc, s);
    var t := h.starts[m];
    assert h.ends[m - 1] == DataIn(h.frames[..h.starts[(m - 1) + 1] + 1]);
    MoreData(h.frames, t, t + 1, s.conn.params.maxFrame);
    MoreData(h.frames, h.starts[m - 1], t, s.conn.params.maxFrame);
    MoreData(h.frames, h.starts[m - 1], t + 1, s.conn.params.maxFrame);
  }

  /** After every run: when the last segment unlinked was safe to reap, everything can still be delivered. */
  lemma SafeRollDelivers(crc: Crc, pa: Params, pb: Params, evs: seq<Event>, p: Pipe, atA: bool)
    requires ParamsOk(pa) && ParamsOk(pb) && Run(crc, Start(crc, pa, pb), evs) == Some(p)
    ensures var s, r, m := Me(p, atA), Me(p, !atA), FirstLinked(Me(p, atA).conn.log);
            && 0 <= m < |s.hist.starts| && s.hist.starts[m] < |s.hist.frames|
            && (m == 0 || s.hist.frames[s.hist.starts[m]].typ == DATA ==> CanTakeAll(crc, s, r))
            && (m > 0 && !r.conn.params.netFS && HoldsData(s.hist, m - 1) ==> CanTakeAll(crc, s, r))
  {
    hide Run, Start, Good, Link, CanTakeAll, WithinReach, Possible, HoldsData;
    RunOk(crc, pa, pb, evs, p);
    var s, r := Me(p, atA), Me(p, !atA);
    LinkDeliverable(crc, s, r);
    UnlinkedPrefix(Encoder(crc), s);
    if FirstLinked(s.conn.log) > 0 {
      SafeRollCovers(Encoder(crc), r.conn.params.netFS, s);
    }
  }

  lemma {:induction false} ParamsStay(crc: Crc, p: Pipe, evs: seq<Event>, q: Pipe)
    requires Run(crc, p, evs) == Some(q)
    ensures q.a.conn.params == p.a.conn.params && q.b.conn.params == p.b.conn.params
    decreases |evs|
  {
    hide Act;
    if evs != [] {
      var p' := Step(crc, p, evs[0]).value;
      ParamsKept(crc, Me(p, evs[0].atA), Me(p, !evs[0].atA), evs[0].act, Me(p', evs[0].atA));
      ParamsStay(crc, p', evs[1..], q);
    }
  }

  lemma ParamsKept(crc: Crc, e: Endpoint, peer: Endpoint, act: Action, e': Endpoint)
    requires Act(crc, e, peer, act) == Some(e')
    ensures e'.conn.params == e.conn.params
  {
    if !Receives(act) {
      hide Act;
      NotReceiving(crc, e, peer, act, e');
    } else if act.RecvReap? {
      hide Reap, Encoder;
    } else {
      hide Act;
      ReceivingLog(crc, e, peer, act, e');
    }
  }

  // ---------- what the receive loop alone changes ----------

  predicate Receives(act: Action) {
    act.RecvOpen? || act.RecvFill? || act.RecvLose? || act.RecvDecode? || act.RecvReap?
  }

  /** What the receive loop reads and has taken is as it was. */
  predicate SameReading(e: Endpoint, e': Endpoint) {
    && e'.reader == e.reader && e'.taken == e.taken && e'.reapDue == e.reapDue
    && e'.conn.params == e.conn.params && e'.conn.peerAck == e.conn.peerAck
  }

  lemma EmittedReading(enc: Enc, e: Endpoint, typ: byte, payload: seq<byte>)
    requires Writable(e, typ, payload)
    ensures SameReading(e, Emitted(enc, e, typ, payload))
  {
    hide Append, Record;
  }

  lemma SendingReading(enc: Enc, e: Endpoint, act: Action, e': Endpoint)
    requires match act
             case WriteChunk(chunk) => DoWriteChunk(enc, e, chunk) == Some(e')
             case AckEmit(who) => DoAckEmit(enc, e, who) == Some(e')
             case Beat(stamp) => DoBeat(enc, e, stamp) == Some(e')
             case CloseFin => DoCloseFin(enc, e) == Some(e')
             case _ => e' == e
    ensures SameReading(e, e')
  {
    hide Emitted, PutUint;
    match act
    case WriteChunk(chunk) =>
      if Writable(e, DATA, chunk) { EmittedReading(enc, e, DATA, chunk); }
    case AckEmit(who) =>
      var b := if Pc(e, who).Due? then PutUint(8, Pc(e, who).rd) else [];
      if Writable(e, ACK, b) { EmittedReading(enc, e, ACK, b); }
    case Beat(stamp) =>
      if Writable(e, HEARTBEAT, PutUint(8, stamp)) { EmittedReading(enc, e, HEARTBEAT, PutUint(8, stamp)); }
    case CloseFin =>
      if Writable(e, FIN, []) { EmittedReading(enc, e, FIN, []); }
    case _ =>
  }

  /** No other goroutine touches what the receive loop works on. */
  lemma NotReceiving(crc: Crc, e: Endpoint, peer: Endpoint, act: Action, e': Endpoint)
    requires Act(crc, e, peer, act) == Some(e') && !Receives(act)
    ensures SameReading(e, e')
  {
    hide DoWriteChunk, DoAckEmit, DoBeat, DoCloseFin, Encoder, Room, AckIsDue;
    hide DoRecvOpen, DoRecvFill, DoRecvLose, DoRecvDecode, DoRecvReap;
    if Sends(act) {
      hide DoWriteWait, DoReadSome, DoAckCheck, DoAckRecord, DoMaintStart, DoIdleFail, DoCloseSend, SameReading;
      SendingReading(Encoder(crc), e, act, e');
    }
  }

  // ---------- logs only grow ----------

  ghost predicate Grows(e: Endpoint, e': Endpoint) {
    && e'.conn.params == e.conn.params
    && FirstLinked(e.conn.log) <= FirstLinked(e'.conn.log)
    && e.hist.frames <= e'.hist.frames && e.hist.starts <= e'.hist.starts && e.hist.ends <= e'.hist.ends
    && |e.conn.log.segs| <= |e'.conn.log.segs|
    && (forall i :: 0 <= i < |e.conn.log.segs| ==> |e.conn.log.segs[i]| <= |e'.conn.log.segs[i]|)
  }

  lemma EmittedGrows(enc: Enc, e: Endpoint, typ: byte, payload: seq<byte>)
    requires Writable(e, typ, payload)
    ensures Grows(e, Emitted(enc, e, typ, payload))
  {
    hide Record;
  }

  predicate Sends(act: Action) {
    act.WriteChunk? || act.AckEmit? || act.Beat? || act.CloseFin?
  }

  lemma SendingGrows(enc: Enc, e: Endpoint, act: Action, e': Endpoint)
    requires match act
             case WriteChunk(chunk) => DoWriteChunk(enc, e, chunk) == Some(e')
             case AckEmit(who) => DoAckEmit(enc, e, who) == Some(e')
             case Beat(stamp) => DoBeat(enc, e, stamp) == Some(e')
             case CloseFin => DoCloseFin(enc, e) == Some(e')
             case _ => e' == e
    ensures Grows(e, e')
  {
    hide Emitted, PutUint;
    match act
    case WriteChunk(chunk) =>
      if Writable(e, DATA, chunk) { EmittedGrows(enc, e, DATA, chunk); }
    case AckEmit(who) =>
      var b := if Pc(e, who).Due? then PutUint(8, Pc(e, who).rd) else [];
      if Writable(e, ACK, b) { EmittedGrows(enc, e, ACK, b); }
    case Beat(stamp) =>
      if Writable(e, HEARTBEAT, PutUint(8, stamp)) { EmittedGrows(enc, e, HEARTBEAT, PutUint(8, stamp)); }
    case CloseFin =>
      if Writable(e, FIN, []) { EmittedGrows(enc, e, FIN, []); }
    case _ =>
  }

  lemma QuietGrows(crc: Crc, e: Endpoint, peer: Endpoint, act: Action, e': Endpoint)
    requires Act(crc, e, peer, act) == Some(e') && !act.RecvReap? && !Sends(act)
    ensures Grows(e, e')
  {
    hide Act;
    QuietLog(crc, e, peer, act, e');
  }

  predicate SameLog(e: Endpoint, e': Endpoint) {
    e'.conn.log == e.conn.log && e'.hist == e.hist && e'.conn.params == e.conn.params
  }

  lemma DecodeLog(crc: Crc, e: Endpoint, e': Endpoint)
    requires DoRecvDecode(crc, e) == Some(e')
    ensures SameLog(e, e')
  {
    hide TryDecode, GetUint;
  }

  lemma ReceivingLog(crc: Crc, e: Endpoint, peer: Endpoint, act: Action, e': Endpoint)
    requires Act(crc, e, peer, act) == Some(e') && Receives(act) && !act.RecvReap?
    ensures SameLog(e, e')
  {
    hide Encoder, Starved, Fill, DoRecvDecode;
    if act.RecvDecode? {
      DecodeLog(crc, e, e');
    }
  }

  lemma OtherLog(crc: Crc, e: Endpoint, peer: Endpoint, act: Action, e': Endpoint)
    requires Act(crc, e, peer, act) == Some(e') && !Receives(act) && !Sends(act)
    ensures SameLog(e, e')
  {
    hide Encoder, Room, AckIsDue, DoWriteChunk, DoAckEmit, DoBeat, DoCloseFin;
    hide DoRecvOpen, DoRecvFill, DoRecvLose, DoRecvDecode, DoRecvReap;
  }

  lemma QuietLog(crc: Crc, e: Endpoint, peer: Endpoint, act: Action, e': Endpoint)
    requires Act(crc, e, peer, act) == Some(e') && !act.RecvReap? && !Sends(act)
    ensures SameLog(e, e')
  {
    hide Act;
    if Receives(act) {
      ReceivingLog(crc, e, peer, act, e');
    } else {
      OtherLog(crc, e, peer, act, e');
    }
  }

  lemma ReapGrows(crc: Crc, e: Endpoint, peer: Endpoint, e': Endpoint)
    requires Inv(Encoder(crc), e, peer) && DoRecvReap(e) == Some(e')
    ensures Grows(e, e')
  {
    hide LogInv, ReapedUpTo, Payload, Numbered, Chunked, MaxAck, Link, Encoder, Kept, Passed;
    ReapKeeps(Encoder(crc), e.conn.log, e.hist, e.reapDue.value);
  }

  lemma ActGrows(crc: Crc, e: Endpoint, peer: Endpoint, act: Action, e': Endpoint)
    requires Inv(Encoder(crc), e, peer) && Act(crc, e, peer, act) == Some(e')
    ensures Grows(e, e')
  {
    hide Inv, Grows, DoWriteChunk, DoAckEmit, DoBeat, DoCloseFin, DoRecvReap, DoRecvDecode, DoRecvFill, DoRecvOpen;
    hide Encoder, DoWriteWait, DoReadSome, DoAckCheck, DoAckRecord, DoMaintStart, DoIdleFail, DoCloseSend, DoRecvLose;
    if act.RecvReap? {
      ReapGrows(crc, e, peer, e');
    } else if Sends(act) {
      SendingGrows(Encoder(crc), e, act, e');
    } else {
      QuietGrows(crc, e, peer, act, e');
    }
  }

  // ---------- out of reach is for good ----------

  /** The reader stands before segment m, which is the first linked one or earlier, and cannot get to it. */
  ghost predicate Lost(m: nat, s: Endpoint, r: Endpoint) {
    && m <= FirstLinked(s.conn.log)
    && r.reader.cur < m && r.reader.cur < |s.conn.log.segs|
    && (r.reader.isOpen ==>
          r.reader.cur + 1 < m || (r.conn.params.netFS && r.reader.off < |s.conn.log.segs[r.reader.cur]|))
  }

  lemma LostGrows(m: nat, s: Endpoint, s': Endpoint, r: Endpoint)
    requires Lost(m, s, r) && Grows(s, s')
    ensures Lost(m, s', r)
  {
  }

  lemma QuietLost(crc: Crc, m: nat, r: Endpoint, s: Endpoint, act: Action, r': Endpoint)
    requires Lost(m, s, r) && Act(crc, r, s, act) == Some(r') && !act.RecvDecode?
    requires forall i: nat :: i in s.conn.log.unlinked <==> i < FirstLinked(s.conn.log)
    ensures Lost(m, s, r')
  {
    if Receives(act) {
      hide Reap, Encoder, TryDecode;
    } else {
      hide Act;
      NotReceiving(crc, r, s, act, r');
    }
  }

  lemma DecodeLost(crc: Crc, m: nat, r: Endpoint, s: Endpoint, r': Endpoint)
    requires Inv(Encoder(crc), r, s) && Lost(m, s, r) && DoRecvDecode(crc, r) == Some(r')
    ensures Lost(m, s, r')
  {
    hide LogInv, ReaderInv, ReapedUpTo, Payload, Numbered, Chunked, MaxAck, HasFin, Encoder, TryDecode;
    UnlinkedPrefix(Encoder(crc), s);
    LinkFacts(Encoder(crc), s, r);
    TryDecodeRefines(crc, s.conn.log, s.hist, r.reader, r.taken);
  }

  lemma LostStays(crc: Crc, m: nat, r: Endpoint, s: Endpoint, act: Action, r': Endpoint)
    requires Inv(Encoder(crc), r, s) && Lost(m, s, r) && Act(crc, r, s, act) == Some(r')
    ensures Lost(m, s, r')
  {
    hide Good, Link, Lost;
    UnlinkedPrefix(Encoder(crc), s);
    if act.RecvDecode? {
      DecodeLost(crc, m, r, s, r');
    } else {
      hide Act;
      QuietLost(crc, m, r, s, act, r');
    }
  }

  lemma UnlinkedPrefix(enc: Enc, e: Endpoint)
    requires Good(enc, e)
    ensures forall i: nat :: i in e.conn.log.unlinked <==> i < FirstLinked(e.conn.log)
    ensures 0 <= FirstLinked(e.conn.log) <= e.conn.log.cur
    ensures |e.hist.starts| == |e.conn.log.segs| == e.conn.log.cur + 1 == |e.hist.ends| + 1
    ensures forall i :: 0 <= i < |e.hist.starts| ==> e.hist.starts[i] < |e.hist.frames|
    ensures forall i, j :: 0 <= i < j < |e.hist.starts| ==> e.hist.starts[i] < e.hist.starts[j]
  {
    hide SegBytes, Sized, FramesOk, ReapedUpTo, Numbered, Chunked, MaxAck, Acker, Windowed;
  }

  lemma {:induction false} LostRun(crc: Crc, m: nat, p: Pipe, atA: bool, evs: seq<Event>, q: Pipe)
    requires PipeOk(crc, p) && Lost(m, Me(p, atA), Me(p, !atA)) && Run(crc, p, evs) == Some(q)
    ensures PipeOk(crc, q) && Lost(m, Me(q, atA), Me(q, !atA)) && Grows(Me(p, atA), Me(q, atA))
    decreases |evs|
  {
    hide Act, Good, Link, Lost;
    if evs != [] {
      var ev, p' := evs[0], Step(crc, p, evs[0]).value;
      StepKeeps(crc, p, ev, p');
      if ev.atA == atA {
        ActGrows(crc, Me(p, atA), Me(p, !atA), ev.act, Me(p', atA));
        LostGrows(m, Me(p, atA), Me(p', atA), Me(p, !atA));
      } else {
        LostStays(crc, m, Me(p, !atA), Me(p, atA), ev.act, Me(p', !atA));
      }
      LostRun(crc, m, p', atA, evs[1..], q);
    }
  }

  lemma OutOfReachIsLost(crc: Crc, p: Pipe, atA: bool)
    requires PipeOk(crc, p) && !InReach(Me(p, atA), Me(p, !atA))
    ensures FirstLinked(Me(p, atA).conn.log) >= 0
    ensures Lost(FirstLinked(Me(p, atA).conn.log), Me(p, atA), Me(p, !atA))
  {
    hide LogInv, ReaderInv, ReapedUpTo, Payload, Numbered, Chunked, MaxAck, HasFin;
    LinkFacts(Encoder(crc), Me(p, atA), Me(p, !atA));
    UnlinkedPrefix(Encoder(crc), Me(p, atA));
    ReadWithin(Encoder(crc), Me(p, atA), Me(p, !atA));
  }

  lemma ReadWithin(enc: Enc, s: Endpoint, r: Endpoint)
    requires Link(enc, s, r)
    ensures r.reader.cur < |s.conn.log.segs| && (r.reader.isOpen ==> r.reader.off <= |s.conn.log.segs[r.reader.cur]|)
  {
    hide Holds, HasFin, MaxAck, Payload;
  }

  /** A reader before segment m takes no frame of segment m. */
  lemma LostTakes(enc: Enc, m: nat, s: Endpoint, r: Endpoint)
    requires Inv(enc, s, r) && Lost(m, s, r)
    ensures m < |s.hist.starts| && r.taken <= s.hist.starts[m] <= |s.hist.frames|
  {
    hide LogInv, ReaderInv, ReapedUpTo, Payload, Numbered, Chunked, MaxAck, HasFin;
    LinkFacts(enc, s, r);
    UnlinkedPrefix(enc, s);
  }

  /**
   * Once a reader is out of reach, on either filesystem, it stays so: whatever either side does, it never
   * takes a frame of a segment that is still linked, and Read returns no byte that was sent in one.
   */
  lemma StrandedForever(crc: Crc, pa: Params, pb: Params, before: seq<Event>, p: Pipe, atA: bool,
                        after: seq<Event>, q: Pipe)
    requires ParamsOk(pa) && ParamsOk(pb) && Run(crc, Start(crc, pa, pb), before) == Some(p)
    requires !InReach(Me(p, atA), Me(p, !atA)) && Run(crc, p, after) == Some(q)
    ensures !InReach(Me(q, atA), Me(q, !atA)) && !CanTakeAll(crc, Me(q, atA), Me(q, !atA))
    ensures var s := Me(p, atA);
            var m := FirstLinked(s.conn.log);
            && 0 <= m < |s.hist.starts| && s.hist.starts[m] < |s.hist.frames|
            && Me(q, !atA).taken <= s.hist.starts[m]
            && Me(q, !atA).returned <= Payload(s.hist.frames[..s.hist.starts[m]])
  {
    hide Run, Start, Good, Link, Payload, CanTakeAll, Possible, Covered;
    RunOk(crc, pa, pb, before, p);
    OutOfReachIsLost(crc, p, atA);
    var s, m := Me(p, atA), FirstLinked(Me(p, atA).conn.log);
    LostRun(crc, m, p, atA, after, q);
    LostTakes(Encoder(crc), m, Me(q, atA), Me(q, !atA));
    LinkDeliverable(crc, Me(q, atA), Me(q, !atA));
    UnlinkedPrefix(Encoder(crc), s);
    Returned(Encoder(crc), Me(q, atA), Me(q, !atA), s.hist.starts[m]);
    assert Me(q, atA).hist.frames[..s.hist.starts[m]] == s.hist.frames[..s.hist.starts[m]];
  }

  lemma Returned(enc: Enc, s: Endpoint, r: Endpoint, n: nat)
    requires Inv(enc, s, r) && r.taken <= n <= |s.hist.frames|
    ensures r.returned <= Payload(s.hist.frames[..n])
  {
    hide LogInv, ReaderInv, ReapedUpTo, Payload, Numbered, Chunked, MaxAck, HasFin;
    PayloadSplit(s.hist.frames, r.taken, n);
  }
}
