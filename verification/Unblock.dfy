/** Exactly when a blocked sender can be unblocked. */
module Unblock {
  import opened Options
  import opened Bytes
  import opened Frames
  import opened SegLog
  import opened Endpoints
  import opened PipeInv
  import opened Pipes
  import opened Drain
  import opened Reach
  import opened Progress
  import opened Wedge

  // ---------- a knot that is there after a step was there before ----------

  lemma FrameIsLong(crc: Crc, h: Hist, i: nat, k: nat)
    requires i < |h.starts| && h.starts[i] <= k < |h.frames|
    ensures EndOf(Encoder(crc), h, i, k) > 0
  {
    hide EndOf;
    EndOfNext(Encoder(crc), h, i, k);
  }

  lemma WasHeld(crc: Crc, s: Endpoint, x: Endpoint, stop: nat, m: nat, act: Action, x': Endpoint)
    requires Inv(Encoder(crc), x, s) && ReadsAhead(s, x, act) && Act(crc, x, s, act) == Some(x')
    requires Held(Encoder(crc), s, x', stop, m)
    ensures Held(Encoder(crc), s, x, stop, m)
  {
    hide LogInv, ReaderInv, ReapedUpTo, Payload, Numbered, Chunked, MaxAck, HasFin, TryDecode, Encoder, EndOf, Reap;
    LinkFacts(Encoder(crc), s, x);
    if act.RecvDecode? {
      TryDecodeRefines(crc, s.conn.log, s.hist, x.reader, x.taken);
    }
    if act.RecvOpen? && s.hist.starts[m - 1] <= stop {
      FrameIsLong(crc, s.hist, m - 1, stop);
    }
  }

  lemma HeldBySame(enc: Enc, s: Endpoint, s': Endpoint, x: Endpoint, stop: nat, m: nat)
    requires Held(enc, s', x, stop, m) && s'.hist == s.hist && s'.conn.log.segs == s.conn.log.segs
    ensures Held(enc, s, x, stop, m)
  {
    hide EndOf;
  }

  lemma SenderWasTied(crc: Crc, s: Endpoint, r: Endpoint, w: Knot, act: Action, s': Endpoint)
    requires Inv(Encoder(crc), s, r) && ReadsAhead(r, s, act) && Act(crc, s, r, act) == Some(s')
    requires s.reapDue.None? && s'.reapDue.None? && OnlyReceived(s, s') && TiedBy(Encoder(crc), s', r, w)
    ensures TiedBy(Encoder(crc), s, r, w)
  {
    hide LogInv, ReaderInv, ReapedUpTo, Payload, Numbered, Chunked, MaxAck, HasFin, TryDecode, Encoder, Held, Reap;
    WasHeld(crc, r, s, w.a, w.g, act, s');
    HeldBySame(Encoder(crc), s, s', r, w.j, w.f);
    HeldFrame(Encoder(crc), r, s, w.a, w.g);
    HeldFrame(Encoder(crc), s, r, w.j, w.f);
    LinkFacts(Encoder(crc), r, s);
    if act.RecvDecode? {
      TryDecodeRefines(crc, r.conn.log, r.hist, s.reader, s.taken);
    }
  }

  lemma ReceiverWasTied(crc: Crc, s: Endpoint, r: Endpoint, w: Knot, act: Action, r': Endpoint)
    requires Inv(Encoder(crc), s, r) && ReadsAhead(s, r, act) && Act(crc, r, s, act) == Some(r')
    requires OnlyReceived(r, r') && TiedBy(Encoder(crc), s, r', w)
    ensures TiedBy(Encoder(crc), s, r, w)
  {
    hide Good, Link, Held, MaxAck, DataIn, Act;
    WasHeld(crc, s, r, w.j, w.f, act, r');
    HeldBySame(Encoder(crc), r, r', s, w.a, w.g);
    HeldFrame(Encoder(crc), r, s, w.a, w.g);
    HeldFrame(Encoder(crc), s, r, w.j, w.f);
  }

  // ---------- where no step is safe there is a knot ----------

  /** The ACK a reader has just taken is in its hand. */
  lemma LastInHand(enc: Enc, s: Endpoint, x: Endpoint)
    requires Inv(enc, x, s) && x.reapDue.Some?
    ensures x.taken > 0 && InHand(enc, s, x, x.taken - 1) && s.hist.frames[x.taken - 1].typ == ACK && x.reader.isOpen
  {
    hide LogInv, ReaderInv, ReapedUpTo, Payload, Numbered, Chunked, MaxAck, HasFin, Synced;
    LinkFacts(enc, s, x);
    CarryOver(enc, s, x);
  }

  /** A reader that stands at an ACK, out of reach of segment m, is held. */
  lemma StoppedIsHeld(enc: Enc, s: Endpoint, x: Endpoint, stop: nat, l: Log)
    requires Inv(enc, x, s) && InHand(enc, s, x, stop) && s.hist.frames[stop].typ == ACK
    requires x.taken == stop || (x.taken == stop + 1 && x.reapDue.Some?)
    requires l.segs == s.conn.log.segs && 0 <= FirstLinked(l) <= s.conn.log.cur
    requires !WithinReach(x.conn.params.netFS, l, x.reader)
    ensures FirstLinked(l) > 0 && Held(enc, s, x, stop, FirstLinked(l))
  {
    hide LogInv, ReaderInv, ReapedUpTo, Payload, Numbered, Chunked, MaxAck, HasFin, EndOf;
    LinkFacts(enc, s, x);
    ReadWithin(enc, s, x);
    UnlinkedPrefix(enc, s);
  }

  /** Where `s` stands before its next ACK: not taken, or taken and not reaped with. */
  ghost predicate Stands(enc: Enc, s: Endpoint, r: Endpoint, a: nat) {
    && InHand(enc, r, s, a) && r.hist.frames[a].typ == ACK
    && (if s.reapDue.Some? then s.taken == a + 1 else s.taken == a)
  }

  lemma ReapCovers(enc: Enc, e: Endpoint, ack: nat)
    requires Good(enc, e) && e.conn.peerAck <= ack
    ensures 0 <= FirstLinked(Reap(e.conn.log, ack)) <= e.conn.log.cur == |e.hist.ends|
    ensures forall i :: 0 <= i < FirstLinked(Reap(e.conn.log, ack)) ==> e.hist.ends[i] <= ack
    ensures Reap(e.conn.log, ack).segs == e.conn.log.segs
  {
    hide Holds, FramesOk, Sized, EndsOk, Payload, Numbered, Chunked, MaxAck, Acker, Kept, Passed;
    ReapKeeps(enc, e.conn.log, e.hist, ack);
    UnlinkedPrefix(enc, e);
  }

  /** `s` stands at an ACK, `r` must reap, and neither reap is safe: the two are tied. */
  lemma MakeKnot(enc: Enc, s: Endpoint, r: Endpoint, a: nat)
    requires Inv(enc, s, r) && Stands(enc, s, r, a) && r.reapDue.Some?
    requires !WithinReach(s.conn.params.netFS, Reap(r.conn.log, r.conn.peerAck), s.reader)
    requires !WithinReach(r.conn.params.netFS, Reap(s.conn.log, s.conn.peerAck), r.reader)
    requires r.conn.recvData + |r.conn.recvBuf| <= s.conn.peerAck
    ensures Wedged(enc, s, r)
  {
    hide LogInv, ReaderInv, ReapedUpTo, Payload, Numbered, Chunked, MaxAck, HasFin, Reap, WithinReach, Held, InHand;
    var l, k := Reap(r.conn.log, r.conn.peerAck), Reap(s.conn.log, s.conn.peerAck);
    ReapCovers(enc, r, r.conn.peerAck);
    ReapCovers(enc, s, s.conn.peerAck);
    LastInHand(enc, s, r);
    StoppedIsHeld(enc, r, s, a, l);
    StoppedIsHeld(enc, s, r, r.taken - 1, k);
    Ordering(enc, s, r);
    var w := Knot(a, r.taken - 1, FirstLinked(l), FirstLinked(k));
    assert s.hist.frames[..w.j + 1] == s.hist.frames[..r.taken];
    assert TiedBy(enc, s, r, w);
  }

  // ---------- the run that unblocks ----------

  lemma RoomAbove(enc: Enc, s: Endpoint, s': Endpoint)
    requires Good(enc, s) && Good(enc, s') && s'.conn.params == s.conn.params && s'.conn.sentData == s.conn.sentData
    requires s'.conn.peerAck > s.conn.peerAck
    ensures !Blocked(s')
  {
    hide LogInv, ReapedUpTo, Payload, Numbered, Chunked, MaxAck, Acker, Room;
    NoWrap(enc, s');
  }

  /** An acknowledgement above what the sender has is in the log it can read. */
  lemma TakePendingAck(crc: Crc, p: Pipe, atA: bool) returns (q: Pipe)
    requires PipeOk(crc, p) && InReach(Me(p, !atA), Me(p, atA)) && AckPending(Me(p, atA), Me(p, !atA))
    ensures Leads(crc, p, q) && !Blocked(Me(q, atA))
  {
    hide Run, Good, Link, MaxAck, WithinReach, Blocked;
    q := DrainEnd(crc, p, atA);
    AllTaken(Encoder(crc), Me(q, !atA), Me(q, atA));
    RoomAbove(Encoder(crc), Me(p, atA), Me(q, atA));
  }

  /** The receiver has more than the sender knows of: it acknowledges it, and the sender takes that. */
  lemma AckWhatIsThere(crc: Crc, p: Pipe, atA: bool) returns (q: Pipe)
    requires PipeOk(crc, p) && InReach(Me(p, !atA), Me(p, atA)) && Healthy(Me(p, !atA)) && Spare(Me(p, !atA), 4)
    requires Me(p, !atA).conn.recvData + |Me(p, !atA).conn.recvBuf| > Me(p, atA).conn.peerAck
    ensures Leads(crc, p, q) && !Blocked(Me(q, atA))
  {
    hide Leads, Good, Link, MaxAck, WithinReach, Blocked;
    SomethingGot(Encoder(crc), Me(p, atA), Me(p, !atA));
    var p' := AckAll(crc, p, !atA);
    AckedReach(Me(p, !atA), Me(p', !atA), Me(p, atA));
    AckedAbove(Encoder(crc), Me(p', !atA));
    q := TakePendingAck(crc, p', atA);
    LeadsOn(crc, p, p', q);
  }

  lemma AckedAbove(enc: Enc, r: Endpoint)
    requires Good(enc, r)
    ensures r.conn.lastAckSent <= MaxAck(r.hist.frames)
  {
  }

  lemma SomethingGot(enc: Enc, s: Endpoint, r: Endpoint)
    requires Inv(enc, s, r) && r.conn.recvData + |r.conn.recvBuf| > 0
    ensures Established(r)
  {
    hide LogInv, ReaderInv, ReapedUpTo, Numbered, Chunked, MaxAck, HasFin;
    Ordering(enc, s, r);
    assert s.hist.frames[..0] == [];
  }

  /** Nothing is left to acknowledge: all three counts agree, and there is more to be taken. */
  lemma AllAcked(enc: Enc, s: Endpoint, r: Endpoint)
    requires Inv(enc, s, r) && Blocked(s) && !AckPending(s, r) && r.conn.recvData + |r.conn.recvBuf| <= s.conn.peerAck
    ensures MaxAck(r.hist.frames) == s.conn.peerAck && r.taken < |s.hist.frames|
  {
    hide LogInv, ReaderInv, ReapedUpTo, Payload, Numbered, Chunked, MaxAck, HasFin, Room;
    Ordering(enc, s, r);
    NoWrap(enc, s);
    assert s.hist.frames[..|s.hist.frames|] == s.hist.frames;
  }

  lemma EndStaysInReach(enc: Enc, s: Endpoint, r: Endpoint)
    requires Inv(enc, s, r) && r.taken == |s.hist.frames| && s.conn.peerAck <= MaxAck(r.hist.frames)
    ensures StaysInReach(s, r)
  {
    hide LogInv, ReaderInv, ReapedUpTo, Payload, Numbered, Chunked, MaxAck, HasFin, Reap;
    LinkFacts(enc, s, r);
    UnlinkedPrefix(enc, s);
    ReapCovers(enc, s, MaxAck(r.hist.frames));
  }

  /** The sender's next ACK, when its receive loop cannot go on without reaping. */
  lemma StandsAt(crc: Crc, s: Endpoint, r: Endpoint, act: Action, s': Endpoint) returns (a: nat)
    requires Inv(Encoder(crc), s, r) && s.reapDue.None? && Act(crc, s, r, act) == Some(s') && s'.reapDue.Some?
    ensures Stands(Encoder(crc), s, r, a)
  {
    hide LogInv, ReaderInv, ReapedUpTo, Payload, Numbered, Chunked, MaxAck, HasFin, TryDecode, Encoder, InHand;
    hide Append, Record, Room, AckIsDue, PutUint, Reap;
    assert act.RecvDecode?;
    LinkFacts(Encoder(crc), r, s);
    TryDecodeRefines(crc, r.conn.log, r.hist, s.reader, s.taken);
    DecodedInHand(crc, r, s);
    a := s.taken;
  }

  /** The receiver's next step while the sender stands at an ACK: safe, or there is a knot. */
  lemma ReceiverStep(crc: Crc, s: Endpoint, r: Endpoint, a: nat) returns (act: Action, r': Endpoint)
    requires Inv(Encoder(crc), s, r) && Stands(Encoder(crc), s, r, a) && Blocked(s)
    requires InReach(s, r) && InReach(r, s) && !StaysInReach(s, r) && !Wedged(Encoder(crc), s, r)
    requires !AckPending(s, r) && r.conn.recvData + |r.conn.recvBuf| <= s.conn.peerAck
    ensures Act(crc, r, s, act) == Some(r') && ReadsAhead(s, r, act) && OnlyReceived(r, r')
    ensures InReach(s, r') && InReach(r', s)
    ensures if act.RecvReap? then r.reapDue.Some? && r'.reapDue.None? && r'.reader == r.reader && r'.taken == r.taken
            else Closer(s.conn.log, s.hist, Place(r.reader, r.taken), Place(r'.reader, r'.taken))
    ensures !Wedged(Encoder(crc), s, r')
  {
    hide Good, Link, TiedBy, WithinReach, Closer, Stands, MaxAck, Blocked, Reap, Act;
    var enc := Encoder(crc);
    AllAcked(enc, s, r);
    if r.reapDue.Some? {
      act := RecvReap;
      r' := ReapStep(crc, r, s);
      if !InReach(r', s) {
        ReapedLog(crc, s, r, r');
        MakeKnot(enc, s, r, a);
      }
    } else {
      act, r' := RecvStep(crc, r, s);
    }
    forall w
      ensures !TiedBy(enc, s, r', w)
    {
      if TiedBy(enc, s, r', w) {
        ReceiverWasTied(crc, s, r, w, act, r');
      }
    }
  }

  /** The sender's next step: one that takes no ACK, or it stands at one. */
  lemma SenderStep(crc: Crc, s: Endpoint, r: Endpoint) returns (free: bool, act: Action, s': Endpoint, a: nat)
    requires Inv(Encoder(crc), s, r) && InReach(r, s) && Blocked(s)
    requires !StaysInReach(r, s) && !Wedged(Encoder(crc), s, r)
    ensures if !free then Stands(Encoder(crc), s, r, a) else
            && Act(crc, s, r, act) == Some(s') && OnlyReceived(s, s') && s'.conn.log == s.conn.log
            && InReach(r, s') && Blocked(s') && !Wedged(Encoder(crc), s', r)
            && Closer(r.conn.log, r.hist, Place(s.reader, s.taken), Place(s'.reader, s'.taken))
  {
    hide Good, Link, TiedBy, WithinReach, Closer, Stands, MaxAck, Blocked, Reap, Act, InHand;
    var enc := Encoder(crc);
    LinkFacts(enc, r, s);
    free, act, s', a := false, RecvReap, s, 0;
    if s.reapDue.Some? {
      LastInHand(enc, r, s);
      a := s.taken - 1;
      StandsTaken(enc, s, r);
    } else {
      NotAtEnd(enc, s, r);
      act, s' := RecvStep(crc, s, r);
      if s'.reapDue.Some? {
        a := StandsAt(crc, s, r, act, s');
      } else {
        free := true;
        NoAckTaken(crc, s, r, act, s');
        StillBlocked(s, s');
        forall w
          ensures !TiedBy(enc, s', r, w)
        {
          if TiedBy(enc, s', r, w) {
            SenderWasTied(crc, s, r, w, act, s');
          }
        }
      }
    }
  }

  lemma StandsTaken(enc: Enc, s: Endpoint, r: Endpoint)
    requires s.reapDue.Some? && s.taken > 0 && InHand(enc, r, s, s.taken - 1) && r.hist.frames[s.taken - 1].typ == ACK
    ensures Stands(enc, s, r, s.taken - 1)
  {
  }

  lemma NotAtEnd(enc: Enc, s: Endpoint, r: Endpoint)
    requires Inv(enc, s, r) && !StaysInReach(r, s)
    ensures s.taken < |r.hist.frames|
  {
    hide LogInv, ReaderInv, ReapedUpTo, Payload, Numbered, Chunked, MaxAck, HasFin, StaysInReach;
    if s.taken == |r.hist.frames| {
      MaxAckGrows(s.hist.frames, r.taken);
      EndStaysInReach(enc, r, s);
    }
  }

  lemma ReapedLog(crc: Crc, s: Endpoint, r: Endpoint, r': Endpoint)
    requires Good(Encoder(crc), r) && r.reapDue.Some? && Act(crc, r, s, RecvReap) == Some(r')
    ensures r'.conn.log == Reap(r.conn.log, r.conn.peerAck)
  {
    hide Sender, Acker, ReapedUpTo, Reap, NoErrors;
  }

  lemma StillBlocked(s: Endpoint, s': Endpoint)
    requires Blocked(s) && s'.conn.params == s.conn.params && s'.conn.sentData == s.conn.sentData
    requires s'.conn.peerAck == s.conn.peerAck
    ensures Blocked(s')
  {
  }

  /** A step of the receive loop that takes no ACK acknowledges nothing. */
  lemma NoAckTaken(crc: Crc, s: Endpoint, r: Endpoint, act: Action, s': Endpoint)
    requires ReadsAhead(r, s, act) && Act(crc, s, r, act) == Some(s') && s.reapDue.None? && s'.reapDue.None?
    requires Inv(Encoder(crc), s, r)
    ensures s'.conn.peerAck == s.conn.peerAck
  {
    hide LogInv, ReaderInv, ReapedUpTo, Payload, Numbered, Chunked, MaxAck, HasFin, TryDecode, Encoder, Reap, Fill;
    LinkFacts(Encoder(crc), r, s);
    if act.RecvDecode? {
      TryDecodeRefines(crc, r.conn.log, r.hist, s.reader, s.taken);
    }
  }

  /** What FindRun needs of a state, and keeps. */
  ghost predicate Free(crc: Crc, p: Pipe, atA: bool) {
    var s, r := Me(p, atA), Me(p, !atA);
    && PipeOk(crc, p) && Blocked(s) && Healthy(r) && Spare(r, 4)
    && InReach(s, r) && InReach(r, s) && !Wedged(Encoder(crc), s, r)
  }

  /** The sender's reader has come further, or it has not moved and the receiver's has. */
  ghost predicate Nearer(p: Pipe, p': Pipe, atA: bool) {
    var s, r, s', r' := Me(p, atA), Me(p, !atA), Me(p', atA), Me(p', !atA);
    && s'.hist == s.hist && r'.hist == r.hist && s'.conn.log.segs == s.conn.log.segs
    && r'.conn.log.segs == r.conn.log.segs && s'.conn.log.cur == s.conn.log.cur && r'.conn.log.cur == r.conn.log.cur
    && (|| Closer(r.conn.log, r.hist, Place(s.reader, s.taken), Place(s'.reader, s'.taken))
        || (s'.reader == s.reader && s'.taken == s.taken
            && (|| Closer(s.conn.log, s.hist, Place(r.reader, r.taken), Place(r'.reader, r'.taken))
                || (r'.reader == r.reader && r'.taken == r.taken && Turn(r') < Turn(r)))))
  }

  /** Room at once: an ACK to take, something to acknowledge, or a reader that no reap on the way endangers. */
  lemma RoomAtOnce(crc: Crc, p: Pipe, atA: bool) returns (done: bool, q: Pipe)
    requires Free(crc, p, atA)
    ensures done ==> Leads(crc, p, q) && !Blocked(Me(q, atA))
    ensures var s, r := Me(p, atA), Me(p, !atA);
            !done ==> && !AckPending(s, r) && r.conn.recvData + |r.conn.recvBuf| <= s.conn.peerAck
                      && !StaysInReach(s, r) && !StaysInReach(r, s)
  {
    hide Leads, Good, Link, WithinReach, StaysInReach, MaxAck, Blocked, Wedged;
    var s, r := Me(p, atA), Me(p, !atA);
    done, q := true, p;
    if AckPending(s, r) {
      q := TakePendingAck(crc, p, atA);
    } else if r.conn.recvData + |r.conn.recvBuf| > s.conn.peerAck {
      q := AckWhatIsThere(crc, p, atA);
    } else if StaysInReach(s, r) || StaysInReach(r, s) {
      q := Unblocked(crc, p, atA);
    } else {
      done := false;
    }
  }

  /** The sender reads on up to its next ACK, and then the receiver as long as its reaps leave the sender in reach. */
  lemma OneMove(crc: Crc, p: Pipe, atA: bool) returns (p': Pipe)
    requires Free(crc, p, atA)
    requires var s, r := Me(p, atA), Me(p, !atA);
             && !AckPending(s, r) && r.conn.recvData + |r.conn.recvBuf| <= s.conn.peerAck
             && !StaysInReach(s, r) && !StaysInReach(r, s)
    ensures Leads(crc, p, p') && Free(crc, p', atA) && Nearer(p, p', atA)
  {
    hide Leads, Good, Link, WithinReach, StaysInReach, MaxAck, Blocked, Wedged, Stands, Act, Closer;
    var s, r := Me(p, atA), Me(p, !atA);
    var free, act, s', a := SenderStep(crc, s, r);
    if free {
      p' := With(p, atA, s');
      LeadsBy(crc, p, atA, act, s');
    } else {
      var act, r' := ReceiverStep(crc, s, r, a);
      p' := With(p, !atA, r');
      LeadsBy(crc, p, !atA, act, r');
    }
  }

  /** Where the readers are at most. */
  lemma Bounds(crc: Crc, p: Pipe, atA: bool)
    requires PipeOk(crc, p)
    ensures Me(p, atA).reader.cur <= Me(p, !atA).conn.log.cur && Me(p, atA).taken <= |Me(p, !atA).hist.frames|
  {
    hide Good, Link;
    LinkFacts(Encoder(crc), Me(p, !atA), Me(p, atA));
  }

  /** The run that unblocks, move by move. */
  lemma {:induction false} FindRun(crc: Crc, p: Pipe, atA: bool) returns (q: Pipe)
    requires Free(crc, p, atA)
    ensures Leads(crc, p, q) && !Blocked(Me(q, atA))
    decreases Me(p, !atA).conn.log.cur - Me(p, atA).reader.cur, |Me(p, !atA).hist.frames| - Me(p, atA).taken,
              Phase(Me(p, !atA).conn.log, Me(p, atA).reader),
              Me(p, atA).conn.log.cur - Me(p, !atA).reader.cur, |Me(p, atA).hist.frames| - Me(p, !atA).taken,
              Phase(Me(p, atA).conn.log, Me(p, !atA).reader), Turn(Me(p, !atA))
  {
    hide Leads, PipeOk, Free, Blocked, AckPending, StaysInReach;
    var done;
    done, q := RoomAtOnce(crc, p, atA);
    if !done {
      var p' := OneMove(crc, p, atA);
      BoundsFree(crc, p, atA);
      BoundsFree(crc, p', atA);
      SamePhase(Me(p, !atA).conn.log, Me(p', !atA).conn.log, Me(p', atA).reader);
      SamePhase(Me(p, atA).conn.log, Me(p', atA).conn.log, Me(p', !atA).reader);
      q := FindRun(crc, p', atA);
      LeadsOn(crc, p, p', q);
    }
  }

  lemma BoundsFree(crc: Crc, p: Pipe, atA: bool)
    requires Free(crc, p, atA)
    ensures Me(p, atA).reader.cur <= Me(p, !atA).conn.log.cur && Me(p, atA).taken <= |Me(p, !atA).hist.frames|
    ensures Me(p, !atA).reader.cur <= Me(p, atA).conn.log.cur && Me(p, !atA).taken <= |Me(p, atA).hist.frames|
  {
    hide PipeOk, Wedged;
    Bounds(crc, p, atA);
    Bounds(crc, p, !atA);
  }

  lemma SamePhase(l: Log, l': Log, x: Reader)
    requires l'.segs == l.segs
    ensures Phase(l', x) == Phase(l, x)
  {
  }

  // ---------- exactly when ----------

  ghost predicate CanUnblock(crc: Crc, p: Pipe, atA: bool) {
    exists q :: Leads(crc, p, q) && !Blocked(Me(q, atA))
  }

  /**
   * The receiver is within reach of the sender's log; the sender is within reach of the receiver's, or holds
   * an acknowledgement that gives it room; and the two do not hold each other up.
   */
  ghost predicate Unblockable(enc: Enc, s: Endpoint, r: Endpoint) {
    && InReach(s, r)
    && (InReach(r, s) || AckInHand(enc, s, r, s.conn.peerAck))
    && !Wedged(enc, s, r)
  }

  lemma UnblocksInHand(crc: Crc, p: Pipe, atA: bool) returns (q: Pipe)
    requires PipeOk(crc, p) && AckInHand(Encoder(crc), Me(p, atA), Me(p, !atA), Me(p, atA).conn.peerAck)
    ensures Leads(crc, p, q) && !Blocked(Me(q, atA))
  {
    hide Leads, Good, Link, Blocked, InHand;
    var s, r, enc := Me(p, atA), Me(p, !atA), Encoder(crc);
    var i := HandOf(enc, s, r, s.conn.peerAck);
    q := TakeInHand(crc, p, atA, i, s.conn.peerAck);
    RoomAbove(enc, s, Me(q, atA));
  }

  lemma HandOf(enc: Enc, s: Endpoint, r: Endpoint, k: nat) returns (i: nat)
    requires AckInHand(enc, s, r, k)
    ensures s.taken <= i < |r.hist.frames| && InHand(enc, r, s, i) && AckAbove(r.hist.frames[i], k)
  {
    i :| s.taken <= i && InHand(enc, r, s, i) && AckAbove(r.hist.frames[i], k);
  }

  lemma NeverUnblocks(crc: Crc, p: Pipe, atA: bool, q: Pipe)
    requires PipeOk(crc, p) && Blocked(Me(p, atA)) && !Unblockable(Encoder(crc), Me(p, atA), Me(p, !atA))
    requires Leads(crc, p, q)
    ensures Blocked(Me(q, atA))
  {
    hide Run, Good, Link, Blocked, InReach, AckInHand, TiedBy, Full;
    var s, r, enc := Me(p, atA), Me(p, !atA), Encoder(crc);
    var evs :| Run(crc, p, evs) == Some(q);
    if !InReach(s, r) {
      BlockedForever(crc, p, atA, q);
    } else if Wedged(enc, s, r) {
      var w :| TiedBy(enc, s, r, w);
      WedgedForever(crc, p, atA, w, evs, q);
    } else {
      OutOfReachIsLost(crc, p, !atA);
      BlockedFull(enc, s);
      EmptyHanded(crc, p, atA, FirstLinked(r.conn.log), s.conn.peerAck, evs, q);
    }
  }

  /**
   * In every run: a blocked sender of a healthy pipe can be unblocked if and only if the two readers and the
   * two logs are as `Unblockable` says.
   */
  lemma UnblockIff(crc: Crc, pa: Params, pb: Params, before: seq<Event>, p: Pipe, atA: bool)
    requires ParamsOk(pa) && ParamsOk(pb) && Run(crc, Start(crc, pa, pb), before) == Some(p)
    requires Blocked(Me(p, atA)) && Healthy(Me(p, atA)) && Healthy(Me(p, !atA)) && Spare(Me(p, !atA), 4)
    ensures CanUnblock(crc, p, atA) <==> Unblockable(Encoder(crc), Me(p, atA), Me(p, !atA))
  {
    hide Run, Leads, Start, Good, Link, Blocked, InReach, AckInHand, Wedged;
    RunOk(crc, pa, pb, before, p);
    var s, r, enc := Me(p, atA), Me(p, !atA), Encoder(crc);
    if Unblockable(enc, s, r) {
      var q;
      if InReach(r, s) {
        assert Free(crc, p, atA);
        q := FindRun(crc, p, atA);
      } else {
        q := UnblocksInHand(crc, p, atA);
      }
    } else {
      forall q | Leads(crc, p, q)
        ensures Blocked(Me(q, atA))
      {
        NeverUnblocks(crc, p, atA, q);
      }
    }
  }
}
