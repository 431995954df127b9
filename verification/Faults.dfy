/** Failure and closing: what sets them off, what they stop, and that they last. */
module Faults {
  import opened Options
  import opened Bytes
  import opened Frames
  import opened SegLog
  import opened Endpoints
  import opened Pipes

  // ---------- failing ----------

  /** The carry-over holds an ERROR frame the peer sent. */
  ghost predicate BringsError(crc: Crc, buf: seq<byte>) {
    exists f :: Fits(f) && Encode(crc, f) <= buf && f.typ == ERROR
  }

  /**
   * Whatever bytes the directory holds, the receive loop fails exactly on carry-over that cannot be a frame,
   * on a ROLL that names no segment, and on an ERROR frame.
   */
  lemma DecodeFailsIff(crc: Crc, e: Endpoint, e': Endpoint)
    requires DoRecvDecode(crc, e) == Some(e')
    ensures e'.conn.recvErr
            <==> e.conn.recvErr || Unusable(crc, e.reader.buf) || BringsError(crc, e.reader.buf)
  {
    hide TryDecode, Unusable, Fits, Encode;
    var out := TryDecode(crc, e.reader).1;
    forall f
      ensures out == Broken <==> Unusable(crc, e.reader.buf)
      ensures out == Got(f) <==> Fits(f) && Encode(crc, f) <= e.reader.buf && f.typ != ROLL
    {
      TryDecodeIff(crc, e.reader, f);
    }
    TryDecodeIff(crc, e.reader, RollFrame(0));
  }

  /** An end fails only there or when the pipe has been idle too long, and never recovers. */
  lemma FailsIff(crc: Crc, e: Endpoint, peer: Endpoint, act: Action, e': Endpoint)
    requires Act(crc, e, peer, act) == Some(e')
    ensures e'.conn.recvErr
            <==> || e.conn.recvErr || act == IdleFail
                 || (act == RecvDecode && (Unusable(crc, e.reader.buf) || BringsError(crc, e.reader.buf)))
  {
    hide Act, DoRecvDecode, Unusable, BringsError;
    if act == RecvDecode {
      assert DoRecvDecode(crc, e) == Some(e') by { IsDecode(crc, e, peer); }
      DecodeFailsIff(crc, e, e');
    } else {
      OthersFail(crc, e, peer, act, e');
    }
  }

  lemma IsDecode(crc: Crc, e: Endpoint, peer: Endpoint)
    ensures Act(crc, e, peer, RecvDecode) == DoRecvDecode(crc, e)
  {
    hide DoRecvDecode;
  }

  lemma OthersFail(crc: Crc, e: Endpoint, peer: Endpoint, act: Action, e': Endpoint)
    requires Act(crc, e, peer, act) == Some(e') && act != RecvDecode
    ensures e'.conn.recvErr <==> e.conn.recvErr || act == IdleFail
  {
    if act.WriteChunk? || act.AckEmit? || act.Beat? || act.CloseFin? {
      EmittersFail(crc, e, peer, act, e');
    } else {
      hide DoRecvDecode, DoWriteChunk, DoAckEmit, DoBeat, DoCloseFin, TryDecode, Reap, Encoder;
    }
  }

  lemma EmittersFail(crc: Crc, e: Endpoint, peer: Endpoint, act: Action, e': Endpoint)
    requires Act(crc, e, peer, act) == Some(e') && (act.WriteChunk? || act.AckEmit? || act.Beat? || act.CloseFin?)
    ensures e'.conn.recvErr <==> e.conn.recvErr
  {
    hide DoRecvDecode, DoRecvOpen, DoRecvFill, DoRecvLose, DoRecvReap, DoReadSome, Append, Record, Encoder;
  }

  /** Once failed, an end stays failed, whatever either end does next. */
  lemma {:induction false} FailureStays(crc: Crc, p: Pipe, evs: seq<Event>, q: Pipe, atA: bool)
    requires Run(crc, p, evs) == Some(q) && Me(p, atA).conn.recvErr
    ensures Me(q, atA).conn.recvErr
    decreases |evs|
  {
    hide Step;
    if evs != [] {
      var p' := Step(crc, p, evs[0]).value;
      StepFailed(crc, p, evs[0], p', atA);
      FailureStays(crc, p', evs[1..], q, atA);
    }
  }

  lemma StepFailed(crc: Crc, p: Pipe, ev: Event, p': Pipe, atA: bool)
    requires Step(crc, p, ev) == Some(p') && Me(p, atA).conn.recvErr
    ensures Me(p', atA).conn.recvErr
    ensures Me(p, atA).room == 0 ==> Me(p', atA).room == 0 && Me(p', atA).written == Me(p, atA).written
  {
    hide Act, Unusable, BringsError;
    if ev.atA == atA {
      FailsIff(crc, Me(p, atA), Me(p, !atA), ev.act, Me(p', atA));
      FailedWrites(crc, Me(p, atA), Me(p, !atA), ev.act, Me(p', atA));
    }
  }

  lemma FailedWrites(crc: Crc, e: Endpoint, peer: Endpoint, act: Action, e': Endpoint)
    requires Act(crc, e, peer, act) == Some(e') && e.conn.recvErr
    ensures e.room == 0 ==> e'.room == 0 && e'.written == e.written
  {
    hide TryDecode, Append, Record, Reap, Encoder;
  }

  /** A failed end accepts no more data: nothing is added to what was written, on any run. */
  lemma {:induction false} FailedWritesNothing(crc: Crc, p: Pipe, evs: seq<Event>, q: Pipe, atA: bool)
    requires Run(crc, p, evs) == Some(q) && Me(p, atA).conn.recvErr && Me(p, atA).room == 0
    ensures Me(q, atA).written == Me(p, atA).written
    decreases |evs|
  {
    hide Step;
    if evs != [] {
      var p' := Step(crc, p, evs[0]).value;
      StepFailed(crc, p, evs[0], p', atA);
      FailedWritesNothing(crc, p', evs[1..], q, atA);
    }
  }

  // ---------- closing ----------

  /** The send side is closed only after a FIN has been appended. */
  ghost predicate Sealed(e: Endpoint) {
    e.conn.sendClosed ==> e.finSent
  }

  lemma ActSeals(crc: Crc, e: Endpoint, peer: Endpoint, act: Action, e': Endpoint)
    requires Act(crc, e, peer, act) == Some(e') && Sealed(e)
    ensures Sealed(e')
    ensures e.conn.sendClosed ==> e'.conn.sendClosed && e'.hist == e.hist && e'.written == e.written
  {
    hide TryDecode, Append, Record, Reap, Encoder;
  }

  /** The send side closes exactly when Close, having sent its FIN, closes it, and never opens again. */
  lemma ClosesIff(crc: Crc, e: Endpoint, peer: Endpoint, act: Action, e': Endpoint)
    requires Act(crc, e, peer, act) == Some(e')
    ensures e'.conn.sendClosed <==> e.conn.sendClosed || act == CloseSend
    ensures act == CloseSend ==> e.finSent
  {
    if act.WriteChunk? || act.AckEmit? || act.Beat? || act.CloseFin? {
      EmittersClose(crc, e, peer, act, e');
    } else {
      hide DoWriteChunk, DoAckEmit, DoBeat, DoCloseFin, TryDecode, Reap, Encoder, GetUint;
    }
  }

  lemma EmittersClose(crc: Crc, e: Endpoint, peer: Endpoint, act: Action, e': Endpoint)
    requires Act(crc, e, peer, act) == Some(e') && (act.WriteChunk? || act.AckEmit? || act.Beat? || act.CloseFin?)
    ensures e'.conn.sendClosed == e.conn.sendClosed
  {
    hide DoRecvDecode, DoRecvOpen, DoRecvFill, DoRecvLose, DoRecvReap, DoReadSome, Append, Record, Encoder;
  }

  lemma StepSeals(crc: Crc, p: Pipe, ev: Event, p': Pipe, atA: bool)
    requires Step(crc, p, ev) == Some(p') && Sealed(Me(p, atA))
    ensures Sealed(Me(p', atA))
    ensures var e, e' := Me(p, atA), Me(p', atA);
            e.conn.sendClosed ==> e'.conn.sendClosed && e'.hist == e.hist && e'.written == e.written
  {
    hide Act, Sealed;
    if ev.atA == atA {
      ActSeals(crc, Me(p, atA), Me(p, !atA), ev.act, Me(p', atA));
    }
  }

  lemma {:induction false} RunSeals(crc: Crc, p: Pipe, evs: seq<Event>, q: Pipe, atA: bool)
    requires Run(crc, p, evs) == Some(q) && Sealed(Me(p, atA))
    ensures Sealed(Me(q, atA))
    ensures var e, e' := Me(p, atA), Me(q, atA);
            e.conn.sendClosed ==> e'.conn.sendClosed && e'.hist == e.hist && e'.written == e.written
    decreases |evs|
  {
    hide Step, Sealed;
    if evs != [] {
      var p' := Step(crc, p, evs[0]).value;
      StepSeals(crc, p, evs[0], p', atA);
      RunSeals(crc, p', evs[1..], q, atA);
    }
  }

  /** In every run, an end that has closed its send side appends no frame of any type after that. */
  lemma ClosedAppendsNothing(crc: Crc, pa: Params, pb: Params, evs: seq<Event>, p: Pipe, more: seq<Event>, q: Pipe,
                             atA: bool)
    requires ParamsOk(pa) && ParamsOk(pb) && Run(crc, Start(crc, pa, pb), evs) == Some(p)
    requires Run(crc, p, more) == Some(q) && Me(p, atA).conn.sendClosed
    ensures Me(q, atA).hist.frames == Me(p, atA).hist.frames && Me(q, atA).written == Me(p, atA).written
  {
    hide Run;
    RunSeals(crc, Start(crc, pa, pb), evs, p, atA);
    RunSeals(crc, p, more, q, atA);
  }
}
