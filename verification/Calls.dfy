/** What the calls of an end come to, in every run: room granted, bytes sent and returned, acknowledgements, FIN. */
module Calls {
  import opened Options
  import opened Bytes
  import opened Frames
  import opened SegLog
  import opened Endpoints
  import opened PipeInv
  import opened Pipes

  /** Write is granted all the room the window has, exactly while the end is healthy and there is any. */
  lemma GrantsIff(crc: Crc, pa: Params, pb: Params, evs: seq<Event>, p: Pipe, atA: bool)
    requires ParamsOk(pa) && ParamsOk(pb) && Run(crc, Start(crc, pa, pb), evs) == Some(p)
    ensures var e := Me(p, atA);
            var room := e.conn.params.window - (e.conn.sentData - e.conn.peerAck);
            Act(crc, e, Me(p, !atA), WriteWait) ==
            if e.taken > 0 && e.room == 0 && !e.conn.recvErr && !e.conn.sendClosed && room > 0
            then Some(e.(room := room)) else None
  {
    hide Run, Start, Sender, Link, Room;
    RunOk(crc, pa, pb, evs, p);
    NoWrap(Encoder(crc), Me(p, atA));
  }

  /** Any chunk within the room granted and the frame limit goes out whole, as the next DATA frame. */
  lemma SendsWhole(crc: Crc, pa: Params, pb: Params, evs: seq<Event>, p: Pipe, atA: bool, chunk: seq<byte>)
    requires ParamsOk(pa) && ParamsOk(pb) && Run(crc, Start(crc, pa, pb), evs) == Some(p)
    requires var e := Me(p, atA);
             && 0 < |chunk| <= e.room && |chunk| <= e.conn.params.maxFrame && !e.conn.sendClosed
             && CountersFit(e.conn, DATA, chunk)
    ensures var e, e' := Me(p, atA), Act(crc, Me(p, atA), Me(p, !atA), WriteChunk(chunk));
            && e'.Some? && e'.value.written == e.written + chunk && e'.value.room == 0
            && e'.value.hist.frames == e.hist.frames + [Frame(DATA, 0, |e.hist.frames|, |e.written|, chunk)]
  {
    hide Run, Start, Link, Numbered, Chunked, Payload, Append, Sized, EndsOk, ReapOk, FramesOk, SegBytes;
    RunOk(crc, pa, pb, evs, p);
  }

  /** Read returns any number of the buffered bytes, from the front. */
  lemma ReturnsFront(crc: Crc, p: Pipe, atA: bool, n: nat)
    requires 0 < |Me(p, atA).conn.recvBuf| && n <= |Me(p, atA).conn.recvBuf| && Me(p, atA).readAck.Idle?
    ensures var e, e' := Me(p, atA), Act(crc, Me(p, atA), Me(p, !atA), ReadSome(n));
            && e'.Some? && |e'.value.returned| == |e.returned| + n
            && e'.value.returned + e'.value.conn.recvBuf == e.returned + e.conn.recvBuf
            && e'.value.conn.recvData == e.conn.recvData + n
  {
    var e := Me(p, atA);
    assert e.conn.recvBuf == e.conn.recvBuf[..n] + e.conn.recvBuf[n..];
  }

  // ---------- acknowledging ----------

  /**
   * In every run, a Read acknowledges exactly when what it has returned is a quarter of the window or more past
   * the last acknowledgement, and the maintenance tick exactly when it has read past it.
   */
  lemma AcknowledgesIff(crc: Crc, pa: Params, pb: Params, evs: seq<Event>, p: Pipe, atA: bool, who: Who, e': Endpoint)
    requires ParamsOk(pa) && ParamsOk(pb) && Run(crc, Start(crc, pa, pb), evs) == Some(p)
    requires Act(crc, Me(p, atA), Me(p, !atA), AckCheck(who)) == Some(e')
    ensures var e, pc := Me(p, atA), Pc(e', who);
            && (pc.Due? || pc.Idle?)
            && (who == Reading ==>
                  (pc.Due? <==> |e.returned| - e.conn.lastAckSent >= e.conn.params.window / 4))
            && (who == Reading && pc.Due? ==> pc.rd == |e.returned|)
            && (who == Maintaining && e.maintAck.Captured? ==>
                  (pc.Due? <==> e.maintAck.rd > e.conn.lastAckSent) && (pc.Due? ==> pc.rd == e.maintAck.rd))
  {
    hide Run, Start, Sender, Link, Sub64;
    RunOk(crc, pa, pb, evs, p);
    NoWrap(Encoder(crc), Me(p, atA));
  }

  // ---------- the first frame and the last ----------

  /** The frames appended so far stay, and after Close there is a FIN among them. */
  ghost predicate Continues(e: Endpoint, e': Endpoint) {
    && e.hist.frames <= e'.hist.frames
    && ((e.finSent ==> HasFin(e.hist.frames)) ==> (e'.finSent ==> HasFin(e'.hist.frames)))
  }

  lemma HasFinGrows(fs: seq<Frame>, gs: seq<Frame>)
    requires fs <= gs && HasFin(fs)
    ensures HasFin(gs)
  {
    var k :| 0 <= k < |fs| && fs[k].typ == FIN;
    assert gs[k].typ == FIN;
  }

  lemma ActContinues(crc: Crc, e: Endpoint, peer: Endpoint, act: Action, e': Endpoint)
    requires Act(crc, e, peer, act) == Some(e')
    ensures Continues(e, e')
  {
    FramesContinue(crc, e, peer, act, e');
    hide Act;
    if e.finSent && HasFin(e.hist.frames) {
      HasFinGrows(e.hist.frames, e'.hist.frames);
    }
  }

  lemma FramesContinue(crc: Crc, e: Endpoint, peer: Endpoint, act: Action, e': Endpoint)
    requires Act(crc, e, peer, act) == Some(e')
    ensures e.hist.frames <= e'.hist.frames && (e'.finSent == e.finSent || HasFin(e'.hist.frames))
  {
    hide TryDecode, Append, Reap, Encoder, HasFin;
    if act == CloseFin {
      LastIsFin(e.hist.frames, NextFrameOut(e.conn, FIN, []));
    }
  }

  lemma LastIsFin(fs: seq<Frame>, f: Frame)
    requires f.typ == FIN
    ensures HasFin(fs + [f])
  {
    assert (fs + [f])[|fs|].typ == FIN;
  }

  lemma {:induction false} RunContinues(crc: Crc, p: Pipe, evs: seq<Event>, q: Pipe, atA: bool)
    requires Run(crc, p, evs) == Some(q)
    ensures Continues(Me(p, atA), Me(q, atA))
    decreases |evs|
  {
    hide Act, HasFin;
    if evs != [] {
      var p' := Step(crc, p, evs[0]).value;
      if evs[0].atA == atA {
        ActContinues(crc, Me(p, atA), Me(p, !atA), evs[0].act, Me(p', atA));
      }
      RunContinues(crc, p', evs[1..], q, atA);
    }
  }

  /** In every run the first frame of a direction is a SYN that tells the peer this end's parameters. */
  lemma SynIsFirst(crc: Crc, pa: Params, pb: Params, evs: seq<Event>, p: Pipe, atA: bool)
    requires ParamsOk(pa) && ParamsOk(pb) && Run(crc, Start(crc, pa, pb), evs) == Some(p)
    ensures var mine, fs := if atA then pa else pb, Me(p, atA).hist.frames;
            && fs != [] && fs[0].typ == SYN && fs[0].seqNo == 0
            && (mine.segmentSize < U64 ==>
                  DecodeSyn(fs[0].payload) == Syn(SynParams(1, mine.segmentSize, mine.window, mine.maxFrame)))
  {
    hide Run, EncodeSyn, DecodeSyn, Append;
    RunContinues(crc, Start(crc, pa, pb), evs, p, atA);
    var mine := if atA then pa else pb;
    var syn := SynParams(1, mine.segmentSize, mine.window, mine.maxFrame);
    SynExact(EncodeSyn(syn), syn);
  }

  /**
   * In every run, once an end has closed and the peer has taken all it appended, the peer has seen the FIN:
   * its Read returns end-of-file as soon as its buffer is empty, unless it has failed.
   */
  lemma FinIsSeen(crc: Crc, pa: Params, pb: Params, evs: seq<Event>, p: Pipe, atA: bool)
    requires ParamsOk(pa) && ParamsOk(pb) && Run(crc, Start(crc, pa, pb), evs) == Some(p)
    requires Me(p, atA).finSent && Me(p, !atA).taken == |Me(p, atA).hist.frames|
    ensures Me(p, !atA).conn.recvEOF
    ensures Me(p, !atA).conn.recvBuf == [] && !Me(p, !atA).conn.recvErr ==> ReadsEOF(Me(p, !atA))
  {
    hide Run, Good, ReaderInv, MaxAck, Payload, HasFin, Append, EncodeSyn;
    RunOk(crc, pa, pb, evs, p);
    RunContinues(crc, Start(crc, pa, pb), evs, p, atA);
    var fs := Me(p, atA).hist.frames;
    assert fs[..|fs|] == fs;
  }
}
