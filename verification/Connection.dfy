/** The connection as the object the source updates in place; each method is one goroutine's call run alone. */
module Connection {
  import opened Options
  import opened Bytes
  import opened Frames
  import opened SegLog
  import opened Endpoints
  import opened PipeInv
  import opened SegFiles
  import Pipes

  /** What ends a wait for room: an ACK for some further bytes, a failure of the pipe, or a local Close. */
  datatype Wake = Acked(more: nat) | Fails | Closes

  datatype ReadResult = Data(bytes: seq<byte>) | Failed | EOF | WouldBlock

  class FsConn {
    const params: Params
    const w: SegWriter
    const r: SegReader
    var sendSeq: nat
    var sentData: nat
    var peerAck: nat
    var lastAckSent: nat
    var sendClosed: bool
    var recvBuf: seq<byte>
    var recvData: nat
    var recvEOF: bool
    var recvErr: bool
    ghost var hist: Hist
    ghost var written: seq<byte>
    ghost var returned: seq<byte>

    ghost function State(): Conn
      reads this, w, w.dir
    {
      Conn(params, w.Contents(), sendSeq, sentData, peerAck, lastAckSent, sendClosed,
           recvBuf, recvData, recvEOF, recvErr)
    }

    ghost function Me(): Endpoint
      reads this, w, w.dir
    {
      Endpoint(State(), NEW_READER, 0, Idle, Idle, None, false, hist, written, returned, 0, 0)
    }

    ghost function Enc(): Enc {
      Encoder(w.crc)
    }

    ghost predicate Valid()
      reads this, w, w.dir
    {
      && w.Valid() && (w.closed ==> sendClosed)
      && Sender(Enc(), Me())
      && peerAck <= sentData <= peerAck + params.window
      && lastAckSent <= recvData == |returned| < U64
    }

    constructor (crc: Crc, dir: Directory, p: Params)
      requires ParamsOk(p) && dir.segs == [] && dir.unlinked == {}
      modifies dir
      ensures Valid() && fresh(w) && w.dir == dir && w.crc == crc
      ensures fresh(r) && r.crc == crc && r.netFS == p.netFS && r.State() == NEW_READER
      ensures Me() == Opening(Enc(), p)
    {
      hide Sender, SegLog.Append, EncodeSyn;
      params := p;
      w := new SegWriter(crc, dir, p.segmentSize);
      r := new SegReader(crc, p.netFS);
      sendSeq, sentData, peerAck, lastAckSent, sendClosed := 1, 0, 0, 0, false;
      recvBuf, recvData, recvEOF, recvErr := [], 0, false, false;
      written, returned := [], [];
      new;
      var syn := Frame(SYN, 0, 0, 0, EncodeSyn(SynParams(1, p.segmentSize, p.window, p.maxFrame)));
      var ok := w.Append(syn, 0);
      hist := Hist([syn], [0], []);
      OpeningSends(crc, p);
    }

    /** Assigns a sequence number and appends one frame; refused once the send side is closed. */
    method Emit(typ: byte, payload: seq<byte>) returns (ok: bool)
      requires Valid() && Writable(Me(), typ, payload)
      requires typ != ROLL && PayloadOk(typ, |payload|, params.maxFrame) && (typ == ACK ==> |payload| == 8)
      requires typ == DATA ==> sentData + |payload| <= peerAck + params.window
      modifies this`sendSeq, this`sentData, this`hist, this`written, w`cur, w`size, w`reapOff, w.dir`segs
      ensures Valid()
      ensures ok == (!Refused(old(State()), typ) && !w.closed)
      ensures Me() == if ok then Emitted(Enc(), old(Me()), typ, payload) else old(Me())
    {
      hide Sender, SegLog.Append, Record, PayloadOk, Encode;
      if (sendClosed && typ != FIN && typ != ERROR) || w.closed {
        return false;
      }
      ghost var before := Me();
      EncoderPositive(w.crc);
      EmitSender(Enc(), before, typ, payload);
      var f := Frame(typ, 0, sendSeq, sentData, payload);
      hist := Record(Enc(), w.Contents(), hist, f);
      sendSeq := sendSeq + 1;
      var dataEnd := sentData;
      if typ == DATA {
        sentData := sentData + |payload|;
        dataEnd := sentData;
        written := written + payload;
      }
      ok := w.Append(f, dataEnd);
      assert before.written + [] == before.written;
      assert Me() == Emitted(Enc(), before, typ, payload);
    }

    /** Hands one received frame to the connection; an ACK also reaps what it covers. */
    method Dispatch(f: Frame)
      requires Valid()
      modifies this`recvBuf, this`peerAck, this`recvEOF, this`recvErr, w`reapOff, w.dir`unlinked
      ensures hist == old(hist)
      ensures (f.typ == ACK && |f.payload| == 8 ==> GetUint(f.payload) <= sentData) <==> Valid()
      ensures recvBuf == old(recvBuf) + DataBytes(f)
      ensures recvEOF == (old(recvEOF) || f.typ == FIN) && recvErr == (old(recvErr) || f.typ == ERROR)
      ensures old(peerAck) <= peerAck && (f.typ != ACK || |f.payload| != 8 ==> peerAck == old(peerAck))
      ensures f.typ == ACK && |f.payload| == 8 ==>
                GetUint(f.payload) <= peerAck && (peerAck == old(peerAck) || peerAck == GetUint(f.payload))
      ensures var c := Endpoints.Dispatch(old(State()), f);
              State() == if f.typ == ACK && |f.payload| == 8 then c.(log := SegLog.Reap(c.log, c.peerAck)) else c
    {
      hide LogInv, Numbered, Chunked, Payload, SegLog.Reap, GetUint;
      if f.typ == DATA {
        recvBuf := recvBuf + f.payload;
      } else if f.typ == ACK {
        if |f.payload| == 8 {
          var v := GetUint(f.payload);
          if v > peerAck {
            peerAck := v;
          }
          ReapKeeps(Enc(), w.Contents(), hist, peerAck);
          w.Reap(peerAck);
        }
      } else if f.typ == FIN {
        recvEOF := true;
      } else if f.typ == ERROR {
        recvErr := true;
      }
    }

    /** Sends an acknowledgement and, when it was accepted, records it. */
    method SendAck(upTo: nat)
      requires Valid() && upTo <= recvData && Writable(Me(), ACK, PutUint(8, upTo))
      modifies this`sendSeq, this`hist, this`lastAckSent, this`sentData, this`written
      modifies w`cur, w`size, w`reapOff, w.dir`segs
      ensures Valid()
      ensures State() == if Refused(old(State()), ACK) then old(State())
                         else RecordAck(Endpoints.Emit(Enc(), old(State()), ACK, PutUint(8, upTo)), upTo)
    {
      hide SegLog.Append, Record, LogInv, Payload, Numbered, Chunked;
      var ok := Emit(ACK, PutUint(8, upTo));
      if ok && upTo > lastAckSent {
        lastAckSent := upTo;
      }
    }

    /** What has been returned is acknowledged, if the send side is open, once it is a quarter of the window on. */
    ghost predicate Acknowledged(before: nat)
      reads this
    {
      lastAckSent == if !sendClosed && recvData - before >= params.window / 4 then recvData else before
    }

    /** Acknowledges once a quarter of the window has been consumed since the last acknowledgement. */
    method MaybeAck()
      requires Valid() && Writable(Me(), ACK, PutUint(8, recvData))
      modifies this`sendSeq, this`hist, this`lastAckSent, this`sentData, this`written
      modifies w`cur, w`size, w`reapOff, w.dir`segs
      ensures Valid()
      ensures State() == AfterMaybeAck(Enc(), old(State()))
      ensures Acknowledged(old(lastAckSent))
    {
      hide SegLog.Append, LogInv, Payload, Numbered, Chunked;
      var rd := recvData;
      var due := (rd - lastAckSent) % U64 >= params.window / 4;
      if due {
        SendAck(rd);
      }
    }

    /** Returns buffered bytes first, then a failure, then end-of-file; asks to wait when there is none of these. */
    method Read(n: nat) returns (res: ReadResult)
      requires Valid() && recvData + |recvBuf| < U64
      requires Writable(Me(), ACK, PutUint(8, 0))
      modifies this`recvBuf, this`recvData, this`returned
      modifies this`sendSeq, this`hist, this`lastAckSent, this`sentData, this`written
      modifies w`cur, w`size, w`reapOff, w.dir`segs
      ensures Valid()
      ensures res.Data? <==> old(recvBuf) != []
      ensures res.Data? ==>
                var k := if n < |old(recvBuf)| then n else |old(recvBuf)|;
                && res.bytes == old(recvBuf)[..k] && returned == old(returned) + res.bytes
                && State() == AfterMaybeAck(Enc(), TakeBytes(old(State()), k)) && Acknowledged(old(lastAckSent))
      ensures !res.Data? ==> State() == old(State()) && returned == old(returned)
      ensures !res.Data? ==> res == if recvErr then Failed else if recvEOF then EOF else WouldBlock
    {
      hide SegLog.Append, LogInv, Payload, Numbered, Chunked, AfterMaybeAck;
      if |recvBuf| > 0 {
        var k := if n < |recvBuf| then n else |recvBuf|;
        res := Data(recvBuf[..k]);
        returned := returned + recvBuf[..k];
        recvBuf := recvBuf[k..];
        recvData := recvData + k;
        MaybeAck();
      } else if recvErr {
        res := Failed;
      } else if recvEOF {
        res := EOF;
      } else {
        res := WouldBlock;
      }
    }

    /** The window check of waitSendWindow, once. */
    method SendWindow() returns (room: int, ok: bool)
      requires Valid()
      ensures ok == (!recvErr && !sendClosed)
      ensures room == params.window - (sentData - peerAck) == Room(State())
    {
      hide LogInv, Payload, Numbered, Chunked;
      var outstanding := (sentData - peerAck) % U64;
      room := params.window - if outstanding < I64 then outstanding else outstanding - U64;
      ok := !recvErr && !sendClosed;
    }

    /**
     * Splits `p` into DATA frames no longer than the room granted or the frame limit. `wakes` is what ends
     * each wait of the call; when none is left the wait times out. `late` is after how many bytes another
     * goroutine closes the connection between the window check and the emit. A call whose bytes fit the open
     * window of a healthy connection sends them all in as few frames as the frame limit allows.
     */
    method Write(p: seq<byte>, wakes: seq<Wake>, late: set<nat>) returns (total: nat, ok: bool)
      requires Valid()
      requires sendSeq + |p| + 2 < U64 && sentData + |p| < U64 && w.cur + |p| + 2 < U32
      modifies this`sendSeq, this`sentData, this`hist, this`written, w`cur, w`size, w`reapOff, w.dir`segs
      modifies this`recvBuf, this`peerAck, this`recvEOF, this`recvErr, w.dir`unlinked, this`sendClosed, w`closed, r
      ensures Valid()
      ensures total <= |p| && (ok ==> total == |p|)
      ensures written == old(written) + p[..total] && sentData == old(sentData) + total
      ensures recvBuf == old(recvBuf) && recvEOF == old(recvEOF) && old(peerAck) <= peerAck
      ensures !ok ==> recvErr || sendClosed || peerAck + params.window == sentData
      ensures !old(recvErr) && !old(sendClosed) && late == {} && old(sentData) + |p| <= old(peerAck) + params.window ==>
                ok && Frugal(sendSeq - old(sendSeq), params.maxFrame, |p|)
    {
      hide SegLog.Append, Sender, SegLog.Reap, Room, Frugal, Smooth, FsConn.Valid;
      total := 0;
      var i := 0;
      ghost var easy := && !recvErr && !sendClosed && late == {} && sentData + |p| <= peerAck + params.window;
      SmoothAtFirst(peerAck + params.window - sentData, params.maxFrame, |p|);
      while total < |p|
        invariant Valid() && total <= |p| && i <= |wakes|
        invariant written == old(written) + p[..total] && sentData == old(sentData) + total
        invariant sendClosed || (sendSeq + |p| - total + 2 < U64 && w.cur + |p| - total + 2 < U32)
        invariant recvBuf == old(recvBuf) && recvEOF == old(recvEOF) && old(peerAck) <= peerAck
        invariant easy ==> !recvErr && !sendClosed
        invariant easy ==>
                    Smooth(peerAck + params.window - sentData, sendSeq - old(sendSeq), params.maxFrame, total, |p|)
        decreases |p| - total, |wakes| - i
      {
        ghost var room, k := peerAck + params.window - sentData, sendSeq - old(sendSeq);
        if easy {
          SmoothFacts(room, k, params.maxFrame, total, |p|);
        }
        var n, over := WriteOnce(p[total..], if i < |wakes| then Some(wakes[i]) else None, total in late);
        if over {
          return total, false;
        }
        if n == 0 {
          i := i + 1;
        }
        Appended(old(written), p, total, n);
        if easy {
          SmoothNext(room, k, params.maxFrame, total, n, |p|);
        }
        total := total + n;
      }
      if easy {
        SmoothFacts(peerAck + params.window - sentData, sendSeq - old(sendSeq), params.maxFrame, total, |p|);
      }
      ok := true;
    }

    /** One pass of Write: the window check, and then a wait for room or a frame. */
    method WriteOnce(rest: seq<byte>, wake: Option<Wake>, closes: bool) returns (n: nat, over: bool)
      requires Valid() && rest != []
      requires !sendClosed ==> sendSeq + 2 < U64 && sentData + |rest| < U64 && w.cur + 2 < U32
      modifies this`sendSeq, this`sentData, this`hist, this`written, w`cur, w`size, w`reapOff, w.dir`segs
      modifies this`recvBuf, this`peerAck, this`recvEOF, this`recvErr, w.dir`unlinked, this`sendClosed, w`closed, r
      ensures Valid() && n <= |rest|
      ensures written == old(written) + rest[..n] && sentData == old(sentData) + n
      ensures sendClosed || (!old(sendClosed) && sendSeq <= old(sendSeq) + n && w.cur <= old(w.cur) + n)
      ensures recvBuf == old(recvBuf) && recvEOF == old(recvEOF) && old(peerAck) <= peerAck
      ensures over ==> n == 0 && (recvErr || sendClosed || peerAck + params.window == sentData)
      ensures !over ==> n > 0 || wake.Some?
      ensures n > 0 ==> n == |rest| || n == params.maxFrame || peerAck + params.window == sentData
      ensures n > 0 ==> sendSeq == old(sendSeq) + 1
      ensures n == 0 && !sendClosed ==> sendSeq == old(sendSeq)
      ensures !old(recvErr) && !old(sendClosed) && !closes && old(sentData) < old(peerAck) + params.window ==>
                n > 0 && !recvErr && !sendClosed && peerAck == old(peerAck)
    {
      hide SegLog.Append, Sender, SegLog.Reap, Room;
      assert rest[..0] == [];
      var room, healthy := SendWindow();
      if !healthy || (room <= 0 && wake.None?) {
        return 0, true;
      }
      if room <= 0 {
        Awake(wake.value);
        return 0, false;
      }
      if closes {
        Awake(Closes);
      }
      n := WriteFrame(rest, room);
      over := n == 0;
    }

    /** What another goroutine does to end a wait for room. */
    method Awake(wake: Wake)
      requires Valid() && !sendClosed && Writable(Me(), FIN, [])
      modifies this`sendSeq, this`sentData, this`hist, this`written, w`cur, w`size, w`reapOff, w.dir`segs
      modifies this`recvBuf, this`peerAck, this`recvEOF, this`recvErr, w.dir`unlinked, this`sendClosed, w`closed, r
      ensures Valid() && written == old(written) && sentData == old(sentData)
      ensures recvBuf == old(recvBuf) && recvEOF == old(recvEOF) && old(peerAck) <= peerAck
      ensures sendClosed || (sendSeq == old(sendSeq) && w.cur == old(w.cur))
      ensures match wake
              case Acked(more) => !sendClosed && recvErr == old(recvErr)
              case Fails => recvErr
              case Closes => sendClosed
    {
      hide LogInv, Payload, Numbered, Chunked, SegLog.Append, SegLog.Reap;
      match wake
      case Acked(more) => AckSome(more);
      case Fails => recvErr := true;
      case Closes =>
        ghost var before := Me();
        assert before.written + [] == before.written;
        Close();
    }

    /** One DATA frame: as much of `rest` as the room and the frame limit allow; nothing after a close. */
    method WriteFrame(rest: seq<byte>, room: nat) returns (n: nat)
      requires Valid() && rest != [] && 0 < room && sentData + room <= peerAck + params.window
      requires !sendClosed ==> sendSeq + 1 < U64 && sentData + |rest| < U64 && w.cur + 1 < U32
      modifies this`sendSeq, this`sentData, this`hist, this`written, w`cur, w`size, w`reapOff, w.dir`segs
      ensures Valid() && n <= |rest| && (n == 0 <==> sendClosed)
      ensures written == old(written) + rest[..n] && sentData == old(sentData) + n
      ensures sendSeq <= old(sendSeq) + n && w.cur <= old(w.cur) + n
      ensures n > 0 ==> n <= room && n <= params.maxFrame && (n == |rest| || n == room || n == params.maxFrame)
      ensures n > 0 ==> sendSeq == old(sendSeq) + 1
      ensures n > 0 ==> hist.frames == old(hist.frames) + [Frame(DATA, 0, old(sendSeq), old(sentData), rest[..n])]
    {
      hide LogInv, Payload, Numbered, Chunked;
      if sendClosed {
        assert rest[..0] == [];
        return 0;
      }
      n := |rest|;
      if n > room {
        n := room;
      }
      if n > params.maxFrame {
        n := params.maxFrame;
      }
      var ok := Emit(DATA, rest[..n]);
    }

    /** The receive loop takes an ACK for `more` further bytes, or for all that is outstanding. */
    method AckSome(more: nat)
      requires Valid()
      modifies this`recvBuf, this`peerAck, this`recvEOF, this`recvErr, w`reapOff, w.dir`unlinked
      ensures Valid() && hist == old(hist)
      ensures recvBuf == old(recvBuf) && recvEOF == old(recvEOF) && recvErr == old(recvErr)
      ensures peerAck == old(peerAck) + (if more < sentData - old(peerAck) then more else sentData - old(peerAck))
    {
      hide LogInv, Payload, Numbered, Chunked;
      var v := peerAck + if more < sentData - peerAck then more else sentData - peerAck;
      Pow256Values();
      GetPut(8, v);
      Dispatch(Frame(ACK, 0, 0, 0, PutUint(8, v)));
    }

    /** One maintenance tick: fail an idle pipe, or catch up the acknowledgement and send a heartbeat. */
    method Tick(idle: bool, stamp: nat)
      requires Valid() && sendSeq + 2 < U64 && w.cur + 2 < U32
      modifies this`recvErr, this`sendSeq, this`hist, this`lastAckSent, this`sentData, this`written
      modifies w`cur, w`size, w`reapOff, w.dir`segs
      ensures Valid()
      ensures idle ==> State() == old(State()).(recvErr := true)
      ensures !idle && !sendClosed ==> lastAckSent == recvData && sentData == old(sentData)
      ensures !idle && !sendClosed ==>
                State() == Endpoints.Emit(Enc(),
                             if recvData > old(lastAckSent)
                             then RecordAck(Endpoints.Emit(Enc(), old(State()), ACK, PutUint(8, recvData)), recvData)
                             else old(State()),
                             HEARTBEAT, PutUint(8, stamp))
      ensures !idle && sendClosed ==> State() == old(State())
    {
      hide SegLog.Append, LogInv, Payload, Numbered, Chunked, Record;
      if idle {
        recvErr := true;
        return;
      }
      WindowFacts(Enc(), Me());
      if recvData > lastAckSent {
        SendAck(recvData);
      }
      AppendCur(Enc(), old(State()), ACK, PutUint(8, recvData));
      var ok := Emit(HEARTBEAT, PutUint(8, stamp));
    }

    /** Once: emits FIN, closes the send side, then the writer and the reader; every later emit is refused. */
    method Close()
      requires Valid() && Writable(Me(), FIN, [])
      modifies this`sendClosed, this`sendSeq, this`sentData, this`hist, this`written
      modifies w`cur, w`size, w`reapOff, w`closed, w.dir`segs, r
      ensures Valid() && sendClosed && w.closed && (!old(w.closed) ==> !r.isOpen)
      ensures Me() == if old(w.closed) then old(Me())
                      else var e := Emitted(Enc(), old(Me()), FIN, []); e.(conn := e.conn.(sendClosed := true))
    {
      hide SegLog.Append, LogInv, Payload, Numbered, Chunked;
      if !w.closed {
        var ok := Emit(FIN, []);
        sendClosed := true;
        w.Close();
        r.Close();
      }
    }
  }

  function AfterMaybeAck(enc: Enc, c: Conn): Conn
    requires c.log.cur + 1 == |c.log.segs|
  {
    if AckIsDue(c, c.recvData) && !Refused(c, ACK)
    then RecordAck(Emit(enc, c, ACK, PutUint(8, c.recvData)), c.recvData) else c
  }

  lemma Appended(before: seq<byte>, p: seq<byte>, i: nat, n: nat)
    requires i + n <= |p|
    ensures before + p[..i] + p[i..][..n] == before + p[..i + n]
  {
    assert p[..i] + p[i..][..n] == p[..i + n];
    assert before + p[..i] + p[i..][..n] == before + (p[..i] + p[i..][..n]);
  }

  /** No more frames than n bytes demand at up to m bytes each. */
  ghost predicate Frugal(frames: int, m: nat, n: nat) {
    frames == 0 || (frames - 1) * m < n
  }

  /** k frames of m bytes took the first `total` of `all` bytes, or a last one the rest; and what is left fits. */
  ghost predicate Smooth(room: int, k: int, m: nat, total: nat, all: nat) {
    all - total <= room && Frugal(k, m, total) && (total < all ==> total == k * m)
  }

  lemma SmoothAtFirst(room: int, m: nat, all: nat)
    ensures all <= room ==> Smooth(room, 0, m, 0, all)
  {
  }

  lemma SmoothFacts(room: int, k: int, m: nat, total: nat, all: nat)
    requires Smooth(room, k, m, total, all)
    ensures Frugal(k, m, total) && all - total <= room
  {
    hide Frugal;
  }

  lemma SmoothNext(room: int, k: int, m: nat, total: nat, n: nat, all: nat)
    requires Smooth(room, k, m, total, all) && 0 < n && total + n <= all
    requires total + n == all || n == m || n == room
    ensures Smooth(room - n, k + 1, m, total + n, all)
  {
    assert (k + 1) * m == k * m + m;
  }

  lemma OpeningSends(crc: Crc, p: Params)
    requires ParamsOk(p)
    ensures Sender(Encoder(crc), Opening(Encoder(crc), p))
  {
    hide Sender, Acker, Windowed, ReapedUpTo, Opening;
    Pipes.OpeningGood(crc, p);
  }

  lemma EncoderPositive(crc: Crc)
    ensures forall g :: |Encoder(crc)(g)| > 0
  {
  }

  lemma WindowFacts(enc: Enc, e: Endpoint)
    requires Sender(enc, e)
    ensures ParamsOk(e.conn.params) && e.conn.sendSeq < U64 && e.conn.sentData < U64
  {
  }

  lemma AppendCur(enc: Enc, c: Conn, typ: byte, payload: seq<byte>)
    requires c.log.cur + 1 == |c.log.segs|
    ensures Emit(enc, c, typ, payload).log.cur <= c.log.cur + 1
  {
  }
}
