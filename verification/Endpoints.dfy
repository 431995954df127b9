/** One end of a pipe: the connection's fields and every atomic section of its goroutines. */
module Endpoints {
  import opened Options
  import opened Bytes
  import opened Frames
  import opened SegLog

  // ---------- parameters ----------

  /** What one end resolved its configuration to; `netFS` says its reader reopens a segment before every read. */
  datatype Params = Params(segmentSize: nat, window: nat, maxFrame: nat, netFS: bool)

  const I64 := 0x8000_0000_0000_0000

  predicate ParamsOk(p: Params) {
    0 < p.segmentSize && 0 < p.window < I64 && 0 < p.maxFrame <= MAX_PAYLOAD
  }

  /** Defaults for what is not set, the payload cap on the frame size, and the detected filesystem unless one is set. */
  function Resolve(segmentSize: int, window: int, maxFrame: int, detected: bool, networkFS: Option<bool>): (p: Params)
    requires window < I64
    ensures ParamsOk(p)
    ensures segmentSize > 0 ==> p.segmentSize == segmentSize
    ensures window > 0 ==> p.window == window
    ensures maxFrame > 0 ==> p.maxFrame == maxFrame || maxFrame > p.maxFrame == 0x10_0000
    ensures segmentSize <= 0 && window <= 0 && maxFrame <= 0 ==>
              p.segmentSize == 128 * 1024 * 1024 && p.window == 8 * 1024 * 1024 && p.maxFrame == 256 * 1024
    ensures networkFS == None || networkFS == Some(p.netFS)
    ensures networkFS == None ==> p.netFS == detected
  {
    Params(if segmentSize <= 0 then 0x800_0000 else segmentSize,
           if window <= 0 then 0x80_0000 else window,
           if maxFrame <= 0 then 0x4_0000 else if maxFrame > MAX_PAYLOAD then MAX_PAYLOAD else maxFrame,
           if networkFS.Some? then networkFS.value else detected)
  }

  // ---------- the connection's fields ----------

  datatype Conn = Conn(params: Params, log: Log,
                       sendSeq: nat, sentData: nat, peerAck: nat, lastAckSent: nat, sendClosed: bool,
                       recvBuf: seq<byte>, recvData: nat, recvEOF: bool, recvErr: bool)

  /** 64-bit unsigned subtraction, and the signed reading of its result. */
  function Sub64(x: nat, y: nat): nat {
    (x - y) % U64
  }

  function AsInt64(x: nat): int {
    if x < I64 then x else x - U64
  }

  function Room(c: Conn): int {
    c.params.window - AsInt64(Sub64(c.sentData, c.peerAck))
  }

  predicate AckIsDue(c: Conn, rd: nat) {
    Sub64(rd, c.lastAckSent) >= c.params.window / 4
  }

  predicate Refused(c: Conn, typ: byte) {
    c.sendClosed && typ != FIN && typ != ERROR
  }

  /** No counter wraps when this frame is emitted. */
  predicate CountersFit(c: Conn, typ: byte, payload: seq<byte>) {
    c.sendSeq + 1 < U64 && c.sentData + (if typ == DATA then |payload| else 0) < U64 && c.log.cur + 1 < U32
  }

  function NextFrameOut(c: Conn, typ: byte, payload: seq<byte>): Frame {
    Frame(typ, 0, c.sendSeq, c.sentData, payload)
  }

  function Emit(enc: Enc, c: Conn, typ: byte, payload: seq<byte>): Conn
    requires c.log.cur + 1 == |c.log.segs|
  {
    var dataEnd := c.sentData + if typ == DATA then |payload| else 0;
    c.(sendSeq := c.sendSeq + 1, sentData := dataEnd,
       log := Append(enc, c.log, NextFrameOut(c, typ, payload), dataEnd))
  }

  function Dispatch(c: Conn, f: Frame): Conn {
    if f.typ == DATA then c.(recvBuf := c.recvBuf + f.payload)
    else if f.typ == ACK then
      if |f.payload| == 8 && GetUint(f.payload) > c.peerAck then c.(peerAck := GetUint(f.payload)) else c
    else if f.typ == FIN then c.(recvEOF := true)
    else if f.typ == ERROR then c.(recvErr := true)
    else c
  }

  function TakeBytes(c: Conn, n: nat): Conn
    requires n <= |c.recvBuf|
  {
    c.(recvBuf := c.recvBuf[n..], recvData := c.recvData + n)
  }

  function RecordAck(c: Conn, upTo: nat): Conn {
    if upTo > c.lastAckSent then c.(lastAckSent := upTo) else c
  }

  // ---------- an endpoint: connection, reader, goroutines, and what they have done ----------

  /** Where a goroutine is between reading the consumed count and recording the ACK it sent. */
  datatype AckPc = Idle | Captured(rd: nat) | Due(rd: nat) | Sent(rd: nat)

  datatype Who = Reading | Maintaining

  /**
   * `room` is what Write was granted and has not used; `reapDue` the acknowledgement the receive loop
   * has recorded and not yet reaped with. The last five fields are history: what was appended,
   * accepted by Write and returned by Read, how many of the peer's frames were taken, and the last
   * acknowledgement reaped with.
   */
  datatype Endpoint = Endpoint(conn: Conn, reader: Reader,
                               room: nat, readAck: AckPc, maintAck: AckPc, reapDue: Option<nat>, finSent: bool,
                               hist: Hist, written: seq<byte>, returned: seq<byte>, taken: nat, reapedTo: nat)

  datatype Action =
    | WriteWait
    | WriteChunk(chunk: seq<byte>)
    | RecvOpen
    | RecvFill(size: nat)
    | RecvLose
    | RecvDecode
    | RecvReap
    | ReadSome(n: nat)
    | AckCheck(who: Who)
    | AckEmit(who: Who)
    | AckRecord(who: Who)
    | MaintStart
    | Beat(stamp: nat)
    | IdleFail
    | CloseFin
    | CloseSend

  function Pc(e: Endpoint, who: Who): AckPc {
    if who == Reading then e.readAck else e.maintAck
  }

  function SetPc(e: Endpoint, who: Who, pc: AckPc): Endpoint {
    if who == Reading then e.(readAck := pc) else e.(maintAck := pc)
  }

  predicate Writable(e: Endpoint, typ: byte, payload: seq<byte>) {
    CountersFit(e.conn, typ, payload) && e.conn.log.cur + 1 == |e.conn.log.segs|
  }

  function Emitted(enc: Enc, e: Endpoint, typ: byte, payload: seq<byte>): Endpoint
    requires Writable(e, typ, payload)
  {
    var f := NextFrameOut(e.conn, typ, payload);
    e.(conn := Emit(enc, e.conn, typ, payload),
       hist := Record(enc, e.conn.log, e.hist, f),
       written := e.written + if typ == DATA then payload else [])
  }

  /** The handshake is over, so that the connection exists: the peer's SYN has been taken. */
  predicate Established(e: Endpoint) {
    e.taken > 0
  }

  /** waitSendWindow: grants room when the pipe is healthy and the window is open. */
  function DoWriteWait(e: Endpoint): Option<Endpoint> {
    if Established(e) && e.room == 0 && !e.conn.recvErr && !e.conn.sendClosed && Room(e.conn) > 0
    then Some(e.(room := Room(e.conn))) else None
  }

  /** One DATA frame of a Write, no longer than the room granted or the frame limit. */
  function DoWriteChunk(enc: Enc, e: Endpoint, chunk: seq<byte>): Option<Endpoint> {
    if !(0 < |chunk| <= e.room && |chunk| <= e.conn.params.maxFrame) then None
    else if Refused(e.conn, DATA) then Some(e.(room := 0))
    else if !Writable(e, DATA, chunk) then None
    else Some(Emitted(enc, e, DATA, chunk).(room := 0))
  }

  predicate CanSee(e: Endpoint, peer: Endpoint) {
    e.reapDue.None? && e.reader.cur < |peer.conn.log.segs|
  }

  function DoRecvOpen(e: Endpoint, peer: Endpoint): Option<Endpoint> {
    if CanSee(e, peer) && !e.reader.isOpen && e.reader.cur !in peer.conn.log.unlinked
    then Some(e.(reader := OpenSeg(e.reader))) else None
  }

  /** The reader reads only when its carry-over holds no whole frame. */
  predicate Starved(crc: Crc, r: Reader) {
    r.isOpen && TryDecode(crc, r).1.NeedMore?
  }

  /** On a network filesystem the segment must still be there to be reopened; locally an open file stays readable. */
  function DoRecvFill(crc: Crc, e: Endpoint, peer: Endpoint, size: nat): Option<Endpoint> {
    if && CanSee(e, peer) && Starved(crc, e.reader) && e.reader.off <= size <= |peer.conn.log.segs[e.reader.cur]|
       && !(e.conn.params.netFS && e.reader.cur in peer.conn.log.unlinked)
    then Some(e.(reader := Fill(peer.conn.log, e.reader, size))) else None
  }

  /** A close-to-open reopen that fails because the segment has been unlinked. */
  function DoRecvLose(crc: Crc, e: Endpoint, peer: Endpoint): Option<Endpoint> {
    if CanSee(e, peer) && Starved(crc, e.reader) && e.conn.params.netFS && e.reader.cur in peer.conn.log.unlinked
    then Some(e.(reader := LoseFile(e.reader))) else None
  }

  /** One decode of the carry-over bytes, dispatching the frame it yields. */
  function DoRecvDecode(crc: Crc, e: Endpoint): Option<Endpoint> {
    if e.reapDue.Some? || !e.reader.isOpen then None else
    var (r', out) := TryDecode(crc, e.reader);
    match out
    case Got(f) =>
      var c := Dispatch(e.conn, f);
      Some(e.(reader := r', conn := c, taken := e.taken + 1,
              reapDue := if f.typ == ACK && |f.payload| == 8 then Some(c.peerAck) else None))
    case Rolled => Some(e.(reader := r'))
    case NeedMore => None
    case Broken => Some(e.(reader := r', conn := e.conn.(recvErr := true)))
  }

  function DoRecvReap(e: Endpoint): Option<Endpoint> {
    if e.reapDue.None? then None
    else Some(e.(conn := e.conn.(log := Reap(e.conn.log, e.reapDue.value)),
                 reapDue := None, reapedTo := e.reapDue.value))
  }

  /** Read returning n buffered bytes, then reading the consumed count for maybeAck. */
  function DoReadSome(e: Endpoint, n: nat): Option<Endpoint> {
    if 0 < |e.conn.recvBuf| && n <= |e.conn.recvBuf| && e.readAck.Idle?
    then Some(e.(conn := TakeBytes(e.conn, n), returned := e.returned + e.conn.recvBuf[..n],
                 readAck := Captured(e.conn.recvData + n))) else None
  }

  function DoAckCheck(e: Endpoint, who: Who): Option<Endpoint> {
    var pc := Pc(e, who);
    if !pc.Captured? then None
    else if (if who == Reading then AckIsDue(e.conn, pc.rd) else pc.rd > e.conn.lastAckSent)
    then Some(SetPc(e, who, Due(pc.rd))) else Some(SetPc(e, who, Idle))
  }

  function DoAckEmit(enc: Enc, e: Endpoint, who: Who): Option<Endpoint> {
    var pc := Pc(e, who);
    if !pc.Due? then None
    else if Refused(e.conn, ACK) then Some(SetPc(e, who, Idle))
    else if !Writable(e, ACK, PutUint(8, pc.rd)) then None
    else Some(SetPc(Emitted(enc, e, ACK, PutUint(8, pc.rd)), who, Sent(pc.rd)))
  }

  function DoAckRecord(e: Endpoint, who: Who): Option<Endpoint> {
    var pc := Pc(e, who);
    if !pc.Sent? then None
    else Some(SetPc(e.(conn := RecordAck(e.conn, pc.rd)), who, Idle))
  }

  function DoMaintStart(e: Endpoint): Option<Endpoint> {
    if Established(e) && e.maintAck.Idle? && !e.conn.recvErr
    then Some(e.(maintAck := Captured(e.conn.recvData))) else None
  }

  function DoBeat(enc: Enc, e: Endpoint, stamp: nat): Option<Endpoint> {
    if !Established(e) || !e.maintAck.Idle? || e.conn.recvErr then None
    else if Refused(e.conn, HEARTBEAT) then Some(e)
    else if !Writable(e, HEARTBEAT, PutUint(8, stamp)) then None
    else Some(Emitted(enc, e, HEARTBEAT, PutUint(8, stamp)))
  }

  function DoIdleFail(e: Endpoint): Option<Endpoint> {
    if Established(e) && e.maintAck.Idle? then Some(e.(conn := e.conn.(recvErr := true))) else None
  }

  function DoCloseFin(enc: Enc, e: Endpoint): Option<Endpoint> {
    if !Established(e) || e.finSent || !Writable(e, FIN, []) then None
    else Some(Emitted(enc, e, FIN, []).(finSent := true))
  }

  function DoCloseSend(e: Endpoint): Option<Endpoint> {
    if e.finSent then Some(e.(conn := e.conn.(sendClosed := true))) else None
  }

  /** The endpoint after an action of one of its goroutines, or None where the action is not enabled. */
  function Act(crc: Crc, e: Endpoint, peer: Endpoint, act: Action): Option<Endpoint> {
    var enc := Encoder(crc);
    match act
    case WriteWait => DoWriteWait(e)
    case WriteChunk(chunk) => DoWriteChunk(enc, e, chunk)
    case RecvOpen => DoRecvOpen(e, peer)
    case RecvFill(size) => DoRecvFill(crc, e, peer, size)
    case RecvLose => DoRecvLose(crc, e, peer)
    case RecvDecode => DoRecvDecode(crc, e)
    case RecvReap => DoRecvReap(e)
    case ReadSome(n) => DoReadSome(e, n)
    case AckCheck(who) => DoAckCheck(e, who)
    case AckEmit(who) => DoAckEmit(enc, e, who)
    case AckRecord(who) => DoAckRecord(e, who)
    case MaintStart => DoMaintStart(e)
    case Beat(stamp) => DoBeat(enc, e, stamp)
    case IdleFail => DoIdleFail(e)
    case CloseFin => DoCloseFin(enc, e)
    case CloseSend => DoCloseSend(e)
  }

  /** A Read that returns end-of-file: nothing buffered, no failure, and a FIN received. */
  predicate ReadsEOF(e: Endpoint) {
    e.conn.recvBuf == [] && !e.conn.recvErr && e.conn.recvEOF
  }

  /** After the handshake's first half: our SYN is frame 0 of the send direction. */
  function Opening(enc: Enc, p: Params): Endpoint
    requires p.window < U64
  {
    var syn := Frame(SYN, 0, 0, 0, EncodeSyn(SynParams(1, p.segmentSize, p.window, p.maxFrame)));
    Endpoint(Conn(p, Append(enc, NewLog(p.segmentSize), syn, 0), 1, 0, 0, 0, false, [], 0, false, false),
             NEW_READER, 0, Idle, Idle, None, false,
             Hist([syn], [0], []), [], [], 0, 0)
  }
}
