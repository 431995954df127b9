/**
 * Two ends within reach of each other that can nevertheless never go on: each is about to take a late
 * acknowledgement, and whichever reaps first strands the other.
 */
module Crossed {
  import opened Options
  import opened Bytes
  import opened Frames
  import opened SegLog
  import opened Endpoints
  import opened PipeInv
  import opened Pipes
  import opened Reach
  import opened Progress
  import opened Scenes
  import opened Unblock
  import opened Wedge

  // ---------- the way there ----------

  /** The ends recorded when both ends have come to a stage; every frame has its own segment. */
  function EndsAt(j: nat): seq<nat> {
    if j == 0 then [] else if j < 3 then [1] else if j < 6 then [1, 1] else [1, 1, 1, 1, 1, 2]
  }

  /** How far the reader has come: the last segment it has opened, or is about to open. */
  ghost predicate ReadsAt(e: Endpoint, j: nat) {
    if j < 2 then After(e, 0) else if j < 4 then After(e, 1) else if j == 4 then Before(e, 2) else After(e, 2)
  }

  /** SYN; a byte of DATA; two ACKs of the peer's byte, of which the second is late; two heartbeats; a byte. */
  ghost predicate FramesAt(fs: seq<Frame>) {
    && (|fs| > 1 ==> fs[1].typ == DATA && |fs[1].payload| == 1)
    && (|fs| > 2 ==> fs[2].typ == ACK && fs[2].payload == PutUint(8, 1))
    && (|fs| > 3 ==> fs[3].typ == ACK)
  }

  /**
   * Stages of one end: 0 greeted, 1 has sent its byte, 2 has taken the peer's, 3 has returned and
   * acknowledged it with a second ACK on the way, 4 stands before the peer's ACK, 5 has taken it and
   * reaped, 6 has sent the late ACK, two heartbeats and another byte.
   */
  ghost predicate Stage(e: Endpoint, j: nat) {
    && FinelyCut(e) && Healthy(e) && e.room == 0 && e.conn.params.window == 1 && e.readAck.Idle?
    && e.hist.ends == EndsAt(j) && |e.hist.frames| == |EndsAt(j)| + 1 && FramesAt(e.hist.frames)
    && FirstLinked(e.conn.log) == (if j < 5 then 0 else 2)
    && e.conn.sentData == (if j == 0 then 0 else if j < 6 then 1 else 2)
    && e.conn.peerAck == (if j < 5 then 0 else 1)
    && e.conn.recvData == e.conn.lastAckSent == (if j < 3 then 0 else 1)
    && |e.conn.recvBuf| == (if j == 2 then 1 else 0)
    && e.maintAck == (if 3 <= j <= 5 then Due(1) else Idle)
    && ReadsAt(e, j)
  }

  lemma FirstByte(crc: Crc, p: Pipe, atA: bool) returns (q: Pipe)
    requires PipeOk(crc, p) && Stage(Me(p, atA), 0)
    ensures Leads(crc, p, q) && PipeOk(crc, q) && Me(q, !atA) == Me(p, !atA) && Stage(Me(q, atA), 1)
  {
    hide Leads, PipeOk, OnePerSegment, PutUint;
    q := SendByte(crc, p, atA, 1);
  }

  lemma TakeByte(crc: Crc, p: Pipe, atA: bool) returns (q: Pipe)
    requires PipeOk(crc, p) && Stage(Me(p, atA), 1) && (Stage(Me(p, !atA), 1) || Stage(Me(p, !atA), 2))
    ensures Leads(crc, p, q) && PipeOk(crc, q) && Me(q, !atA) == Me(p, !atA) && Stage(Me(q, atA), 2)
  {
    hide Leads, PipeOk, OnePerSegment, PutUint;
    var p1 := FollowOne(crc, p, atA, 0);
    q := TakeOne(crc, p1, atA, 1);
    LeadsOn(crc, p, p1, q);
  }

  /** Read returns the byte; a tick and Read's own check both decide to acknowledge it; Read's ACK goes out. */
  lemma AckByte(crc: Crc, p: Pipe, atA: bool) returns (q: Pipe)
    requires PipeOk(crc, p) && Stage(Me(p, atA), 2)
    ensures Leads(crc, p, q) && PipeOk(crc, q) && Me(q, !atA) == Me(p, !atA) && Stage(Me(q, atA), 3)
  {
    hide Leads, PipeOk, OnePerSegment, PutUint;
    var p1 := ReadByte(crc, p, atA);
    var e2 := Me(p1, atA).(maintAck := Captured(1));
    LeadsBy(crc, p1, atA, MaintStart, e2);
    var p2 := With(p1, atA, e2);
    var e3 := e2.(maintAck := Due(1));
    LeadsBy(crc, p2, atA, AckCheck(Maintaining), e3);
    var p3 := With(p2, atA, e3);
    var e4 := e3.(readAck := Due(1));
    LeadsBy(crc, p3, atA, AckCheck(Reading), e4);
    var p4 := With(p3, atA, e4);
    q := SendAck(crc, p4, atA, Reading, 2);
    LeadsOn(crc, p, p1, p2);
    LeadsOn(crc, p, p2, p3);
    LeadsOn(crc, p, p3, p4);
    LeadsOn(crc, p, p4, q);
  }

  lemma ComeToAck(crc: Crc, p: Pipe, atA: bool) returns (q: Pipe)
    requires PipeOk(crc, p) && Stage(Me(p, atA), 3) && (Stage(Me(p, !atA), 3) || Stage(Me(p, !atA), 4))
    ensures Leads(crc, p, q) && PipeOk(crc, q) && Me(q, !atA) == Me(p, !atA) && Stage(Me(q, atA), 4)
  {
    hide Leads, PipeOk, OnePerSegment, PutUint;
    q := FollowOne(crc, p, atA, 1);
  }

  lemma TakeAck(crc: Crc, p: Pipe, atA: bool) returns (q: Pipe)
    requires PipeOk(crc, p) && Stage(Me(p, atA), 4) && (Stage(Me(p, !atA), 4) || Stage(Me(p, !atA), 5))
    ensures Leads(crc, p, q) && PipeOk(crc, q) && Me(q, !atA) == Me(p, !atA) && Stage(Me(q, atA), 5)
  {
    hide Leads, PipeOk, OnePerSegment, PutUint;
    var p1 := TakeOne(crc, p, atA, 2);
    AckOfOne();
    AckLength();
    q := ReapNow(crc, p1, atA);
    assert Me(p1, atA).hist.ends[1] <= 1;
    LeadsOn(crc, p, p1, q);
  }

  lemma AckLength()
    ensures |PutUint(8, 1)| == 8
  {
  }

  lemma SendTail(crc: Crc, p: Pipe, atA: bool) returns (q: Pipe)
    requires PipeOk(crc, p) && Stage(Me(p, atA), 5)
    ensures Leads(crc, p, q) && PipeOk(crc, q) && Me(q, !atA) == Me(p, !atA) && Stage(Me(q, atA), 6)
  {
    hide Leads, PipeOk, OnePerSegment, PutUint;
    var p1 := SendAck(crc, p, atA, Maintaining, 3);
    var p2 := SendBeat(crc, p1, atA, 4);
    var p3 := SendBeat(crc, p2, atA, 5);
    q := SendByte(crc, p3, atA, 6);
    LeadsOn(crc, p, p1, p2);
    LeadsOn(crc, p, p2, p3);
    LeadsOn(crc, p, p3, q);
  }

  /** Both ends come from one stage to the next. */
  lemma BothOn(crc: Crc, p: Pipe, j: nat) returns (q: Pipe)
    requires PipeOk(crc, p) && Stage(p.a, j) && Stage(p.b, j) && j < 6
    ensures Leads(crc, p, q) && PipeOk(crc, q) && Stage(q.a, j + 1) && Stage(q.b, j + 1)
  {
    hide Leads, PipeOk, Stage;
    var p1;
    if j == 0 {
      p1 := FirstByte(crc, p, true);
      q := FirstByte(crc, p1, false);
    } else if j == 1 {
      p1 := TakeByte(crc, p, true);
      q := TakeByte(crc, p1, false);
    } else if j == 2 {
      p1 := AckByte(crc, p, true);
      q := AckByte(crc, p1, false);
    } else if j == 3 {
      p1 := ComeToAck(crc, p, true);
      q := ComeToAck(crc, p1, false);
    } else if j == 4 {
      p1 := TakeAck(crc, p, true);
      q := TakeAck(crc, p1, false);
    } else {
      p1 := SendTail(crc, p, true);
      q := SendTail(crc, p1, false);
    }
    LeadsOn(crc, p, p1, q);
  }

  lemma {:induction false} BothAt(crc: Crc, na: bool, nb: bool, j: nat) returns (p: Pipe)
    requires j <= 6
    ensures Leads(crc, Start(crc, Narrow(1, na), Narrow(1, nb)), p) && PipeOk(crc, p) && Stage(p.a, j) && Stage(p.b, j)
  {
    hide Leads, PipeOk, Start;
    if j == 0 {
      p := Greet(crc, 1, na, 1, nb);
    } else {
      var p1 := BothAt(crc, na, nb, j - 1);
      hide Stage;
      p := BothOn(crc, p1, j - 1);
      LeadsOn(crc, Start(crc, Narrow(1, na), Narrow(1, nb)), p1, p);
    }
  }

  // ---------- and no way on ----------

  /** The late ACK is frame 3, and reaping with it unlinks the segments before the fifth. */
  lemma StagesTied(crc: Crc, s: Endpoint, r: Endpoint)
    requires Inv(Encoder(crc), s, r) && Stage(s, 6) && Stage(r, 6)
    ensures Wedged(Encoder(crc), s, r) && InReach(s, r) && Blocked(s) && Spare(s, 4)
  {
    hide LogInv, ReaderInv, ReapedUpTo, Payload, Numbered, Chunked, MaxAck, HasFin, PutUint, Room, Encoder;
    var enc, fs := Encoder(crc), s.hist.frames;
    UnlinkedPrefix(enc, s);
    UnlinkedPrefix(enc, r);
    SegmentEnd(enc, s, 2);
    assert fs[..4][..3] == fs[..3];
    MaxAckGrows(fs[..4], 3);
    NoWrap(enc, s);
    assert TiedBy(enc, s, r, Knot(3, 3, 5, 5));
  }

  /**
   * Being within reach of each other is not enough: in this run both ends are healthy, within reach and
   * blocked, and no continuation ever gives either of them room.
   */
  lemma CrossedDeadlock(crc: Crc, na: bool, nb: bool) returns (evs: seq<Event>, p: Pipe)
    ensures Run(crc, Start(crc, Narrow(1, na), Narrow(1, nb)), evs) == Some(p)
    ensures Healthy(p.a) && Healthy(p.b) && Spare(p.a, 4) && Spare(p.b, 4)
    ensures InReach(p.a, p.b) && InReach(p.b, p.a) && Blocked(p.a) && Blocked(p.b)
    ensures !CanUnblock(crc, p, true) && !CanUnblock(crc, p, false)
  {
    p := BothAt(crc, na, nb, 6);
    hide Run, Good, Link, Start, Wedged, Blocked, InReach, EndsAt, FramesAt, OnePerSegment;
    StagesTied(crc, p.a, p.b);
    StagesTied(crc, p.b, p.a);
    evs :| Run(crc, Start(crc, Narrow(1, na), Narrow(1, nb)), evs) == Some(p);
    forall q | Leads(crc, p, q)
      ensures Blocked(q.a) && Blocked(q.b)
    {
      NeverUnblocks(crc, p, true, q);
      NeverUnblocks(crc, p, false, q);
    }
  }
}
