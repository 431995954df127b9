/**
 * Two ends that hold each other up: each must reap with a late acknowledgement before it can read on, and
 * whichever does so first puts the other out of reach. And a reader out of reach with nothing left in hand.
 */
module Wedge {
  import opened Options
  import opened Bytes
  import opened Seqs
  import opened Frames
  import opened SegLog
  import opened Endpoints
  import opened PipeInv
  import opened Pipes
  import opened Drain
  import opened Reach
  import opened Progress

  // ---------- what a reader can take without opening or reopening anything ----------

  /** Where frame k of segment i ends in it. */
  function EndOf(enc: Enc, h: Hist, i: nat, k: nat): nat
    requires i < |h.starts| && h.starts[i] <= k < |h.frames|
  {
    |FlatMap(enc, h.frames[h.starts[i]..k + 1])|
  }

  /** Frame k of `s` is in the segment `x` holds open, and on a network filesystem already read from it. */
  ghost predicate InHand(enc: Enc, s: Endpoint, x: Endpoint, k: nat) {
    var h, r := s.hist, x.reader;
    && r.isOpen && r.cur < |h.starts| && h.starts[r.cur] <= k < SegTo(h, r.cur) && k < |h.frames|
    && (x.conn.params.netFS ==> EndOf(enc, h, r.cur, k) <= r.off)
  }

  lemma EndOfNext(enc: Enc, h: Hist, i: nat, k: nat)
    requires i < |h.starts| && h.starts[i] <= k < |h.frames|
    ensures EndOf(enc, h, i, k) == |FlatMap(enc, h.frames[h.starts[i]..k])| + |enc(h.frames[k])|
  {
    var from := h.starts[i];
    assert h.frames[from..k + 1] == h.frames[from..k] + [h.frames[k]];
    FlatMapSnoc(enc, h.frames[from..k], h.frames[k]);
  }

  lemma EndOfGrows(enc: Enc, h: Hist, i: nat, k: nat, n: nat)
    requires i < |h.starts| && h.starts[i] <= k <= n < |h.frames|
    ensures EndOf(enc, h, i, k) <= EndOf(enc, h, i, n)
  {
    var from := h.starts[i];
    assert h.frames[from..n + 1] == h.frames[from..k + 1] + h.frames[k + 1..n + 1];
    FlatMapConcat(enc, h.frames[from..k + 1], h.frames[k + 1..n + 1]);
  }

  lemma CarryOver(enc: Enc, s: Endpoint, x: Endpoint)
    requires Link(enc, s, x) && x.reader.isOpen
    ensures Synced(enc, s.conn.log, s.hist, x.reader, x.taken)
    ensures x.reader.cur < |s.hist.starts| && s.hist.starts[x.reader.cur] <= x.taken <= |s.hist.frames|
    ensures x.reader.off == |FlatMap(enc, s.hist.frames[s.hist.starts[x.reader.cur]..x.taken])| + |x.reader.buf|
  {
    hide SegBytes, FlatMap, HasFin, MaxAck, Payload;
    assert |s.conn.log.segs[x.reader.cur][..x.reader.off]| == x.reader.off;
  }

  /** With a frame to come already read, a reader decodes the next one. */
  lemma HandDecodes(crc: Crc, s: Endpoint, x: Endpoint, k: nat)
    requires Inv(Encoder(crc), x, s) && x.taken <= k && x.conn.params.netFS && InHand(Encoder(crc), s, x, k)
    ensures TryDecode(crc, x.reader).1.Got?
  {
    hide LogInv, ReaderInv, ReapedUpTo, Payload, Numbered, Chunked, MaxAck, HasFin, Synced, EndOf, Decode, Encode;
    var enc := Encoder(crc);
    LinkFacts(enc, s, x);
    CarryOver(enc, s, x);
    EndOfGrows(enc, s.hist, x.reader.cur, x.taken, k);
    EndOfNext(enc, s.hist, x.reader.cur, x.taken);
    DecodeAt(crc, s.conn.log, s.hist, x.reader, x.taken);
  }

  /** And what it decodes is in its hand. */
  lemma DecodedInHand(crc: Crc, s: Endpoint, x: Endpoint)
    requires Inv(Encoder(crc), x, s) && x.reader.isOpen && TryDecode(crc, x.reader).1.Got?
    ensures InHand(Encoder(crc), s, x, x.taken)
  {
    hide LogInv, ReaderInv, ReapedUpTo, Payload, Numbered, Chunked, MaxAck, HasFin, Synced, EndOf, Decode, Encode;
    var enc := Encoder(crc);
    LinkFacts(enc, s, x);
    CarryOver(enc, s, x);
    TryDecodeRefines(crc, s.conn.log, s.hist, x.reader, x.taken);
    EndOfNext(enc, s.hist, x.reader.cur, x.taken);
    DecodeAt(crc, s.conn.log, s.hist, x.reader, x.taken);
  }

  // ---------- a reader held before an acknowledgement ----------

  /**
   * `x` has not got past the ACK frame `stop` of `s`, or has taken it and must reap; and until then it cannot
   * come within reach of segment m: the frame lies before the last segment that would do, or in it, read
   * while the rest of it was not, so that nothing makes `x` read on.
   */
  ghost predicate Held(enc: Enc, s: Endpoint, x: Endpoint, stop: nat, m: nat) {
    var h, l := s.hist, s.conn.log;
    && 0 < m < |h.starts| && m <= |l.segs| && stop < |h.frames| && h.frames[stop].typ == ACK
    && (x.taken <= stop || (x.taken == stop + 1 && x.reapDue.Some?))
    && (|| stop < h.starts[m - 1]
        || (&& x.conn.params.netFS && x.reader.cur == m - 1 && x.reader.off < |l.segs[m - 1]|
            && InHand(enc, s, x, stop)))
  }

  lemma HeldGrows(enc: Enc, s: Endpoint, s': Endpoint, x: Endpoint, stop: nat, m: nat)
    requires Held(enc, s, x, stop, m) && Grows(s, s')
    ensures Held(enc, s', x, stop, m)
  {
    hide FlatMap;
    if s.hist.starts[m - 1] <= stop {
      SameSlice(s.hist.frames, s'.hist.frames, s.hist.starts[m - 1], stop + 1);
    }
  }

  /** A reader that is held is out of reach of segment m. */
  lemma HeldMisses(enc: Enc, s: Endpoint, x: Endpoint, stop: nat, m: nat)
    requires Inv(enc, x, s) && Held(enc, s, x, stop, m) && m <= FirstLinked(s.conn.log)
    ensures Lost(m, s, x)
  {
    hide LogInv, ReaderInv, ReapedUpTo, Payload, Numbered, Chunked, MaxAck, HasFin, EndOf;
    LinkFacts(enc, s, x);
    UnlinkedPrefix(enc, s);
  }

  lemma QuietHeld(crc: Crc, s: Endpoint, x: Endpoint, stop: nat, m: nat, act: Action, x': Endpoint)
    requires Held(Encoder(crc), s, x, stop, m) && Act(crc, x, s, act) == Some(x')
    requires !act.RecvFill? && !act.RecvLose? && !act.RecvDecode? && (act.RecvReap? ==> x.taken <= stop)
    ensures Held(Encoder(crc), s, x', stop, m)
  {
    if Receives(act) {
      hide Encoder, TryDecode, Reap, EndOf;
    } else {
      hide Act, EndOf;
      NotReceiving(crc, x, s, act, x');
    }
  }

  lemma ReadHeld(crc: Crc, s: Endpoint, x: Endpoint, stop: nat, m: nat, act: Action, x': Endpoint)
    requires Inv(Encoder(crc), x, s) && Held(Encoder(crc), s, x, stop, m) && Act(crc, x, s, act) == Some(x')
    requires act.RecvFill? || act.RecvLose?
    ensures Held(Encoder(crc), s, x', stop, m)
  {
    hide Good, Link, Encoder, TryDecode, EndOf;
    if s.hist.starts[m - 1] <= stop {
      HandDecodes(crc, s, x, stop);
    }
  }

  lemma DecodeHeld(crc: Crc, s: Endpoint, x: Endpoint, stop: nat, m: nat, x': Endpoint)
    requires Inv(Encoder(crc), x, s) && Held(Encoder(crc), s, x, stop, m) && DoRecvDecode(crc, x) == Some(x')
    ensures Held(Encoder(crc), s, x', stop, m)
  {
    hide LogInv, ReaderInv, ReapedUpTo, Payload, Numbered, Chunked, MaxAck, HasFin, TryDecode, Encoder, EndOf;
    LinkFacts(Encoder(crc), s, x);
    TryDecodeRefines(crc, s.conn.log, s.hist, x.reader, x.taken);
    UnlinkedPrefix(Encoder(crc), s);
  }

  /** Nothing a held end does frees it, except to reap with the acknowledgement. */
  lemma HeldStays(crc: Crc, s: Endpoint, x: Endpoint, stop: nat, m: nat, act: Action, x': Endpoint)
    requires Inv(Encoder(crc), x, s) && Held(Encoder(crc), s, x, stop, m) && Act(crc, x, s, act) == Some(x')
    requires act.RecvReap? ==> x.taken <= stop
    ensures Held(Encoder(crc), s, x', stop, m)
  {
    hide Good, Link, Held;
    if act.RecvDecode? {
      DecodeHeld(crc, s, x, stop, m, x');
    } else if act.RecvFill? || act.RecvLose? {
      ReadHeld(crc, s, x, stop, m, act, x');
    } else {
      QuietHeld(crc, s, x, stop, m, act, x');
    }
  }

  // ---------- two ends that hold each other up ----------

  /**
   * `a` is the ACK of `r` that `s` comes to next, and `j` an ACK of `s` that `r` has still to take or to reap
   * with. Reaping with `j` would unlink the segments of `r` before g, reaping with any ACK those of `s` before f.
   */
  datatype Knot = Knot(a: nat, j: nat, g: nat, f: nat)

  ghost predicate TiedBy(enc: Enc, s: Endpoint, r: Endpoint, w: Knot) {
    && Held(enc, r, s, w.a, w.g) && Held(enc, s, r, w.j, w.f)
    && (forall i :: s.taken <= i < w.a ==> r.hist.frames[i].typ != ACK)
    && (s.reapDue.Some? ==> s.taken == w.a + 1)
    && w.g <= |r.hist.ends| && (forall i :: 0 <= i < w.g ==> r.hist.ends[i] <= MaxAck(s.hist.frames[..w.j + 1]))
    && w.f <= |s.hist.ends| && (forall i :: 0 <= i < w.f ==> s.hist.ends[i] <= s.conn.peerAck)
    && DataIn(s.hist.frames[..w.j + 1]) <= s.conn.peerAck
  }

  /** `s` and `r` are tied: neither can go on without cutting the other off. */
  ghost predicate Wedged(enc: Enc, s: Endpoint, r: Endpoint) {
    exists w :: TiedBy(enc, s, r, w)
  }

  /** All that `r` has acknowledged, or could without taking another frame, is within `s.peerAck`. */
  lemma TiedAcks(enc: Enc, s: Endpoint, r: Endpoint, w: Knot)
    requires Inv(enc, s, r) && TiedBy(enc, s, r, w)
    ensures MaxAck(r.hist.frames) <= r.conn.recvData <= s.conn.peerAck
  {
    hide LogInv, ReaderInv, ReapedUpTo, Payload, Numbered, Chunked, MaxAck, HasFin, InHand;
    Ordering(enc, s, r);
    PayloadSplit(s.hist.frames, r.taken, w.j + 1);
  }

  lemma TiedDecode(crc: Crc, s: Endpoint, r: Endpoint, w: Knot, s': Endpoint)
    requires Inv(Encoder(crc), s, r) && TiedBy(Encoder(crc), s, r, w) && DoRecvDecode(crc, s) == Some(s')
    ensures s'.conn.peerAck == s.conn.peerAck && (s'.reapDue.Some? ==> s'.taken == w.a + 1) && s.taken <= s'.taken
  {
    hide LogInv, ReaderInv, ReapedUpTo, Payload, Numbered, Chunked, MaxAck, HasFin, TryDecode, Encoder, InHand;
    var enc, fs := Encoder(crc), r.hist.frames;
    RecvDecodeKeeps(crc, s, r, s');
    LinkFacts(enc, r, s);
    TryDecodeRefines(crc, r.conn.log, r.hist, s.reader, s.taken);
    TiedAcks(enc, s, r, w);
    MaxAckGrows(fs, s'.taken);
  }

  lemma TiedQuiet(crc: Crc, s: Endpoint, r: Endpoint, act: Action, s': Endpoint)
    requires Act(crc, s, r, act) == Some(s') && !act.RecvDecode? && !act.RecvReap?
    ensures s'.conn.peerAck == s.conn.peerAck && s'.reapDue == s.reapDue && s'.taken == s.taken
  {
    if Receives(act) {
      hide Encoder, TryDecode, Fill;
    } else {
      hide Act;
      NotReceiving(crc, s, r, act, s');
    }
  }

  /** A step of the sender leaves the knot, unless it reaps. */
  lemma SenderTied(crc: Crc, s: Endpoint, r: Endpoint, w: Knot, act: Action, s': Endpoint)
    requires Inv(Encoder(crc), s, r) && TiedBy(Encoder(crc), s, r, w) && Act(crc, s, r, act) == Some(s')
    requires !act.RecvReap?
    ensures TiedBy(Encoder(crc), s', r, w) && s'.conn.peerAck == s.conn.peerAck
  {
    hide Good, Link, Held, MaxAck, DataIn, Act;
    var enc := Encoder(crc);
    HeldStays(crc, r, s, w.a, w.g, act, s');
    ActGrows(crc, s, r, act, s');
    HeldGrows(enc, s, s', r, w.j, w.f);
    assert w.j < |s.hist.frames| by { HeldFrame(enc, s, r, w.j, w.f); }
    assert s'.hist.frames[..w.j + 1] == s.hist.frames[..w.j + 1];
    if act.RecvDecode? {
      assert DoRecvDecode(crc, s) == Some(s') by { IsDecode(crc, s, r, s'); }
      TiedDecode(crc, s, r, w, s');
    } else {
      TiedQuiet(crc, s, r, act, s');
    }
  }

  lemma IsDecode(crc: Crc, s: Endpoint, r: Endpoint, s': Endpoint)
    requires Act(crc, s, r, RecvDecode) == Some(s')
    ensures DoRecvDecode(crc, s) == Some(s')
  {
  }

  lemma HeldFrame(enc: Enc, s: Endpoint, x: Endpoint, stop: nat, m: nat)
    requires Held(enc, s, x, stop, m)
    ensures stop < |s.hist.frames| && x.taken <= stop + 1 && 0 < m < |s.hist.starts|
  {
  }

  /** The sender's reap cuts the receiver off. */
  lemma SenderCuts(crc: Crc, s: Endpoint, r: Endpoint, w: Knot, s': Endpoint)
    requires Inv(Encoder(crc), s, r) && TiedBy(Encoder(crc), s, r, w) && Act(crc, s, r, RecvReap) == Some(s')
    ensures Lost(w.f, s', r) && s'.hist == s.hist && s'.conn.peerAck == s.conn.peerAck
  {
    hide LogInv, ReaderInv, ReapedUpTo, Payload, Numbered, Chunked, MaxAck, HasFin, Kept, Passed, Held, Link;
    var enc := Encoder(crc);
    ActKeeps(crc, s, r, RecvReap, s');
    ActGrows(crc, s, r, RecvReap, s');
    HeldGrows(enc, s, s', r, w.j, w.f);
    ReapKeeps(enc, s.conn.log, s.hist, s.conn.peerAck);
    UnlinkedPrefix(enc, s);
    assert w.f > 0 by { HeldFrame(enc, s, r, w.j, w.f); }
    assert s.hist.ends[w.f - 1] <= s.conn.peerAck;
    HeldMisses(enc, s', r, w.j, w.f);
  }

  /** A step of the receiver leaves the knot, or is the reap that cuts the sender off. */
  lemma ReceiverTied(crc: Crc, s: Endpoint, r: Endpoint, w: Knot, act: Action, r': Endpoint)
    requires Inv(Encoder(crc), s, r) && TiedBy(Encoder(crc), s, r, w) && Act(crc, r, s, act) == Some(r')
    requires act.RecvReap? ==> r.taken <= w.j
    ensures TiedBy(Encoder(crc), s, r', w)
  {
    hide Good, Link, Held, MaxAck, DataIn, Act;
    var enc := Encoder(crc);
    HeldStays(crc, s, r, w.j, w.f, act, r');
    ActGrows(crc, r, s, act, r');
    HeldGrows(enc, r, r', s, w.a, w.g);
    HeldFrame(enc, r, s, w.a, w.g);
  }

  lemma ReceiverCuts(crc: Crc, s: Endpoint, r: Endpoint, w: Knot, r': Endpoint)
    requires Inv(Encoder(crc), s, r) && TiedBy(Encoder(crc), s, r, w) && Act(crc, r, s, RecvReap) == Some(r')
    requires r.taken == w.j + 1
    ensures Lost(w.g, r', s) && MaxAck(r'.hist.frames) <= s.conn.peerAck
  {
    hide LogInv, ReaderInv, ReapedUpTo, Payload, Numbered, Chunked, MaxAck, HasFin, Kept, Passed, Held;
    var enc := Encoder(crc);
    ActKeeps(crc, r, s, RecvReap, r');
    ActGrows(crc, r, s, RecvReap, r');
    HeldGrows(enc, r, r', s, w.a, w.g);
    ReapKeeps(enc, r.conn.log, r.hist, r.conn.peerAck);
    UnlinkedPrefix(enc, r);
    TiedAcks(enc, s, r, w);
    assert w.g > 0 by { HeldFrame(enc, r, s, w.a, w.g); }
    assert r.hist.ends[w.g - 1] <= r.conn.peerAck;
    HeldMisses(enc, r', s, w.a, w.g);
  }

  // ---------- cut off ----------

  /** What a sender has to have: its window full above `k`. */
  predicate Full(s: Endpoint, k: nat) {
    k + s.conn.params.window <= s.conn.sentData
  }

  lemma FullBlocks(enc: Enc, s: Endpoint, k: nat)
    requires Good(enc, s) && Full(s, k) && s.conn.peerAck <= k
    ensures Blocked(s)
  {
    hide LogInv, ReapedUpTo, Numbered, Chunked, MaxAck, Acker, Room;
    NoWrap(enc, s);
  }

  lemma BlockedFull(enc: Enc, s: Endpoint)
    requires Good(enc, s) && Blocked(s)
    ensures Full(s, s.conn.peerAck)
  {
    hide LogInv, ReapedUpTo, Numbered, Chunked, MaxAck, Acker, Room;
    NoWrap(enc, s);
  }

  lemma FullGrows(enc: Enc, s: Endpoint, s': Endpoint, k: nat)
    requires Good(enc, s) && Good(enc, s') && Grows(s, s') && Full(s, k)
    ensures Full(s', k)
  {
    hide LogInv, ReapedUpTo, Numbered, Chunked, MaxAck, Acker, Payload;
    var fs, gs := s.hist.frames, s'.hist.frames;
    PayloadSplit(gs, |fs|, |gs|);
    assert gs[..|fs|] == fs && gs[..|gs|] == gs;
  }

  lemma {:induction false} RunGrows(crc: Crc, p: Pipe, evs: seq<Event>, q: Pipe)
    requires PipeOk(crc, p) && Run(crc, p, evs) == Some(q)
    ensures PipeOk(crc, q) && Grows(p.a, q.a) && Grows(p.b, q.b)
    decreases |evs|
  {
    hide Act, Good, Link;
    if evs != [] {
      var ev, p' := evs[0], Step(crc, p, evs[0]).value;
      StepKeeps(crc, p, ev, p');
      ActGrows(crc, Me(p, ev.atA), Me(p, !ev.atA), ev.act, Me(p', ev.atA));
      RunGrows(crc, p', evs[1..], q);
    }
  }

  /** The receiver is cut off from all that exceeds k. */
  lemma ReceiverCutOff(crc: Crc, p: Pipe, atA: bool, m: nat, k: nat, evs: seq<Event>, q: Pipe)
    requires PipeOk(crc, p) && Run(crc, p, evs) == Some(q) && Full(Me(p, atA), k)
    requires Lost(m, Me(p, atA), Me(p, !atA)) && 0 < m <= |Me(p, atA).hist.ends| && Me(p, atA).hist.ends[m - 1] <= k
    ensures Blocked(Me(q, atA))
  {
    hide Run, Lost, LogInv, ReaderInv, ReapedUpTo, Payload, Numbered, Chunked, MaxAck, HasFin, Acker, Blocked;
    LostRun(crc, m, p, atA, evs, q);
    var enc, s, r := Encoder(crc), Me(q, atA), Me(q, !atA);
    LostTakes(enc, m, s, r);
    Ordering(enc, s, r);
    SegmentEnd(enc, s, m - 1);
    PayloadSplit(s.hist.frames, r.taken, s.hist.starts[m] + 1);
    FullGrows(enc, Me(p, atA), s, k);
    FullBlocks(enc, s, k);
  }

  lemma SegmentEnd(enc: Enc, e: Endpoint, i: nat)
    requires Good(enc, e) && i < |e.hist.ends|
    ensures i + 1 < |e.hist.starts| && e.hist.starts[i + 1] < |e.hist.frames|
    ensures e.hist.ends[i] == DataIn(e.hist.frames[..e.hist.starts[i + 1] + 1])
  {
    hide Holds, FramesOk, Sized, ReapOk, ReapedUpTo, Numbered, Chunked, MaxAck, Acker, Windowed, DataIn;
  }

  /** The sender is cut off from every acknowledgement above k. */
  lemma SenderCutOff(crc: Crc, p: Pipe, atA: bool, m: nat, k: nat, evs: seq<Event>, q: Pipe)
    requires PipeOk(crc, p) && Run(crc, p, evs) == Some(q) && Full(Me(p, atA), k)
    requires Lost(m, Me(p, !atA), Me(p, atA)) && MaxAck(Me(p, !atA).hist.frames) <= k
    ensures Blocked(Me(q, atA))
  {
    hide Run, Lost, LogInv, ReaderInv, ReapedUpTo, Payload, Numbered, Chunked, MaxAck, HasFin, Acker, Blocked;
    var enc, s, r := Encoder(crc), Me(q, atA), Me(q, !atA);
    var fs := Me(p, !atA).hist.frames;
    LostRun(crc, m, p, !atA, evs, q);
    RunGrows(crc, p, evs, q);
    LostTakes(enc, m, Me(p, !atA), Me(p, atA));
    LostTakes(enc, m, r, s);
    assert r.hist.frames[..s.taken] == fs[..s.taken];
    MaxAckGrows(fs, s.taken);
    FullGrows(enc, Me(p, atA), s, k);
    FullBlocks(enc, s, k);
  }

  /** Tied ends stay without room for the sender in every continuation. */
  lemma {:induction false} WedgedForever(crc: Crc, p: Pipe, atA: bool, w: Knot, evs: seq<Event>, q: Pipe)
    requires PipeOk(crc, p) && Blocked(Me(p, atA)) && TiedBy(Encoder(crc), Me(p, atA), Me(p, !atA), w)
    requires Run(crc, p, evs) == Some(q)
    ensures Blocked(Me(q, atA))
    decreases |evs|
  {
    hide Act, Good, Link, TiedBy, Lost, Blocked, Full, Grows;
    if evs != [] {
      var enc, ev, p' := Encoder(crc), evs[0], Step(crc, p, evs[0]).value;
      var s, r, s', r' := Me(p, atA), Me(p, !atA), Me(p', atA), Me(p', !atA);
      var k := s.conn.peerAck;
      StepKeeps(crc, p, ev, p');
      BlockedFull(enc, s);
      ActGrows(crc, Me(p, ev.atA), Me(p, !ev.atA), ev.act, Me(p', ev.atA));
      if ev.atA == atA {
        FullGrows(enc, s, s', k);
        if ev.act.RecvReap? {
          SenderCuts(crc, s, r, w, s');
          KnotEnds(enc, s, r, w);
          ReceiverCutOff(crc, p', atA, w.f, k, evs[1..], q);
        } else {
          SenderTied(crc, s, r, w, ev.act, s');
          FullBlocks(enc, s', k);
          WedgedForever(crc, p', atA, w, evs[1..], q);
        }
      } else if ev.act.RecvReap? && r.taken > w.j {
        KnotEnds(enc, s, r, w);
        ReceiverCuts(crc, s, r, w, r');
        SenderCutOff(crc, p', atA, w.g, k, evs[1..], q);
      } else {
        ReceiverTied(crc, s, r, w, ev.act, r');
        WedgedForever(crc, p', atA, w, evs[1..], q);
      }
    }
  }

  lemma KnotEnds(enc: Enc, s: Endpoint, r: Endpoint, w: Knot)
    requires TiedBy(enc, s, r, w)
    ensures 0 < w.f <= |s.hist.ends| && s.hist.ends[w.f - 1] <= s.conn.peerAck && r.taken <= w.j + 1
  {
  }

  // ---------- out of reach of the acknowledgements ----------

  predicate AckAbove(f: Frame, k: nat) {
    f.typ == ACK && |f.payload| == 8 && GetUint(f.payload) > k
  }

  /** An acknowledgement above k that `s` can take from what it holds. */
  ghost predicate AckInHand(enc: Enc, s: Endpoint, r: Endpoint, k: nat) {
    exists i :: s.taken <= i && InHand(enc, r, s, i) && AckAbove(r.hist.frames[i], k)
  }

  lemma HandGrows(enc: Enc, r: Endpoint, r': Endpoint, s: Endpoint, i: nat)
    requires Grows(r, r') && InHand(enc, r', s, i) && s.reader.cur + 1 < |r.hist.starts|
    requires s.reader.cur + 1 < |r.hist.starts| ==> r.hist.starts[s.reader.cur + 1] <= |r.hist.frames|
    ensures InHand(enc, r, s, i) && r'.hist.frames[i] == r.hist.frames[i]
  {
    hide FlatMap;
    SameSlice(r.hist.frames, r'.hist.frames, r.hist.starts[s.reader.cur], i + 1);
  }

  lemma NoHandGrows(enc: Enc, m: nat, r: Endpoint, r': Endpoint, s: Endpoint, k: nat)
    requires Inv(enc, s, r) && Lost(m, r, s) && Grows(r, r') && !AckInHand(enc, s, r, k)
    ensures !AckInHand(enc, s, r', k)
  {
    hide LogInv, ReaderInv, ReapedUpTo, Payload, Numbered, Chunked, MaxAck, HasFin, EndOf;
    UnlinkedPrefix(enc, r);
    forall i: nat | s.taken <= i && InHand(enc, r', s, i)
      ensures !AckAbove(r'.hist.frames[i], k)
    {
      HandGrows(enc, r, r', s, i);
    }
  }

  /** A reader out of reach gets nothing more in hand. */
  lemma HandQuiet(crc: Crc, m: nat, s: Endpoint, r: Endpoint, act: Action, s': Endpoint)
    requires Lost(m, r, s) && Act(crc, s, r, act) == Some(s') && !act.RecvDecode?
    requires forall i: nat :: i in r.conn.log.unlinked <==> i < FirstLinked(r.conn.log)
    ensures s'.taken == s.taken && s'.conn.peerAck == s.conn.peerAck && s'.conn.params == s.conn.params
    ensures s'.reader.isOpen ==> s.reader.isOpen && s'.reader.cur == s.reader.cur
    ensures s'.reader.isOpen && s.conn.params.netFS ==> s'.reader.off == s.reader.off
  {
    if Receives(act) {
      hide Encoder, TryDecode, Reap;
    } else {
      hide Act;
      NotReceiving(crc, s, r, act, s');
    }
  }

  lemma NoHandQuiet(crc: Crc, m: nat, s: Endpoint, r: Endpoint, k: nat, act: Action, s': Endpoint)
    requires Lost(m, r, s) && Act(crc, s, r, act) == Some(s') && !AckInHand(Encoder(crc), s, r, k)
    requires forall i: nat :: i in r.conn.log.unlinked <==> i < FirstLinked(r.conn.log)
    requires !act.RecvDecode? && s.conn.peerAck <= k
    ensures !AckInHand(Encoder(crc), s', r, k) && s'.conn.peerAck <= k
  {
    HandQuiet(crc, m, s, r, act, s');
    hide Act, EndOf;
    forall i: nat | s'.taken <= i && InHand(Encoder(crc), r, s', i)
      ensures !AckAbove(r.hist.frames[i], k)
    {
      assert InHand(Encoder(crc), r, s, i);
    }
  }

  lemma NoHandDecode(crc: Crc, s: Endpoint, r: Endpoint, k: nat, s': Endpoint)
    requires Inv(Encoder(crc), s, r) && DoRecvDecode(crc, s) == Some(s') && !AckInHand(Encoder(crc), s, r, k)
    requires s.conn.peerAck <= k
    ensures !AckInHand(Encoder(crc), s', r, k) && s'.conn.peerAck <= k
  {
    hide LogInv, ReaderInv, ReapedUpTo, Payload, Numbered, Chunked, MaxAck, HasFin, TryDecode, Encoder, EndOf;
    LinkFacts(Encoder(crc), r, s);
    TryDecodeRefines(crc, r.conn.log, r.hist, s.reader, s.taken);
    if TryDecode(crc, s.reader).1.Got? {
      DecodedInHand(crc, r, s);
    }
    forall i: nat | s'.taken <= i && InHand(Encoder(crc), r, s', i)
      ensures !AckAbove(r.hist.frames[i], k)
    {
      assert InHand(Encoder(crc), r, s, i);
    }
  }

  /** A sender out of reach of the acknowledgements, with none above k in hand, stays without room. */
  lemma {:induction false} EmptyHanded(crc: Crc, p: Pipe, atA: bool, m: nat, k: nat, evs: seq<Event>, q: Pipe)
    requires PipeOk(crc, p) && Run(crc, p, evs) == Some(q) && Full(Me(p, atA), k) && Me(p, atA).conn.peerAck <= k
    requires Lost(m, Me(p, !atA), Me(p, atA)) && !AckInHand(Encoder(crc), Me(p, atA), Me(p, !atA), k)
    ensures Blocked(Me(q, atA))
    decreases |evs|
  {
    hide Act, Good, Link, Lost, Blocked, Full, Grows, AckInHand;
    var enc, s, r := Encoder(crc), Me(p, atA), Me(p, !atA);
    if evs == [] {
      FullBlocks(enc, s, k);
    } else {
      var ev, p' := evs[0], Step(crc, p, evs[0]).value;
      var s', r' := Me(p', atA), Me(p', !atA);
      StepKeeps(crc, p, ev, p');
      ActGrows(crc, Me(p, ev.atA), Me(p, !ev.atA), ev.act, Me(p', ev.atA));
      if ev.atA == atA {
        LostStays(crc, m, s, r, ev.act, s');
        FullGrows(enc, s, s', k);
        UnlinkedPrefix(enc, r);
        if ev.act.RecvDecode? {
          IsDecode(crc, s, r, s');
          NoHandDecode(crc, s, r, k, s');
        } else {
          NoHandQuiet(crc, m, s, r, k, ev.act, s');
        }
      } else {
        LostGrows(m, r, r', s);
        NoHandGrows(enc, m, r, r', s, k);
      }
      EmptyHanded(crc, p', atA, m, k, evs[1..], q);
    }
  }

  // ---------- taking what is in hand ----------

  lemma HandStep(crc: Crc, s: Endpoint, r: Endpoint, i: nat) returns (act: Action, s': Endpoint)
    requires Inv(Encoder(crc), s, r) && s.reapDue.None? && s.taken <= i && InHand(Encoder(crc), r, s, i)
    ensures Act(crc, s, r, act) == Some(s') && OnlyReceived(s, s')
    ensures if act.RecvDecode? then s'.taken == s.taken + 1
            else && act.RecvFill? && s'.taken == s.taken && s'.reapDue.None?
                 && Phase(r.conn.log, s'.reader) < Phase(r.conn.log, s.reader)
    ensures s'.reader.isOpen && s'.reader.cur == s.reader.cur && s.reader.off <= s'.reader.off
    ensures s'.conn.peerAck == if AckAbove(r.hist.frames[s.taken], s.conn.peerAck) && act.RecvDecode?
                               then GetUint(r.hist.frames[s.taken].payload) else s.conn.peerAck
  {
    hide LogInv, ReaderInv, ReapedUpTo, Payload, Numbered, Chunked, MaxAck, HasFin, TryDecode, Encoder, EndOf;
    var enc := Encoder(crc);
    LinkFacts(enc, r, s);
    UnlinkedPrefix(enc, r);
    ReadWithin(enc, r, s);
    TryDecodeRefines(crc, r.conn.log, r.hist, s.reader, s.taken);
    if Starved(crc, s.reader) {
      if s.conn.params.netFS {
        HandDecodes(crc, r, s, i);
      }
      act := RecvFill(|r.conn.log.segs[s.reader.cur]|);
    } else {
      act := RecvDecode;
    }
    s' := Act(crc, s, r, act).value;
  }

  lemma HandKept(enc: Enc, s: Endpoint, s': Endpoint, r: Endpoint, i: nat)
    requires InHand(enc, r, s, i) && s'.reader.isOpen && s'.reader.cur == s.reader.cur && s.reader.off <= s'.reader.off
    requires s'.conn.params == s.conn.params
    ensures InHand(enc, r, s', i)
  {
    hide EndOf;
  }

  /** A sender with an acknowledgement in hand takes it. */
  lemma {:induction false} TakeInHand(crc: Crc, p: Pipe, atA: bool, i: nat, k: nat) returns (q: Pipe)
    requires PipeOk(crc, p) && Me(p, atA).taken <= i && InHand(Encoder(crc), Me(p, !atA), Me(p, atA), i)
    requires AckAbove(Me(p, !atA).hist.frames[i], k)
    ensures Leads(crc, p, q) && PipeOk(crc, q) && Me(q, atA).conn.sentData == Me(p, atA).conn.sentData
    ensures Me(q, atA).conn.peerAck > k && Me(q, atA).conn.params == Me(p, atA).conn.params
    decreases i - Me(p, atA).taken, Phase(Me(p, !atA).conn.log, Me(p, atA).reader), Turn(Me(p, atA))
  {
    hide Act, Good, Link, Run, InHand;
    var s, r, enc := Me(p, atA), Me(p, !atA), Encoder(crc);
    var act, s';
    if s.reapDue.Some? {
      act := RecvReap;
      s' := ReapStep(crc, s, r);
      InHandOpen(enc, s, r, i);
    } else {
      act, s' := HandStep(crc, s, r, i);
    }
    LeadsBy(crc, p, atA, act, s');
    var p' := With(p, atA, s');
    if s'.taken == i + 1 {
      q := p';
    } else {
      HandKept(enc, s, s', r, i);
      q := TakeInHand(crc, p', atA, i, k);
      LeadsOn(crc, p, p', q);
    }
  }

  lemma InHandOpen(enc: Enc, s: Endpoint, r: Endpoint, i: nat)
    requires InHand(enc, r, s, i)
    ensures s.reader.isOpen
  {
  }
}
