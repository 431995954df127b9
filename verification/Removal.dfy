/** What is lost when the acceptor closes its end and the whole subtree is removed. */
module Removal {
  import opened Options
  import opened Seqs
  import opened Frames
  import opened SegLog
  import opened Endpoints
  import opened PipeInv
  import opened Pipes
  import opened Drain

  function Below(n: nat): (ids: set<nat>)
    ensures forall i: nat :: i in ids <==> i < n
  {
    if n == 0 then {} else Below(n - 1) + {n - 1}
  }

  /** Every segment is gone, the one still open for appending included. */
  function Removed(l: Log): Log {
    l.(unlinked := Below(|l.segs|))
  }

  ghost predicate Reads(crc: Crc, l: Log, h: Hist, at: Place) {
    FramesOk(h) && ReaderInv(Encoder(crc), l, h, at.reader, at.pos)
  }

  lemma ReadsFacts(crc: Crc, l: Log, h: Hist, at: Place)
    requires Reads(crc, l, h, at)
    ensures at.reader.cur < |l.segs| == |h.starts| == l.cur + 1 && at.pos <= SegTo(h, at.reader.cur) <= |h.frames|
    ensures at.reader.cur < l.cur ==> SegTo(h, at.reader.cur) < |h.frames|
    ensures at.reader.isOpen ==> at.reader.off <= |l.segs[at.reader.cur]|
  {
    hide SegBytes, FlatMap;
  }

  lemma AttemptReads(crc: Crc, netFS: bool, l: Log, h: Hist, at: Place, t: Try, at': Place)
    requires Reads(crc, l, h, at) && Attempt(crc, netFS, l, at, t) == Some(at')
    ensures Reads(crc, l, h, at')
  {
    hide ReaderInv, TryDecode, Encoder, FramesOk;
    var enc := Encoder(crc);
    ReadsFacts(crc, l, h, at);
    match t
    case TryOpen => OpenKeeps(enc, l, h, at.reader, at.pos);
    case TryFill(size) => FillKeeps(enc, l, h, at.reader, at.pos, size);
    case TryLose => LoseKeeps(enc, l, h, at.reader, at.pos);
    case TryTake => TryDecodeRefines(crc, l, h, at.reader, at.pos);
  }

  /** The reader holds the last segment open and, on a network filesystem, has read all of it. */
  predicate HoldsLast(netFS: bool, l: Log, r: Reader) {
    r.isOpen && r.cur == l.cur < |l.segs| && (netFS ==> r.off == |l.segs[r.cur]|)
  }

  lemma {:induction false} TakesTheRest(crc: Crc, netFS: bool, l: Log, h: Hist, at: Place) returns (ts: seq<Try>)
    requires Reads(crc, l, h, at) && (at.pos == |h.frames| || HoldsLast(netFS, l, at.reader))
    ensures TakesAll(crc, netFS, l, h, at, ts)
    decreases |h.frames| - at.pos, Phase(l, at.reader)
  {
    hide FramesOk, ReaderInv, TryDecode, Encoder;
    ReadsFacts(crc, l, h, at);
    if at.pos == |h.frames| {
      ts := [];
    } else {
      TryDecodeRefines(crc, l, h, at.reader, at.pos);
      var t := if Starved(crc, at.reader) then TryFill(|l.segs[at.reader.cur]|) else TryTake;
      var at' := Attempt(crc, netFS, l, at, t).value;
      AttemptReads(crc, netFS, l, h, at, t, at');
      var rest := TakesTheRest(crc, netFS, l, h, at');
      ts := [t] + rest;
      assert ts[1..] == rest;
    }
  }

  /** A reader of the last segment that has not read all of it has not taken all of it. */
  lemma UnreadUntaken(crc: Crc, l: Log, h: Hist, at: Place)
    requires Reads(crc, l, h, at) && at.reader.isOpen && at.reader.cur == l.cur && at.reader.off < |l.segs[l.cur]|
    ensures at.pos < |h.frames|
  {
    hide FlatMap, FramesOk;
    assert l.segs[l.cur] == SegBytes(Encoder(crc), h, l.cur);
    assert |l.segs[l.cur][..at.reader.off]| == at.reader.off;
  }

  lemma MissesOn(crc: Crc, netFS: bool, l: Log, h: Hist, at: Place, t: Try, at': Place)
    requires Reads(crc, l, h, at) && at.pos < |h.frames| && !HoldsLast(netFS, l, at.reader)
    requires (forall i: nat :: i in l.unlinked <==> i < |l.segs|) && Attempt(crc, netFS, l, at, t) == Some(at')
    ensures at'.pos < |h.frames| && !HoldsLast(netFS, l, at'.reader)
  {
    hide ReaderInv, TryDecode, Encoder, FramesOk;
    ReadsFacts(crc, l, h, at);
    AttemptReads(crc, netFS, l, h, at, t, at');
    ReadsFacts(crc, l, h, at');
    if t.TryTake? {
      TryDecodeRefines(crc, l, h, at.reader, at.pos);
      if at'.reader.isOpen && at'.reader.cur == l.cur {
        UnreadUntaken(crc, l, h, at');
      }
    }
  }

  lemma {:induction false} MissesTheRest(crc: Crc, netFS: bool, l: Log, h: Hist, at: Place, ts: seq<Try>)
    requires Reads(crc, l, h, at) && at.pos < |h.frames| && !HoldsLast(netFS, l, at.reader)
    requires forall i: nat :: i in l.unlinked <==> i < |l.segs|
    ensures !TakesAll(crc, netFS, l, h, at, ts)
    decreases |ts|
  {
    hide Reads, Attempt, HoldsLast;
    if ts != [] && Attempt(crc, netFS, l, at, ts[0]).Some? {
      var at' := Attempt(crc, netFS, l, at, ts[0]).value;
      MissesOn(crc, netFS, l, h, at, ts[0], at');
      AttemptReads(crc, netFS, l, h, at, ts[0], at');
      MissesTheRest(crc, netFS, l, h, at', ts[1..]);
    }
  }

  /**
   * After every run: when the acceptor closes its end and its subtree is removed, the other end can still take
   * all that was sent to it if and only if it has taken it already, or holds the last segment open and, on a
   * network filesystem, has read all of it.
   */
  lemma RemovalLosesIff(crc: Crc, pa: Params, pb: Params, evs: seq<Event>, p: Pipe, atA: bool)
    requires ParamsOk(pa) && ParamsOk(pb) && Run(crc, Start(crc, pa, pb), evs) == Some(p)
    ensures var s, r := Me(p, atA), Me(p, !atA);
            var netFS := r.conn.params.netFS;
            (exists ts :: TakesAll(crc, netFS, Removed(s.conn.log), s.hist, Place(r.reader, r.taken), ts))
            <==> r.taken == |s.hist.frames| || HoldsLast(netFS, s.conn.log, r.reader)
  {
    hide Run, Start, Good, Link, TakesAll;
    RunOk(crc, pa, pb, evs, p);
    var s, r := Me(p, atA), Me(p, !atA);
    var netFS, l, at := r.conn.params.netFS, Removed(s.conn.log), Place(r.reader, r.taken);
    RemovedReads(crc, s, r);
    ReadsFacts(crc, l, s.hist, at);
    if r.taken == |s.hist.frames| || HoldsLast(netFS, l, r.reader) {
      var ts := TakesTheRest(crc, netFS, l, s.hist, at);
    } else {
      forall ts
        ensures !TakesAll(crc, netFS, l, s.hist, at, ts)
      {
        MissesTheRest(crc, netFS, l, s.hist, at, ts);
      }
    }
  }

  lemma RemovedReads(crc: Crc, s: Endpoint, r: Endpoint)
    requires Inv(Encoder(crc), s, r)
    ensures Reads(crc, Removed(s.conn.log), s.hist, Place(r.reader, r.taken))
  {
    hide SegBytes, FlatMap, Sized, EndsOk, ReapOk, ReapedUpTo, Payload, Numbered, Chunked, MaxAck, HasFin, FrameOk;
  }
}
