/**
 * When a reader can still take everything in a log: exactly where it must stand, and exactly what the
 * writer must have seen acknowledged for every reader to stand there.
 */
module Drain {
  import opened Options
  import opened Seqs
  import opened Frames
  import opened SegLog
  import opened Endpoints
  import opened PipeInv

  // ---------- a reader alone with a log ----------

  datatype Try = TryOpen | TryFill(size: nat) | TryLose | TryTake

  datatype Place = Place(reader: Reader, pos: nat)

  /**
   * One step of `next` against a log that stands still. On a network filesystem every fill first reopens
   * the segment by name, so an unlinked segment is lost; locally an open file stays readable.
   */
  function Attempt(crc: Crc, netFS: bool, l: Log, at: Place, t: Try): Option<Place> {
    var r := at.reader;
    if r.cur >= |l.segs| then None else
    match t
    case TryOpen =>
      if !r.isOpen && r.cur !in l.unlinked then Some(Place(OpenSeg(r), at.pos)) else None
    case TryFill(size) =>
      if Starved(crc, r) && r.off <= size <= |l.segs[r.cur]| && !(netFS && r.cur in l.unlinked)
      then Some(Place(Fill(l, r, size), at.pos)) else None
    case TryLose =>
      if Starved(crc, r) && netFS && r.cur in l.unlinked then Some(Place(LoseFile(r), at.pos)) else None
    case TryTake =>
      if !r.isOpen then None else
      var (r', out) := TryDecode(crc, r);
      match out
      case Got(_) => Some(Place(r', at.pos + 1))
      case Rolled => Some(Place(r', at.pos))
      case _ => None
  }

  function Attempts(crc: Crc, netFS: bool, l: Log, at: Place, ts: seq<Try>): Option<Place>
    decreases |ts|
  {
    if ts == [] then Some(at) else
    match Attempt(crc, netFS, l, at, ts[0])
    case Some(at') => Attempts(crc, netFS, l, at', ts[1..])
    case None => None
  }

  ghost predicate TakesAll(crc: Crc, netFS: bool, l: Log, h: Hist, at: Place, ts: seq<Try>) {
    match Attempts(crc, netFS, l, at, ts)
    case Some(at') => at'.pos == |h.frames|
    case None => false
  }

  /**
   * The reader stands at or past the first linked segment, or still holds the last unlinked one open
   * with its ROLL within reach.
   */
  predicate WithinReach(netFS: bool, l: Log, r: Reader) {
    || r.cur >= FirstLinked(l)
    || (&& r.isOpen && r.cur + 1 == FirstLinked(l) && r.cur < |l.segs|
        && (netFS ==> r.off == |l.segs[r.cur]|))
  }

  ghost predicate At(crc: Crc, l: Log, h: Hist, at: Place) {
    LogInv(Encoder(crc), l, h) && ReaderInv(Encoder(crc), l, h, at.reader, at.pos)
  }

  lemma AtFacts(crc: Crc, l: Log, h: Hist, at: Place)
    requires At(crc, l, h, at)
    ensures FramesOk(h) && Shape(h) && at.reader.cur < |l.segs| == |h.starts| == l.cur + 1
    ensures at.pos <= SegTo(h, at.reader.cur) <= |h.frames|
    ensures FirstLinked(l) <= l.cur
    ensures forall i: nat :: i in l.unlinked <==> i < FirstLinked(l)
    ensures at.reader.isOpen ==> at.reader.off <= |l.segs[at.reader.cur]|
  {
  }

  lemma AttemptKeeps(crc: Crc, netFS: bool, l: Log, h: Hist, at: Place, t: Try, at': Place)
    requires At(crc, l, h, at) && Attempt(crc, netFS, l, at, t) == Some(at')
    ensures At(crc, l, h, at')
  {
    hide LogInv, ReaderInv, TryDecode, Encoder;
    var enc := Encoder(crc);
    AtFacts(crc, l, h, at);
    match t
    case TryOpen => OpenKeeps(enc, l, h, at.reader, at.pos);
    case TryFill(size) => FillKeeps(enc, l, h, at.reader, at.pos, size);
    case TryLose => LoseKeeps(enc, l, h, at.reader, at.pos);
    case TryTake => TryDecodeRefines(crc, l, h, at.reader, at.pos);
  }

  /** A step the reader can take towards the end of the log, while it is within reach and not there yet. */
  lemma NextAttempt(crc: Crc, netFS: bool, l: Log, h: Hist, at: Place) returns (t: Try, at': Place)
    requires At(crc, l, h, at) && WithinReach(netFS, l, at.reader)
    requires at.pos < |h.frames|
    ensures Attempt(crc, netFS, l, at, t) == Some(at') && At(crc, l, h, at') && WithinReach(netFS, l, at'.reader)
    ensures Closer(l, h, at, at') && !t.TryLose? && (t.TryFill? ==> t.size == |l.segs[at.reader.cur]|)
  {
    hide LogInv, ReaderInv, TryDecode, Encoder;
    var r := at.reader;
    AtFacts(crc, l, h, at);
    if !r.isOpen {
      t, at' := TryOpen, Place(OpenSeg(r), at.pos);
    } else {
      TryDecodeRefines(crc, l, h, r, at.pos);
      if Starved(crc, r) {
        t, at' := TryFill(|l.segs[r.cur]|), Place(Fill(l, r, |l.segs[r.cur]|), at.pos);
      } else {
        t, at' := TryTake, Attempt(crc, netFS, l, at, TryTake).value;
      }
    }
    AttemptKeeps(crc, netFS, l, h, at, t, at');
  }

  function Phase(l: Log, r: Reader): nat {
    if !r.isOpen then 2 else if r.cur < |l.segs| && r.off < |l.segs[r.cur]| then 1 else 0
  }

  ghost predicate Closer(l: Log, h: Hist, at: Place, at': Place) {
    || at.reader.cur < at'.reader.cur <= l.cur
    || (at'.reader.cur == at.reader.cur && at.pos < at'.pos <= |h.frames|)
    || (at'.reader.cur == at.reader.cur && at'.pos == at.pos && Phase(l, at'.reader) < Phase(l, at.reader))
  }

  lemma {:induction false} Drains(crc: Crc, netFS: bool, l: Log, h: Hist, at: Place) returns (ts: seq<Try>)
    requires At(crc, l, h, at) && WithinReach(netFS, l, at.reader)
    ensures TakesAll(crc, netFS, l, h, at, ts)
    decreases l.cur - at.reader.cur, |h.frames| - at.pos, Phase(l, at.reader)
  {
    hide LogInv, ReaderInv, Attempt, WithinReach, SegTo;
    AtFacts(crc, l, h, at);
    if at.pos == |h.frames| {
      ts := [];
    } else {
      var t, at' := NextAttempt(crc, netFS, l, h, at);
      AtFacts(crc, l, h, at');
      var rest := Drains(crc, netFS, l, h, at');
      ts := [t] + rest;
      assert ts[1..] == rest;
    }
  }

  lemma StaysOutOfReach(crc: Crc, netFS: bool, l: Log, h: Hist, at: Place, t: Try, at': Place)
    requires At(crc, l, h, at) && !WithinReach(netFS, l, at.reader)
    requires Attempt(crc, netFS, l, at, t) == Some(at')
    ensures !WithinReach(netFS, l, at'.reader)
  {
    hide LogInv, ReaderInv, TryDecode, Encoder;
    AtFacts(crc, l, h, at);
    if t.TryTake? {
      TryDecodeRefines(crc, l, h, at.reader, at.pos);
    }
  }

  lemma {:induction false} NeverDrains(crc: Crc, netFS: bool, l: Log, h: Hist, at: Place, ts: seq<Try>)
    requires At(crc, l, h, at) && !WithinReach(netFS, l, at.reader)
    ensures !TakesAll(crc, netFS, l, h, at, ts)
    decreases |ts|
  {
    hide LogInv, ReaderInv, Attempt, At;
    if ts == [] {
      AtFacts(crc, l, h, at);
    } else if Attempt(crc, netFS, l, at, ts[0]).Some? {
      var at' := Attempt(crc, netFS, l, at, ts[0]).value;
      StaysOutOfReach(crc, netFS, l, h, at, ts[0], at');
      AttemptKeeps(crc, netFS, l, h, at, ts[0], at');
      NeverDrains(crc, netFS, l, h, at', ts[1..]);
    }
  }

  /** Every frame appended can still be taken exactly when the reader is within reach of the linked segments. */
  lemma DeliverableIff(crc: Crc, netFS: bool, l: Log, h: Hist, at: Place)
    requires At(crc, l, h, at)
    ensures (exists ts :: TakesAll(crc, netFS, l, h, at, ts)) <==> WithinReach(netFS, l, at.reader)
  {
    hide At, TakesAll, WithinReach;
    if WithinReach(netFS, l, at.reader) {
      var ts := Drains(crc, netFS, l, h, at);
    } else {
      forall ts
        ensures !TakesAll(crc, netFS, l, h, at, ts)
      {
        NeverDrains(crc, netFS, l, h, at, ts);
      }
    }
  }

  // ---------- what the writer must have seen acknowledged ----------

  /** A reader that may be where an acknowledgement of `acked` bytes came from. */
  ghost predicate Possible(enc: Enc, netFS: bool, l: Log, h: Hist, acked: nat, r: Reader, pos: nat) {
    && ReaderInv(enc, l, h, r, pos)
    && pos <= |h.frames| && acked <= DataIn(h.frames[..pos])
    && (!netFS && !r.isOpen ==> r.buf == [] && pos == h.starts[r.cur])
  }

  /**
   * Nothing is unlinked; or more is acknowledged than was sent before the first linked segment; or, on a
   * local filesystem, more than was sent before the last unlinked one.
   */
  ghost predicate Covered(netFS: bool, l: Log, h: Hist, acked: nat) {
    var m := FirstLinked(l);
    || m == 0
    || (&& 0 < m < |h.starts| && h.starts[m - 1] <= |h.frames| && h.starts[m] <= |h.frames|
        && (acked > DataIn(h.frames[..h.starts[m]]) || (!netFS && acked > DataIn(h.frames[..h.starts[m - 1]]))))
  }

  lemma LogFacts(enc: Enc, l: Log, h: Hist)
    requires LogInv(enc, l, h)
    ensures Shape(h) && |h.starts| == |l.segs| == l.cur + 1 && |h.ends| == l.cur && 0 <= FirstLinked(l) <= l.cur
    ensures forall i: nat :: i in l.unlinked <==> i < FirstLinked(l)
    ensures forall i :: 0 <= i < |h.ends| ==> h.ends[i] == DataIn(h.frames[..h.starts[i + 1] + 1])
  {
    hide DataIn, SegBytes, FramesOk, Sized;
  }

  lemma TakenPast(fs: seq<Frame>, pos: nat, at: nat)
    requires pos <= |fs| && at <= |fs| && DataIn(fs[..at]) < DataIn(fs[..pos])
    ensures at < pos
  {
    if pos <= at {
      PayloadSplit(fs, pos, at);
    }
  }

  lemma CoveredReaches(enc: Enc, netFS: bool, l: Log, h: Hist, acked: nat, r: Reader, pos: nat)
    requires LogInv(enc, l, h) && Covered(netFS, l, h, acked) && Possible(enc, netFS, l, h, acked, r, pos)
    ensures WithinReach(netFS, l, r)
  {
    hide LogInv, DataIn, Synced;
    LogFacts(enc, l, h);
    ReaderFacts(enc, l, h, r, pos);
    var m := FirstLinked(l);
    if m > 0 {
      if acked > DataIn(h.frames[..h.starts[m]]) {
        TakenPast(h.frames, pos, h.starts[m]);
      } else {
        TakenPast(h.frames, pos, h.starts[m - 1]);
      }
    }
  }

  lemma ReaderFacts(enc: Enc, l: Log, h: Hist, r: Reader, pos: nat)
    requires ReaderInv(enc, l, h, r, pos)
    ensures Shape(h) && r.cur < |h.starts| == l.cur + 1 && h.starts[r.cur] <= pos <= SegTo(h, r.cur) <= |h.frames|
  {
    hide SegBytes, Synced;
  }

  /** A reader that has taken all of the last unlinked segment but its ROLL, or that has not opened it yet. */
  lemma UncoveredMisses(enc: Enc, netFS: bool, l: Log, h: Hist, acked: nat) returns (r: Reader, pos: nat)
    requires LogInv(enc, l, h) && !Covered(netFS, l, h, acked)
    requires forall g :: |enc(g)| > 0
    ensures Possible(enc, netFS, l, h, acked, r, pos) && !WithinReach(netFS, l, r)
  {
    hide FramesOk, Sized, ReapOk, EndsOk, DataIn, FlatMap;
    LogFacts(enc, l, h);
    var i := FirstLinked(l) - 1;
    if netFS {
      pos := h.starts[i + 1];
      r := Reader(i, true, |Load(enc, h, i)|, []);
      assert l.segs[i] == SegBytes(enc, h, i);
      assert l.segs[i][..r.off] == Load(enc, h, i);
    } else {
      pos := h.starts[i];
      r := Reader(i, false, 0, []);
    }
  }

  /**
   * What the writer has seen acknowledged guarantees that the reader can still take everything if and
   * only if it covers the unlinked segments.
   */
  lemma ReachKnownIff(enc: Enc, netFS: bool, l: Log, h: Hist, acked: nat)
    requires LogInv(enc, l, h)
    requires forall g :: |enc(g)| > 0
    ensures (forall r, pos :: Possible(enc, netFS, l, h, acked, r, pos) ==> WithinReach(netFS, l, r))
            <==> Covered(netFS, l, h, acked)
  {
    hide LogInv, Possible, WithinReach, Covered;
    if Covered(netFS, l, h, acked) {
      forall r, pos | Possible(enc, netFS, l, h, acked, r, pos)
        ensures WithinReach(netFS, l, r)
      {
        CoveredReaches(enc, netFS, l, h, acked, r, pos);
      }
    } else {
      var r, pos := UncoveredMisses(enc, netFS, l, h, acked);
    }
  }

  ghost predicate HoldsData(h: Hist, i: nat) {
    i + 1 < |h.starts| && h.starts[i + 1] <= |h.frames|
    && exists k :: h.starts[i] <= k < h.starts[i + 1] && h.frames[k].typ == DATA
  }

  lemma {:induction false} MoreData(fs: seq<Frame>, i: nat, j: nat, maxFrame: nat)
    requires i <= j <= |fs| && Chunked(fs, maxFrame)
    ensures DataIn(fs[..i]) < DataIn(fs[..j]) <==> exists k :: i <= k < j && fs[k].typ == DATA
    decreases j - i
  {
    hide Payload;
    PayloadSplit(fs, i, j);
    if i < j {
      MoreData(fs, i + 1, j, maxFrame);
      PayloadSplit(fs, i + 1, j);
      PayloadNext(fs, i);
      assert PayloadOk(fs[i].typ, |fs[i].payload|, maxFrame);
    }
  }

  /**
   * Reaping up to a segment as soon as its recorded end is acknowledged leaves every possible reader able
   * to take everything if and only if a DATA frame made it roll, or, on a local filesystem, it holds one.
   */
  lemma ReapSafeIff(enc: Enc, netFS: bool, l: Log, h: Hist, i: nat, maxFrame: nat)
    requires LogInv(enc, l, h) && Chunked(h.frames, maxFrame) && i + 1 == FirstLinked(l)
    requires forall g :: |enc(g)| > 0
    ensures i < |h.ends| && i + 1 < |h.starts| && h.starts[i + 1] < |h.frames|
    ensures (forall r, pos :: Possible(enc, netFS, l, h, h.ends[i], r, pos) ==> WithinReach(netFS, l, r))
            <==> h.frames[h.starts[i + 1]].typ == DATA || (!netFS && HoldsData(h, i))
  {
    hide LogInv, Possible, WithinReach, DataIn;
    LogFacts(enc, l, h);
    ReachKnownIff(enc, netFS, l, h, h.ends[i]);
    var fs, t := h.frames, h.starts[i + 1];
    MoreData(fs, t, t + 1, maxFrame);
    MoreData(fs, h.starts[i], t, maxFrame);
    MoreData(fs, h.starts[i], t + 1, maxFrame);
  }
}
