/**
 * One direction of a pipe as an append-only log of segment files: what the writer does to it,
 * what a reader that sees only part of it does, and what every step keeps.
 */
module SegLog {
  import opened Bytes
  import opened Seqs
  import opened Frames

  type Enc = Frame -> seq<byte>

  datatype SegEnd = SegEnd(idx: nat, dataEnd: nat)

  /**
   * The direction directory and its writer's bookkeeping. `segs[i]` is everything ever written
   * to segment i; a name in `unlinked` can no longer be opened, though an open file stays readable.
   */
  datatype Log = Log(maxSeg: nat, cur: nat, size: nat, reapOff: seq<SegEnd>,
                     segs: seq<seq<byte>>, unlinked: set<nat>)

  // ---------- the writer ----------

  function NewLog(maxSeg: nat): Log {
    Log(maxSeg, 0, 0, [], [[]], {})
  }

  function RollFrame(next: nat): Frame {
    Frame(ROLL, 0, 0, 0, PutUint(4, next))
  }

  function Put(l: Log, b: seq<byte>): Log
    requires l.cur < |l.segs|
  {
    l.(size := l.size + |b|, segs := l.segs[l.cur := l.segs[l.cur] + b])
  }

  /** Closes the current segment with a ROLL frame and opens the next one. */
  function Roll(enc: Enc, l: Log, dataEnd: nat): Log
    requires l.cur + 1 == |l.segs|
  {
    Log(l.maxSeg, l.cur + 1, 0, l.reapOff + [SegEnd(l.cur, dataEnd)],
        l.segs[l.cur := l.segs[l.cur] + enc(RollFrame(l.cur + 1))] + [[]], l.unlinked)
  }

  predicate MustRoll(enc: Enc, l: Log, f: Frame) {
    l.size > 0 && l.size + |enc(f)| > l.maxSeg
  }

  function Append(enc: Enc, l: Log, f: Frame, dataEnd: nat): (l': Log)
    requires l.cur + 1 == |l.segs|
    ensures l'.maxSeg == l.maxSeg && l'.unlinked == l.unlinked && l'.cur + 1 == |l'.segs|
    ensures l'.cur - |l'.reapOff| == l.cur - |l.reapOff|
  {
    Put(if MustRoll(enc, l, f) then Roll(enc, l, dataEnd) else l, enc(f))
  }

  function Kept(ends: seq<SegEnd>, acked: nat): (kept: seq<SegEnd>) {
    if ends == [] then [] else
    var last := ends[|ends| - 1];
    Kept(ends[..|ends| - 1], acked) + (if last.dataEnd <= acked then [] else [last])
  }

  function Passed(ends: seq<SegEnd>, acked: nat): set<nat> {
    set e | e in ends && e.dataEnd <= acked :: e.idx
  }

  /** Unlinks every closed segment whose recorded end the acknowledgement covers. */
  function Reap(l: Log, acked: nat): Log {
    l.(reapOff := Kept(l.reapOff, acked), unlinked := l.unlinked + Passed(l.reapOff, acked))
  }

  // ---------- what was appended ----------

  /**
   * The ordinary frames appended so far; per segment, the position of its first one; and per closed
   * segment, the end recorded for reaping it.
   */
  datatype Hist = Hist(frames: seq<Frame>, starts: seq<nat>, ends: seq<nat>)

  function DataBytes(f: Frame): seq<byte> {
    if f.typ == DATA then f.payload else []
  }

  /** The DATA bytes carried by a run of frames, in order. */
  function Payload(fs: seq<Frame>): seq<byte> {
    FlatMap(DataBytes, fs)
  }

  function DataIn(fs: seq<Frame>): nat {
    |Payload(fs)|
  }

  lemma PayloadSplit(fs: seq<Frame>, i: nat, j: nat)
    requires i <= j <= |fs|
    ensures Payload(fs[..j]) == Payload(fs[..i]) + Payload(fs[i..j])
    ensures DataIn(fs[..i]) <= DataIn(fs[..j])
  {
    assert fs[..j] == fs[..i] + fs[i..j];
    FlatMapConcat(DataBytes, fs[..i], fs[i..j]);
  }

  lemma PayloadSnoc(fs: seq<Frame>, f: Frame)
    ensures Payload(fs + [f]) == Payload(fs) + DataBytes(f)
    ensures DataIn(fs + [f]) == DataIn(fs) + |DataBytes(f)|
  {
    FlatMapSnoc(DataBytes, fs, f);
  }

  lemma PayloadNext(fs: seq<Frame>, i: nat)
    requires i < |fs|
    ensures Payload(fs[..i + 1]) == Payload(fs[..i]) + DataBytes(fs[i])
  {
    assert fs[..i + 1] == fs[..i] + [fs[i]];
    FlatMapSnoc(DataBytes, fs[..i], fs[i]);
  }

  function SegTo(h: Hist, i: nat): nat
    requires i < |h.starts|
  {
    if i + 1 < |h.starts| then h.starts[i + 1] else |h.frames|
  }

  ghost predicate Shape(h: Hist) {
    && |h.starts| == |h.ends| + 1 && h.starts[0] == 0
    && (forall i :: 0 <= i < |h.starts| ==> h.starts[i] < |h.frames|)
    && (forall i, j :: 0 <= i < j < |h.starts| ==> h.starts[i] < h.starts[j])
  }

  ghost predicate FrameOk(f: Frame) {
    Fits(f) && f.typ != ROLL && (f.typ == ACK ==> |f.payload| == 8)
  }

  ghost predicate FramesOk(h: Hist) {
    forall i :: 0 <= i < |h.frames| ==> FrameOk(h.frames[i])
  }

  function Load(enc: Enc, h: Hist, i: nat): seq<byte>
    requires Shape(h) && i < |h.starts|
  {
    FlatMap(enc, h.frames[h.starts[i]..SegTo(h, i)])
  }

  /** A segment is its frames in order and, once closed, one final ROLL naming the next index. */
  function SegBytes(enc: Enc, h: Hist, i: nat): seq<byte>
    requires Shape(h) && i < |h.starts|
  {
    Load(enc, h, i) + if i + 1 < |h.starts| then enc(RollFrame(i + 1)) else []
  }

  ghost predicate Holds(enc: Enc, l: Log, h: Hist) {
    && Shape(h)
    && l.cur + 1 == |l.segs| == |h.starts|
    && l.cur < U32
    && l.size == |l.segs[l.cur]|
    && (forall i :: 0 <= i < |l.segs| ==> l.segs[i] == SegBytes(enc, h, i))
  }

  /**
   * A segment exceeds the roll size only by holding a single frame, and was closed only because the frame
   * that came next would have made it exceed the roll size.
   */
  ghost predicate Sized(enc: Enc, l: Log, h: Hist) {
    && Shape(h)
    && (forall i :: 0 <= i < |h.starts| ==> |Load(enc, h, i)| <= l.maxSeg || SegTo(h, i) == h.starts[i] + 1)
    && (forall i :: 0 <= i < |h.ends| ==> ClosedFull(enc, l.maxSeg, h, i))
  }

  /** The frame that opened the next segment would have taken this one past the roll size. */
  ghost predicate ClosedFull(enc: Enc, maxSeg: nat, h: Hist, i: nat)
    requires Shape(h) && i + 1 < |h.starts|
  {
    |Load(enc, h, i)| + |enc(h.frames[h.starts[i + 1]])| > maxSeg
  }

  /** The recorded end of a segment counts the DATA bytes up to and including the frame that made it roll. */
  ghost predicate EndsOk(h: Hist) {
    && Shape(h)
    && (forall i :: 0 <= i < |h.ends| ==> h.ends[i] == DataIn(h.frames[..h.starts[i + 1] + 1]))
  }

  /** The unlinked segments are a prefix; every other closed segment awaits reaping, in order. */
  ghost predicate ReapOk(l: Log, ends: seq<nat>) {
    && l.cur == |ends|
    && |l.reapOff| <= l.cur
    && (forall i: nat :: i in l.unlinked <==> i < FirstLinked(l))
    && (forall j :: 0 <= j < |l.reapOff| ==> l.reapOff[j] == SegEnd(FirstLinked(l) + j, ends[FirstLinked(l) + j]))
  }

  function FirstLinked(l: Log): int {
    l.cur - |l.reapOff|
  }

  ghost predicate LogInv(enc: Enc, l: Log, h: Hist) {
    Holds(enc, l, h) && FramesOk(h) && Sized(enc, l, h) && EndsOk(h) && ReapOk(l, h.ends)
  }

  // ---------- appending keeps the log ----------

  function Record(enc: Enc, l: Log, h: Hist, f: Frame): (h': Hist)
    ensures h'.frames == h.frames + [f] && h.starts <= h'.starts && h.ends <= h'.ends
  {
    if MustRoll(enc, l, f)
    then Hist(h.frames + [f], h.starts + [|h.frames|], h.ends + [DataIn(h.frames + [f])])
    else h.(frames := h.frames + [f])
  }

  lemma AppendShape(enc: Enc, l: Log, h: Hist, f: Frame)
    requires Shape(h)
    ensures Shape(Record(enc, l, h, f))
  {
  }

  lemma LoadOld(enc: Enc, l: Log, h: Hist, f: Frame, i: nat)
    requires Shape(h) && i < |h.starts|
    requires MustRoll(enc, l, f) || i + 1 < |h.starts|
    ensures Shape(Record(enc, l, h, f))
    ensures SegTo(Record(enc, l, h, f), i) == SegTo(h, i)
    ensures Load(enc, Record(enc, l, h, f), i) == Load(enc, h, i)
  {
    var h' := Record(enc, l, h, f);
    assert SegTo(h', i) == SegTo(h, i) <= |h.frames|;
    assert h'.frames[h.starts[i]..SegTo(h, i)] == h.frames[h.starts[i]..SegTo(h, i)];
  }

  lemma LoadNew(enc: Enc, l: Log, h: Hist, f: Frame)
    requires Shape(h)
    ensures Shape(Record(enc, l, h, f))
    ensures var h' := Record(enc, l, h, f);
            var last := |h'.starts| - 1;
            && SegTo(h', last) == |h.frames| + 1
            && Load(enc, h', last) ==
               (if MustRoll(enc, l, f) then [] else Load(enc, h, |h.starts| - 1)) + enc(f)
  {
    AppendShape(enc, l, h, f);
    hide FlatMap, DataIn, Shape;
    var h' := Record(enc, l, h, f);
    var from := h.starts[|h.starts| - 1];
    if MustRoll(enc, l, f) {
      assert h'.frames[|h.frames|..|h.frames| + 1] == [] + [f];
      FlatMapSnoc(enc, [], f);
    } else {
      assert h'.frames[from..|h.frames| + 1] == h.frames[from..|h.frames|] + [f];
      FlatMapSnoc(enc, h.frames[from..|h.frames|], f);
    }
  }

  lemma AppendHolds(enc: Enc, l: Log, h: Hist, f: Frame, dataEnd: nat)
    requires Holds(enc, l, h)
    requires l.cur + 1 < U32
    ensures Holds(enc, Append(enc, l, f, dataEnd), Record(enc, l, h, f))
    ensures forall i :: 0 <= i < |l.segs| ==> l.segs[i] <= Append(enc, l, f, dataEnd).segs[i]
  {
    var l', h' := Append(enc, l, f, dataEnd), Record(enc, l, h, f);
    AppendShape(enc, l, h, f);
    LoadNew(enc, l, h, f);
    forall i | 0 <= i < |l'.segs|
      ensures l'.segs[i] == SegBytes(enc, h', i)
    {
      if i < l'.cur {
        LoadOld(enc, l, h, f, i);
        assert l.segs[i] == SegBytes(enc, h, i);
      } else {
        assert l.segs[l.cur] == SegBytes(enc, h, l.cur) == Load(enc, h, l.cur);
      }
    }
  }

  lemma CurrentLoad(enc: Enc, l: Log, h: Hist)
    requires Holds(enc, l, h)
    requires forall g :: |enc(g)| > 0
    ensures |h.starts| == l.cur + 1 == |l.segs| && l.size == |Load(enc, h, l.cur)| > 0
  {
    hide FlatMap;
    assert l.segs[l.cur] == SegBytes(enc, h, l.cur) == Load(enc, h, l.cur);
    FlatMapFirst(enc, h.frames[h.starts[l.cur]..SegTo(h, l.cur)]);
  }

  lemma AppendSized(enc: Enc, l: Log, h: Hist, f: Frame, dataEnd: nat)
    requires Holds(enc, l, h) && Sized(enc, l, h)
    requires forall g :: |enc(g)| > 0
    ensures Sized(enc, Append(enc, l, f, dataEnd), Record(enc, l, h, f))
  {
    hide FlatMap, DataIn, Holds, Load;
    CurrentLoad(enc, l, h);
    var l', h' := Append(enc, l, f, dataEnd), Record(enc, l, h, f);
    AppendShape(enc, l, h, f);
    LoadNew(enc, l, h, f);
    forall i | 0 <= i < |h'.starts|
      ensures |Load(enc, h', i)| <= l'.maxSeg || SegTo(h', i) == h'.starts[i] + 1
    {
      if i < |h'.starts| - 1 {
        LoadOld(enc, l, h, f, i);
      }
    }
    forall i | 0 <= i < |h'.ends|
      ensures ClosedFull(enc, l'.maxSeg, h', i)
    {
      LoadOld(enc, l, h, f, i);
      assert i < |h.ends| ==> ClosedFull(enc, l.maxSeg, h, i);
    }
  }

  lemma AppendEndsOk(enc: Enc, l: Log, h: Hist, f: Frame)
    requires EndsOk(h)
    ensures EndsOk(Record(enc, l, h, f))
  {
    AppendShape(enc, l, h, f);
    var h' := Record(enc, l, h, f);
    forall i | 0 <= i < |h'.ends|
      ensures h'.ends[i] == DataIn(h'.frames[..h'.starts[i + 1] + 1])
    {
      var n := h'.starts[i + 1] + 1;
      assert h'.frames[..n] == if i < |h.ends| then h.frames[..n] else h.frames + [f];
    }
  }

  lemma AppendReapOk(enc: Enc, l: Log, h: Hist, f: Frame, dataEnd: nat)
    requires ReapOk(l, h.ends) && l.cur + 1 == |l.segs|
    requires dataEnd == DataIn(h.frames + [f])
    ensures ReapOk(Append(enc, l, f, dataEnd), Record(enc, l, h, f).ends)
  {
  }

  /** Appending one frame, rolling first when it must, keeps the log well formed. */
  lemma AppendKeeps(enc: Enc, l: Log, h: Hist, f: Frame, dataEnd: nat)
    requires LogInv(enc, l, h)
    requires FrameOk(f)
    requires dataEnd == DataIn(h.frames + [f])
    requires l.cur + 1 < U32
    requires forall g :: |enc(g)| > 0
    ensures LogInv(enc, Append(enc, l, f, dataEnd), Record(enc, l, h, f))
  {
    AppendHolds(enc, l, h, f, dataEnd);
    AppendSized(enc, l, h, f, dataEnd);
    AppendEndsOk(enc, l, h, f);
    AppendReapOk(enc, l, h, f, dataEnd);
  }

  /**
   * A frame that keeps the current segment within the roll size is added to it. Any other closes it, with a
   * ROLL naming the next segment and its end recorded for reaping, and is the first frame of the next one.
   */
  lemma AppendIff(enc: Enc, l: Log, h: Hist, f: Frame, dataEnd: nat)
    requires LogInv(enc, l, h)
    requires forall g :: |enc(g)| > 0
    ensures l.cur + 1 == |l.segs|
    ensures var l' := Append(enc, l, f, dataEnd);
            var last := l.segs[l.cur];
            if |last| + |enc(f)| <= l.maxSeg
            then l'.cur == l.cur && l'.segs == l.segs[l.cur := last + enc(f)] && l'.reapOff == l.reapOff
            else && l'.cur == l.cur + 1 && l'.reapOff == l.reapOff + [SegEnd(l.cur, dataEnd)]
                 && l'.segs == l.segs[l.cur := last + enc(RollFrame(l.cur + 1))] + [enc(f)]
  {
    hide FlatMap, Load, Sized, FramesOk, EndsOk, ReapOk;
    CurrentLoad(enc, l, h);
    assert [] + enc(f) == enc(f);
  }

  // ---------- how many segments ----------

  lemma UpToSegment(enc: Enc, h: Hist, j: nat)
    requires Shape(h) && j < |h.starts|
    ensures SegTo(h, j) <= |h.frames|
    ensures |FlatMap(enc, h.frames[..SegTo(h, j)])| == |FlatMap(enc, h.frames[..h.starts[j]])| + |Load(enc, h, j)|
    ensures |Load(enc, h, j)| >= |enc(h.frames[h.starts[j]])|
  {
    hide FlatMap;
    var from, to := h.starts[j], SegTo(h, j);
    assert h.frames[..to] == h.frames[..from] + h.frames[from..to];
    FlatMapConcat(enc, h.frames[..from], h.frames[from..to]);
    FlatMapFirst(enc, h.frames[from..to]);
  }

  lemma {:induction false} TwoSegmentsFill(enc: Enc, l: Log, h: Hist, j: nat)
    requires Sized(enc, l, h) && j < |h.starts|
    ensures SegTo(h, j) <= |h.frames|
    ensures j > 0 ==> (j + 1) / 2 * l.maxSeg < |FlatMap(enc, h.frames[..SegTo(h, j)])|
  {
    hide FlatMap, Load;
    UpToSegment(enc, h, j);
    if j > 0 {
      UpToSegment(enc, h, j - 1);
      assert ClosedFull(enc, l.maxSeg, h, j - 1);
      if j > 1 {
        TwoSegmentsFill(enc, l, h, j - 2);
        assert (j + 1) / 2 * l.maxSeg == (j - 1) / 2 * l.maxSeg + l.maxSeg by { OneMore((j - 1) / 2, l.maxSeg); }
      }
    }
  }

  lemma OneMore(k: nat, m: nat)
    ensures (k + 1) * m == k * m + m
  {
  }

  /** Frames that fit one segment stay in one, and every two segments hold more than the roll size between them. */
  lemma SegmentsFill(enc: Enc, l: Log, h: Hist)
    requires LogInv(enc, l, h)
    ensures l.cur > 0 ==> (l.cur + 1) / 2 * l.maxSeg < |FlatMap(enc, h.frames)|
    ensures |FlatMap(enc, h.frames)| <= l.maxSeg ==> |l.segs| == 1
  {
    hide FlatMap, Load, Sized, FramesOk, EndsOk, ReapOk, SegBytes;
    TwoSegmentsFill(enc, l, h, l.cur);
    assert h.frames[..|h.frames|] == h.frames;
    if l.cur > 0 {
      AtLeastOne((l.cur + 1) / 2, l.maxSeg);
    }
  }

  lemma AtLeastOne(k: nat, m: nat)
    requires k > 0
    ensures k * m >= m
  {
    OneMore(k - 1, m);
  }

  // ---------- reaping keeps the log ----------

  lemma {:induction false} KeptTail(ends: seq<SegEnd>, acked: nat) returns (n: nat)
    requires forall i, j :: 0 <= i < j < |ends| ==> ends[i].dataEnd <= ends[j].dataEnd
    ensures n <= |ends|
    ensures Kept(ends, acked) == ends[n..]
    ensures forall i :: 0 <= i < |ends| ==> (ends[i].dataEnd <= acked <==> i < n)
  {
    if ends == [] {
      n := 0;
    } else {
      var init, last := ends[..|ends| - 1], ends[|ends| - 1];
      assert forall i :: 0 <= i < |init| ==> init[i] == ends[i];
      n := KeptTail(init, acked);
      assert n < |init| ==> init[n].dataEnd <= last.dataEnd;
      if last.dataEnd <= acked {
        assert n == |init| && init[n..] == [];
        n := |ends|;
      } else {
        assert ends[n..] == init[n..] + [last];
      }
    }
  }

  ghost predicate Ascending(ends: seq<nat>) {
    forall i, j :: 0 <= i < j < |ends| ==> ends[i] <= ends[j]
  }

  lemma EndsAscend(h: Hist)
    requires EndsOk(h)
    ensures Ascending(h.ends)
  {
    forall i, j | 0 <= i < j < |h.ends|
      ensures h.ends[i] <= h.ends[j]
    {
      PayloadSplit(h.frames, h.starts[i + 1] + 1, h.starts[j + 1] + 1);
    }
  }

  lemma PassedIsRange(ends: seq<SegEnd>, lo: nat, acked: nat, n: nat)
    requires n <= |ends|
    requires forall j :: 0 <= j < |ends| ==> ends[j].idx == lo + j
    requires forall j :: 0 <= j < |ends| ==> (ends[j].dataEnd <= acked <==> j < n)
    ensures forall i: nat :: i in Passed(ends, acked) <==> lo <= i < lo + n
  {
    forall i: nat
      ensures i in Passed(ends, acked) <==> lo <= i < lo + n
    {
      if lo <= i < lo + n {
        assert ends[i - lo] in ends;
      }
    }
  }

  lemma ReapReapOk(l: Log, ends: seq<nat>, acked: nat)
    requires ReapOk(l, ends) && Ascending(ends)
    ensures ReapOk(Reap(l, acked), ends)
    ensures FirstLinked(l) <= FirstLinked(Reap(l, acked)) <= l.cur
    ensures forall i :: FirstLinked(l) <= i < l.cur ==>
              (i < FirstLinked(Reap(l, acked)) <==> ends[i] <= acked)
  {
    hide Kept, Passed;
    var lo := FirstLinked(l);
    var n := ReapedCount(l, ends, acked);
    PassedIsRange(l.reapOff, lo, acked, n);
    var l' := Reap(l, acked);
    assert FirstLinked(l') == lo + n;
    assert forall j :: 0 <= j < |l'.reapOff| ==> l'.reapOff[j] == l.reapOff[n + j];
  }

  /** How many of the segments awaiting reaping an acknowledgement covers: the first n. */
  lemma ReapedCount(l: Log, ends: seq<nat>, acked: nat) returns (n: nat)
    requires ReapOk(l, ends) && Ascending(ends)
    ensures n <= |l.reapOff| && Kept(l.reapOff, acked) == l.reapOff[n..]
    ensures forall j :: 0 <= j < |l.reapOff| ==> (l.reapOff[j].dataEnd <= acked <==> j < n)
    ensures forall i :: FirstLinked(l) <= i < l.cur ==> (i < FirstLinked(l) + n <==> ends[i] <= acked)
  {
    hide Kept;
    var lo := FirstLinked(l);
    n := KeptTail(l.reapOff, acked);
    forall i | lo <= i < l.cur
      ensures i < lo + n <==> ends[i] <= acked
    {
      assert l.reapOff[i - lo] == SegEnd(lo + (i - lo), ends[lo + (i - lo)]);
    }
  }

  /** Reaping removes a prefix of the closed segments, exactly those whose recorded end is covered. */
  lemma ReapKeeps(enc: Enc, l: Log, h: Hist, acked: nat)
    requires LogInv(enc, l, h)
    ensures LogInv(enc, Reap(l, acked), h)
    ensures FirstLinked(l) <= FirstLinked(Reap(l, acked)) <= l.cur
    ensures forall i :: FirstLinked(l) <= i < l.cur ==>
              (i < FirstLinked(Reap(l, acked)) <==> h.ends[i] <= acked)
  {
    EndsAscend(h);
    ReapReapOk(l, h.ends, acked);
  }

  // ---------- the reader ----------

  datatype Reader = Reader(cur: nat, isOpen: bool, off: nat, buf: seq<byte>)

  const NEW_READER := Reader(0, false, 0, [])

  function OpenSeg(r: Reader): Reader {
    r.(isOpen := true, off := 0)
  }

  /** A read that gets the bytes of the current segment between the reader's offset and `size`. */
  function Fill(l: Log, r: Reader, size: nat): Reader
    requires r.cur < |l.segs| && r.off <= size <= |l.segs[r.cur]|
  {
    r.(buf := r.buf + l.segs[r.cur][r.off..size], off := size)
  }

  function LoseFile(r: Reader): Reader {
    r.(isOpen := false)
  }

  datatype Outcome = Got(frame: Frame) | Rolled | NeedMore | Broken

  /** One attempt to take a frame from the carry-over bytes; a ROLL moves to the segment it names. */
  function TryDecode(crc: Crc, r: Reader): (Reader, Outcome) {
    match Decode(crc, r.buf)
    case Decoded(f, n) =>
      var rest := r.(buf := r.buf[n..]);
      if f.typ != ROLL then (rest, Got(f))
      else if |f.payload| != 4 then (rest, Broken)
      else (Reader(GetUint(f.payload), false, r.off, []), Rolled)
    case Corrupt => (r, Broken)
    case Incomplete => (r, NeedMore)
  }

  /** What a reader cannot go on from: bytes that are no frame, or a ROLL that does not name a segment. */
  ghost predicate Unusable(crc: Crc, buf: seq<byte>) {
    Garbled(crc, buf) || exists f :: Fits(f) && Encode(crc, f) <= buf && f.typ == ROLL && |f.payload| != 4
  }

  /**
   * On any bytes whatever, a decode fails exactly on unusable ones; it returns exactly the frame encoded at
   * their front when that is no ROLL, dropping its bytes; and it asks for more without losing any.
   */
  lemma TryDecodeIff(crc: Crc, r: Reader, f: Frame)
    ensures var (r', out) := TryDecode(crc, r);
            && (out == Broken <==> Unusable(crc, r.buf))
            && (out == Got(f) <==> Fits(f) && Encode(crc, f) <= r.buf && f.typ != ROLL)
            && (out == Got(f) ==> r' == r.(buf := r.buf[|Encode(crc, f)|..]))
            && (out == NeedMore ==> r' == r)
  {
    hide Encode, Garbled, Fits, Decode;
    CorruptIff(crc, r.buf);
    if Decode(crc, r.buf).Decoded? {
      DecodeSound(crc, r.buf);
      var g, n := Decode(crc, r.buf).frame, Decode(crc, r.buf).used;
      DecodeExact(crc, r.buf, g, n);
    }
    forall g | Fits(g) && Encode(crc, g) <= r.buf
      ensures Decode(crc, r.buf) == Decoded(g, |Encode(crc, g)|)
    {
      DecodeWhole(crc, g, r.buf);
    }
  }

  /** The frames taken from the current segment, then the carry-over, are what was read of it. */
  ghost predicate Synced(enc: Enc, l: Log, h: Hist, r: Reader, pos: nat) {
    && Holds(enc, l, h)
    && r.cur < |l.segs|
    && h.starts[r.cur] <= pos <= SegTo(h, r.cur)
    && r.off <= |l.segs[r.cur]|
    && FlatMap(enc, h.frames[h.starts[r.cur]..pos]) + r.buf == l.segs[r.cur][..r.off]
  }

  /** `pos` frames have been taken in all; a closed reader is at a segment's start or cannot reopen it. */
  ghost predicate ReaderInv(enc: Enc, l: Log, h: Hist, r: Reader, pos: nat) {
    && Holds(enc, l, h)
    && r.cur < |l.segs|
    && h.starts[r.cur] <= pos <= SegTo(h, r.cur)
    && (r.isOpen ==> Synced(enc, l, h, r, pos))
    && (!r.isOpen ==> (r.buf == [] && pos == h.starts[r.cur]) || r.cur in l.unlinked)
  }

  lemma OpenKeeps(enc: Enc, l: Log, h: Hist, r: Reader, pos: nat)
    requires ReaderInv(enc, l, h, r, pos)
    requires !r.isOpen && r.cur !in l.unlinked
    ensures ReaderInv(enc, l, h, OpenSeg(r), pos)
  {
    assert h.frames[h.starts[r.cur]..pos] == [];
  }

  lemma LoseKeeps(enc: Enc, l: Log, h: Hist, r: Reader, pos: nat)
    requires ReaderInv(enc, l, h, r, pos)
    requires r.cur in l.unlinked
    ensures ReaderInv(enc, l, h, LoseFile(r), pos)
  {
  }

  lemma FillKeeps(enc: Enc, l: Log, h: Hist, r: Reader, pos: nat, size: nat)
    requires ReaderInv(enc, l, h, r, pos)
    requires r.isOpen && r.off <= size <= |l.segs[r.cur]|
    ensures ReaderInv(enc, l, h, Fill(l, r, size), pos)
  {
    var seg := l.segs[r.cur];
    assert seg[..size] == seg[..r.off] + seg[r.off..size];
  }

  lemma AppendKeepsSynced(enc: Enc, l: Log, h: Hist, l': Log, h': Hist, r: Reader, pos: nat)
    requires Synced(enc, l, h, r, pos) && Holds(enc, l', h')
    requires h.frames <= h'.frames && h.starts <= h'.starts && SegTo(h, r.cur) <= SegTo(h', r.cur)
    requires l.segs[r.cur] <= l'.segs[r.cur]
    ensures Synced(enc, l', h', r, pos)
  {
    assert l'.segs[r.cur][..r.off] == l.segs[r.cur][..r.off];
    assert h'.frames[h.starts[r.cur]..pos] == h.frames[h.starts[r.cur]..pos];
  }

  /** The reader's view survives every append to the log it reads. */
  lemma AppendKeepsReader(enc: Enc, l: Log, h: Hist, f: Frame, dataEnd: nat, r: Reader, pos: nat)
    requires ReaderInv(enc, l, h, r, pos)
    requires l.cur + 1 < U32
    ensures ReaderInv(enc, Append(enc, l, f, dataEnd), Record(enc, l, h, f), r, pos)
  {
    var l', h' := Append(enc, l, f, dataEnd), Record(enc, l, h, f);
    AppendHolds(enc, l, h, f, dataEnd);
    assert l'.unlinked == l.unlinked;
    assert SegTo(h, r.cur) <= SegTo(h', r.cur);
    if r.isOpen {
      AppendKeepsSynced(enc, l, h, l', h', r, pos);
    }
  }

  lemma ReapKeepsReader(enc: Enc, l: Log, h: Hist, acked: nat, r: Reader, pos: nat)
    requires ReaderInv(enc, l, h, r, pos)
    ensures ReaderInv(enc, Reap(l, acked), h, r, pos)
  {
  }

  /** What is left to decode in the current segment after `pos` frames. */
  function Left(enc: Enc, h: Hist, cur: nat, pos: nat): seq<byte>
    requires Shape(h) && cur < |h.starts| && h.starts[cur] <= pos <= SegTo(h, cur)
  {
    FlatMap(enc, h.frames[pos..SegTo(h, cur)]) + if cur + 1 < |h.starts| then enc(RollFrame(cur + 1)) else []
  }

  lemma SegmentSplits(enc: Enc, h: Hist, cur: nat, pos: nat)
    requires Shape(h) && cur < |h.starts| && h.starts[cur] <= pos <= SegTo(h, cur)
    ensures SegBytes(enc, h, cur) == FlatMap(enc, h.frames[h.starts[cur]..pos]) + Left(enc, h, cur, pos)
  {
    var from, to := h.starts[cur], SegTo(h, cur);
    var done, todo := h.frames[from..pos], h.frames[pos..to];
    assert h.frames[from..to] == done + todo;
    FlatMapConcat(enc, done, todo);
    Assoc(FlatMap(enc, done), FlatMap(enc, todo), if cur + 1 < |h.starts| then enc(RollFrame(cur + 1)) else []);
  }

  lemma BufIsPrefixOfLeft(enc: Enc, l: Log, h: Hist, r: Reader, pos: nat)
    requires Synced(enc, l, h, r, pos)
    ensures r.buf <= Left(enc, h, r.cur, pos)
    ensures r.off == |l.segs[r.cur]| <==> r.buf == Left(enc, h, r.cur, pos)
  {
    SegmentSplits(enc, h, r.cur, pos);
    PrefixSplit(FlatMap(enc, h.frames[h.starts[r.cur]..pos]), Left(enc, h, r.cur, pos), r.buf, l.segs[r.cur], r.off);
  }

  lemma PrefixSplit(done: seq<byte>, left: seq<byte>, buf: seq<byte>, seg: seq<byte>, off: nat)
    requires seg == done + left && off <= |seg| && done + buf == seg[..off]
    ensures buf <= left
    ensures off == |seg| <==> buf == left
  {
    assert buf == seg[..off][|done|..];
    assert left == seg[|done|..];
  }

  lemma LeftBegins(enc: Enc, h: Hist, cur: nat, pos: nat) returns (rest: seq<byte>)
    requires Shape(h) && cur < |h.starts| && h.starts[cur] <= pos < SegTo(h, cur)
    ensures Left(enc, h, cur, pos) == enc(h.frames[pos]) + rest
  {
    var todo := h.frames[pos..SegTo(h, cur)];
    FlatMapFirst(enc, todo);
    rest := FlatMap(enc, todo[1..]) + if cur + 1 < |h.starts| then enc(RollFrame(cur + 1)) else [];
  }

  function NextFrame(h: Hist, cur: nat, pos: nat): Frame
    requires cur < |h.starts|
  {
    if pos < SegTo(h, cur) && pos < |h.frames| then h.frames[pos] else RollFrame(cur + 1)
  }

  lemma DecodeAt(crc: Crc, l: Log, h: Hist, r: Reader, pos: nat)
    requires Synced(Encoder(crc), l, h, r, pos) && FramesOk(h)
    ensures var n := |Encode(crc, NextFrame(h, r.cur, pos))|;
            if pos == SegTo(h, r.cur) && r.cur == l.cur
            then Decode(crc, r.buf) == Incomplete
            else if |r.buf| < n
            then Decode(crc, r.buf) == Incomplete && r.off < |l.segs[r.cur]|
            else && Decode(crc, r.buf) == Decoded(NextFrame(h, r.cur, pos), n)
                 && (pos == SegTo(h, r.cur) ==> r.off == |l.segs[r.cur]|)
  {
    var enc := Encoder(crc);
    BufIsPrefixOfLeft(enc, l, h, r, pos);
    var f := NextFrame(h, r.cur, pos);
    if pos < SegTo(h, r.cur) {
      assert FrameOk(h.frames[pos]);
      var rest := LeftBegins(enc, h, r.cur, pos);
      DecodePrefix(crc, f, rest, r.buf);
    } else {
      assert h.frames[pos..SegTo(h, r.cur)] == [];
      if r.cur < l.cur {
        assert Left(enc, h, r.cur, pos) == Encode(crc, f) + [];
        DecodePrefix(crc, f, [], r.buf);
      } else {
        assert Left(enc, h, r.cur, pos) == [];
        assert r.buf == [];
      }
    }
  }

  lemma TakeKeeps(enc: Enc, l: Log, h: Hist, r: Reader, pos: nat, rest: seq<byte>)
    requires Synced(enc, l, h, r, pos)
    requires pos < SegTo(h, r.cur) && r.buf == enc(h.frames[pos]) + rest
    ensures Synced(enc, l, h, r.(buf := rest), pos + 1)
  {
    hide FlatMap, SegBytes;
    var from := h.starts[r.cur];
    SliceSnoc(h.frames, from, pos);
    FlatMapSnoc(enc, h.frames[from..pos], h.frames[pos]);
    Assoc(FlatMap(enc, h.frames[from..pos]), enc(h.frames[pos]), rest);
  }

  lemma RollNames(i: nat)
    requires i < U32
    ensures GetUint(RollFrame(i).payload) == i && |RollFrame(i).payload| == 4
  {
    Pow256Values();
    GetPut(4, i);
  }

  /**
   * Torn-tail refinement, one decode at a time: whatever part of the segment is visible, the reader
   * takes exactly the next frame appended, or follows the segment's ROLL, or waits; it never fails,
   * and it waits on a wholly read segment only when every frame appended has been taken.
   */
  lemma TryDecodeRefines(crc: Crc, l: Log, h: Hist, r: Reader, pos: nat)
    requires ReaderInv(Encoder(crc), l, h, r, pos) && FramesOk(h) && r.isOpen
    ensures var (r', out) := TryDecode(crc, r);
            match out
            case Broken => false
            case Got(f) => pos < SegTo(h, r.cur) && f == h.frames[pos] && r' == r.(buf := r'.buf)
                           && ReaderInv(Encoder(crc), l, h, r', pos + 1)
            case Rolled => r.cur < l.cur && pos == h.starts[r.cur + 1] && r' == Reader(r.cur + 1, false, r.off, [])
                           && r.off == |l.segs[r.cur]|
                           && ReaderInv(Encoder(crc), l, h, r', pos)
            case NeedMore => r' == r && (r.off == |l.segs[r.cur]| ==> r.cur == l.cur && pos == |h.frames|)
  {
    hide Decode, Encoder, Encode, Fits, SegBytes, FlatMap;
    DecodeAt(crc, l, h, r, pos);
    if r.cur < l.cur {
      RollNames(r.cur + 1);
    }
    if Decode(crc, r.buf).Decoded? && pos < SegTo(h, r.cur) {
      GotKeeps(crc, l, h, r, pos);
    }
  }

  lemma GotKeeps(crc: Crc, l: Log, h: Hist, r: Reader, pos: nat)
    requires Synced(Encoder(crc), l, h, r, pos) && pos < SegTo(h, r.cur)
    requires Decode(crc, r.buf).Decoded? && Decode(crc, r.buf).frame == h.frames[pos]
    ensures Synced(Encoder(crc), l, h, r.(buf := r.buf[Decode(crc, r.buf).used..]), pos + 1)
  {
    hide Synced, Encode;
    DecodeSound(crc, r.buf);
    var n := Decode(crc, r.buf).used;
    assert r.buf == r.buf[..n] + r.buf[n..];
    TakeKeeps(Encoder(crc), l, h, r, pos, r.buf[n..]);
  }
}
