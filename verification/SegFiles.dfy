/** The segment writer and the segment reader as the objects the source updates in place. */
module SegFiles {
  import opened Bytes
  import opened Frames
  import opened SegLog
  import opened Drain

  /** One direction's directory on the shared filesystem. */
  class Directory {
    var segs: seq<seq<byte>>
    var unlinked: set<nat>

    constructor ()
      ensures segs == [] && unlinked == {}
    {
      segs, unlinked := [], {};
    }
  }

  class SegWriter {
    const crc: Crc
    const maxSeg: nat
    const dir: Directory
    var cur: nat
    var size: nat
    var closed: bool
    var reapOff: seq<SegEnd>

    ghost predicate Valid()
      reads this, dir
    {
      cur + 1 == |dir.segs|
    }

    ghost function Contents(): Log
      reads this, dir
    {
      Log(maxSeg, cur, size, reapOff, dir.segs, dir.unlinked)
    }

    constructor (crc: Crc, dir: Directory, maxSeg: nat)
      requires dir.segs == [] && dir.unlinked == {}
      modifies dir
      ensures Valid() && this.dir == dir && this.crc == crc && !closed
      ensures Contents() == NewLog(maxSeg)
    {
      this.crc, this.dir, this.maxSeg := crc, dir, maxSeg;
      cur, size, reapOff, closed := 0, 0, [], false;
      new;
      dir.segs := dir.segs + [[]];
    }

    /** Writes one frame, rolling first if it would push the current segment past the roll size. */
    method Append(f: Frame, dataEnd: nat) returns (ok: bool)
      requires Valid()
      modifies this`cur, this`size, this`reapOff, dir`segs
      ensures Valid() && ok == !closed
      ensures Contents() == if ok then SegLog.Append(Encoder(crc), old(Contents()), f, dataEnd) else old(Contents())
      ensures cur == old(cur) + if ok && old(size) > 0 && old(size) + |Encode(crc, f)| > maxSeg then 1 else 0
    {
      if closed {
        return false;
      }
      var enc := AppendTo(crc, f, []);
      assert enc == Encoder(crc)(f);
      if size > 0 && size + |enc| > maxSeg {
        Roll(dataEnd);
      }
      dir.segs := dir.segs[cur := dir.segs[cur] + enc];
      size := size + |enc|;
      ok := true;
    }

    /** Closes the current segment with a ROLL frame and opens the next. */
    method Roll(dataEnd: nat)
      requires Valid()
      modifies this`cur, this`size, this`reapOff, dir`segs
      ensures Valid()
      ensures Contents() == SegLog.Roll(Encoder(crc), old(Contents()), dataEnd)
    {
      var next := cur + 1;
      var roll := AppendTo(crc, RollFrame(next), []);
      assert roll == Encoder(crc)(RollFrame(next));
      dir.segs := dir.segs[cur := dir.segs[cur] + roll];
      reapOff := reapOff + [SegEnd(cur, dataEnd)];
      cur := next;
      dir.segs := dir.segs + [[]];
      size := 0;
    }

    /** Unlinks every closed segment whose recorded end is acknowledged. */
    method Reap(acked: nat)
      requires Valid()
      modifies this`reapOff, dir`unlinked
      ensures Valid()
      ensures Contents() == SegLog.Reap(old(Contents()), acked)
    {
      NothingPassed(acked);
      hide Kept, Passed;
      var kept: seq<SegEnd> := [];
      var i := 0;
      while i < |reapOff|
        invariant 0 <= i <= |reapOff| && reapOff == old(reapOff)
        invariant kept == Kept(reapOff[..i], acked)
        invariant dir.unlinked == old(dir.unlinked) + Passed(reapOff[..i], acked)
        modifies dir`unlinked
      {
        var s := reapOff[i];
        assert reapOff[..i + 1] == reapOff[..i] + [s];
        PassedSnoc(reapOff[..i], s, acked);
        if s.dataEnd <= acked {
          dir.unlinked := dir.unlinked + {s.idx};
        } else {
          kept := kept + [s];
        }
        i := i + 1;
      }
      assert reapOff[..i] == reapOff;
      reapOff := kept;
    }

    method Close()
      modifies this`closed
      ensures closed
    {
      closed := true;
    }
  }

  lemma NothingPassed(acked: nat)
    ensures Passed([], acked) == {} && Kept([], acked) == []
  {
  }

  lemma PassedSnoc(ends: seq<SegEnd>, s: SegEnd, acked: nat)
    ensures Passed(ends + [s], acked) == Passed(ends, acked) + if s.dataEnd <= acked then {s.idx} else {}
    ensures Kept(ends + [s], acked) == Kept(ends, acked) + if s.dataEnd <= acked then [] else [s]
  {
    if s.dataEnd <= acked {
      assert s in ends + [s];
    }
    forall i | i in Passed(ends, acked)
      ensures i in Passed(ends + [s], acked)
    {
      var e :| e in ends && e.dataEnd <= acked && e.idx == i;
      assert e in ends + [s];
    }
  }

  // ---------- the reader ----------

  /** What one look at the filesystem shows: whether the name was found, and how long the file was. */
  datatype Sight = Sight(found: bool, size: nat)

  datatype NextResult = Taken(frame: Frame) | Wait | NotExist | Unreadable

  class SegReader {
    const crc: Crc
    const netFS: bool
    var cur: nat
    var isOpen: bool
    var off: nat
    var buf: seq<byte>

    ghost function State(): Reader
      reads this
    {
      Reader(cur, isOpen, off, buf)
    }

    constructor (crc: Crc, netFS: bool)
      ensures State() == NEW_READER && this.crc == crc && this.netFS == netFS
    {
      this.crc, this.netFS := crc, netFS;
      cur, isOpen, off, buf := 0, false, 0, [];
    }

    /** Closes the file it holds open, if any. */
    method Close()
      modifies this
      ensures State() == LoseFile(old(State()))
    {
      isOpen := false;
    }

    /** Opens the current segment if it is visible. */
    method Open(dir: Directory, sight: Sight) returns (ok: bool)
      requires !isOpen
      modifies this
      ensures ok ==> cur < |dir.segs| && cur !in dir.unlinked && State() == OpenSeg(old(State()))
      ensures !ok ==> State() == old(State())
      ensures ok == (sight.found && cur < |dir.segs| && cur !in dir.unlinked)
    {
      ok := sight.found && cur < |dir.segs| && cur !in dir.unlinked;
      if ok {
        isOpen, off := true, 0;
      }
    }

    /** Reads what has become visible past the offset; on a network filesystem reopens by name first. */
    method Fill(dir: Directory, sight: Sight) returns (grew: bool)
      requires isOpen && cur < |dir.segs| && off <= |dir.segs[cur]|
      modifies this
      ensures cur == old(cur) && old(off) <= off <= |dir.segs[cur]|
      ensures grew == (!(netFS && cur in dir.unlinked) && off > old(off))
      ensures grew ==> off == (if sight.size < |dir.segs[cur]| then sight.size else |dir.segs[cur]|)
      ensures State() == if netFS && cur in dir.unlinked then LoseFile(old(State()))
                         else SegLog.Fill(Dirs(dir), old(State()), off)
      ensures !grew && !(netFS && cur in dir.unlinked) ==>
                State() == old(State()) && (sight.size <= off || off == |dir.segs[cur]|)
    {
      if netFS && cur in dir.unlinked {
        isOpen := false;
        return false;
      }
      var size := if sight.size < |dir.segs[cur]| then sight.size else |dir.segs[cur]|;
      if size <= off {
        assert dir.segs[cur][off..off] == [];
        return false;
      }
      buf := buf + dir.segs[cur][off..size];
      off := size;
      grew := true;
    }

    /** One decode of the carry-over bytes, following a ROLL to the segment it names. */
    method TakeBuffered() returns (out: Outcome)
      modifies this
      ensures (State(), out) == TryDecode(crc, old(State()))
      ensures out == Broken <==> Unusable(crc, old(buf))
    {
      TryDecodeIff(crc, State(), RollFrame(0));
      match Decode(crc, buf) {
        case Decoded(f, n) =>
          buf := buf[n..];
          if f.typ != ROLL {
            return Got(f);
          }
          if |f.payload| != 4 {
            return Broken;
          }
          cur, isOpen, buf := GetUint(f.payload), false, [];
          return Rolled;
        case Corrupt =>
          return Broken;
        case Incomplete =>
          return NeedMore;
      }
    }

    /** Each pass opens the segment if need be, takes a frame or follows a ROLL, and otherwise reads more. */
    method Follow(dir: Directory, env: seq<Sight>, ghost l: Log) returns (res: NextResult)
      requires l.segs == dir.segs && l.unlinked == dir.unlinked
      requires isOpen ==> cur < |dir.segs| && off <= |dir.segs[cur]|
      modifies this
      ensures (State(), res) == NextOn(crc, netFS, l, old(State()), env)
    {
      hide TryDecode, Unusable, NextOn;
      var i := 0;
      assert env[0..] == env;
      while true
        invariant i <= |env|
        invariant isOpen ==> cur < |dir.segs| && off <= |dir.segs[cur]|
        invariant NextOn(crc, netFS, l, State(), env[i..]) == NextOn(crc, netFS, l, old(State()), env)
        decreases |env| - i, isOpen
      {
        if !isOpen {
          NextClosed(crc, netFS, l, State(), env, i);
          if i == |env| {
            return NotExist;
          }
          var found := Open(dir, env[i]);
          i := i + 1;
          if !found {
            return NotExist;
          }
        }
        NextOpen(crc, netFS, l, State(), env, i);
        var out := TakeBuffered();
        match out {
          case Got(f) =>
            return Taken(f);
          case Rolled =>
          case Broken =>
            return Unreadable;
          case NeedMore =>
            if i == |env| {
              return Wait;
            }
            var grew := Fill(dir, env[i]);
            i := i + 1;
            if !grew {
              return Wait;
            }
        }
      }
    }

    /**
     * One call of next; `env` is what successive looks at the filesystem show. Whatever bytes the directory
     * holds, it fails exactly when the carry-over it comes to a stop at is unusable, and returns exactly the
     * frame at the front of it. On a log that a writer appended to it never fails; the frame returned is the
     * next one appended, whatever was visible; and when everything is visible, three looks are enough,
     * provided the reader is within reach of the linked segments.
     */
    method Next(dir: Directory, env: seq<Sight>, ghost l: Log, ghost h: Hist, ghost pos: nat) returns (res: NextResult)
      requires l.segs == dir.segs && l.unlinked == dir.unlinked
      requires isOpen ==> cur < |dir.segs| && off <= |dir.segs[cur]|
      modifies this
      ensures res == Unreadable <==> Unusable(crc, StopsAt(crc, netFS, l, old(State()), env))
      ensures res.Taken? <==> TakesFrom(crc, StopsAt(crc, netFS, l, old(State()), env))
      ensures res.Taken? ==> Encode(crc, res.frame) + buf == StopsAt(crc, netFS, l, old(State()), env)
      ensures At(crc, l, h, Place(old(State()), pos)) ==>
                && !res.Unreadable?
                && (res.Taken? ==> && pos < |h.frames| && res.frame == h.frames[pos]
                                   && At(crc, l, h, Place(State(), pos + 1)))
                && (!res.Taken? ==> At(crc, l, h, Place(State(), pos)))
      ensures At(crc, l, h, Place(old(State()), pos)) && WithinReach(netFS, l, old(State())) && pos < |h.frames| ==>
                (SeesAll(env, l) && |env| >= 3 ==> res.Taken?)
    {
      hide At, TryDecode, WithinReach, SeesAll, Unusable, TakesFrom, Encode, NextOn, StopsAt;
      NextStops(crc, netFS, l, State(), env);
      if At(crc, l, h, Place(State(), pos)) {
        NeedAtMostThree(crc, netFS, l, h, State(), pos);
        NextRefines(crc, netFS, l, h, State(), pos, env);
      }
      res := Follow(dir, env, l);
    }
  }

  // ---------- what a call of next comes to, whatever the directory holds ----------

  ghost predicate Opens(l: Log, r: Reader, sight: Sight) {
    sight.found && r.cur < |l.segs| && r.cur !in l.unlinked
  }

  ghost function Visible(l: Log, cur: nat, sight: Sight): nat
    requires cur < |l.segs|
  {
    if sight.size < |l.segs[cur]| then sight.size else |l.segs[cur]|
  }

  ghost predicate Grows(netFS: bool, l: Log, r: Reader, sight: Sight)
    requires r.cur < |l.segs|
  {
    !(netFS && r.cur in l.unlinked) && r.off < Visible(l, r.cur, sight)
  }

  /** The reader after one call of next, and what the call returns. */
  ghost function NextOn(crc: Crc, netFS: bool, l: Log, r: Reader, env: seq<Sight>): (Reader, NextResult)
    decreases |env|, r.isOpen
  {
    if !r.isOpen then
      if env != [] && Opens(l, r, env[0]) then NextOn(crc, netFS, l, OpenSeg(r), env[1..]) else (r, NotExist)
    else
      var (r', out) := TryDecode(crc, r);
      match out
      case Got(f) => (r', Taken(f))
      case Broken => (r', Unreadable)
      case Rolled => NextOn(crc, netFS, l, LoseFile(r'), env)
      case NeedMore =>
        if env == [] || r.cur >= |l.segs| then (r, Wait)
        else if netFS && r.cur in l.unlinked then (LoseFile(r), Wait)
        else if !Grows(netFS, l, r, env[0]) then (r, Wait)
        else NextOn(crc, netFS, l, SegLog.Fill(l, r, Visible(l, r.cur, env[0])), env[1..])
  }

  lemma NextClosed(crc: Crc, netFS: bool, l: Log, r: Reader, env: seq<Sight>, i: nat)
    requires !r.isOpen && i <= |env|
    ensures NextOn(crc, netFS, l, r, env[i..]) ==
            if i < |env| && Opens(l, r, env[i]) then NextOn(crc, netFS, l, OpenSeg(r), env[i + 1..]) else (r, NotExist)
  {
    assert i < |env| ==> env[i..][1..] == env[i + 1..];
  }

  lemma NextOpen(crc: Crc, netFS: bool, l: Log, r: Reader, env: seq<Sight>, i: nat)
    requires r.isOpen && i <= |env| && r.cur < |l.segs|
    ensures var (r', out) := TryDecode(crc, r);
            && (out.Got? ==> NextOn(crc, netFS, l, r, env[i..]) == (r', Taken(out.frame)))
            && (out == Broken ==> NextOn(crc, netFS, l, r, env[i..]) == (r', Unreadable))
            && (out == Rolled ==>
                  !r'.isOpen && NextOn(crc, netFS, l, r, env[i..]) == NextOn(crc, netFS, l, r', env[i..]))
            && (out == NeedMore && !(i < |env| && Grows(netFS, l, r, env[i])) ==>
                  NextOn(crc, netFS, l, r, env[i..]) ==
                  (if i < |env| && netFS && r.cur in l.unlinked then LoseFile(r) else r, Wait))
            && (out == NeedMore && i < |env| && Grows(netFS, l, r, env[i]) ==>
                  NextOn(crc, netFS, l, r, env[i..]) ==
                  NextOn(crc, netFS, l, SegLog.Fill(l, r, Visible(l, r.cur, env[i])), env[i + 1..]))
            && (out == NeedMore ==> r' == r)
  {
    hide Decode, GetUint;
    assert i < |env| ==> env[i..][1..] == env[i + 1..];
  }

  /** The carry-over a call of next comes to a stop at, taking the looks it needs from `env`. */
  ghost function StopsAt(crc: Crc, netFS: bool, l: Log, r: Reader, env: seq<Sight>): seq<byte>
    decreases |env|, r.isOpen
  {
    if !r.isOpen then
      if env != [] && Opens(l, r, env[0]) then StopsAt(crc, netFS, l, OpenSeg(r), env[1..]) else []
    else
      var (r', out) := TryDecode(crc, r);
      if out.Rolled? then StopsAt(crc, netFS, l, LoseFile(r'), env)
      else if out.NeedMore? && env != [] && r.cur < |l.segs| && Grows(netFS, l, r, env[0])
      then StopsAt(crc, netFS, l, SegLog.Fill(l, r, Visible(l, r.cur, env[0])), env[1..])
      else r.buf
  }

  /** An ordinary frame is encoded at the front. */
  ghost predicate TakesFrom(crc: Crc, buf: seq<byte>) {
    exists f :: Fits(f) && Encode(crc, f) <= buf && f.typ != ROLL
  }

  lemma NothingUsable(crc: Crc)
    ensures !Unusable(crc, []) && !TakesFrom(crc, [])
  {
  }

  lemma DecodeMeans(crc: Crc, r: Reader)
    ensures var (r', out) := TryDecode(crc, r);
            && (out == Broken <==> Unusable(crc, r.buf))
            && (out.Got? <==> TakesFrom(crc, r.buf))
            && (out.Got? ==> Encode(crc, out.frame) + r'.buf == r.buf)
            && (out == NeedMore ==> r' == r)
            && (out == Rolled ==> !r'.isOpen)
  {
    assert TryDecode(crc, r).1 == Rolled ==> !TryDecode(crc, r).0.isOpen;
    hide TryDecode, Unusable, Encode, Fits;
    var out := TryDecode(crc, r).1;
    if out.Got? {
      TryDecodeIff(crc, r, out.frame);
    } else {
      TryDecodeIff(crc, r, RollFrame(0));
      if TakesFrom(crc, r.buf) {
        var f :| Fits(f) && Encode(crc, f) <= r.buf && f.typ != ROLL;
        TryDecodeIff(crc, r, f);
      }
    }
  }

  lemma {:induction false} NextStops(crc: Crc, netFS: bool, l: Log, r: Reader, env: seq<Sight>)
    ensures var (r', res) := NextOn(crc, netFS, l, r, env);
            var seen := StopsAt(crc, netFS, l, r, env);
            && (res == Unreadable <==> Unusable(crc, seen))
            && (res.Taken? <==> TakesFrom(crc, seen))
            && (res.Taken? ==> Encode(crc, res.frame) + r'.buf == seen)
    decreases |env|, r.isOpen
  {
    hide TryDecode, Unusable, TakesFrom, Encode;
    if !r.isOpen {
      if env != [] && Opens(l, r, env[0]) {
        NextStops(crc, netFS, l, OpenSeg(r), env[1..]);
      } else {
        NothingUsable(crc);
      }
    } else {
      DecodeMeans(crc, r);
      var (r', out) := TryDecode(crc, r);
      if out == Rolled {
        NextStops(crc, netFS, l, LoseFile(r'), env);
      } else if out == NeedMore && env != [] && r.cur < |l.segs| && Grows(netFS, l, r, env[0]) {
        NextStops(crc, netFS, l, SegLog.Fill(l, r, Visible(l, r.cur, env[0])), env[1..]);
      }
    }
  }

  ghost function Dirs(dir: Directory): Log
    reads dir
  {
    Log(0, 0, 0, [], dir.segs, dir.unlinked)
  }

  ghost predicate SeesWhole(sight: Sight, l: Log) {
    sight.found && forall i :: 0 <= i < |l.segs| ==> |l.segs[i]| <= sight.size
  }

  ghost predicate SeesAll(env: seq<Sight>, l: Log) {
    forall k :: 0 <= k < |env| ==> SeesWhole(env[k], l)
  }

  /** How many looks at the filesystem the next frame is away. */
  ghost function Need(l: Log, h: Hist, r: Reader, pos: nat): nat
    requires r.cur < |l.segs| && r.cur < |h.starts|
  {
    (if !r.isOpen then 2 else if r.off < |l.segs[r.cur]| then 1 else 0) + if pos == SegTo(h, r.cur) then 2 else 0
  }

  lemma NeedAtMostThree(crc: Crc, netFS: bool, l: Log, h: Hist, r: Reader, pos: nat)
    requires At(crc, l, h, Place(r, pos))
    ensures r.cur < |l.segs| && r.cur < |h.starts|
    ensures WithinReach(netFS, l, r) ==> Need(l, h, r, pos) <= 3
  {
    AtFacts(crc, l, h, Place(r, pos));
  }

  lemma OpenStep(crc: Crc, netFS: bool, l: Log, h: Hist, r: Reader, pos: nat)
    requires At(crc, l, h, Place(r, pos)) && !r.isOpen
    ensures r.cur < |l.segs| && r.cur < |h.starts|
    ensures Need(l, h, r, pos) > 0 && Need(l, h, OpenSeg(r), pos) < Need(l, h, r, pos)
    ensures r.cur !in l.unlinked ==> At(crc, l, h, Place(OpenSeg(r), pos))
    ensures WithinReach(netFS, l, r) ==> r.cur !in l.unlinked && WithinReach(netFS, l, OpenSeg(r))
  {
    hide LogInv, ReaderInv;
    AtFacts(crc, l, h, Place(r, pos));
    if r.cur !in l.unlinked {
      OpenKeeps(Encoder(crc), l, h, r, pos);
    }
  }

  lemma DecodeStep(crc: Crc, netFS: bool, l: Log, h: Hist, r: Reader, pos: nat)
    requires At(crc, l, h, Place(r, pos)) && r.isOpen
    ensures r.cur < |l.segs| && r.cur < |h.starts|
    ensures var (r', out) := TryDecode(crc, r);
            match out
            case Broken => false
            case Got(f) => pos < |h.frames| && f == h.frames[pos] && At(crc, l, h, Place(r', pos + 1))
            case Rolled => && At(crc, l, h, Place(r', pos)) && !r'.isOpen && r'.cur < |l.segs| && r'.cur < |h.starts|
                           && (WithinReach(netFS, l, r) ==> WithinReach(netFS, l, r'))
                           && Need(l, h, r', pos) <= Need(l, h, r, pos)
            case NeedMore => r' == r && (pos < |h.frames| ==> r.off < |l.segs[r.cur]| && Need(l, h, r, pos) > 0)
  {
    hide LogInv, ReaderInv, TryDecode, Encoder;
    AtFacts(crc, l, h, Place(r, pos));
    TryDecodeRefines(crc, l, h, r, pos);
  }

  lemma FillStep(crc: Crc, netFS: bool, l: Log, h: Hist, r: Reader, pos: nat)
    requires At(crc, l, h, Place(r, pos)) && r.isOpen
    ensures r.cur < |l.segs| && r.cur < |h.starts| && r.off <= |l.segs[r.cur]|
    ensures forall size: nat :: r.off <= size <= |l.segs[r.cur]| ==> At(crc, l, h, Place(SegLog.Fill(l, r, size), pos))
    ensures r.cur in l.unlinked ==> At(crc, l, h, Place(LoseFile(r), pos))
    ensures r.off < |l.segs[r.cur]| && WithinReach(netFS, l, r) ==>
              var r' := SegLog.Fill(l, r, |l.segs[r.cur]|);
              !(netFS && r.cur in l.unlinked) && WithinReach(netFS, l, r') && Need(l, h, r', pos) < Need(l, h, r, pos)
  {
    hide LogInv, ReaderInv;
    AtFacts(crc, l, h, Place(r, pos));
    if r.cur in l.unlinked {
      LoseKeeps(Encoder(crc), l, h, r, pos);
    }
    forall size: nat | r.off <= size <= |l.segs[r.cur]|
      ensures At(crc, l, h, Place(SegLog.Fill(l, r, size), pos))
    {
      FillKeeps(Encoder(crc), l, h, r, pos, size);
    }
  }

  /** On a log that a writer appended to, next returns the frame at `pos` or waits, and returns it when all is seen. */
  lemma {:induction false} NextRefines(crc: Crc, netFS: bool, l: Log, h: Hist, r: Reader, pos: nat, env: seq<Sight>)
    requires At(crc, l, h, Place(r, pos))
    ensures r.cur < |l.segs| && r.cur < |h.starts|
    ensures var (r', res) := NextOn(crc, netFS, l, r, env);
            && !res.Unreadable?
            && (res.Taken? ==> pos < |h.frames| && res.frame == h.frames[pos] && At(crc, l, h, Place(r', pos + 1)))
            && (!res.Taken? ==> At(crc, l, h, Place(r', pos)))
            && (SeesAll(env, l) && WithinReach(netFS, l, r) && pos < |h.frames| && Need(l, h, r, pos) <= |env| ==>
                  res.Taken?)
    decreases |env|, r.isOpen
  {
    hide At, TryDecode, WithinReach, Need;
    if !r.isOpen {
      OpenStep(crc, netFS, l, h, r, pos);
      if env != [] && Opens(l, r, env[0]) {
        NextRefines(crc, netFS, l, h, OpenSeg(r), pos, env[1..]);
      }
    } else {
      DecodeStep(crc, netFS, l, h, r, pos);
      FillStep(crc, netFS, l, h, r, pos);
      var (r', out) := TryDecode(crc, r);
      if out == Rolled {
        assert LoseFile(r') == r';
        NextRefines(crc, netFS, l, h, r', pos, env);
      } else if out == NeedMore && env != [] && Grows(netFS, l, r, env[0]) {
        NextRefines(crc, netFS, l, h, SegLog.Fill(l, r, Visible(l, r.cur, env[0])), pos, env[1..]);
      }
    }
  }
}
