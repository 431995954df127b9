/** The fstun wire format: frames, their encoding and their decoding. */
module Frames {
  import opened Bytes
  import opened Seqs

  const SYN: byte := 1
  const DATA: byte := 2
  const ACK: byte := 3
  const HEARTBEAT: byte := 4
  const FIN: byte := 5
  const ERROR: byte := 6
  const ROLL: byte := 7

  const HEADER_LEN := 22
  const CRC_LEN := 4
  const MAX_PAYLOAD := 0x10_0000

  /** The checksum stays uninterpreted: every result holds for every such function. */
  type Crc = seq<byte> -> u32

  datatype Frame = Frame(typ: byte, flags: byte, seqNo: nat, dataOff: nat, payload: seq<byte>)

  /** What a frame must satisfy for its fixed-width fields to hold it. */
  predicate Fits(f: Frame) {
    f.seqNo < U64 && f.dataOff < U64 && |f.payload| <= MAX_PAYLOAD
  }

  function Header(f: Frame): (h: seq<byte>)
    ensures |h| == HEADER_LEN
  {
    [f.typ, f.flags] + PutUint(8, f.seqNo) + PutUint(8, f.dataOff) + PutUint(4, |f.payload|)
  }

  function Encode(crc: Crc, f: Frame): (b: seq<byte>)
    ensures |b| == HEADER_LEN + |f.payload| + CRC_LEN
  {
    Header(f) + f.payload + PutUint(CRC_LEN, crc(Header(f) + f.payload))
  }

  datatype DecodeResult = Incomplete | Corrupt | Decoded(frame: Frame, used: nat)

  function FrameOf(buf: seq<byte>, length: nat): Frame
    requires HEADER_LEN + length <= |buf|
  {
    Frame(buf[0], buf[1], GetUint(buf[2..10]), GetUint(buf[10..18]), buf[HEADER_LEN..HEADER_LEN + length])
  }

  function Decode(crc: Crc, buf: seq<byte>): (r: DecodeResult)
    ensures r.Decoded? ==> HEADER_LEN + CRC_LEN <= r.used <= |buf|
  {
    if |buf| < HEADER_LEN then Incomplete else
    var length := GetUint(buf[18..22]);
    if length > MAX_PAYLOAD then Corrupt else
    var total := HEADER_LEN + length + CRC_LEN;
    if |buf| < total then Incomplete else
    if crc(buf[..HEADER_LEN] + buf[HEADER_LEN..HEADER_LEN + length])
         != GetUint(buf[HEADER_LEN + length..total]) then Corrupt else
    Decoded(FrameOf(buf, length), total)
  }

  // ---------- the codec is exact ----------

  lemma HeaderFields(f: Frame)
    ensures Header(f)[0] == f.typ && Header(f)[1] == f.flags
    ensures Header(f)[2..10] == PutUint(8, f.seqNo)
    ensures Header(f)[10..18] == PutUint(8, f.dataOff)
    ensures Header(f)[18..22] == PutUint(4, |f.payload|)
  {
  }

  lemma HeaderValues(f: Frame)
    requires Fits(f)
    ensures GetUint(Header(f)[2..10]) == f.seqNo
    ensures GetUint(Header(f)[10..18]) == f.dataOff
    ensures GetUint(Header(f)[18..22]) == |f.payload|
  {
    HeaderFields(f);
    Pow256Values();
    GetPut(8, f.seqNo);
    GetPut(8, f.dataOff);
    GetPut(4, |f.payload|);
  }

  /**
   * Any visible prefix of a stream that starts with an encoded frame decodes to that frame
   * once the frame is whole, and as incomplete before; never as corrupt.
   */
  lemma DecodePrefix(crc: Crc, f: Frame, rest: seq<byte>, buf: seq<byte>)
    requires Fits(f)
    requires buf <= Encode(crc, f) + rest
    ensures Decode(crc, buf) ==
            if |buf| < |Encode(crc, f)| then Incomplete else Decoded(f, |Encode(crc, f)|)
  {
    var enc := Encode(crc, f);
    if |buf| >= HEADER_LEN {
      assert buf[..HEADER_LEN] == Header(f);
      assert buf[18..22] == Header(f)[18..22];
      HeaderValues(f);
      if |buf| >= |enc| {
        DecodeWhole(crc, f, buf);
      }
    }
  }

  lemma DecodeWhole(crc: Crc, f: Frame, buf: seq<byte>)
    requires Fits(f)
    requires Encode(crc, f) <= buf
    ensures Decode(crc, buf) == Decoded(f, |Encode(crc, f)|)
  {
    var n := |f.payload|;
    WholeParts(crc, f, buf);
    HeaderFields(f);
    HeaderValues(f);
    hide Header, Encode;
    assert buf[..HEADER_LEN] + buf[HEADER_LEN..HEADER_LEN + n] == Header(f) + f.payload;
    Pow256Values();
    GetPut(CRC_LEN, crc(Header(f) + f.payload));
    assert FrameOf(buf, n) == f;
  }

  /** The parts of a buffer that starts with an encoded frame. */
  lemma WholeParts(crc: Crc, f: Frame, buf: seq<byte>)
    requires Encode(crc, f) <= buf
    ensures var n := |f.payload|;
            && buf[..22] == Header(f) && buf[0] == Header(f)[0] && buf[1] == Header(f)[1]
            && buf[2..10] == Header(f)[2..10] && buf[10..18] == Header(f)[10..18] && buf[18..22] == Header(f)[18..22]
            && buf[22..22 + n] == f.payload && buf[22 + n..26 + n] == PutUint(4, crc(Header(f) + f.payload))
  {
    var enc, n := Encode(crc, f), |f.payload|;
    assert buf[..22] == enc[..22] == Header(f);
    SameSlice(enc, buf, 22, 22 + n);
    SameSlice(enc, buf, 22 + n, 26 + n);
    HeaderSlices(buf, Header(f));
  }

  lemma HeaderSlices(buf: seq<byte>, hdr: seq<byte>)
    requires |buf| >= 22 && buf[..22] == hdr
    ensures buf[0] == hdr[0] && buf[1] == hdr[1]
    ensures buf[2..10] == hdr[2..10] && buf[10..18] == hdr[10..18] && buf[18..22] == hdr[18..22]
  {
    assert |hdr| == 22 && hdr <= buf;
    SameSlice(hdr, buf, 2, 10);
    SameSlice(hdr, buf, 10, 18);
    SameSlice(hdr, buf, 18, 22);
  }

  /** Decoding accepts exactly the encodings: the whole frame is determined by the bytes used. */
  lemma DecodeExact(crc: Crc, buf: seq<byte>, f: Frame, used: nat)
    ensures Decode(crc, buf) == Decoded(f, used)
            <==> Fits(f) && used <= |buf| && buf[..used] == Encode(crc, f)
  {
    if Fits(f) && used <= |buf| && buf[..used] == Encode(crc, f) {
      DecodeWhole(crc, f, buf);
    }
    if Decode(crc, buf) == Decoded(f, used) {
      DecodeSound(crc, buf);
    }
  }

  lemma DecodeSound(crc: Crc, buf: seq<byte>)
    requires Decode(crc, buf).Decoded?
    ensures var r := Decode(crc, buf);
            Fits(r.frame) && buf[..r.used] == Encode(crc, r.frame)
  {
    var r := Decode(crc, buf);
    var f, n := r.frame, |r.frame.payload|;
    Pow256Values();
    PutGet(buf[2..10]);
    PutGet(buf[10..18]);
    PutGet(buf[18..22]);
    assert buf[..HEADER_LEN] == [buf[0], buf[1]] + buf[2..10] + buf[10..18] + buf[18..22];
    assert Header(f) == buf[..HEADER_LEN];
    var trailer := buf[HEADER_LEN + n..r.used];
    PutGet(trailer);
    assert PutUint(CRC_LEN, crc(Header(f) + f.payload)) == trailer;
    assert buf[..r.used] == buf[..HEADER_LEN] + buf[HEADER_LEN..HEADER_LEN + n] + trailer;
  }

  /** The length field is over the maximum, or the frame announced is all there and no frame is encoded there. */
  ghost predicate Garbled(crc: Crc, buf: seq<byte>) {
    && |buf| >= 22
    && var n := GetUint(buf[18..22]);
       n > 0x10_0000 || (|buf| >= 26 + n && forall f :: Fits(f) ==> !(Encode(crc, f) <= buf))
  }

  /**
   * Exactly the garbled buffers are refused as corrupt, and exactly the ones shorter than the frame they
   * announce are kept waiting for more.
   */
  lemma CorruptIff(crc: Crc, buf: seq<byte>)
    ensures Decode(crc, buf) == Corrupt <==> Garbled(crc, buf)
    ensures Decode(crc, buf) == Incomplete
            <==> |buf| < 22 || (GetUint(buf[18..22]) <= 0x10_0000 && |buf| < 26 + GetUint(buf[18..22]))
  {
    hide Encode, Fits;
    if Decode(crc, buf).Decoded? {
      DecodeSound(crc, buf);
      assert Encode(crc, Decode(crc, buf).frame) <= buf;
    } else {
      forall f | Fits(f)
        ensures !(Encode(crc, f) <= buf)
      {
        if Encode(crc, f) <= buf {
          DecodeWhole(crc, f, buf);
        }
      }
    }
  }

  /** Where a frame's fields lie in its encoding, and what its checksum covers. */
  lemma Layout(crc: Crc, f: Frame)
    ensures var b := Encode(crc, f);
            var n := |f.payload|;
            && |b| == 26 + n && b[0] == f.typ && b[1] == f.flags
            && b[2..10] == PutUint(8, f.seqNo) && b[10..18] == PutUint(8, f.dataOff) && b[18..22] == PutUint(4, n)
            && b[22..22 + n] == f.payload && b[22 + n..] == PutUint(4, crc(b[..22 + n]))
  {
    var b := Encode(crc, f);
    HeaderFields(f);
    assert b[..22] == Header(f) && b[..22 + |f.payload|] == Header(f) + f.payload;
    assert b[2..10] == Header(f)[2..10] && b[10..18] == Header(f)[10..18] && b[18..22] == Header(f)[18..22];
  }

  // ---------- streams of frames ----------

  predicate AllFit(fs: seq<Frame>) {
    forall i :: 0 <= i < |fs| ==> Fits(fs[i])
  }

  /** The encoder with its checksum fixed, for use as a function value. */
  function Encoder(crc: Crc): (enc: Frame -> seq<byte>)
    ensures forall f :: enc(f) == Encode(crc, f)
  {
    f => Encode(crc, f)
  }

  function EncodeAll(crc: Crc, fs: seq<Frame>): seq<byte> {
    FlatMap(Encoder(crc), fs)
  }

  /** Repeated decoding from the front, stopping at the first frame that is not whole or not valid. */
  function DecodeAll(crc: Crc, buf: seq<byte>): seq<Frame>
    decreases |buf|
  {
    match Decode(crc, buf)
    case Decoded(f, used) => [f] + DecodeAll(crc, buf[used..])
    case _ => []
  }

  /** A stream cut at any byte decodes to exactly the frames that are whole before the cut. */
  lemma {:induction false} DecodeAllPrefix(crc: Crc, fs: seq<Frame>, buf: seq<byte>)
    requires AllFit(fs)
    requires buf <= EncodeAll(crc, fs)
    ensures var got := DecodeAll(crc, buf);
            && got <= fs
            && EncodeAll(crc, got) <= buf
            && (|got| < |fs| ==> |buf| < |EncodeAll(crc, fs[..|got| + 1])|)
    decreases |fs|
  {
    if fs == [] {
      DecodeNothing(crc);
    } else {
      assert Fits(fs[0]) && AllFit(fs[1..]);
      hide Encode, Decode, FlatMap, Fits, DecodeAll, EncodeAll, Encoder, AllFit;
      var e, t := Encode(crc, fs[0]), EncodeAll(crc, fs[1..]);
      EncodeAllFirst(crc, fs);
      DecodePrefix(crc, fs[0], t, buf);
      DecodeAllNext(crc, buf);
      DecodeNothing(crc);
      if |buf| < |e| {
        EncodeAllOne(crc, fs);
      } else {
        PrefixDrop(e, t, buf);
        DecodeAllPrefix(crc, fs[1..], buf[|e|..]);
        DecodeAllStep(crc, fs, buf, |e|, DecodeAll(crc, buf[|e|..]));
      }
    }
  }

  lemma EncodeAllOne(crc: Crc, fs: seq<Frame>)
    requires fs != []
    ensures EncodeAll(crc, fs[..1]) == Encode(crc, fs[0])
  {
    hide EncodeAll, Encode, Encoder;
    EncodeAllFirst(crc, fs[..1]);
    DecodeNothing(crc);
    assert fs[..1][1..] == [];
  }

  lemma DecodeNothing(crc: Crc)
    ensures DecodeAll(crc, []) == [] && EncodeAll(crc, []) == []
  {
  }

  lemma EncodeAllFirst(crc: Crc, fs: seq<Frame>)
    requires fs != []
    ensures EncodeAll(crc, fs) == Encode(crc, fs[0]) + EncodeAll(crc, fs[1..])
    ensures Encoder(crc)(fs[0]) == Encode(crc, fs[0]) && |Encode(crc, fs[0])| > 0
  {
    hide FlatMap, Encode;
    FlatMapFirst(Encoder(crc), fs);
  }

  lemma DecodeAllNext(crc: Crc, buf: seq<byte>)
    ensures Decode(crc, buf).Decoded? ==>
              var r := Decode(crc, buf);
              0 < r.used <= |buf| && DecodeAll(crc, buf) == [r.frame] + DecodeAll(crc, buf[r.used..])
    ensures !Decode(crc, buf).Decoded? ==> DecodeAll(crc, buf) == []
  {
    hide Decode;
  }

  lemma DecodeAllStep(crc: Crc, fs: seq<Frame>, buf: seq<byte>, n: nat, tail: seq<Frame>)
    requires fs != [] && n <= |buf|
    requires n == |Encoder(crc)(fs[0])| && buf == Encoder(crc)(fs[0]) + buf[n..]
    requires tail <= fs[1..] && EncodeAll(crc, tail) <= buf[n..]
    requires |tail| < |fs[1..]| ==> |buf[n..]| < |EncodeAll(crc, fs[1..][..|tail| + 1])|
    ensures [fs[0]] + tail <= fs
    ensures EncodeAll(crc, [fs[0]] + tail) <= buf
    ensures |tail| + 1 < |fs| ==> |buf| < |EncodeAll(crc, fs[..|tail| + 2])|
  {
    var enc := Encoder(crc);
    var got := [fs[0]] + tail;
    FlatMapFirst(enc, got);
    assert got[1..] == tail;
    PrefixPrepend(enc(fs[0]), EncodeAll(crc, tail), buf[n..]);
    if |tail| + 1 < |fs| {
      FlatMapFirst(enc, fs[..|tail| + 2]);
      assert fs[..|tail| + 2][1..] == fs[1..][..|tail| + 1];
    }
  }

  lemma EncodeAllMonotone(crc: Crc, fs: seq<Frame>, n: nat)
    requires n <= |fs|
    ensures |EncodeAll(crc, fs[..n])| <= |EncodeAll(crc, fs)|
  {
    assert fs == fs[..n] + fs[n..];
    FlatMapConcat(Encoder(crc), fs[..n], fs[n..]);
  }

  /** Decoding a whole stream returns exactly the frames encoded. */
  lemma DecodeAllEncoded(crc: Crc, fs: seq<Frame>)
    requires AllFit(fs)
    ensures DecodeAll(crc, EncodeAll(crc, fs)) == fs
  {
    DecodeAllPrefix(crc, fs, EncodeAll(crc, fs));
    var n := |DecodeAll(crc, EncodeAll(crc, fs))|;
    if n < |fs| {
      EncodeAllMonotone(crc, fs, n + 1);
    }
  }

  // ---------- the encoder as the source runs it ----------

  /** Fills a fresh header array field by field. */
  method FillHeader(f: Frame) returns (hdr: array<byte>)
    ensures fresh(hdr) && hdr[..] == Header(f)
  {
    hdr := new byte[HEADER_LEN](_ => 0);
    hdr[0] := f.typ;
    hdr[1] := f.flags;
    PutUintAt(hdr, 2, 8, f.seqNo);
    assert hdr[..10] == [f.typ, f.flags] + PutUint(8, f.seqNo);
    PutUintAt(hdr, 10, 8, f.dataOff);
    assert hdr[..18] == [f.typ, f.flags] + PutUint(8, f.seqNo) + PutUint(8, f.dataOff);
    PutUintAt(hdr, 18, 4, |f.payload|);
  }

  /** Appends header, payload and checksum to `dst`. */
  method AppendTo(crc: Crc, f: Frame, dst: seq<byte>) returns (out: seq<byte>)
    ensures out == dst + Encode(crc, f)
  {
    var hdr := FillHeader(f);
    var tr := new byte[CRC_LEN](_ => 0);
    PutUintAt(tr, 0, CRC_LEN, crc(hdr[..] + f.payload));
    assert tr[..] == PutUint(CRC_LEN, crc(hdr[..] + f.payload));
    Assoc(dst, hdr[..], f.payload);
    Assoc(dst, hdr[..] + f.payload, tr[..]);
    out := dst + hdr[..];
    out := out + f.payload;
    out := out + tr[..];
  }

  // ---------- SYN payload ----------

  datatype SynParams = SynParams(version: nat, segmentSize: nat, window: nat, maxFrame: nat)

  function EncodeSyn(p: SynParams): (b: seq<byte>)
    ensures |b| == 22
  {
    PutUint(2, p.version) + PutUint(8, p.segmentSize) + PutUint(8, p.window) + PutUint(4, p.maxFrame)
  }

  datatype SynResult = BadLength | Syn(params: SynParams)

  function DecodeSyn(b: seq<byte>): SynResult {
    if |b| != 22 then BadLength else
    Syn(SynParams(GetUint(b[0..2]), GetUint(b[2..10]), GetUint(b[10..18]), GetUint(b[18..22])))
  }

  /** SYN payloads decode exactly when they encode some in-range parameters, and to those parameters. */
  lemma SynExact(b: seq<byte>, p: SynParams)
    ensures DecodeSyn(b) == Syn(p)
            <==> && p.version < 0x1_0000 && p.segmentSize < U64 && p.window < U64 && p.maxFrame < U32
                 && b == EncodeSyn(p)
  {
    Pow256Values();
    if |b| == 22 {
      PutGet(b[0..2]);
      PutGet(b[2..10]);
      PutGet(b[10..18]);
      PutGet(b[18..22]);
      assert b == b[0..2] + b[2..10] + b[10..18] + b[18..22];
    }
    if p.version < 0x1_0000 && p.segmentSize < U64 && p.window < U64 && p.maxFrame < U32 && b == EncodeSyn(p) {
      GetPut(2, p.version);
      GetPut(8, p.segmentSize);
      GetPut(8, p.window);
      GetPut(4, p.maxFrame);
      assert b[0..2] == PutUint(2, p.version);
      assert b[2..10] == PutUint(8, p.segmentSize);
      assert b[10..18] == PutUint(8, p.window);
      assert b[18..22] == PutUint(4, p.maxFrame);
    }
  }
}
