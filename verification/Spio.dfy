/** SPIO frames: how session streams and control messages are put on the wire
    (guest/minimal-initrd/spio.c, guest/minimal-initrd/util.c). */
module Spio {
  import opened Bytes

  const MAGIC: seq<byte> := [0x53, 0x50, 0x49, 0x4F]
  const SPIO_VERSION: byte := 1
  const HEADER_LEN := 24
  const MAX_FRAME_PAYLOAD := 4096
  const BATCH_FRAMES := 15
  const FULL_FRAME := HEADER_LEN + MAX_FRAME_PAYLOAD

  const DATA: byte := 1
  const CLOSE: byte := 2
  const EXIT: byte := 3
  const RESIZE: byte := 4
  const EVENT: byte := 7

  const CONTROL_STREAM := 0
  const STDIN_STREAM := 1
  const STDOUT_STREAM := 2
  const STDERR_STREAM := 3
  const TERMINAL_STREAM := 4

  datatype Frame = Frame(kind: byte, stream: nat, offset: nat, payload: seq<byte>)

  /** The frame fits its header: a 32-bit stream, a 64-bit offset, a bounded payload. */
  predicate Encodable(f: Frame) {
    f.stream < Pow256(4) && f.offset < Pow256(8) && |f.payload| <= MAX_FRAME_PAYLOAD
  }

  function Header(kind: byte, stream: nat, offset: nat, len: nat): (h: seq<byte>)
    ensures |h| == HEADER_LEN
  {
    MAGIC + [SPIO_VERSION, kind] + WriteLe(0, 2) + WriteLe(stream, 4) + WriteLe(offset, 8) + WriteLe(len, 4)
  }

  function Encode(f: Frame): (s: seq<byte>)
    ensures |s| == HEADER_LEN + |f.payload|
  {
    Header(f.kind, f.stream, f.offset, |f.payload|) + f.payload
  }

  function EncodeAll(fs: seq<Frame>): seq<byte> {
    if fs == [] then [] else Encode(fs[0]) + EncodeAll(fs[1..])
  }

  // ---- Reading frames ----

  datatype Head = Head(kind: byte, stream: nat, offset: nat, len: nat)
  datatype Parsed = Good(head: Head) | Bad

  /** `parse_spio_header`, and the same checks in `read_spio_header_blocking`. */
  function ParseHeader(h: seq<byte>): (r: Parsed)
    requires |h| == HEADER_LEN
  {
    if h[..4] != MAGIC || h[4] != SPIO_VERSION || ReadLe(h[6..8]) != 0 || ReadLe(h[20..24]) > MAX_FRAME_PAYLOAD then Bad
    else Good(Head(h[5], ReadLe(h[8..12]), ReadLe(h[12..20]), ReadLe(h[20..24])))
  }

  /** What a byte stream says: whole frames, and then a beginning of one or nonsense. */
  datatype Reading = Reading(frames: seq<Frame>, rest: Rest)
  datatype Rest = Partial(bytes: seq<byte>) | Broken

  function Decode(b: seq<byte>): (r: Reading)
    decreases |b|
  {
    if |b| < HEADER_LEN then Reading([], Partial(b))
    else
      match ParseHeader(b[..HEADER_LEN])
      case Bad => Reading([], Broken)
      case Good(head) =>
        if |b| < HEADER_LEN + head.len then Reading([], Partial(b))
        else
          var f := Frame(head.kind, head.stream, head.offset, b[HEADER_LEN..HEADER_LEN + head.len]);
          var more := Decode(b[HEADER_LEN + head.len..]);
          Reading([f] + more.frames, more.rest)
  }

  lemma ParsesHeader(f: Frame)
    requires Encodable(f)
    ensures ParseHeader(Header(f.kind, f.stream, f.offset, |f.payload|)) == Good(Head(f.kind, f.stream, f.offset, |f.payload|))
  {
    var len := |f.payload|;
    var h := Header(f.kind, f.stream, f.offset, len);
    hide WriteLe, ReadLe, Header;
    HeaderParts(f.kind, f.stream, f.offset, len);
    PowersAreWide();
    ReadWriteLe(0, 2);
    ReadWriteLe(f.stream, 4);
    ReadWriteLe(f.offset, 8);
    ReadWriteLe(len, 4);
  }

  lemma PowersAreWide()
    ensures 0 < Pow256(2) && MAX_FRAME_PAYLOAD < Pow256(4)
  {
    assert Pow256(4) == 256 * (256 * (256 * (256 * Pow256(0))));
  }

  lemma HeaderParts(kind: byte, stream: nat, offset: nat, len: nat)
    ensures var h := Header(kind, stream, offset, len);
            && h[..4] == MAGIC && h[4] == SPIO_VERSION && h[5] == kind && h[6..8] == WriteLe(0, 2)
            && h[8..12] == WriteLe(stream, 4) && h[12..20] == WriteLe(offset, 8) && h[20..24] == WriteLe(len, 4)
  {
    hide WriteLe;
  }

  lemma DecodesFrame(f: Frame, tail: seq<byte>)
    requires Encodable(f)
    ensures Decode(Encode(f) + tail) == Reading([f] + Decode(tail).frames, Decode(tail).rest)
  {
    ParsesHeader(f);
    var b := Encode(f) + tail;
    assert b[..HEADER_LEN] == Header(f.kind, f.stream, f.offset, |f.payload|);
    assert b[HEADER_LEN..HEADER_LEN + |f.payload|] == f.payload && b[HEADER_LEN + |f.payload|..] == tail;
  }

  /** What was encoded is what a reader gets, whatever follows it. */
  lemma {:induction false} DecodesAll(fs: seq<Frame>, tail: seq<byte>)
    requires forall i :: 0 <= i < |fs| ==> Encodable(fs[i])
    ensures Decode(EncodeAll(fs) + tail) == Reading(fs + Decode(tail).frames, Decode(tail).rest)
    decreases |fs|
  {
    hide Encode, Decode, Encodable;
    if fs == [] {
      assert EncodeAll(fs) + tail == tail;
    } else {
      DecodesAll(fs[1..], tail);
      DecodesFrame(fs[0], EncodeAll(fs[1..]) + tail);
      assert EncodeAll(fs) + tail == Encode(fs[0]) + (EncodeAll(fs[1..]) + tail);
      assert fs == [fs[0]] + fs[1..];
    }
  }

  lemma {:induction false} EncodeAppend(a: seq<Frame>, b: seq<Frame>)
    ensures EncodeAll(a + b) == EncodeAll(a) + EncodeAll(b)
    decreases |a|
  {
    hide Encode;
    if a == [] {
      assert a + b == b;
    } else {
      assert (a + b)[0] == a[0] && (a + b)[1..] == a[1..] + b;
      EncodeAppend(a[1..], b);
    }
  }

  // ---- Sending data ----

  function ChunkCount(len: nat): nat {
    (len + MAX_FRAME_PAYLOAD - 1) / MAX_FRAME_PAYLOAD
  }

  /** The frames that carry `buf`: full ones with consecutive offsets, and a last one for what is left. */
  function Chunks(stream: nat, offset: nat, buf: seq<byte>): (fs: seq<Frame>)
    ensures |fs| == ChunkCount(|buf|)
  {
    seq(ChunkCount(|buf|), i requires 0 <= i < ChunkCount(|buf|) =>
      Frame(DATA, stream, offset + i * MAX_FRAME_PAYLOAD, ChunkOf(buf, i)))
  }

  function ChunkOf(buf: seq<byte>, i: nat): (c: seq<byte>)
    requires i < ChunkCount(|buf|)
    ensures 0 < |c| <= MAX_FRAME_PAYLOAD && (i + 1 < ChunkCount(|buf|) ==> |c| == MAX_FRAME_PAYLOAD)
  {
    var from := i * MAX_FRAME_PAYLOAD;
    if from + MAX_FRAME_PAYLOAD <= |buf| then buf[from..from + MAX_FRAME_PAYLOAD] else buf[from..]
  }

  function Payloads(fs: seq<Frame>): seq<byte> {
    if fs == [] then [] else Payloads(fs[..|fs| - 1]) + fs[|fs| - 1].payload
  }

  /** How much of `len` bytes the first `k` chunks cover. */
  function Covered(len: nat, k: nat): (n: nat)
    ensures n <= len
  {
    if k * MAX_FRAME_PAYLOAD <= len then k * MAX_FRAME_PAYLOAD else len
  }

  lemma ChunkCovers(buf: seq<byte>, k: nat)
    requires k < ChunkCount(|buf|)
    ensures Covered(|buf|, k) == k * MAX_FRAME_PAYLOAD < |buf| && Covered(|buf|, k) + |ChunkOf(buf, k)| == Covered(|buf|, k + 1)
    ensures buf[..Covered(|buf|, k)] + ChunkOf(buf, k) == buf[..Covered(|buf|, k + 1)]
  {
  }

  lemma AllCovered(len: nat)
    ensures Covered(len, ChunkCount(len)) == len
  {
  }

  /** The first `k` chunks carry the bytes they cover. */
  lemma {:induction false} ChunksCarry(stream: nat, offset: nat, buf: seq<byte>, k: nat)
    requires k <= ChunkCount(|buf|)
    ensures Payloads(Chunks(stream, offset, buf)[..k]) == buf[..Covered(|buf|, k)]
    decreases k
  {
    hide ChunkCount, ChunkOf;
    if k > 0 {
      var fs := Chunks(stream, offset, buf);
      ChunksCarry(stream, offset, buf, k - 1);
      assert fs[..k][..k - 1] == fs[..k - 1];
      ChunkCovers(buf, k - 1);
    }
  }

  /** The chunks carry the whole buffer, in order. */
  lemma ChunksCarryAll(stream: nat, offset: nat, buf: seq<byte>)
    ensures Payloads(Chunks(stream, offset, buf)) == buf
  {
    var fs := Chunks(stream, offset, buf);
    ChunksCarry(stream, offset, buf, |fs|);
    AllCovered(|buf|);
    assert fs[..|fs|] == fs && buf[..|buf|] == buf;
  }

  /** `put_spio_frame`: the frame's bytes in place, the rest of the buffer as it was. */
  method PutFrame(out: array<byte>, at: nat, f: Frame) returns (size: nat)
    requires at + HEADER_LEN + |f.payload| <= out.Length
    modifies out
    ensures size == |Encode(f)|
    ensures out[..at] == old(out[..at]) && out[at..at + size] == Encode(f) && out[at + size..] == old(out[at + size..])
  {
    var e := Encode(f);
    size := |e|;
    forall i | 0 <= i < |e| {
      out[at + i] := e[i];
    }
    assert out[at..at + size] == e;
  }

  /** The `i`th write of a batched send: the next fifteen frames, or what is left of them. */
  function Batch(fs: seq<Frame>, i: nat): seq<Frame>
    requires i * BATCH_FRAMES <= |fs|
  {
    var from := i * BATCH_FRAMES;
    if from + BATCH_FRAMES <= |fs| then fs[from..from + BATCH_FRAMES] else fs[from..]
  }

  lemma {:induction false} EncodeOneMore(fs: seq<Frame>, a: nat, b: nat)
    requires a <= b < |fs|
    ensures EncodeAll(fs[a..b + 1]) == EncodeAll(fs[a..b]) + Encode(fs[b])
  {
    hide Encode;
    assert fs[a..b + 1] == fs[a..b] + [fs[b]];
    EncodeAppend(fs[a..b], [fs[b]]);
    assert EncodeAll([fs[b]]) == Encode(fs[b]) + EncodeAll([]);
  }

  /** Where the packing of one batch stands: frames `a` to `b` are in the buffer. */
  ghost predicate Packed(stream: nat, offset: nat, buf: seq<byte>, a: nat, b: nat, sent: nat, out: seq<byte>, used: nat) {
    var fs := Chunks(stream, offset, buf);
    && a <= b <= |fs| && b - a <= BATCH_FRAMES && sent == Covered(|buf|, b) && used <= |out|
    && out[..used] == EncodeAll(fs[a..b]) && (sent < |buf| ==> used == (b - a) * FULL_FRAME) && used <= (b - a) * FULL_FRAME
  }

  lemma PackStarts(stream: nat, offset: nat, buf: seq<byte>, a: nat, sent: nat, out: seq<byte>)
    requires a <= ChunkCount(|buf|) && sent == Covered(|buf|, a)
    ensures Packed(stream, offset, buf, a, a, sent, out, 0)
  {
    assert Chunks(stream, offset, buf)[a..a] == [] && out[..0] == [];
  }

  /** The next frame `send_spio_data` puts is the next chunk. */
  lemma NextChunk(stream: nat, offset: nat, buf: seq<byte>, b: nat, sent: nat)
    requires b <= ChunkCount(|buf|) && sent == Covered(|buf|, b) && sent < |buf|
    ensures b < ChunkCount(|buf|)
    ensures var chunk := if |buf| - sent > MAX_FRAME_PAYLOAD then MAX_FRAME_PAYLOAD else |buf| - sent;
            && Chunks(stream, offset, buf)[b] == Frame(DATA, stream, offset + sent, buf[sent..sent + chunk])
            && Covered(|buf|, b + 1) == sent + chunk && (sent + chunk < |buf| ==> chunk == MAX_FRAME_PAYLOAD)
  {
  }

  lemma PackedOne(stream: nat, offset: nat, buf: seq<byte>, a: nat, b: nat, sent: nat, out: seq<byte>, used: nat, out': seq<byte>, chunk: nat)
    requires Packed(stream, offset, buf, a, b, sent, out, used) && sent < |buf| && b - a < BATCH_FRAMES
    requires chunk == if |buf| - sent > MAX_FRAME_PAYLOAD then MAX_FRAME_PAYLOAD else |buf| - sent
    requires used + HEADER_LEN + chunk <= |out'| && out'[..used] == out[..used]
    requires out'[used..used + HEADER_LEN + chunk] == Encode(Frame(DATA, stream, offset + sent, buf[sent..sent + chunk]))
    ensures Packed(stream, offset, buf, a, b + 1, sent + chunk, out', used + HEADER_LEN + chunk)
  {
    hide Encode, EncodeAll, Chunks, Covered, ChunkCount;
    var fs, n := Chunks(stream, offset, buf), HEADER_LEN + chunk;
    NextChunk(stream, offset, buf, b, sent);
    EncodeOneMore(fs, a, b);
    assert out'[..used + n] == out'[..used] + out'[used..used + n];
  }

  /** How many of `n` frames the first `w` batches hold. */
  function Upto(w: nat, n: nat): nat {
    if w * BATCH_FRAMES <= n then w * BATCH_FRAMES else n
  }

  lemma PackedRoom(stream: nat, offset: nat, buf: seq<byte>, a: nat, b: nat, sent: nat, out: seq<byte>, used: nat)
    requires Packed(stream, offset, buf, a, b, sent, out, used) && sent < |buf|
    ensures b - a < BATCH_FRAMES <==> used + FULL_FRAME <= BATCH_FRAMES * FULL_FRAME
  {
  }

  lemma PackEnds(stream: nat, offset: nat, buf: seq<byte>, w: nat, b: nat, sent: nat, out: seq<byte>, used: nat)
    requires w * BATCH_FRAMES < ChunkCount(|buf|) && Packed(stream, offset, buf, w * BATCH_FRAMES, b, sent, out, used)
    requires sent < |buf| ==> used + FULL_FRAME > BATCH_FRAMES * FULL_FRAME
    ensures out[..used] == EncodeAll(Batch(Chunks(stream, offset, buf), w)) && b == Upto(w + 1, ChunkCount(|buf|))
  {
    hide EncodeAll, Chunks;
    CoveredAll(|buf|, b);
    var fs, from := Chunks(stream, offset, buf), w * BATCH_FRAMES;
    assert b == |fs| || b == from + BATCH_FRAMES;
    assert fs[from..|fs|] == fs[from..];
  }

  lemma CoveredAll(len: nat, b: nat)
    requires b <= ChunkCount(len)
    ensures Covered(len, b) == len <==> b == ChunkCount(len)
  {
  }

  /** `send_spio_data`: the buffer leaves in frames, fifteen to a write. Only the
      first `accepts` writes go through. */
  method SendData(out: array<byte>, stream: nat, offset: nat, buf: seq<byte>, accepts: nat) returns (ok: bool, writes: seq<seq<byte>>)
    requires out.Length == BATCH_FRAMES * FULL_FRAME
    modifies out
    ensures var fs := Chunks(stream, offset, buf);
            && |writes| <= accepts && (ok <==> Upto(|writes|, |fs|) == |fs|) && (!ok ==> |writes| == accepts)
            && (forall i :: 0 <= i < |writes| ==> i * BATCH_FRAMES < |fs| && writes[i] == EncodeAll(Batch(fs, i)) && |writes[i]| <= out.Length)
  {
    hide Encode, EncodeAll, Chunks, Covered, ChunkCount, Packed;
    ghost var fs := Chunks(stream, offset, buf);
    writes := [];
    var sent: nat := 0;
    ghost var b: nat := 0;
    CoveredAll(|buf|, 0);
    assert Covered(|buf|, 0) == 0 by { NoneCovered(|buf|); }
    while sent < |buf|
      invariant b == Upto(|writes|, |fs|) && sent == Covered(|buf|, b) && (sent < |buf| ==> b < |fs|) && |writes| <= accepts
      invariant forall i :: 0 <= i < |writes| ==> i * BATCH_FRAMES < |fs| && writes[i] == EncodeAll(Batch(fs, i)) && |writes[i]| <= out.Length
      decreases |fs| - b
    {
      ghost var a := b;
      var used: nat := 0;
      PackStarts(stream, offset, buf, a, sent, out[..]);
      while sent < |buf| && used + FULL_FRAME <= out.Length
        invariant a <= b <= |fs| && Packed(stream, offset, buf, a, b, sent, out[..], used)
        invariant b == a ==> used == 0 && sent < |buf|
        decreases |fs| - b
      {
        PackedRoom(stream, offset, buf, a, b, sent, out[..], used);
        PackedBy(stream, offset, buf, a, b, sent, out[..], used);
        NextChunk(stream, offset, buf, b, sent);
        var chunk := |buf| - sent;
        if chunk > MAX_FRAME_PAYLOAD {
          chunk := MAX_FRAME_PAYLOAD;
        }
        ghost var before := out[..];
        var size := PutFrame(out, used, Frame(DATA, stream, offset + sent, buf[sent..sent + chunk]));
        assert out[..][..used] == before[..used] && out[..][used..used + size] == out[used..used + size];
        PackedOne(stream, offset, buf, a, b, sent, before, used, out[..], chunk);
        used, sent, b := used + size, sent + chunk, b + 1;
      }
      PackedBy(stream, offset, buf, a, b, sent, out[..], used);
      PackEnds(stream, offset, buf, |writes|, b, sent, out[..], used);
      CoveredAll(|buf|, b);
      if |writes| == accepts {
        return false, writes;
      }
      assert out[..][..used] == out[..used];
      writes := writes + [out[..used]];
    }
    CoveredAll(|buf|, b);
    ok := true;
  }

  lemma NoneCovered(len: nat)
    ensures Covered(len, 0) == 0
  {
  }

  lemma PackedBy(stream: nat, offset: nat, buf: seq<byte>, a: nat, b: nat, sent: nat, out: seq<byte>, used: nat)
    requires Packed(stream, offset, buf, a, b, sent, out, used)
    ensures b <= ChunkCount(|buf|) && sent == Covered(|buf|, b) && used <= |out|
  {
  }

  function Concat(writes: seq<seq<byte>>): seq<byte> {
    if writes == [] then [] else Concat(writes[..|writes| - 1]) + writes[|writes| - 1]
  }

  ghost predicate BatchesOf(fs: seq<Frame>, writes: seq<seq<byte>>) {
    forall i :: 0 <= i < |writes| ==> i * BATCH_FRAMES < |fs| && writes[i] == EncodeAll(Batch(fs, i))
  }

  lemma {:induction false} BatchesAreFrames(fs: seq<Frame>, writes: seq<seq<byte>>)
    requires BatchesOf(fs, writes)
    ensures Concat(writes) == EncodeAll(fs[..Upto(|writes|, |fs|)])
    decreases |writes|
  {
    hide EncodeAll;
    if writes == [] {
      assert fs[..0] == [];
      assert EncodeAll([]) == [] by { EncodeNone(); }
    } else {
      var w := |writes| - 1;
      BatchesAreFrames(fs, writes[..w]);
      var done, all := Upto(w, |fs|), Upto(w + 1, |fs|);
      assert fs[..all] == fs[..done] + Batch(fs, w);
      EncodeAppend(fs[..done], Batch(fs, w));
    }
  }

  lemma EncodeNone()
    ensures EncodeAll([]) == []
  {
  }

  lemma ChunksEncodable(stream: nat, offset: nat, buf: seq<byte>)
    requires stream < Pow256(4) && offset + |buf| <= Pow256(8)
    ensures forall i :: 0 <= i < |Chunks(stream, offset, buf)| ==> Encodable(Chunks(stream, offset, buf)[i])
  {
    hide ChunkCount, Pow256;
    var fs := Chunks(stream, offset, buf);
    forall i | 0 <= i < |fs| ensures Encodable(fs[i]) {
      ChunkCovers(buf, i);
    }
  }

  /** What `send_spio_data` has written, a reader gets as frames of at most 4096
      bytes at consecutive offsets that carry the buffer from its start. */
  lemma SentIsRead(stream: nat, offset: nat, buf: seq<byte>, writes: seq<seq<byte>>)
    requires stream < Pow256(4) && offset + |buf| <= Pow256(8)
    requires BatchesOf(Chunks(stream, offset, buf), writes)
    ensures var fs := Chunks(stream, offset, buf);
            var n := Upto(|writes|, |fs|);
            && Decode(Concat(writes)) == Reading(fs[..n], Partial([]))
            && Payloads(fs[..n]) == buf[..Covered(|buf|, n)] && (n == |fs| ==> Covered(|buf|, n) == |buf|)
  {
    hide Decode, EncodeAll, Pow256, Chunks, Encodable, ChunkCount;
    var fs := Chunks(stream, offset, buf);
    var n := Upto(|writes|, |fs|);
    BatchesAreFrames(fs, writes);
    ChunksEncodable(stream, offset, buf);
    DecodesAll(fs[..n], []);
    assert EncodeAll(fs[..n]) + [] == EncodeAll(fs[..n]);
    DecodeNothing();
    ChunksCarry(stream, offset, buf, n);
    AllCovered(|buf|);
  }

  lemma DecodeNothing()
    ensures Decode([]) == Reading([], Partial([]))
  {
  }

  function HeadOf(b: seq<byte>): Parsed
    requires |b| >= HEADER_LEN
  {
    ParseHeader(b[..HEADER_LEN])
  }

  lemma DecodeUnfolds(b: seq<byte>)
    ensures |b| < HEADER_LEN ==> Decode(b) == Reading([], Partial(b))
    ensures |b| >= HEADER_LEN && HeadOf(b).Bad? ==> Decode(b) == Reading([], Broken)
    ensures |b| >= HEADER_LEN && HeadOf(b).Good? ==>
              var head := HeadOf(b).head;
              if |b| < HEADER_LEN + head.len then Decode(b) == Reading([], Partial(b))
              else
                var more := Decode(b[HEADER_LEN + head.len..]);
                Decode(b) == Reading([Frame(head.kind, head.stream, head.offset, b[HEADER_LEN..HEADER_LEN + head.len])] + more.frames, more.rest)
  {
    hide ParseHeader;
  }

  /** Reading on: what was left over is read together with what comes next. */
  lemma {:induction false} DecodeMore(b: seq<byte>, more: seq<byte>)
    requires Decode(b).rest.Partial?
    ensures var next := Decode(Decode(b).rest.bytes + more);
            Decode(b + more) == Reading(Decode(b).frames + next.frames, next.rest)
    decreases |b|
  {
    hide Decode, ParseHeader;
    DecodeUnfolds(b);
    if |b| >= HEADER_LEN && HeadOf(b).Good? {
      var len := HeadOf(b).head.len;
      if |b| >= HEADER_LEN + len {
        var tail := b[HEADER_LEN + len..];
        DecodeMore(tail, more);
        assert (b + more)[..HEADER_LEN] == b[..HEADER_LEN];
        DecodeUnfolds(b + more);
        assert (b + more)[HEADER_LEN + len..] == tail + more;
        assert (b + more)[HEADER_LEN..HEADER_LEN + len] == b[HEADER_LEN..HEADER_LEN + len];
      }
    }
  }

  /** A header and its whole payload are one frame. */
  lemma DecodeOne(h: seq<byte>, payload: seq<byte>)
    requires |h| == HEADER_LEN && ParseHeader(h).Good? && |payload| <= ParseHeader(h).head.len
    ensures var head := ParseHeader(h).head;
            Decode(h + payload) ==
            if |payload| < head.len then Reading([], Partial(h + payload))
            else Reading([Frame(head.kind, head.stream, head.offset, payload)], Partial([]))
  {
    var b, head := h + payload, ParseHeader(h).head;
    assert b[..HEADER_LEN] == h;
    if |payload| == head.len {
      assert b[HEADER_LEN..HEADER_LEN + head.len] == payload && b[HEADER_LEN + head.len..] == [];
      DecodeNothing();
    }
  }
}
