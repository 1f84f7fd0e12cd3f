/** How a copied-in archive arrives: frames of standard input, each where the
    last one stopped, and then a close (guest/minimal-initrd/copy.c). */
module CopyTransfer {
  import opened Bytes
  import opened Spio

  /** A run of data frames on standard input, with no gap and no repeat. */
  ghost predicate InOrder(fs: seq<Frame>) {
    forall i :: 0 <= i < |fs| ==> fs[i].kind == DATA && fs[i].stream == STDIN_STREAM && fs[i].offset == |Payloads(fs[..i])|
  }

  function CloseAt(offset: nat): Frame {
    Frame(CLOSE, STDIN_STREAM, offset, [])
  }

  /** The first `n` frames are a transfer, and a close ends it. */
  ghost predicate Transfers(fs: seq<Frame>, n: nat) {
    n < |fs| && InOrder(fs[..n]) && fs[n] == CloseAt(|Payloads(fs[..n])|)
  }

  /** No more than one part of the frames is a transfer. */
  lemma TransfersOnce(fs: seq<Frame>, n: nat, m: nat)
    requires Transfers(fs, n) && Transfers(fs, m)
    ensures n == m
  {
    hide Payloads;
    DataBefore(fs, n);
    DataBefore(fs, m);
  }

  lemma DataBefore(fs: seq<Frame>, n: nat)
    requires n <= |fs| && InOrder(fs[..n])
    ensures forall i :: 0 <= i < n ==> fs[i].kind == DATA
    ensures forall k :: 0 <= k <= n ==> InOrder(fs[..k])
  {
    hide Payloads;
    forall i | 0 <= i < n ensures fs[..n][i] == fs[i] {
    }
    forall k | 0 <= k <= n ensures InOrder(fs[..k]) {
      forall i | 0 <= i < k ensures fs[..k][i] == fs[..n][i] && fs[..k][..i] == fs[..n][..i] {
      }
    }
  }

  lemma OneMorePayload(fs: seq<Frame>, f: Frame)
    ensures Payloads(fs + [f]) == Payloads(fs) + f.payload
  {
    assert (fs + [f])[..|fs|] == fs;
  }

  lemma OneMoreInOrder(fs: seq<Frame>, f: Frame)
    requires InOrder(fs)
    ensures InOrder(fs + [f]) <==> f.kind == DATA && f.stream == STDIN_STREAM && f.offset == |Payloads(fs)|
  {
    hide Payloads;
    var more := fs + [f];
    assert more[..|fs|] == fs && more[|fs|] == f;
    forall i | 0 <= i < |fs| ensures more[i] == fs[i] && more[..i] == fs[..i] {
    }
  }

  /** The next frame does not go on with the transfer, and does not end it. */
  lemma Stuck(fs: seq<Frame>, n: nat)
    requires n <= |fs| && InOrder(fs[..n])
    requires n < |fs| ==> !InOrder(fs[..n + 1]) && fs[n] != CloseAt(|Payloads(fs[..n])|)
    ensures !exists m: nat :: Transfers(fs, m)
  {
    hide Payloads;
    DataBefore(fs, n);
    forall m: nat | Transfers(fs, m) ensures false {
      DataBefore(fs, m);
    }
  }

  /** What was read so far, and what the rest decodes to. */
  ghost predicate Reads(input: seq<byte>, fs: seq<Frame>, rest: seq<byte>) {
    Decode(input) == Reading(fs + Decode(rest).frames, Decode(rest).rest)
  }

  lemma ReadsNothing(input: seq<byte>)
    ensures Reads(input, [], input)
  {
    hide Decode;
    assert [] + Decode(input).frames == Decode(input).frames;
  }

  /** One frame at the front, if it is all there. */
  lemma ReadsOne(input: seq<byte>, fs: seq<Frame>, rest: seq<byte>)
    requires Reads(input, fs, rest)
    ensures |rest| < HEADER_LEN || HeadOf(rest).Bad? || |rest| < HEADER_LEN + HeadOf(rest).head.len ==> Decode(input).frames == fs
    ensures |rest| >= HEADER_LEN && HeadOf(rest).Good? && |rest| >= HEADER_LEN + HeadOf(rest).head.len ==>
              var h := HeadOf(rest).head;
              var f := Frame(h.kind, h.stream, h.offset, rest[HEADER_LEN..HEADER_LEN + h.len]);
              Reads(input, fs + [f], rest[HEADER_LEN + h.len..]) && fs + [f] <= Decode(input).frames
  {
    hide Decode, HeadOf;
    DecodeUnfolds(rest);
    assert fs + [] == fs;
    if |rest| >= HEADER_LEN && HeadOf(rest).Good? && |rest| >= HEADER_LEN + HeadOf(rest).head.len {
      var h := HeadOf(rest).head;
      var f := Frame(h.kind, h.stream, h.offset, rest[HEADER_LEN..HEADER_LEN + h.len]);
      var next := Decode(rest[HEADER_LEN + h.len..]);
      assert fs + ([f] + next.frames) == fs + [f] + next.frames;
    }
  }

  /** `receive_lifecycle_copy_archive_from_spio`, with `read_spio_header_blocking`:
      the payloads of the transfer, exactly when what the connection sends has one. */
  method Receive(input: seq<byte>) returns (ok: bool, archive: seq<byte>, ghost n: nat)
    ensures ok <==> exists k: nat :: Transfers(Decode(input).frames, k)
    ensures ok ==> Transfers(Decode(input).frames, n) && archive == Payloads(Decode(input).frames[..n])
  {
    hide Decode, HeadOf, Payloads, InOrder, Transfers, Reads;
    var rest := input;
    ghost var fs: seq<Frame> := [];
    archive, n := [], 0;
    Starts(input);
    while true
      invariant Reads(input, fs, rest) && InOrder(fs) && archive == Payloads(fs) && fs <= Decode(input).frames
      decreases |rest|
    {
      ReadsOne(input, fs, rest);
      if |rest| < HEADER_LEN || HeadOf(rest).Bad? || |rest| < HEADER_LEN + HeadOf(rest).head.len {
        assert fs[..|fs|] == fs;
        Stuck(Decode(input).frames, |fs|);
        return false, [], 0;
      }
      var head := HeadOf(rest).head;
      var payload := rest[HEADER_LEN..HEADER_LEN + head.len];
      ghost var f := Frame(head.kind, head.stream, head.offset, payload);
      ghost var all := Decode(input).frames;
      assert all[..|fs|] == fs && all[..|fs| + 1] == fs + [f] && all[|fs|] == f;
      rest := rest[HEADER_LEN + head.len..];
      OneMoreInOrder(fs, f);
      OneMorePayload(fs, f);
      if head.kind == DATA {
        if head.stream != STDIN_STREAM || head.offset != |archive| {
          Stuck(all, |fs|);
          return false, [], 0;
        }
        archive, fs := archive + payload, fs + [f];
        continue;
      }
      if head.kind == CLOSE && head.stream == STDIN_STREAM && head.offset == |archive| && payload == [] {
        n := |fs|;
        Ends(all, n);
        return true, archive, n;
      }
      Stuck(all, |fs|);
      return false, [], 0;
    }
  }

  lemma Starts(input: seq<byte>)
    ensures Reads(input, [], input) && InOrder([]) && Payloads([]) == []
  {
    hide Decode;
    ReadsNothing(input);
  }

  lemma Ends(fs: seq<Frame>, n: nat)
    requires n < |fs| && InOrder(fs[..n]) && fs[n] == CloseAt(|Payloads(fs[..n])|)
    ensures Transfers(fs, n)
  {
  }

  /** What a host sends for an archive: its bytes in frames, and a close. */
  function Transfer(archive: seq<byte>): seq<byte> {
    EncodeAll(Chunks(STDIN_STREAM, 0, archive)) + Encode(CloseAt(|archive|))
  }

  lemma ChunksInOrder(archive: seq<byte>)
    ensures InOrder(Chunks(STDIN_STREAM, 0, archive))
  {
    var fs := Chunks(STDIN_STREAM, 0, archive);
    forall i | 0 <= i < |fs| ensures fs[i].offset == |Payloads(fs[..i])| {
      ChunksCarry(STDIN_STREAM, 0, archive, i);
      ChunkCovers(archive, i);
    }
  }

  /** And that arrives as the archive it was. */
  lemma TransferArrives(archive: seq<byte>)
    requires |archive| < Pow256(8)
    ensures var fs := Decode(Transfer(archive)).frames;
            var n := |Chunks(STDIN_STREAM, 0, archive)|;
            Transfers(fs, n) && Payloads(fs[..n]) == archive
  {
    hide Decode, Chunks, Payloads, Encode, InOrder;
    var data, close := Chunks(STDIN_STREAM, 0, archive), CloseAt(|archive|);
    StreamFits();
    ChunksInOrder(archive);
    ChunksCarryAll(STDIN_STREAM, 0, archive);
    ChunksEncodable(STDIN_STREAM, 0, archive);
    DecodesAll(data, Encode(close));
    assert Encode(close) + [] == Encode(close);
    DecodesFrame(close, []);
    DecodeNothing();
    var fs := Decode(Transfer(archive)).frames;
    assert [close] + [] == [close];
    assert fs == data + [close];
    assert fs[..|data|] == data;
  }

  lemma StreamFits()
    ensures STDIN_STREAM < Pow256(4)
  {
  }
}
