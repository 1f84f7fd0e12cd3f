/** What a connection's peer has been sent, as a log of frames, and what such a
    log says about the streams it carries. */
module Wire {
  import opened Bytes
  import opened Spio

  /** A data frame of the given stream. */
  predicate Carries(f: Frame, stream: nat) {
    f.kind == DATA && f.stream == stream
  }

  /** The bytes of a stream that a log delivers. */
  function Delivered(log: seq<Frame>, stream: nat): seq<byte> {
    if log == [] then []
    else
      var before, last := Delivered(log[..|log| - 1], stream), log[|log| - 1];
      if Carries(last, stream) then before + last.payload else before
  }

  /** Every data frame of the stream stands at the offset its bytes have, counted from `from`. */
  predicate InOrder(log: seq<Frame>, stream: nat, from: nat) {
    log == [] ||
    (InOrder(log[..|log| - 1], stream, from) &&
     (Carries(log[|log| - 1], stream) ==> log[|log| - 1].offset == from + |Delivered(log[..|log| - 1], stream)|))
  }

  predicate NoExit(log: seq<Frame>) {
    forall i :: 0 <= i < |log| ==> log[i].kind != EXIT
  }

  /** At most one EXIT frame, and nothing after it. */
  predicate ExitLast(log: seq<Frame>) {
    forall i :: 0 <= i < |log| - 1 ==> log[i].kind != EXIT
  }

  /** The log delivers a contiguous slice of `stream` from `from` on. */
  predicate Slices(log: seq<Frame>, id: nat, from: nat, stream: seq<byte>) {
    from <= |stream| && InOrder(log, id, from) && Delivered(log, id) <= stream[from..]
  }

  /** The log delivers all of `stream` from `from` on. */
  predicate Whole(log: seq<Frame>, id: nat, from: nat, stream: seq<byte>) {
    from <= |stream| && InOrder(log, id, from) && Delivered(log, id) == stream[from..]
  }

  lemma {:induction false} OtherFrames(log: seq<Frame>, more: seq<Frame>, id: nat, from: nat)
    requires forall i :: 0 <= i < |more| ==> !Carries(more[i], id)
    ensures Delivered(log + more, id) == Delivered(log, id)
    ensures InOrder(log + more, id, from) <==> InOrder(log, id, from)
    decreases |more|
  {
    if more == [] {
      assert log + more == log;
    } else {
      var n := |more| - 1;
      OtherFrames(log, more[..n], id, from);
      assert (log + more)[..|log + more| - 1] == log + more[..n];
    }
  }

  lemma OneMoreFrame(log: seq<Frame>, f: Frame, id: nat, from: nat)
    requires Carries(f, id) && InOrder(log, id, from) && f.offset == from + |Delivered(log, id)|
    ensures Delivered(log + [f], id) == Delivered(log, id) + f.payload && InOrder(log + [f], id, from)
  {
    assert (log + [f])[..|log|] == log;
  }

  /** The first chunks of a buffer deliver the bytes they cover. */
  lemma {:induction false} ChunksDeliver(log: seq<Frame>, id: nat, offset: nat, buf: seq<byte>, k: nat)
    requires k <= |Chunks(id, offset, buf)|
    ensures Delivered(log + Chunks(id, offset, buf)[..k], id) == Delivered(log, id) + buf[..Covered(|buf|, k)]
    decreases k
  {
    hide ChunkCount, ChunkOf, Covered;
    var fs := Chunks(id, offset, buf);
    var log' := log + fs[..k];
    if k == 0 {
      assert log' == log;
      NoneCovered(|buf|);
    } else {
      ChunksDeliver(log, id, offset, buf, k - 1);
      assert log'[..|log'| - 1] == log + fs[..k - 1];
      ChunkCovers(buf, k - 1);
    }
  }

  /** Chunks sent at the offset the stream has reached continue it. */
  lemma {:induction false} ChunksContinue(log: seq<Frame>, id: nat, from: nat, offset: nat, buf: seq<byte>, k: nat)
    requires InOrder(log, id, from) && offset == from + |Delivered(log, id)| && k <= |Chunks(id, offset, buf)|
    ensures var log' := log + Chunks(id, offset, buf)[..k];
            Delivered(log', id) == Delivered(log, id) + buf[..Covered(|buf|, k)] && InOrder(log', id, from)
    decreases k
  {
    hide ChunkCount, ChunkOf, Covered, Delivered;
    var fs := Chunks(id, offset, buf);
    var log' := log + fs[..k];
    ChunksDeliver(log, id, offset, buf, k);
    if k == 0 {
      assert log' == log;
    } else {
      ChunksContinue(log, id, from, offset, buf, k - 1);
      assert log'[..|log'| - 1] == log + fs[..k - 1];
      ChunkCovers(buf, k - 1);
    }
  }

  /** Sending more of the stream to a log that has all of it so far. */
  lemma WholeContinues(log: seq<Frame>, id: nat, from: nat, stream: seq<byte>, buf: seq<byte>, k: nat)
    requires Whole(log, id, from, stream) && k <= |Chunks(id, |stream|, buf)|
    ensures var log' := log + Chunks(id, |stream|, buf)[..k];
            Slices(log', id, from, stream + buf) && (k == |Chunks(id, |stream|, buf)| ==> Whole(log', id, from, stream + buf))
  {
    hide Chunks, Covered, InOrder, Delivered, ChunkCount;
    ChunksContinue(log, id, from, |stream|, buf, k);
    AllCovered(|buf|);
    assert (stream + buf)[from..] == stream[from..] + buf;
    assert buf[..|buf|] == buf;
  }

  lemma ChunksOfOther(id: nat, offset: nat, buf: seq<byte>, k: nat, other: nat)
    requires k <= |Chunks(id, offset, buf)| && id != other
    ensures forall i :: 0 <= i < |Chunks(id, offset, buf)[..k]| ==> !Carries(Chunks(id, offset, buf)[..k][i], other)
    ensures NoExit(Chunks(id, offset, buf)[..k])
  {
  }

  lemma ChunksNoExit(id: nat, offset: nat, buf: seq<byte>, k: nat)
    requires k <= |Chunks(id, offset, buf)|
    ensures NoExit(Chunks(id, offset, buf)[..k])
  {
  }

  /** A slice of a stream is one of any longer stream. */
  lemma SlicesGrow(log: seq<Frame>, id: nat, from: nat, stream: seq<byte>, stream': seq<byte>)
    requires Slices(log, id, from, stream) && stream <= stream'
    ensures Slices(log, id, from, stream')
  {
    hide InOrder, Delivered;
    assert stream[from..] <= stream'[from..];
  }

  /** One connection: what it was sent, whether it was served a session's
      streams, which session's and from which offsets, and those streams as far
      as the connection followed them. */
  datatype Conn = Conn(log: seq<Frame>, served: bool, session: nat, fromOut: nat, fromErr: nat, out: seq<byte>, err: seq<byte>)

  /** A served connection has slices of the streams; one that was told the exit status has all of both. */
  predicate Proper(c: Conn) {
    && ExitLast(c.log)
    && (c.served ==>
          && Slices(c.log, STDOUT_STREAM, c.fromOut, c.out) && Slices(c.log, STDERR_STREAM, c.fromErr, c.err)
          && (!NoExit(c.log) ==> Whole(c.log, STDOUT_STREAM, c.fromOut, c.out) && Whole(c.log, STDERR_STREAM, c.fromErr, c.err)))
  }

  /** A connection that has everything so far. */
  predicate UpToDate(c: Conn) {
    && NoExit(c.log)
    && (c.served ==> Whole(c.log, STDOUT_STREAM, c.fromOut, c.out) && Whole(c.log, STDERR_STREAM, c.fromErr, c.err))
  }

  lemma UpToDateIsProper(c: Conn)
    requires UpToDate(c)
    ensures Proper(c)
  {
  }

  function End(c: Conn, id: nat): nat {
    From(c, id) + |Delivered(c.log, id)|
  }

  function From(c: Conn, id: nat): nat {
    if id == STDOUT_STREAM then c.fromOut else c.fromErr
  }

  /** Each connection resumes where the one before it stopped. */
  predicate Resumes(cs: seq<Conn>, id: nat) {
    forall i :: 0 < i < |cs| ==> From(cs[i], id) == End(cs[i - 1], id)
  }

  function AllDelivered(cs: seq<Conn>, id: nat): seq<byte> {
    if cs == [] then [] else AllDelivered(cs[..|cs| - 1], id) + Delivered(cs[|cs| - 1].log, id)
  }

  /** A chain of connections that each resume where the last one stopped gets the
      stream from the first offset on, with no gap and no repeat. */
  lemma {:induction false} ChainIsStream(cs: seq<Conn>, id: nat, stream: seq<byte>)
    requires cs != [] && Resumes(cs, id) && forall i :: 0 <= i < |cs| ==> Slices(cs[i].log, id, From(cs[i], id), stream)
    ensures From(cs[0], id) <= End(cs[|cs| - 1], id) <= |stream|
    ensures AllDelivered(cs, id) == stream[From(cs[0], id)..End(cs[|cs| - 1], id)]
    decreases |cs|
  {
    hide InOrder, Delivered;
    var n := |cs| - 1;
    var last := cs[n];
    var from, to := From(last, id), End(last, id);
    assert Delivered(last.log, id) == stream[from..to] by {
      assert stream[from..][..to - from] == stream[from..to];
    }
    if n > 0 {
      var before := cs[..n];
      ChainIsStream(before, id, stream);
      assert before[0] == cs[0] && before[n - 1] == cs[n - 1];
      assert stream[From(cs[0], id)..from] + stream[from..to] == stream[From(cs[0], id)..to];
    } else {
      assert cs[..0] == [];
    }
  }

  // ---- Events ----

  /** How many events a log has. */
  ghost function Notices(log: seq<Frame>): nat {
    if log == [] then 0 else Notices(log[..|log| - 1]) + if log[|log| - 1].kind == EVENT then 1 else 0
  }

  lemma {:induction false} NoMoreNotices(log: seq<Frame>, more: seq<Frame>)
    requires forall i :: 0 <= i < |more| ==> more[i].kind != EVENT
    ensures Notices(log + more) == Notices(log)
    decreases |more|
  {
    if more == [] {
      assert log + more == log;
    } else {
      var n := |more| - 1;
      NoMoreNotices(log, more[..n]);
      assert (log + more)[..|log + more| - 1] == log + more[..n];
    }
  }

  lemma OneMoreNotice(log: seq<Frame>, f: Frame)
    requires f.kind == EVENT
    ensures Notices(log + [f]) == Notices(log) + 1
  {
    assert (log + [f])[..|log|] == log;
  }

  lemma ChunksAreNoNotices(log: seq<Frame>, id: nat, offset: nat, buf: seq<byte>, k: nat)
    requires k <= |Chunks(id, offset, buf)|
    ensures Notices(log + Chunks(id, offset, buf)[..k]) == Notices(log)
  {
    hide Notices;
    NoMoreNotices(log, Chunks(id, offset, buf)[..k]);
  }
}
