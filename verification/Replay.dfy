/** The replay buffer of an output stream: a ring that keeps the last 256 KiB
    under absolute stream offsets (guest/minimal-initrd/session_io.c). */
module Replay {
  import opened Bytes

  const REPLAY_CAP := 262144

  /** The first offset that a stream of `n` bytes still has in its ring. */
  function Base(n: nat): nat {
    if n <= REPLAY_CAP then 0 else n - REPLAY_CAP
  }

  lemma Wraps(offset: nat, j: nat)
    requires j <= REPLAY_CAP
    ensures var at := offset % REPLAY_CAP;
            (offset + j) % REPLAY_CAP == if at + j < REPLAY_CAP then at + j else if at + j < 2 * REPLAY_CAP then at + j - REPLAY_CAP else 0
  {
    var at := offset % REPLAY_CAP;
    assert offset + j == (offset / REPLAY_CAP) * REPLAY_CAP + (at + j);
  }

  lemma Apart(o: nat, p: nat)
    requires o < p < o + REPLAY_CAP
    ensures o % REPLAY_CAP != p % REPLAY_CAP
  {
    Wraps(o, p - o);
  }

  class ReplayBuffer {
    const data: array<byte>
    var base: nat
    var len: nat

    constructor ()
      ensures Holds([]) && fresh(data)
    {
      data := new byte[REPLAY_CAP];
      base, len := 0, 0;
    }

    /** The ring holds the end of `stream`. */
    ghost predicate Holds(stream: seq<byte>)
      reads this, data
    {
      && data.Length == REPLAY_CAP && base == Base(|stream|) && len == |stream| - base
      && forall o :: base <= o < |stream| ==> data[o % REPLAY_CAP] == stream[o]
    }

    /** What `memset` of the session leaves. */
    method Reset()
      requires data.Length == REPLAY_CAP
      modifies this
      ensures Holds([])
    {
      base, len := 0, 0;
    }

    /** The two `memcpy`s: `buf` goes to the ring positions of `offset` on. */
    method Copy(offset: nat, buf: seq<byte>)
      requires data.Length == REPLAY_CAP && |buf| <= REPLAY_CAP
      modifies data
      ensures forall j :: 0 <= j < |buf| ==> data[(offset + j) % REPLAY_CAP] == buf[j]
      ensures forall o: nat :: o < offset && offset + |buf| <= o + REPLAY_CAP ==> data[o % REPLAY_CAP] == old(data[o % REPLAY_CAP])
    {
      var at := offset % REPLAY_CAP;
      var first := if |buf| < REPLAY_CAP - at then |buf| else REPLAY_CAP - at;
      forall i | 0 <= i < first {
        data[at + i] := buf[i];
      }
      forall i | 0 <= i < |buf| - first {
        data[i] := buf[first + i];
      }
      forall j | 0 <= j < |buf| ensures data[(offset + j) % REPLAY_CAP] == buf[j] {
        Wraps(offset, j);
      }
      forall o: nat | o < offset && offset + |buf| <= o + REPLAY_CAP
        ensures data[o % REPLAY_CAP] == old(data[o % REPLAY_CAP])
      {
        Untouched(offset, |buf|, o);
      }
    }

    static lemma Untouched(offset: nat, n: nat, o: nat)
      requires n <= REPLAY_CAP && o < offset && offset + n <= o + REPLAY_CAP
      ensures var at, r := offset % REPLAY_CAP, o % REPLAY_CAP;
              !(at <= r < at + n) && !(r < at + n - REPLAY_CAP)
    {
      var at, r := offset % REPLAY_CAP, o % REPLAY_CAP;
      if at <= r < at + n {
        Wraps(offset, r - at);
        Apart(o, offset + (r - at));
      }
      if r < at + n - REPLAY_CAP {
        Wraps(offset, r + REPLAY_CAP - at);
        Apart(o, offset + (r + REPLAY_CAP - at));
      }
    }

    /** `replay_append`: the ring holds the end of the longer stream. */
    method Append(ghost stream: seq<byte>, offset: nat, buf: seq<byte>)
      requires Holds(stream) && offset == |stream|
      modifies this, data
      ensures Holds(stream + buf)
    {
      var start, kept := offset, buf;
      if |buf| > REPLAY_CAP {
        kept, start := buf[|buf| - REPLAY_CAP..], offset + |buf| - REPLAY_CAP;
      }
      Copy(start, kept);
      len := if len + |kept| < REPLAY_CAP then len + |kept| else REPLAY_CAP;
      base := start + |kept| - len;
      ghost var all := stream + buf;
      forall o | base <= o < |all| ensures data[o % REPLAY_CAP] == all[o] {
        if o >= start {
          assert o == start + (o - start) && kept[o - start] == all[o];
        } else {
          assert all[o] == stream[o];
        }
      }
    }

    /** `replay_available`: whether a client can resume at `offset`. */
    predicate Available(offset: nat, end: nat)
      reads this
    {
      base <= offset <= end
    }

    /** The contiguous piece of the ring that `send_replay` sends next. */
    method Piece(ghost stream: seq<byte>, offset: nat) returns (piece: seq<byte>)
      requires Holds(stream) && base <= offset < |stream|
      ensures 0 < |piece| <= |stream| - offset && piece == stream[offset..offset + |piece|]
    {
      var at := offset % REPLAY_CAP;
      var n := base + len - offset;
      if n > REPLAY_CAP - at {
        n := REPLAY_CAP - at;
      }
      piece := data[at..at + n];
      forall j | 0 <= j < n ensures piece[j] == stream[offset + j] {
        Wraps(offset, j);
      }
    }
  }

  /** A client that was `lag` bytes behind when the stream had `n` bytes can
      still resume there after `more` bytes exactly when both fit the ring. */
  lemma LagSurvives(n: nat, lag: nat, more: nat)
    requires lag <= n
    ensures n - lag >= Base(n + more) <==> lag + more <= REPLAY_CAP
  {
  }

  const BATCH_BYTES := 15 * 4096
  const HOST_STREAM_CREDIT := 64 * 1024

  /** A save trails the agent by at most one read and the host's credit, and
      that lag survives 132 KiB of further output, and no more. */
  lemma SavedLagSurvives(n: nat, more: nat)
    requires n >= BATCH_BYTES + HOST_STREAM_CREDIT
    ensures n - (BATCH_BYTES + HOST_STREAM_CREDIT) >= Base(n + more) <==> more <= 132 * 1024
  {
    LagSurvives(n, BATCH_BYTES + HOST_STREAM_CREDIT, more);
  }
}
