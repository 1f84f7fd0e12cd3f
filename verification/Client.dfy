/** The agent's one client: its connection, how far it has been sent each
    stream, and the frame it is in the middle of sending
    (guest/minimal-initrd/spio.c, guest/minimal-initrd/agent.h). */
module Clients {
  import opened Bytes
  import opened Spio
  import opened Wire

  /** `v1_header` and `v1_payload` as far as they are filled, and the header once it is whole. */
  datatype Parser = Parser(header: seq<byte>, head: Head, payload: seq<byte>)

  const IDLE := Parser([], Head(0, 0, 0, 0), [])

  /** The bytes taken from a connection and the frames they made. */
  datatype Input = Input(received: seq<byte>, handled: seq<Frame>)

  /** An event on the control stream, such as the timing that goes before an exit status; its text is left out. */
  const NOTICE := Frame(EVENT, CONTROL_STREAM, 0, [])

  function ExitFrame(code: int): Frame {
    Frame(EXIT, CONTROL_STREAM, 0, WriteLe(code % 0x1_0000_0000, 4))
  }

  const NOBODY := Conn([], false, 0, 0, 0, [], [])

  predicate AllProper(cs: seq<Conn>) {
    forall i :: 0 <= i < |cs| ==> Proper(cs[i])
  }

  /** A session's streams so far, and its exit status once nothing more can come. */
  datatype Status = Going | Over(code: int)
  datatype Story = Story(out: seq<byte>, err: seq<byte>, status: Status)

  /** A story goes on, and one that is over stays as it is. */
  predicate Follows(s: Story, s': Story) {
    s.out <= s'.out && s.err <= s'.err && (s.status.Over? ==> s' == s)
  }

  /** The last thing the connection was sent is this exit status. */
  predicate Told(c: Conn, code: int) {
    c.log != [] && Says(c.log[|c.log| - 1], code)
  }

  /** An EXIT frame whose four bytes are the status, a two's complement number of 32 bits. */
  predicate Says(f: Frame, code: int) {
    f.kind == EXIT && f.stream == CONTROL_STREAM && f.offset == 0 && |f.payload| == 4 && ReadLe(f.payload) == code % 0x1_0000_0000
  }

  lemma ExitSays(code: int)
    ensures Says(ExitFrame(code), code)
  {
    assert Pow256(4) == 256 * Pow256(3) == 65536 * Pow256(2) == 0x1_0000_0000;
    ReadWriteLe(code % 0x1_0000_0000, 4);
  }

  predicate LastTold(cs: seq<Conn>, code: int) {
    cs != [] && Told(cs[|cs| - 1], code)
  }

  /** A connection served by session number `serial` knows no more than that
      session's story, and when it was told an exit status it knows all of it. */
  predicate Tracks(c: Conn, serial: nat, s: Story) {
    c.served && c.session == serial ==>
      && c.out <= s.out && c.err <= s.err
      && (!NoExit(c.log) ==> s.status.Over? && c.out == s.out && c.err == s.err && Told(c, s.status.code))
  }

  predicate AllTrack(cs: seq<Conn>, serial: nat, s: Story) {
    forall i :: 0 <= i < |cs| ==> Tracks(cs[i], serial, s)
  }

  lemma TracksMore(cs: seq<Conn>, serial: nat, s: Story, s': Story)
    requires AllTrack(cs, serial, s) && Follows(s, s')
    ensures AllTrack(cs, serial, s')
  {
  }

  lemma FollowsOn(s: Story, t: Story, u: Story)
    requires Follows(s, t) && Follows(t, u)
    ensures Follows(s, u)
  {
  }

  lemma TracksPart(c: Conn, serial: nat, s: Story)
    requires NoExit(c.log) && (c.served ==> c.out <= s.out && c.err <= s.err)
    ensures Tracks(c, serial, s)
  {
  }

  lemma TracksUnserved(c: Conn, serial: nat, s: Story)
    requires !c.served
    ensures Tracks(c, serial, s)
  {
  }

  lemma OneMoreTracks(cs: seq<Conn>, c: Conn, serial: nat, s: Story)
    requires AllTrack(cs, serial, s) && Tracks(c, serial, s)
    ensures AllTrack(cs + [c], serial, s)
  {
  }

  /** Another session, whose connections a client remembers while it is with this one. */
  datatype Keep = Nothing | Keep(serial: nat, story: Story)

  predicate Remembers(cs: seq<Conn>, keep: Keep) {
    keep.Keep? ==> AllTrack(cs, keep.serial, keep.story)
  }

  predicate NotOf(c: Conn, keep: Keep) {
    c.served && keep.Keep? ==> c.session != keep.serial
  }

  /** Where a client keeps that, apart from what its connection changes. */
  class Memory {
    ghost var keep: Keep

    constructor ()
      ensures keep == Nothing
    {
      keep := Nothing;
    }
  }

  lemma RemembersMore(cs: seq<Conn>, c: Conn, keep: Keep)
    requires Remembers(cs, keep) && NotOf(c, keep)
    ensures Remembers(cs + [c], keep)
  {
  }

  /** A number no connection so far has for its session. */
  function FreshSerial(cs: seq<Conn>, other: nat): (n: nat)
    ensures n > other && forall i :: 0 <= i < |cs| ==> cs[i].session < n
  {
    if cs == [] then other + 1
    else
      var n, last := FreshSerial(cs[..|cs| - 1], other), cs[|cs| - 1].session;
      if last >= n then last + 1 else n
  }

  lemma FreshTracks(cs: seq<Conn>, other: nat, serial: nat, s: Story)
    requires serial == FreshSerial(cs, other)
    ensures AllTrack(cs, serial, s)
  {
  }

  /** What has been taken from a connection is the frames handled and the frame begun. */
  predicate Parsing(p: Parser, input: Input) {
    && |p.header| <= HEADER_LEN && (|p.header| < HEADER_LEN ==> p.payload == [])
    && (|p.header| == HEADER_LEN ==> ParseHeader(p.header) == Good(p.head) && |p.payload| < p.head.len)
    && Decode(input.received) == Reading(input.handled, Partial(p.header + p.payload))
  }

  /** The standard input frames handled so far follow one another from offset 0. */
  predicate StdinInOrder(handled: seq<Frame>, offset: nat) {
    InOrder(handled, STDIN_STREAM, 0) && offset == |Delivered(handled, STDIN_STREAM)|
  }

  /** Some more of the header. */
  lemma HeaderGrows(p: Parser, input: Input, bytes: seq<byte>)
    requires Parsing(p, input) && |p.header| + |bytes| < HEADER_LEN
    ensures Parsing(p.(header := p.header + bytes), input.(received := input.received + bytes))
  {
    hide Decode, ParseHeader;
    DecodeMore(input.received, bytes);
    DecodeUnfolds(p.header + bytes);
    assert p.header + p.payload == p.header && p.header + bytes + p.payload == p.header + bytes;
  }

  /** The rest of the header, when a payload follows. */
  lemma HeaderDone(p: Parser, input: Input, bytes: seq<byte>)
    requires Parsing(p, input) && |p.header| < HEADER_LEN && |p.header| + |bytes| == HEADER_LEN
    ensures var h := p.header + bytes;
            ParseHeader(h).Good? ==>
              var head := ParseHeader(h).head;
              if head.len > 0 then Parsing(Parser(h, head, []), Input(input.received + bytes, input.handled))
              else Parsing(IDLE, Input(input.received + bytes, input.handled + [Frame(head.kind, head.stream, head.offset, [])]))
  {
    hide Decode, ParseHeader;
    var h := p.header + bytes;
    DecodeMore(input.received, bytes);
    assert p.header + p.payload == p.header;
    if ParseHeader(h).Good? {
      DecodeOne(h, []);
      assert h + [] == h && IDLE.header + IDLE.payload == [];
    }
  }

  /** The rest of a header that makes no sense. */
  lemma HeaderBreaks(p: Parser, input: Input, bytes: seq<byte>)
    requires Parsing(p, input) && |p.header| < HEADER_LEN && |p.header| + |bytes| == HEADER_LEN && ParseHeader(p.header + bytes).Bad?
    ensures Decode(input.received + bytes) == Reading(input.handled, Broken)
  {
    hide Decode, ParseHeader;
    var h := p.header + bytes;
    DecodeMore(input.received, bytes);
    DecodeUnfolds(h);
    assert p.header + p.payload == p.header && h[..HEADER_LEN] == h;
  }

  /** Some more of the payload, or the rest of it. */
  lemma PayloadGrows(p: Parser, input: Input, bytes: seq<byte>)
    requires Parsing(p, input) && |p.header| == HEADER_LEN && |p.payload| + |bytes| <= p.head.len
    ensures var payload := p.payload + bytes;
            if |payload| < p.head.len then Parsing(p.(payload := payload), Input(input.received + bytes, input.handled))
            else Parsing(IDLE, Input(input.received + bytes, input.handled + [Frame(p.head.kind, p.head.stream, p.head.offset, payload)]))
  {
    hide Decode, ParseHeader;
    var payload := p.payload + bytes;
    DecodeMore(input.received, bytes);
    DecodeOne(p.header, payload);
    assert p.header + p.payload + bytes == p.header + payload && IDLE.header + IDLE.payload == [];
  }

  /** However the bytes of some frames are cut up on their way, the frames
      handled are those frames. */
  lemma HandledIsSent(p: Parser, input: Input, fs: seq<Frame>)
    requires Parsing(p, input) && input.received == EncodeAll(fs) && forall i :: 0 <= i < |fs| ==> Encodable(fs[i])
    ensures input.handled == fs && p.header == [] && p.payload == []
  {
    DecodesAll(fs, []);
    assert EncodeAll(fs) + [] == EncodeAll(fs);
    DecodeNothing();
    assert p.header + p.payload == [];
  }

  /** Two readers that have taken the same bytes, in whatever pieces, have
      handled the same frames and stand at the same place in the next. */
  lemma PiecesDoNotMatter(p: Parser, input: Input, q: Parser, other: Input)
    requires Parsing(p, input) && Parsing(q, other) && input.received == other.received
    ensures input.handled == other.handled && p.header == q.header && p.payload == q.payload
  {
    var rest := p.header + p.payload;
    assert rest == q.header + q.payload;
    if |rest| < HEADER_LEN {
      assert p.header == rest && q.header == rest;
    } else {
      assert p.header == rest[..HEADER_LEN] && q.header == rest[..HEADER_LEN];
      assert p.payload == rest[HEADER_LEN..] && q.payload == rest[HEADER_LEN..];
    }
  }

  lemma NothingYet()
    ensures UpToDate(NOBODY) && Parsing(IDLE, Input([], [])) && StdinInOrder([], 0) && AllProper([])
  {
    assert IDLE.header + IDLE.payload == [];
  }

  lemma OneMoreProper(cs: seq<Conn>, c: Conn)
    requires AllProper(cs) && Proper(c)
    ensures AllProper(cs + [c])
  {
  }

  // ---- A connection's two output streams by number ----

  function StreamOf(c: Conn, id: nat): seq<byte> {
    if id == STDOUT_STREAM then c.out else c.err
  }

  function WithStream(c: Conn, id: nat, s: seq<byte>): Conn {
    if id == STDOUT_STREAM then c.(out := s) else c.(err := s)
  }

  /** The connection after `k` of the frames that carry the next `buf` of a stream. */
  function Sent(c: Conn, id: nat, offset: nat, buf: seq<byte>, k: nat): Conn
    requires k <= |Chunks(id, offset, buf)|
  {
    WithStream(c.(log := c.log + Chunks(id, offset, buf)[..k]), id, StreamOf(c, id) + buf)
  }

  lemma SentStaysProper(c: Conn, id: nat, offset: nat, buf: seq<byte>, k: nat)
    requires UpToDate(c) && (id == STDOUT_STREAM || id == STDERR_STREAM) && k <= |Chunks(id, offset, buf)|
    requires c.served ==> offset == |StreamOf(c, id)|
    ensures Proper(Sent(c, id, offset, buf, k)) && NoExit(Sent(c, id, offset, buf, k).log)
    ensures k == |Chunks(id, offset, buf)| ==> UpToDate(Sent(c, id, offset, buf, k))
  {
    hide Whole, Slices, Chunks;
    var other := if id == STDOUT_STREAM then STDERR_STREAM else STDOUT_STREAM;
    ChunksOfOther(id, offset, buf, k, other);
    if c.served {
      WholeContinues(c.log, id, From(c, id), StreamOf(c, id), buf, k);
      OtherStream(c.log, Chunks(id, offset, buf)[..k], other, From(c, other), StreamOf(c, other));
    }
  }

  lemma OtherStream(log: seq<Frame>, more: seq<Frame>, id: nat, from: nat, stream: seq<byte>)
    requires Whole(log, id, from, stream) && forall i :: 0 <= i < |more| ==> !Carries(more[i], id)
    ensures Whole(log + more, id, from, stream) && Slices(log + more, id, from, stream)
  {
    OtherFrames(log, more, id, from);
  }

  /** Frames of neither output stream leave a connection as up to date as it was. */
  lemma SentElsewhere(c: Conn, more: seq<Frame>)
    requires UpToDate(c) && NoExit(more)
    requires forall i :: 0 <= i < |more| ==> !Carries(more[i], STDOUT_STREAM) && !Carries(more[i], STDERR_STREAM)
    ensures UpToDate(c.(log := c.log + more))
  {
    hide Whole;
    if c.served {
      OtherStream(c.log, more, STDOUT_STREAM, c.fromOut, c.out);
      OtherStream(c.log, more, STDERR_STREAM, c.fromErr, c.err);
    }
  }

  function Least(a: nat, b: nat): (r: nat)
    ensures r <= a && r <= b
  {
    if a <= b then a else b
  }

  /** The connection after as much of a goodbye with status `code` as fits `room` frames. */
  function Farewell(c: Conn, code: int, room: nat): Conn {
    c.(log := c.log + [NOTICE, ExitFrame(code)][..Least(2, room)])
  }

  lemma FarewellIsProper(c: Conn, code: int, room: nat)
    requires UpToDate(c)
    ensures var c' := Farewell(c, code, room);
            Proper(c') && (!NoExit(c'.log) <==> room >= 2) && (room >= 2 ==> Told(c', code))
  {
    hide Whole, Says;
    var more := [NOTICE, ExitFrame(code)][..Least(2, room)];
    assert forall i :: 0 <= i < |more| ==> more[i] == if i == 0 then NOTICE else ExitFrame(code);
    if c.served {
      OtherStream(c.log, more, STDOUT_STREAM, c.fromOut, c.out);
      OtherStream(c.log, more, STDERR_STREAM, c.fromErr, c.err);
    }
    if room >= 2 {
      assert (c.log + more)[|c.log| + 1] == ExitFrame(code);
      ExitSays(code);
    }
  }

  /** What a refusal says: the message on standard error, and the status. */
  function Refusal(offset: nat, message: seq<byte>, code: int): seq<Frame> {
    Chunks(STDERR_STREAM, offset, message) + [NOTICE, ExitFrame(code)]
  }

  class Client {
    /** The connection's descriptor, negative when there is none. */
    var fd: int
    var stdoutOffset: nat
    var stderrOffset: nat
    var stdinOffset: nat
    var terminalOffset: nat
    var terminalInputOffset: nat
    var stdinOwner: bool
    var terminalOwner: bool
    var parser: Parser
    /** How many more whole frames the connection takes before a write to it fails. */
    var line: nat
    /** The connection as its peer sees it, the ones before it, and what it sent. */
    ghost var conn: Conn
    ghost var past: seq<Conn>
    ghost var input: Input
    const memory: Memory

    constructor ()
      ensures Valid() && fd < 0 && past == [] && fresh(memory) && memory.keep.Nothing?
    {
      fd, stdoutOffset, stderrOffset, stdinOffset, terminalOffset, terminalInputOffset := -1, 0, 0, 0, 0, 0;
      stdinOwner, terminalOwner, parser, line := false, false, IDLE, 0;
      conn, past, input := NOBODY, [], Input([], []);
      memory := new Memory();
      NothingYet();
    }

    ghost predicate Valid()
      reads this, memory
    {
      && AllProper(past) && Remembers(past, memory.keep) && (fd >= 0 ==> NotOf(conn, memory.keep))
      && (fd >= 0 ==> UpToDate(conn) && Parsing(parser, input) && StdinInOrder(input.handled, stdinOffset))
      && (fd >= 0 ==> (conn.served ==> stdoutOffset == |conn.out| && stderrOffset == |conn.err|))
    }

    lemma HandledIsDecoded()
      requires Valid() && fd >= 0
      ensures Decode(input.received).frames == input.handled
    {
      hide AllProper, Remembers, UpToDate, StdinInOrder;
    }

    function Offset(id: nat): nat
      reads this
    {
      if id == STDOUT_STREAM then stdoutOffset else stderrOffset
    }

    /** `close_client`. */
    method Close()
      requires AllProper(past) && Remembers(past, memory.keep) && (fd >= 0 ==> Proper(conn) && NotOf(conn, memory.keep))
      modifies this
      ensures Valid() && fd < 0 && !stdinOwner && !terminalOwner
      ensures past == (if old(fd) >= 0 then old(past) + [old(conn)] else old(past)) && line == old(line)
    {
      hide AllProper, Proper, UpToDate, Parsing, StdinInOrder, Remembers;
      if fd >= 0 {
        OneMoreProper(past, conn);
        RemembersMore(past, conn, memory.keep);
        past := past + [conn];
        fd := -1;
      }
      stdoutOffset, stderrOffset, stdinOffset, terminalOffset, terminalInputOffset := 0, 0, 0, 0, 0;
      stdinOwner, terminalOwner, parser := false, false, IDLE;
    }

    /** The assignment of an accepted connection to a client just closed. */
    method Connect(accepted: nat, outOffset: nat, errOffset: nat, stdinOwner: bool, terminalOwner: bool)
      requires Valid() && fd < 0
      modifies this
      ensures Valid() && fd == accepted && conn == NOBODY && past == old(past) && input == Input([], [])
      ensures stdoutOffset == outOffset && stderrOffset == errOffset && stdinOffset == 0 && terminalOffset == 0 && terminalInputOffset == 0
      ensures this.stdinOwner == stdinOwner && this.terminalOwner == terminalOwner
    {
      hide AllProper, Proper, UpToDate, Parsing, StdinInOrder, Remembers;
      fd, conn, input, parser := accepted, NOBODY, Input([], []), IDLE;
      stdoutOffset, stderrOffset, stdinOffset, terminalOffset, terminalInputOffset := outOffset, errOffset, 0, 0, 0;
      this.stdinOwner, this.terminalOwner, line := stdinOwner, terminalOwner, *;
      NothingYet();
    }

    /** While the client is with another session, it remembers this one's connections. */
    ghost method Remember(keep: Keep)
      requires Valid() && (fd >= 0 ==> !conn.served) && Remembers(past, keep)
      modifies memory
      ensures Valid() && memory.keep == keep
    {
      hide AllProper, UpToDate, Parsing, StdinInOrder, Remembers;
      memory.keep := keep;
    }

    /** `send_spio_data` to this client: the batches that go through are on the
        wire whole, and of the one that fails the frames there was room for. */
    method SendData(stream: nat, offset: nat, buf: seq<byte>) returns (ok: bool, ghost k: nat, ghost writes: seq<seq<byte>>)
      requires fd >= 0
      modifies this`conn, this`line
      ensures var fs := Chunks(stream, offset, buf);
              && k == Least(|fs|, old(line)) && (ok <==> |fs| <= old(line)) && line == old(line) - k
              && conn == old(conn).(log := old(conn).log + fs[..k])
              && BatchesOf(fs, writes) && Upto(|writes|, |fs|) <= k && (ok ==> Concat(writes) == EncodeAll(fs))
    {
      hide Chunks, EncodeAll;
      var fs := Chunks(stream, offset, buf);
      var out := new byte[BATCH_FRAMES * FULL_FRAME];
      var accepts := if |fs| <= line then |fs| else line / BATCH_FRAMES;
      var written;
      ok, written := Spio.SendData(out, stream, offset, buf, accepts);
      writes, k := written, Least(|fs|, line);
      BatchesAreFrames(fs, writes);
      assert fs[..|fs|] == fs;
      line := line - Least(|fs|, line);
      conn := conn.(log := conn.log + fs[..k]);
    }

    method SendFrame(f: Frame) returns (ok: bool)
      requires fd >= 0
      modifies this`conn, this`line
      ensures ok <==> old(line) > 0
      ensures line == if ok then old(line) - 1 else 0
      ensures conn == if ok then old(conn).(log := old(conn).log + [f]) else old(conn)
    {
      ok := line > 0;
      if ok {
        line := line - 1;
        conn := conn.(log := conn.log + [f]);
      }
    }

    /** `send_client_exit`. */
    method SendExit(code: int) returns (ok: bool)
      modifies this`conn, this`line
      ensures fd < 0 ==> !ok && conn == old(conn) && line == old(line)
      ensures fd >= 0 ==> (ok <==> old(line) >= 2) && line == old(line) - Least(2, old(line)) && conn == Farewell(old(conn), code, old(line))
    {
      if fd < 0 {
        return false;
      }
      ok := SendFrame(NOTICE);
      if !ok {
        assert old(conn).log + [] == old(conn).log;
        return;
      }
      ok := SendFrame(ExitFrame(code));
      assert old(conn).log + [NOTICE] + [ExitFrame(code)] == old(conn).log + [NOTICE, ExitFrame(code)];
    }

    /** `send_client_error_exit`. The message takes a place in standard error, so
        the connection is not one that was served the session's streams. */
    method SendErrorExit(code: int, message: seq<byte>) returns (ok: bool)
      modifies this`conn, this`line, this`stderrOffset
      ensures fd < 0 ==> !ok && conn == old(conn) && line == old(line)
      ensures fd >= 0 ==>
                var fs := Refusal(old(stderrOffset), message, code);
                var k := Least(|fs|, old(line));
                && (ok <==> |fs| <= old(line)) && line == old(line) - k
                && conn == old(conn).(served := false, log := old(conn).log + fs[..k])
    {
      hide Chunks, BatchesOf, Upto, EncodeAll, Concat;
      if fd < 0 {
        return false;
      }
      ghost var fs := Refusal(stderrOffset, message, code);
      ghost var log := conn.log;
      conn := conn.(served := false);
      ghost var k, writes;
      ok, k, writes := SendData(STDERR_STREAM, stderrOffset, message);
      assert fs[..k] == Chunks(STDERR_STREAM, stderrOffset, message)[..k];
      if !ok {
        return;
      }
      stderrOffset := stderrOffset + |message|;
      ok := SendFrame(NOTICE);
      if !ok {
        return;
      }
      assert log + fs[..k] + [NOTICE] == log + fs[..k + 1];
      ok := SendFrame(ExitFrame(code));
      assert log + fs[..k + 1] + [ExitFrame(code)] == log + fs[..k + 2];
    }
  }

  /** A refusal on a connection that was told nothing yet ends in its status, if it gets that far. */
  lemma RefusedIsProper(c: Conn, offset: nat, message: seq<byte>, code: int, room: nat)
    requires NoExit(c.log)
    ensures var fs := Refusal(offset, message, code);
            var c' := c.(served := false, log := c.log + fs[..Least(|fs|, room)]);
            Proper(c') && (|fs| <= room ==> Told(c', code))
  {
    hide Chunks, Says;
    var fs := Refusal(offset, message, code);
    ChunksNoExit(STDERR_STREAM, offset, message, |fs| - 2);
    assert Chunks(STDERR_STREAM, offset, message)[..|fs| - 2] == Chunks(STDERR_STREAM, offset, message);
    assert forall i :: 0 <= i < |fs| - 1 ==> fs[i].kind != EXIT;
    if |fs| <= room {
      assert fs[..|fs|] == fs && (c.log + fs)[|c.log| + |fs| - 1] == ExitFrame(code);
      ExitSays(code);
    }
  }

  /** The connection's frames stand at their offsets, counted from `out` and `err`. */
  ghost predicate InPlace(c: Conn, out: nat, err: nat) {
    InOrder(c.log, STDOUT_STREAM, out) && InOrder(c.log, STDERR_STREAM, err)
  }

  /** And the next ones belong at these offsets. */
  ghost predicate AtOffsets(c: Conn, out: nat, err: nat, stdoutOffset: nat, stderrOffset: nat) {
    && InPlace(c, out, err)
    && stdoutOffset == out + |Delivered(c.log, STDOUT_STREAM)| && stderrOffset == err + |Delivered(c.log, STDERR_STREAM)|
  }

  lemma NobodyAtOffsets(out: nat, err: nat)
    ensures AtOffsets(NOBODY, out, err, out, err)
  {
  }

  lemma FreshAtOffsets(c: Conn)
    requires c.log == []
    ensures AtOffsets(c, c.fromOut, c.fromErr, c.fromOut, c.fromErr)
  {
  }

  /** Sending the next bytes of a stream keeps the frames in place. */
  lemma SentAtOffsets(c: Conn, id: nat, buf: seq<byte>, out: nat, err: nat, stdoutOffset: nat, stderrOffset: nat)
    requires AtOffsets(c, out, err, stdoutOffset, stderrOffset) && (id == STDOUT_STREAM || id == STDERR_STREAM)
    ensures var offset := if id == STDOUT_STREAM then stdoutOffset else stderrOffset;
            var c' := Sent(c, id, offset, buf, |Chunks(id, offset, buf)|);
            if id == STDOUT_STREAM then AtOffsets(c', out, err, stdoutOffset + |buf|, stderrOffset)
            else AtOffsets(c', out, err, stdoutOffset, stderrOffset + |buf|)
  {
    hide InOrder, Delivered, Chunks;
    var offset, from := if id == STDOUT_STREAM then stdoutOffset else stderrOffset, if id == STDOUT_STREAM then out else err;
    var other, start := if id == STDOUT_STREAM then STDERR_STREAM else STDOUT_STREAM, if id == STDOUT_STREAM then err else out;
    var n := |Chunks(id, offset, buf)|;
    ChunksContinue(c.log, id, from, offset, buf, n);
    AllCovered(id, offset, buf);
    ChunksOfOther(id, offset, buf, n, other);
    OtherFrames(c.log, Chunks(id, offset, buf)[..n], other, start);
  }

  lemma AllCovered(id: nat, offset: nat, buf: seq<byte>)
    ensures buf[..Covered(|buf|, |Chunks(id, offset, buf)|)] == buf
  {
  }

  lemma FarewellInPlace(c: Conn, code: int, room: nat, out: nat, err: nat)
    requires InPlace(c, out, err)
    ensures InPlace(Farewell(c, code, room), out, err)
  {
    hide InOrder;
    var more := [NOTICE, ExitFrame(code)][..Least(2, room)];
    OtherFrames(c.log, more, STDOUT_STREAM, out);
    OtherFrames(c.log, more, STDERR_STREAM, err);
  }

  lemma RefusedInPlace(c: Conn, stdoutOffset: nat, stderrOffset: nat, message: seq<byte>, code: int, room: nat)
    ensures var fs := Refusal(stderrOffset, message, code);
            var c' := c.(served := false, log := c.log + fs[..Least(|fs|, room)]);
            forall out: nat, err: nat :: AtOffsets(c, out, err, stdoutOffset, stderrOffset) ==> InPlace(c', out, err)
  {
    hide InOrder, Delivered, Chunks;
    var fs := Refusal(stderrOffset, message, code);
    var k := Least(|fs|, room);
    var c' := c.(served := false, log := c.log + fs[..k]);
    forall out: nat, err: nat | AtOffsets(c, out, err, stdoutOffset, stderrOffset) ensures InPlace(c', out, err) {
      RefusalInOrder(c.log, out, err, stderrOffset, message, code, k);
    }
  }

  lemma RefusalInOrder(log: seq<Frame>, out: nat, err: nat, stderrOffset: nat, message: seq<byte>, code: int, k: nat)
    requires k <= |Refusal(stderrOffset, message, code)| && InOrder(log, STDOUT_STREAM, out) && InOrder(log, STDERR_STREAM, err)
    requires stderrOffset == err + |Delivered(log, STDERR_STREAM)|
    ensures InOrder(log + Refusal(stderrOffset, message, code)[..k], STDOUT_STREAM, out)
    ensures InOrder(log + Refusal(stderrOffset, message, code)[..k], STDERR_STREAM, err)
  {
    hide InOrder, Delivered, Chunks;
    var chunks, fs := Chunks(STDERR_STREAM, stderrOffset, message), Refusal(stderrOffset, message, code)[..k];
    var n := Least(k, |chunks|);
    var rest := fs[n..];
    assert fs == chunks[..n] + rest && log + fs == log + chunks[..n] + rest;
    ChunksOfOther(STDERR_STREAM, stderrOffset, message, n, STDOUT_STREAM);
    OtherFrames(log, chunks[..n], STDOUT_STREAM, out);
    ChunksContinue(log, STDERR_STREAM, err, stderrOffset, message, n);
    forall i | 0 <= i < |rest| ensures !Carries(rest[i], STDOUT_STREAM) && !Carries(rest[i], STDERR_STREAM) {
      assert rest[i] == [NOTICE, ExitFrame(code)][n + i - |chunks|];
    }
    OtherFrames(log + chunks[..n], rest, STDOUT_STREAM, out);
    OtherFrames(log + chunks[..n], rest, STDERR_STREAM, err);
  }

  lemma AfterNotice(before: Conn, after: Conn)
    requires UpToDate(before) && (after == before.(log := before.log + [NOTICE]) || after == before)
    ensures UpToDate(after) && Proper(after)
  {
    OtherFrames(before.log, [NOTICE], STDOUT_STREAM, before.fromOut);
    OtherFrames(before.log, [NOTICE], STDERR_STREAM, before.fromErr);
  }
}
