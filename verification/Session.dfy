/** A session: a command's output streams with their replay buffers, its
    standard input, and its exit, and what happens to the client that follows it
    (guest/minimal-initrd/session_io.c). */
module Sessions {
  import opened Bytes
  import opened Spio
  import opened Wire
  import opened Replay
  import opened Clients

  function Other(id: nat): nat {
    if id == STDOUT_STREAM then STDERR_STREAM else STDOUT_STREAM
  }

  function Flat(pieces: seq<seq<byte>>): seq<byte> {
    if pieces == [] then [] else Flat(pieces[..|pieces| - 1]) + pieces[|pieces| - 1]
  }

  /** How far some more bytes take the frame being read. */
  datatype Progress = More | Nonsense | Complete(frame: Frame)

  /** Whether a reader goes on, stops for now, or has lost its connection. */
  datatype Turn = Again | Enough | Gone

  /** What waiting for a session's child says, with the code the agent reports for it. */
  datatype ChildStatus = Alive | Ended(code: int)

  /** A session as its output and its child's end see it. */
  datatype Shape = Shape(
    started: bool, exited: bool, exitCode: int, tty: bool, outOpen: bool, errOpen: bool, out: seq<byte>, err: seq<byte>)

  /** After `pieces` came out of an output pipe, and perhaps its end. A terminal's output is not kept. */
  function Took(s: Shape, isStdout: bool, pieces: seq<seq<byte>>, ended: bool): Shape {
    if isStdout then
      s.(out := if s.outOpen && !s.tty then s.out + Flat(pieces) else s.out, outOpen := s.outOpen && !ended)
    else
      s.(err := if s.errOpen then s.err + Flat(pieces) else s.err, errOpen := s.errOpen && !ended)
  }

  /** After the child was waited for, with what its pipes still held. */
  function Waited(s: Shape, status: ChildStatus, outPieces: seq<seq<byte>>, errPieces: seq<seq<byte>>): Shape {
    if !s.started || s.exited || status.Alive? then s
    else Took(Took(s, true, outPieces, true), false, errPieces, true).(exited := true, exitCode := status.code)
  }

  /** What has become of the bytes a client sent for standard input. `Clean` is
      an end the client asked for, `Broke` one the command made, and `Cut` is any other. */
  datatype Ending = Flowing | Clean | Broke | Cut
  datatype Stdin = Stdin(accepted: seq<byte>, written: seq<byte>, ending: Ending)

  /** Standard input ended because the command closed it or one of these frames did. */
  ghost predicate InputEnded(s: Stdin, fs: seq<Frame>) {
    s.ending == Broke || (s.ending == Clean && exists i :: 0 <= i < |fs| && fs[i].kind == CLOSE && fs[i].stream == STDIN_STREAM)
  }

  lemma EndedBefore(s: Stdin, a: seq<Frame>, b: seq<Frame>)
    ensures InputEnded(s, a) || InputEnded(s, b) ==> InputEnded(s, a + b)
  {
    assert forall i :: 0 <= i < |a| ==> (a + b)[i] == a[i];
    assert forall i :: 0 <= i < |b| ==> (a + b)[|a| + i] == b[i];
  }

  /** Everything accepted is written or pending, in order, and a clean end loses nothing. */
  predicate Fifo(s: Stdin, isOpen: bool, pending: seq<byte>, off: nat) {
    && off <= |pending|
    && (isOpen ==> s.ending == Flowing && s.written + pending[off..] == s.accepted)
    && (!isOpen ==> pending == [] && s.written <= s.accepted && (s.ending == Clean ==> s.written == s.accepted))
  }

  lemma WroteSome(s: Stdin, pending: seq<byte>, off: nat, n: nat)
    requires Fifo(s, true, pending, off) && 0 < n <= |pending| - off
    ensures Fifo(s.(written := s.written + pending[off..off + n]), true, pending, off + n)
  {
    assert pending[off..] == pending[off..off + n] + pending[off + n..];
  }

  lemma AcceptsMore(s: Stdin, pending: seq<byte>, off: nat, more: seq<byte>)
    requires Fifo(s, true, pending, off) && pending == []
    ensures Fifo(s.(accepted := s.accepted + more), true, more, 0)
  {
    assert pending[off..] == [] && more[0..] == more;
  }

  lemma FifoAtEnd(s: Stdin, isOpen: bool, pending: seq<byte>, off: nat)
    requires Fifo(s, isOpen, pending, off) && pending == []
    ensures off == |pending| && (isOpen ==> s.ending == Flowing && s.written == s.accepted)
  {
    assert pending[off..] == [];
  }

  lemma NextInOrder(handled: seq<Frame>, offset: nat, f: Frame)
    requires StdinInOrder(handled, offset) && (Carries(f, STDIN_STREAM) ==> f.offset == offset)
    ensures StdinInOrder(handled + [f], if Carries(f, STDIN_STREAM) then offset + |f.payload| else offset)
  {
    assert (handled + [f])[..|handled|] == handled;
  }

  lemma DeliveredOne(fs: seq<Frame>, f: Frame)
    ensures Delivered(fs + [f], STDIN_STREAM) == Delivered(fs, STDIN_STREAM) + if Carries(f, STDIN_STREAM) then f.payload else []
  {
    assert (fs + [f])[..|fs|] == fs;
  }

  lemma HeaderIsWhole(p: Parser, input: Input)
    requires Parsing(p, input) && |p.header| >= HEADER_LEN
    ensures |p.header| == HEADER_LEN && |p.payload| < p.head.len
  {
  }

  lemma NothingDelivered()
    ensures Delivered([], STDIN_STREAM) == []
  {
  }

  lemma OpenIsFlowing(s: Stdin, isOpen: bool, pending: seq<byte>, off: nat)
    requires Fifo(s, isOpen, pending, off)
    ensures off <= |pending| && (if isOpen then s.ending == Flowing else pending == [])
  {
  }

  lemma WroteAll(s: Stdin, isOpen: bool, pending: seq<byte>, off: nat)
    requires Fifo(s, isOpen, pending, off) && off >= |pending|
    ensures Fifo(s, isOpen, [], 0)
  {
    assert pending[off..] == [];
  }

  /** One output stream of a session: its pipe, and the ring that keeps its end. */
  class OutputStream {
    const id: nat
    const replay: ReplayBuffer
    var isOpen: bool
    var offset: nat
    ghost var stream: seq<byte>

    constructor (id: nat)
      ensures Valid() && this.id == id && !isOpen && stream == [] && fresh(replay) && fresh(replay.data)
    {
      this.id := id;
      replay := new ReplayBuffer();
      isOpen, offset, stream := false, 0, [];
    }

    ghost predicate Valid()
      reads this, replay, replay.data
    {
      offset == |stream| && replay.Holds(stream)
    }

    /** Takes what a read returned: into the ring, and the offset moves on. */
    method Take(buf: seq<byte>)
      requires Valid()
      modifies this`offset, this`stream, replay, replay.data
      ensures Valid() && stream == old(stream) + buf
    {
      replay.Append(stream, offset, buf);
      offset, stream := offset + |buf|, stream + buf;
    }

    method Reset()
      requires Valid()
      modifies this, replay
      ensures Valid() && !isOpen && stream == []
    {
      replay.Reset();
      isOpen, offset, stream := false, 0, [];
    }
  }

  class Session {
    var started: bool
    var exited: bool
    var exitCode: int
    var sessionId: string
    var tty: bool
    const stdout: OutputStream
    const stderr: OutputStream
    var stdinOpen: bool
    var stdinCapable: bool
    var pending: seq<byte>
    var pendingOff: nat
    var closePending: bool
    ghost var stdin: Stdin
    ghost var serial: nat
    /** The exit status was given to a client. */
    ghost var told: bool

    constructor ()
      ensures Valid() && Settled() && Unused() && !closePending && stdout.stream == [] && stderr.stream == []
      ensures fresh(stdout) && fresh(stderr) && fresh(stdout.replay) && fresh(stderr.replay) && fresh(stdout.replay.data) && fresh(stderr.replay.data)
    {
      started, exited, exitCode, sessionId, tty := false, false, 0, "", false;
      stdout := new OutputStream(STDOUT_STREAM);
      stderr := new OutputStream(STDERR_STREAM);
      stdinOpen, stdinCapable, pending, pendingOff, closePending := false, false, [], 0, false;
      stdin, serial, told := Stdin([], [], Cut), 0, false;
    }

    /** Nothing has been started in this slot, or it has been reset. */
    ghost predicate Unused()
      reads this, stdout, stderr
    {
      !started && !exited && stdout.stream == [] && stderr.stream == [] && stdin == Stdin([], [], Cut) && pending == [] && pendingOff == 0
    }

    /** The two streams are apart and their rings hold their ends. */
    ghost predicate OutputsValid()
      reads stdout, stderr, stdout.replay, stderr.replay, stdout.replay.data, stderr.replay.data
    {
      && stdout.id == STDOUT_STREAM && stderr.id == STDERR_STREAM && stdout.Valid() && stderr.Valid()
      && stdout != stderr && stdout.replay != stderr.replay && stdout.replay.data != stderr.replay.data
    }

    /** Only a running session reads standard input, only a started one has
        output, a terminal is one stream, and standard input is in order. */
    ghost predicate ControlValid()
      reads this, stdout, stderr
    {
      && (stdinOpen ==> started && !exited) && (exited || stdout.isOpen || stderr.isOpen ==> started)
      && (tty ==> !stderr.isOpen)
      && Fifo(stdin, stdinOpen, pending, pendingOff)
    }

    ghost predicate Valid()
      reads this, stdout, stderr, stdout.replay, stderr.replay, stdout.replay.data, stderr.replay.data
    {
      OutputsValid() && ControlValid()
    }

    /** Between steps: a session that has exited has closed its streams. */
    ghost predicate Settled()
      reads this, stdout, stderr
    {
      exited ==> !stdout.isOpen && !stderr.isOpen
    }

    predicate Finished()
      reads this`started, this`exited, stdout`isOpen, stderr`isOpen
    {
      started && exited && !stdout.isOpen && !stderr.isOpen
    }

    /** What there is to know of the session so far. */
    ghost function StoryNow(): Story
      reads this`started, this`exited, this`exitCode, stdout, stderr
    {
      Story(stdout.stream, stderr.stream, if Finished() then Over(exitCode) else Going)
    }

    /** A client served by this session has been sent all of its output so far,
        and connections served before know no more than that. */
    ghost predicate Linked(client: Client)
      reads this, stdout, stderr, client, client.memory
    {
      && client.Valid()
      && AllTrack(client.past, serial, StoryNow())
      && (client.fd >= 0 && client.conn.served ==>
            client.conn.session == serial && client.conn.out == stdout.stream && client.conn.err == stderr.stream)
    }

    ghost function ShapeNow(): Shape
      reads this`started, this`exited, this`exitCode, this`tty, stdout, stderr
    {
      Shape(started, exited, exitCode, tty, stdout.isOpen, stderr.isOpen, stdout.stream, stderr.stream)
    }

    /** `close_session_stdin`. */
    method CloseStdin(ghost ending: Ending)
      requires ControlValid() && ending != Flowing && (ending == Clean && stdinOpen ==> pendingOff == |pending|)
      modifies this`stdinOpen, this`pending, this`pendingOff, this`closePending, this`stdin
      ensures ControlValid() && !stdinOpen && pending == [] && !closePending
      ensures stdin == if old(stdinOpen) then old(stdin).(ending := ending) else old(stdin)
    {
      if stdinOpen {
        stdin := stdin.(ending := ending);
      }
      stdinOpen, pending, pendingOff, closePending := false, [], 0, false;
    }

    /** `drain_session_stdin`: the pipe takes `room` bytes, in whatever pieces, and then no more or `breaks`. */
    method DrainStdin(room: nat, breaks: bool)
      requires ControlValid()
      modifies this`stdinOpen, this`pending, this`pendingOff, this`closePending, this`stdin
      ensures ControlValid() && stdin.accepted == old(stdin).accepted && (closePending ==> old(closePending))
      ensures !old(stdinOpen) ==> !stdinOpen && stdin == old(stdin) && pending == []
      ensures old(stdinOpen) ==>
                && stdin.written == old(stdin).written + old(pending[pendingOff..])[..Least(room, old(|pending| - pendingOff))]
                && (room >= old(|pending| - pendingOff) ==>
                      pending == [] && (stdinOpen <==> !old(closePending)) && stdin.ending == if old(closePending) then Clean else Flowing)
                && (room < old(|pending| - pendingOff) ==>
                      && stdinOpen == !breaks && stdin.ending == (if breaks then Broke else Flowing)
                      && (!breaks ==> pending == old(pending) && pendingOff == old(pendingOff) + room && closePending == old(closePending)))
    {
      hide Fifo;
      OpenIsFlowing(stdin, stdinOpen, pending, pendingOff);
      var blocked := WritePending(room);
      if blocked {
        if breaks {
          CloseStdin(Broke);
        }
        return;
      }
      WroteAll(stdin, stdinOpen, pending, pendingOff);
      pendingOff, pending := 0, [];
      if closePending {
        CloseStdin(Clean);
      }
    }

    /** The writes of `drain_session_stdin`, up to `room` bytes. */
    method WritePending(room: nat) returns (blocked: bool)
      requires ControlValid() && pendingOff <= |pending|
      modifies this`pendingOff, this`stdin
      ensures ControlValid() && stdin == old(stdin).(written := stdin.written)
      ensures blocked <==> stdinOpen && room < |pending| - old(pendingOff)
      ensures if stdinOpen then
                && pendingOff == old(pendingOff) + Least(room, |pending| - old(pendingOff))
                && stdin.written == old(stdin).written + pending[old(pendingOff)..][..Least(room, |pending| - old(pendingOff))]
              else pendingOff == old(pendingOff) && stdin == old(stdin)
    {
      hide Fifo;
      ghost var start := pendingOff;
      var left := room;
      while stdinOpen && pendingOff < |pending|
        invariant ControlValid() && stdin == old(stdin).(written := stdin.written)
        invariant start <= pendingOff <= |pending| && left == room - (pendingOff - start) >= 0
        invariant stdinOpen ==> stdin.written == old(stdin).written + pending[start..pendingOff]
        invariant !stdinOpen ==> pendingOff == start && stdin == old(stdin)
        decreases |pending| - pendingOff
      {
        if left == 0 {
          assert pending[start..][..room] == pending[start..pendingOff];
          return true;
        }
        var most := Least(|pending| - pendingOff, left);
        var n :| 0 < n <= most;
        WroteSome(stdin, pending, pendingOff, n);
        assert pending[start..pendingOff] + pending[pendingOff..pendingOff + n] == pending[start..pendingOff + n];
        stdin := stdin.(written := stdin.written + pending[pendingOff..pendingOff + n]);
        pendingOff, left := pendingOff + n, left - n;
      }
      assert pending[start..][..pendingOff - start] == pending[start..pendingOff];
      blocked := false;
    }

    /** `close_client_input_lost`. */
    method InputLost(client: Client)
      requires ControlValid() && AllProper(client.past) && Remembers(client.past, client.memory.keep)
      requires client.fd >= 0 ==> Proper(client.conn) && NotOf(client.conn, client.memory.keep)
      modifies this`stdinOpen, this`pending, this`pendingOff, this`closePending, this`stdin, client
      ensures ControlValid() && client.Valid() && client.fd < 0 && client.line == old(client.line)
      ensures client.past == if old(client.fd) >= 0 then old(client.past) + [old(client.conn)] else old(client.past)
      ensures closePending ==> old(closePending)
      ensures if old(client.stdinOwner && stdinOpen) then !stdinOpen && stdin == old(stdin).(ending := Cut) else stdin == old(stdin) && stdinOpen == old(stdinOpen)
    {
      if started && !exited {
        if client.stdinOwner {
          CloseStdin(Cut);
        }
      }
      client.Close();
    }

    /** `send_client_output`. */
    method SendOutput(client: Client, id: nat, offset: nat, buf: seq<byte>) returns (ok: bool, ghost k: nat)
      requires ControlValid() && client.Valid() && (id == STDOUT_STREAM || id == STDERR_STREAM)
      modifies this`stdinOpen, this`pending, this`pendingOff, this`closePending, this`stdin, client
      ensures ControlValid() && client.Valid() && (closePending ==> old(closePending))
      ensures old(client.fd) < 0 ==> !ok && client.fd == old(client.fd) && client.past == old(client.past) && client.line == old(client.line)
      ensures old(client.fd) >= 0 && old(client.Offset(id)) != offset ==>
                ok && client.fd == old(client.fd) && client.conn == old(client.conn) && client.past == old(client.past) &&
                client.stdoutOffset == old(client.stdoutOffset) && client.stderrOffset == old(client.stderrOffset)
      ensures old(client.fd) >= 0 && old(client.Offset(id)) == offset ==>
                k == Least(|Chunks(id, offset, buf)|, old(client.line)) && (ok <==> |Chunks(id, offset, buf)| <= old(client.line)) &&
                if ok then
                  client.fd == old(client.fd) && client.conn == Sent(old(client.conn), id, offset, buf, k) &&
                  client.past == old(client.past) && client.Offset(id) == offset + |buf| &&
                  client.Offset(Other(id)) == old(client.Offset(Other(id)))
                else
                  client.fd < 0 && client.line == 0 && client.past == old(client.past) + [Sent(old(client.conn), id, offset, buf, k)] &&
                  NoExit(client.past[|client.past| - 1].log)
      ensures client.fd >= 0 ==> client.stdinOwner == old(client.stdinOwner) && client.terminalOwner == old(client.terminalOwner) && client.stdinOffset == old(client.stdinOffset) && client.terminalInputOffset == old(client.terminalInputOffset)
      ensures client.fd >= 0 ==> stdinOpen == old(stdinOpen) && pending == old(pending)
      ensures stdin.accepted == old(stdin).accepted && stdin.written == old(stdin).written
      ensures client.fd >= 0 ==> Notices(client.conn.log) == old(Notices(client.conn.log))
    {
      hide UpToDate, Proper, AllProper, Remembers, Parsing, StdinInOrder, Fifo, Chunks, NoExit, BatchesOf, Upto, EncodeAll, Concat, Notices;
      k := 0;
      if client.fd < 0 {
        return false, k;
      }
      if client.Offset(id) != offset {
        return true, k;
      }
      ghost var before := client.conn;
      ghost var writes;
      ok, k, writes := client.SendData(id, offset, buf);
      client.conn := WithStream(client.conn, id, StreamOf(client.conn, id) + buf);
      SentStaysProper(before, id, offset, buf, k);
      ChunksAreNoNotices(before.log, id, offset, buf, k);
      if !ok {
        InputLost(client);
        return;
      }
      if id == STDOUT_STREAM {
        client.stdoutOffset := client.stdoutOffset + |buf|;
      } else {
        client.stderrOffset := client.stderrOffset + |buf|;
      }
    }

    /** A client that was up to date, when `out` has just taken `buf` that the client was not sent. */
    ghost predicate OneBehind(client: Client, out: OutputStream, buf: seq<byte>)
      reads this, stdout, stderr, client, client.memory, out
    {
      && (out == stdout || out == stderr) && client.Valid() && |buf| <= |out.stream|
      && AllTrack(client.past, serial, StoryNow())
      && (client.fd >= 0 && client.conn.served ==>
            var c := WithStream(client.conn, out.id, StreamOf(client.conn, out.id) + buf);
            c.session == serial && c.out == stdout.stream && c.err == stderr.stream)
    }

    /** One round of `pump_session_stream`: what was read goes to the ring and to
        the client, which is given up only when it takes no more. */
    method Deliver(client: Client, out: OutputStream, buf: seq<byte>)
      requires Valid() && Linked(client) && (out == stdout || out == stderr) && out.isOpen
      modifies this`stdinOpen, this`pending, this`pendingOff, this`closePending, this`stdin, client
      modifies out`offset, out`stream, out.replay, out.replay.data
      ensures Valid() && Linked(client) && out.stream == old(out.stream) + buf && Follows(old(StoryNow()), StoryNow())
      ensures client.fd == old(client.fd) || (client.fd < 0 && client.line == 0)
      ensures closePending ==> old(closePending)
      ensures old(client.fd) < 0 ==> client.fd == old(client.fd) && client.past == old(client.past) && client.line == old(client.line)
      ensures stdin.accepted == old(stdin).accepted && stdin.written == old(stdin).written
      ensures client.fd >= 0 ==> Notices(client.conn.log) == old(Notices(client.conn.log))
    {
      hide UpToDate, Proper, AllProper, Remembers, Parsing, StdinInOrder, Fifo, Chunks, AllTrack, Tracks, Base, NoExit, Notices;
      ghost var before := StoryNow();
      var offset := out.offset;
      out.Take(buf);
      TracksMore(client.past, serial, before, StoryNow());
      assert OneBehind(client, out, buf);
      ghost var past, served := client.past, client.fd >= 0;
      var ok;
      ghost var k;
      ok, k := SendOutput(client, out.id, offset, buf);
      if served && client.fd < 0 {
        ghost var c := client.past[|past|];
        TracksPart(c, serial, StoryNow());
        OneMoreTracks(past, c, serial, StoryNow());
      }
    }

    /** `pump_session_stream`: `pieces` is what the reads return before the pipe
        has nothing more for now, or has `ended`. */
    method PumpStream(client: Client, out: OutputStream, pieces: seq<seq<byte>>, ended: bool)
      requires Valid() && Linked(client) && (out == stdout || out == stderr)
      modifies this`stdinOpen, this`pending, this`pendingOff, this`closePending, this`stdin, client
      modifies out, out.replay, out.replay.data
      ensures Valid() && Linked(client) && Follows(old(StoryNow()), StoryNow())
      ensures out.stream == if old(out.isOpen) then old(out.stream) + Flat(pieces) else old(out.stream)
      ensures out.isOpen == (old(out.isOpen) && !ended)
      ensures client.fd == old(client.fd) || (client.fd < 0 && client.line == 0)
      ensures closePending ==> old(closePending)
      ensures old(client.fd) < 0 ==> client.fd == old(client.fd) && client.past == old(client.past) && client.line == old(client.line)
      ensures stdin.accepted == old(stdin).accepted && stdin.written == old(stdin).written
      ensures client.fd >= 0 ==> Notices(client.conn.log) == old(Notices(client.conn.log))
    {
      hide UpToDate, Proper, AllProper, Remembers, Parsing, StdinInOrder, Fifo, AllTrack, Base, OutputsValid, ControlValid, Linked, Follows, StoryNow, Notices;
      ghost var start := StoryNow();
      FollowsItself(start);
      if !out.isOpen {
        return;
      }
      for i := 0 to |pieces|
        invariant Valid() && Linked(client) && out.isOpen && Follows(start, StoryNow()) && stdin.accepted == old(stdin).accepted && stdin.written == old(stdin).written
        invariant client.fd >= 0 ==> Notices(client.conn.log) == old(Notices(client.conn.log))
        invariant out.stream == old(out.stream) + Flat(pieces[..i])
        invariant client.fd == old(client.fd) || (client.fd < 0 && client.line == 0)
        invariant closePending ==> old(closePending)
        invariant old(client.fd) < 0 ==> client.fd == old(client.fd) && client.past == old(client.past) && client.line == old(client.line)
      {
        assert pieces[..i + 1][..i] == pieces[..i];
        ghost var before := StoryNow();
        Deliver(client, out, pieces[i]);
        FollowsOn(start, before, StoryNow());
      }
      assert pieces[..|pieces|] == pieces;
      if ended {
        ghost var before := StoryNow();
        Shut(client, out);
        FollowsOn(start, before, StoryNow());
      }
    }

    /** The end of an output pipe. */
    method Shut(client: Client, out: OutputStream)
      requires Valid() && Linked(client) && (out == stdout || out == stderr) && out.isOpen
      modifies out`isOpen
      ensures Valid() && Linked(client) && !out.isOpen && Follows(old(StoryNow()), StoryNow())
    {
      hide UpToDate, Proper, AllProper, Remembers, Parsing, StdinInOrder, Fifo, AllTrack, Base;
      ghost var before := StoryNow();
      out.isOpen := false;
      TracksMore(client.past, serial, before, StoryNow());
    }

    /** The client is on its way through the replay: it has no more than there is. */
    ghost predicate CatchingUp(client: Client)
      reads this, stdout, stderr, client, client.memory
    {
      && client.Valid()
      && AllTrack(client.past, serial, StoryNow())
      && (client.fd >= 0 && client.conn.served ==>
            client.conn.session == serial && client.conn.out <= stdout.stream && client.conn.err <= stderr.stream)
    }

    /** `send_replay`: the client gets the stream from its offset to its end, if the ring still has it. */
    method SendReplay(client: Client, out: OutputStream) returns (ok: bool)
      requires Valid() && CatchingUp(client) && client.fd >= 0 && (out == stdout || out == stderr)
      modifies this`stdinOpen, this`pending, this`pendingOff, this`closePending, this`stdin, client
      ensures Valid() && CatchingUp(client) && (closePending ==> old(closePending))
      ensures client.fd == old(client.fd) || (client.fd < 0 && !ok && client.line == 0)
      ensures client.fd >= 0 ==> client.past == old(client.past)
      ensures client.fd >= 0 ==> client.conn.(log := [], out := [], err := []) == old(client.conn).(log := [], out := [], err := [])
      ensures ok ==> client.fd >= 0 && client.Offset(out.id) == |out.stream| && Base(|out.stream|) <= old(client.Offset(out.id)) <= |out.stream|
      ensures client.fd >= 0 ==> ok || !(Base(|out.stream|) <= old(client.Offset(out.id)) <= |out.stream|)
      ensures client.fd >= 0 && out == stdout ==> client.stderrOffset == old(client.stderrOffset) && client.conn.err == old(client.conn).err
      ensures client.fd >= 0 && out == stderr ==> client.stdoutOffset == old(client.stdoutOffset) && client.conn.out == old(client.conn).out
      ensures client.fd >= 0 ==> client.stdinOwner == old(client.stdinOwner) && client.terminalOwner == old(client.terminalOwner) && client.stdinOffset == old(client.stdinOffset) && client.terminalInputOffset == old(client.terminalInputOffset)
      ensures client.fd >= 0 ==> stdinOpen == old(stdinOpen) && pending == old(pending)
      ensures forall f: nat, e: nat :: client.fd >= 0 && AtOffsets(old(client.conn), f, e, old(client.stdoutOffset), old(client.stderrOffset)) ==>
                AtOffsets(client.conn, f, e, client.stdoutOffset, client.stderrOffset)
    {
      hide UpToDate, Proper, AllProper, Remembers, Parsing, StdinInOrder, Fifo, AllTrack, Tracks, Chunks, Base, ControlValid, NoExit, AtOffsets;
      if !out.replay.Available(client.Offset(out.id), out.offset) {
        return false;
      }
      var end := out.replay.base + out.replay.len;
      while client.Offset(out.id) < end
        invariant Valid() && CatchingUp(client) && (closePending ==> old(closePending)) && client.fd == old(client.fd)
        invariant client.past == old(client.past) && client.stdinOwner == old(client.stdinOwner) && client.terminalOwner == old(client.terminalOwner) && client.stdinOffset == old(client.stdinOffset) && client.terminalInputOffset == old(client.terminalInputOffset)
        invariant stdinOpen == old(stdinOpen) && pending == old(pending)
        invariant old(client.Offset(out.id)) <= client.Offset(out.id) <= end
        invariant client.conn.(log := [], out := [], err := []) == old(client.conn).(log := [], out := [], err := [])
        invariant out == stdout ==> client.stderrOffset == old(client.stderrOffset) && client.conn.err == old(client.conn).err
        invariant out == stderr ==> client.stdoutOffset == old(client.stdoutOffset) && client.conn.out == old(client.conn).out
        invariant forall f: nat, e: nat :: AtOffsets(old(client.conn), f, e, old(client.stdoutOffset), old(client.stderrOffset)) ==>
                    AtOffsets(client.conn, f, e, client.stdoutOffset, client.stderrOffset)
        decreases end - client.Offset(out.id)
      {
        ok := ReplayPiece(client, out);
        if !ok {
          return;
        }
      }
      ok := true;
    }

    /** One piece of it. */
    method ReplayPiece(client: Client, out: OutputStream) returns (ok: bool)
      requires Valid() && CatchingUp(client) && client.fd >= 0 && (out == stdout || out == stderr)
      requires Base(|out.stream|) <= client.Offset(out.id) < |out.stream|
      modifies this`stdinOpen, this`pending, this`pendingOff, this`closePending, this`stdin, client
      ensures Valid() && CatchingUp(client) && (closePending ==> old(closePending))
      ensures if ok then client.fd == old(client.fd) else client.fd < 0 && client.line == 0
      ensures ok ==> client.past == old(client.past) && old(client.Offset(out.id)) < client.Offset(out.id) <= |out.stream|
      ensures ok ==> client.conn.(log := [], out := [], err := []) == old(client.conn).(log := [], out := [], err := [])
      ensures ok && out == stdout ==> client.stderrOffset == old(client.stderrOffset) && client.conn.err == old(client.conn).err
      ensures ok && out == stderr ==> client.stdoutOffset == old(client.stdoutOffset) && client.conn.out == old(client.conn).out
      ensures ok ==> client.stdinOwner == old(client.stdinOwner) && client.terminalOwner == old(client.terminalOwner) && client.stdinOffset == old(client.stdinOffset) && client.terminalInputOffset == old(client.terminalInputOffset)
      ensures ok ==> stdinOpen == old(stdinOpen) && pending == old(pending)
      ensures forall f: nat, e: nat :: ok && AtOffsets(old(client.conn), f, e, old(client.stdoutOffset), old(client.stderrOffset)) ==>
                AtOffsets(client.conn, f, e, client.stdoutOffset, client.stderrOffset)
    {
      hide UpToDate, Proper, AllProper, Remembers, Parsing, StdinInOrder, Fifo, AllTrack, Tracks, Chunks, Base, ControlValid, NoExit, AtOffsets;
      ghost var before, past := client.conn, client.past;
      ghost var so, se := client.stdoutOffset, client.stderrOffset;
      var offset := client.Offset(out.id);
      var piece := out.replay.Piece(out.stream, offset);
      assert before.served ==> StreamOf(before, out.id) + piece <= out.stream by {
        PrefixGrows(StreamOf(before, out.id), out.stream, offset, piece);
      }
      ghost var k;
      ok, k := SendOutput(client, out.id, offset, piece);
      if ok {
        forall f: nat, e: nat | AtOffsets(before, f, e, so, se) ensures AtOffsets(client.conn, f, e, client.stdoutOffset, client.stderrOffset) {
          SentAtOffsets(before, out.id, piece, f, e, so, se);
        }
      } else {
        ghost var c := client.past[|past|];
        TracksPart(c, serial, StoryNow());
        OneMoreTracks(past, c, serial, StoryNow());
      }
    }

    /** `attach_client`: a fresh connection is brought up to date from the offsets
        it asks for when the rings still have them, and refused otherwise; a
        finished session also tells it the exit status. */
    method Attach(client: Client, outOffset: nat, errOffset: nat) returns (ok: bool)
      requires Valid() && client.Valid() && client.fd >= 0 && client.conn == NOBODY
      requires client.memory.keep.Keep? ==> client.memory.keep.serial != serial
      requires AllTrack(client.past, serial, StoryNow())
      modifies this`stdinOpen, this`pending, this`pendingOff, this`closePending, this`stdin, this`told, client
      ensures Valid() && Linked(client) && (closePending ==> old(closePending))
      ensures client.fd == old(client.fd) || client.fd < 0
      ensures client.fd >= 0 ==> ok && !Finished() && client.conn.served && client.conn.fromOut == outOffset && client.conn.fromErr == errOffset
      ensures var available := Base(|stdout.stream|) <= outOffset <= |stdout.stream| && Base(|stderr.stream|) <= errOffset <= |stderr.stream|;
              (ok ==> available) && (available ==> ok || client.line == 0)
      ensures client.fd < 0 ==> client.line == 0 || LastTold(client.past, if ok then exitCode else 125)
      ensures ok && client.fd < 0 ==>
                Finished() && |client.past| == |old(client.past)| + 1 &&
                client.past[|client.past| - 1].(log := []) == Conn([], true, serial, outOffset, errOffset, stdout.stream, stderr.stream)
      ensures client.fd >= 0 ==> client.stdinOwner == old(client.stdinOwner) && client.terminalOwner == old(client.terminalOwner) && client.stdinOffset == old(client.stdinOffset) && client.terminalInputOffset == old(client.terminalInputOffset)
      ensures client.fd >= 0 ==> stdinOpen == old(stdinOpen) && pending == old(pending)
      ensures client.fd < 0 && client.line != 0 ==> client.past != [] && InPlace(client.past[|client.past| - 1], outOffset, errOffset)
    {
      hide UpToDate, Proper, AllProper, Remembers, Parsing, StdinInOrder, Fifo, AllTrack, Tracks, Base, OutputsValid, ControlValid, LastTold, NoExit, NotOf, AtOffsets, InPlace;
      ok := CatchUp(client, outOffset, errOffset);
      if !ok {
        Refuse(client, 125);
        return;
      }
      if exited && !stdout.isOpen && !stderr.isOpen {
        ExitedIsFinished();
        StandsInPlace(client.conn, outOffset, errOffset, client.stdoutOffset, client.stderrOffset);
        FarewellInPlace(client.conn, exitCode, client.line, outOffset, errOffset);
        SayGoodbye(client);
      }
    }

    /** The replay of both streams from the offsets asked for. */
    method CatchUp(client: Client, outOffset: nat, errOffset: nat) returns (ok: bool)
      requires Valid() && client.Valid() && client.fd >= 0 && client.conn == NOBODY
      requires client.memory.keep.Keep? ==> client.memory.keep.serial != serial
      requires AllTrack(client.past, serial, StoryNow())
      modifies this`stdinOpen, this`pending, this`pendingOff, this`closePending, this`stdin, client
      ensures Valid() && CatchingUp(client) && (closePending ==> old(closePending))
      ensures client.fd == old(client.fd) || (client.fd < 0 && !ok && client.line == 0)
      ensures var available := Base(|stdout.stream|) <= outOffset <= |stdout.stream| && Base(|stderr.stream|) <= errOffset <= |stderr.stream|;
              (ok ==> available) && (available ==> ok || client.line == 0)
      ensures ok ==>
                && Linked(client) && client.fd >= 0 && client.past == old(client.past)
                && client.conn.(log := []) == Conn([], true, serial, outOffset, errOffset, stdout.stream, stderr.stream)
      ensures client.fd >= 0 ==> client.stdinOwner == old(client.stdinOwner) && client.terminalOwner == old(client.terminalOwner) && client.stdinOffset == old(client.stdinOffset) && client.terminalInputOffset == old(client.terminalInputOffset)
      ensures client.fd >= 0 ==> stdinOpen == old(stdinOpen) && pending == old(pending)
      ensures client.fd >= 0 ==> AtOffsets(client.conn, outOffset, errOffset, client.stdoutOffset, client.stderrOffset)
    {
      hide UpToDate, Proper, AllProper, Remembers, Parsing, StdinInOrder, Fifo, AllTrack, Tracks, Base, OutputsValid, ControlValid, Finished, AtOffsets;
      client.stdoutOffset, client.stderrOffset := outOffset, errOffset;
      LengthsAgree();
      if outOffset <= stdout.offset && errOffset <= stderr.offset {
        ghost var c := Conn([], true, serial, outOffset, errOffset, stdout.stream[..outOffset], stderr.stream[..errOffset]);
        FreshConn(c);
        FreshAtOffsets(c);
        client.conn := c;
      } else {
        NobodyAtOffsets(outOffset, errOffset);
      }
      ok := SendReplay(client, stdout);
      if ok {
        ok := SendReplay(client, stderr);
      }
    }

    /** An error exit, with some message, and the end of the connection. What it
        says stands where the connection's streams have come to. */
    method Refuse(client: Client, code: int)
      requires client.Valid() && AllTrack(client.past, serial, StoryNow())
      modifies client
      ensures Linked(client) && client.fd < 0 && client.line <= old(client.line)
      ensures if old(client.fd) < 0 then client.past == old(client.past) && client.line == old(client.line)
              else
                && |client.past| == |old(client.past)| + 1 && !client.past[|client.past| - 1].served
                && (client.line == 0 || LastTold(client.past, code))
                && forall out: nat, err: nat :: AtOffsets(old(client.conn), out, err, old(client.stdoutOffset), old(client.stderrOffset)) ==>
                     InPlace(client.past[|client.past| - 1], out, err)
    {
      hide UpToDate, Proper, AllProper, Remembers, Parsing, StdinInOrder, AllTrack, Tracks, StoryNow, Refusal, Told, NotOf, AtOffsets, InPlace;
      var message: seq<byte> := *;
      if client.fd >= 0 {
        NoExitYet(client.conn);
        RefusedIsProper(client.conn, client.stderrOffset, message, code, client.line);
        RefusedInPlace(client.conn, client.stdoutOffset, client.stderrOffset, message, code, client.line);
      }
      ghost var past := client.past;
      var ok := client.SendErrorExit(code, message);
      if client.fd >= 0 {
        UnservedIsNotOf(client.conn, client.memory.keep);
        TracksUnserved(client.conn, serial, StoryNow());
        OneMoreTracks(past, client.conn, serial, StoryNow());
      }
      client.Close();
    }

    /** The exit status, as far as the connection takes it, and the end of the connection. */
    method SayGoodbye(client: Client)
      requires Valid() && Linked(client) && client.fd >= 0 && Finished()
      modifies client, this`told
      ensures Valid() && Linked(client) && client.fd < 0
      ensures client.past == old(client.past) + [Farewell(old(client.conn), exitCode, old(client.line))]
      ensures client.line == 0 || LastTold(client.past, exitCode)
    {
      hide UpToDate, Proper, AllProper, Remembers, Parsing, StdinInOrder, AllTrack, OutputsValid, Fifo, Told, NoExit;
      told := true;
      ghost var past := client.past;
      FarewellIsProper(client.conn, exitCode, client.line);
      var ok := client.SendExit(exitCode);
      OneMoreTracks(past, client.conn, serial, StoryNow());
      client.Close();
    }

    lemma LengthsAgree()
      requires OutputsValid()
      ensures stdout.offset == |stdout.stream| && stderr.offset == |stderr.stream| && stdout.id == STDOUT_STREAM && stderr.id == STDERR_STREAM
    {
    }

    lemma ExitedIsFinished()
      requires ControlValid() && exited && !stdout.isOpen && !stderr.isOpen
      ensures Finished()
    {
    }

    /** An event frame; a connection that cannot take it is closed. */
    method TellEvent(client: Client)
      requires Linked(client) && client.fd >= 0
      modifies client
      ensures Linked(client)
      ensures if old(client.line) > 0 then client.fd == old(client.fd) && client.conn == old(client.conn).(log := old(client.conn).log + [NOTICE])
              else client.fd < 0 && client.line == 0
    {
      hide UpToDate, Proper, AllProper, Remembers, Parsing, StdinInOrder, AllTrack, Tracks;
      ghost var before := client.conn;
      var ok := client.SendFrame(NOTICE);
      AfterNotice(before, client.conn);
      if !ok {
        Drop(client);
      }
    }

    /** Some frames, perhaps an exit status, and the end of a connection that was never served. */
    method Answer(client: Client, ghost frames: seq<Frame>)
      requires Linked(client) && client.fd >= 0 && client.conn == NOBODY && NoExit(frames)
      modifies client
      ensures Linked(client) && client.fd < 0
      ensures client.past == old(client.past) + [Farewell(NOBODY.(log := frames), 0, old(client.line))]
    {
      hide Proper, AllProper, Remembers, Parsing, StdinInOrder, AllTrack, Tracks, StoryNow;
      client.conn := client.conn.(log := client.conn.log + frames);
      assert NOBODY.log + frames == frames;
      ghost var past := client.past;
      FarewellIsProper(client.conn, 0, client.line);
      var ok := client.SendExit(0);
      TracksUnserved(client.conn, serial, StoryNow());
      OneMoreTracks(past, client.conn, serial, StoryNow());
      client.Close();
    }

    /** `close_client` on a client of this session. */
    method Drop(client: Client)
      requires Linked(client)
      modifies client
      ensures Linked(client) && client.fd < 0 && client.line == old(client.line)
      ensures client.past == if old(client.fd) >= 0 then old(client.past) + [old(client.conn)] else old(client.past)
    {
      hide UpToDate, Proper, AllProper, Remembers, Parsing, StdinInOrder, AllTrack, Tracks, NoExit;
      if client.fd >= 0 {
        UpToDateIsProper(client.conn);
        NoExitYet(client.conn);
        TracksPart(client.conn, serial, StoryNow());
        OneMoreTracks(client.past, client.conn, serial, StoryNow());
      }
      client.Close();
    }

    /** A fresh connection follows a session that has just started, from the beginning. */
    method Welcome(client: Client)
      requires client.Valid() && client.fd >= 0 && client.conn == NOBODY && stdout.stream == [] && stderr.stream == []
      requires AllTrack(client.past, serial, StoryNow()) && (client.memory.keep.Keep? ==> client.memory.keep.serial != serial)
      modifies client
      ensures Linked(client) && client.fd == old(client.fd) && client.past == old(client.past)
      ensures client.conn == Conn([], true, serial, 0, 0, [], [])
      ensures client.stdinOwner == old(client.stdinOwner) && client.terminalOwner == old(client.terminalOwner) && client.stdinOffset == old(client.stdinOffset) && client.terminalInputOffset == old(client.terminalInputOffset)
    {
      hide UpToDate, Proper, AllProper, Remembers, Parsing, StdinInOrder, AllTrack;
      client.stdoutOffset, client.stderrOffset := 0, 0;
      client.conn := Conn([], true, serial, 0, 0, [], []);
      FreshConn(client.conn);
    }

    /** `maybe_send_session_exit`. */
    method MaybeSendExit(client: Client)
      requires Valid() && Linked(client)
      modifies client, this`told
      ensures Valid() && Linked(client)
      ensures if old(client.fd) < 0 || !Finished() then
                client.fd == old(client.fd) && client.conn == old(client.conn) && client.past == old(client.past) &&
                client.line == old(client.line) && told == old(told)
              else
                && client.fd < 0 && client.past == old(client.past) + [Farewell(old(client.conn), exitCode, old(client.line))]
                && (client.line == 0 || LastTold(client.past, exitCode))
    {
      hide UpToDate, Proper, AllProper, Remembers, Parsing, StdinInOrder, Fifo, AllTrack, Tracks, Base, OutputsValid, ControlValid;
      if client.fd < 0 {
        return;
      }
      if !Finished() {
        return;
      }
      SayGoodbye(client);
    }

    /** The frame is one this session takes from this client now: input it owns,
        at the offset it has reached, while none is pending, or a terminal's size. */
    predicate Acceptable(client: Client, f: Frame)
      reads this, stdout`isOpen, client
    {
      if f.stream == TERMINAL_STREAM then
        && tty
        && if f.kind == RESIZE then |f.payload| == 4 && ReadLe(f.payload[..2]) != 0 && ReadLe(f.payload[2..]) != 0
           else
             && ((f.kind == DATA && stdout.isOpen) || (f.kind == CLOSE && f.payload == []))
             && client.terminalOwner && f.offset == client.terminalInputOffset
      else
        && f.stream == STDIN_STREAM && client.stdinOwner && f.offset == client.stdinOffset
        && ((f.kind == DATA && stdinOpen && pending == []) || (f.kind == CLOSE && f.payload == []))
    }

    /** `handle_spio_frame`. A terminal's own input is not followed past its acceptance. */
    method HandleFrame(client: Client, f: Frame) returns (accepted: bool)
      requires ControlValid()
      modifies this`stdinOpen, this`pending, this`pendingOff, this`closePending, this`stdin
      modifies client`stdinOffset, client`terminalInputOffset
      ensures ControlValid() && (accepted <==> old(Acceptable(client, f)))
      ensures stdin.accepted == old(stdin).accepted + (if accepted && Carries(f, STDIN_STREAM) then f.payload else [])
      ensures client.stdinOffset == old(client.stdinOffset) + (if accepted && Carries(f, STDIN_STREAM) then |f.payload| else 0)
      ensures client.terminalInputOffset == old(client.terminalInputOffset) + (if accepted && Carries(f, TERMINAL_STREAM) then |f.payload| else 0)
      ensures accepted && Carries(f, STDIN_STREAM) ==> f.offset == old(client.stdinOffset)
      ensures old(stdin).written <= stdin.written
      ensures accepted && f.kind == CLOSE && f.stream == STDIN_STREAM && old(stdinOpen) ==>
                if old(pending) == [] then stdin.ending == Clean && stdin.written == stdin.accepted else closePending
      ensures stdin.ending == Clean && old(stdin).ending == Flowing && !old(closePending) ==>
                f.kind == CLOSE && f.stream == STDIN_STREAM && stdin.written == stdin.accepted
      ensures old(pending) == [] && !old(closePending) ==> !closePending
      ensures !accepted || !old(stdinOpen) ==> stdin == old(stdin) && stdinOpen == old(stdinOpen)
      ensures old(stdinOpen) && !stdinOpen && !old(closePending) ==> InputEnded(stdin, [f])
    {
      hide Fifo;
      if f.kind == DATA {
        if f.stream == TERMINAL_STREAM {
          if !tty || !stdout.isOpen || !client.terminalOwner || f.offset != client.terminalInputOffset {
            return false;
          }
          client.terminalInputOffset := client.terminalInputOffset + |f.payload|;
          return true;
        }
        if f.stream != STDIN_STREAM || !client.stdinOwner || !stdinOpen || f.offset != client.stdinOffset || pending != [] {
          return false;
        }
        AcceptsMore(stdin, pending, pendingOff, f.payload);
        pending, pendingOff := f.payload, 0;
        stdin := stdin.(accepted := stdin.accepted + f.payload);
        client.stdinOffset := client.stdinOffset + |f.payload|;
        var room: nat, breaks: bool := *, *;
        OpenIsFlowing(stdin, stdinOpen, pending, pendingOff);
        DrainStdin(room, breaks);
        return true;
      }
      if f.kind == CLOSE {
        if f.stream == TERMINAL_STREAM {
          return tty && f.payload == [] && client.terminalOwner && f.offset == client.terminalInputOffset;
        }
        if f.stream != STDIN_STREAM || f.payload != [] || !client.stdinOwner || f.offset != client.stdinOffset {
          return false;
        }
        assert [f][0] == f;
        if pending == [] {
          FifoAtEnd(stdin, stdinOpen, pending, pendingOff);
          CloseStdin(Clean);
        } else {
          closePending := true;
        }
        return true;
      }
      if f.kind == RESIZE {
        return tty && f.stream == TERMINAL_STREAM && |f.payload| == 4 && ReadLe(f.payload[..2]) != 0 && ReadLe(f.payload[2..]) != 0;
      }
      return false;
    }

    /** The end of a connection that lost or broke its input. */
    method Lose(client: Client)
      requires Valid() && Linked(client) && client.fd >= 0
      modifies this`stdinOpen, this`pending, this`pendingOff, this`closePending, this`stdin, client
      ensures Valid() && Linked(client) && client.fd < 0 && client.line == old(client.line) && (closePending ==> old(closePending))
      ensures client.past == old(client.past) + [old(client.conn)]
      ensures if old(client.stdinOwner && stdinOpen) then !stdinOpen && stdin == old(stdin).(ending := Cut) else stdin == old(stdin) && stdinOpen == old(stdinOpen)
    {
      hide UpToDate, Proper, AllProper, Remembers, Parsing, StdinInOrder, Fifo, AllTrack, Tracks, OutputsValid, ControlValid, NoExit;
      ghost var past, c := client.past, client.conn;
      UpToDateIsProper(c);
      NoExitYet(c);
      TracksPart(c, serial, StoryNow());
      OneMoreTracks(past, c, serial, StoryNow());
      InputLost(client);
    }

    /** A frame is whole: it is handled, or the connection is at an end. */
    method FinishFrame(client: Client, f: Frame, ghost received: seq<byte>) returns (accepted: bool)
      requires Valid() && Linked(client) && client.fd >= 0 && !closePending && pending == []
      requires Parsing(IDLE, Input(received, client.input.handled + [f]))
      modifies this`stdinOpen, this`pending, this`pendingOff, this`closePending, this`stdin, client
      ensures Valid() && Linked(client) && !closePending
      ensures (accepted <==> old(Acceptable(client, f))) && client.line == old(client.line)
      ensures if accepted then client.fd == old(client.fd) else client.fd < 0
      ensures accepted ==> client.input == Input(received, old(client.input).handled + [f]) && client.parser == IDLE
      ensures stdin.accepted == old(stdin).accepted + (if accepted && Carries(f, STDIN_STREAM) then f.payload else [])
      ensures old(stdin).written <= stdin.written
      ensures !old(stdinOpen) ==> !stdinOpen && stdin == old(stdin)
      ensures if accepted then client.stdinOwner == old(client.stdinOwner) && (old(stdinOpen) && !stdinOpen ==> InputEnded(stdin, [f]))
              else old(client.stdinOwner) ==> !stdinOpen
    {
      hide UpToDate, Proper, AllProper, Remembers, Parsing, StdinInOrder, Fifo, AllTrack, Tracks, OutputsValid, ControlValid, InputEnded;
      accepted := HandleFrame(client, f);
      if accepted {
        NextInOrder(client.input.handled, old(client.stdinOffset), f);
        client.parser := IDLE;
        client.input := Input(received, client.input.handled + [f]);
      } else {
        Lose(client);
      }
    }

    /** Header bytes: not enough yet or a payload to come, nonsense, or a frame without payload. */
    method FeedHeader(client: Client, bytes: seq<byte>) returns (p: Progress)
      requires Linked(client) && client.fd >= 0 && |client.parser.header| < HEADER_LEN && 0 < |bytes| <= HEADER_LEN - |client.parser.header|
      modifies client`parser, client`input
      ensures Linked(client) && client.input.handled == old(client.input).handled
      ensures p.More? ==> client.input.received == old(client.input).received + bytes && |client.parser.header| == |old(client.parser).header| + |bytes|
      ensures !p.More? ==> client.input == old(client.input)
      ensures p.Nonsense? ==> Decode(client.input.received + bytes) == Reading(client.input.handled, Broken)
      ensures p.Complete? ==> Parsing(IDLE, Input(client.input.received + bytes, client.input.handled + [p.frame]))
    {
      hide UpToDate, Proper, AllProper, Remembers, Parsing, StdinInOrder, AllTrack, ParseHeader;
      var h := client.parser.header + bytes;
      if |h| < HEADER_LEN {
        HeaderGrows(client.parser, client.input, bytes);
        client.parser := client.parser.(header := h);
        client.input := client.input.(received := client.input.received + bytes);
        return More;
      }
      var parsed := ParseHeader(h);
      if parsed.Bad? {
        HeaderBreaks(client.parser, client.input, bytes);
        return Nonsense;
      }
      HeaderDone(client.parser, client.input, bytes);
      var head := parsed.head;
      if head.len == 0 {
        return Complete(Frame(head.kind, head.stream, head.offset, []));
      }
      client.parser := Parser(h, head, []);
      client.input := client.input.(received := client.input.received + bytes);
      return More;
    }

    /** Payload bytes: not enough yet, or a whole frame. */
    method FeedPayload(client: Client, bytes: seq<byte>) returns (p: Progress)
      requires Linked(client) && client.fd >= 0 && |client.parser.header| >= HEADER_LEN && |bytes| <= client.parser.head.len - |client.parser.payload|
      modifies client`parser, client`input
      ensures Linked(client) && client.input.handled == old(client.input).handled && !p.Nonsense?
      ensures p.More? ==> client.input.received == old(client.input).received + bytes
      ensures !p.More? ==> client.input == old(client.input)
      ensures p.Complete? ==> Parsing(IDLE, Input(client.input.received + bytes, client.input.handled + [p.frame]))
    {
      hide UpToDate, Proper, AllProper, Remembers, Parsing, StdinInOrder, AllTrack, ParseHeader;
      HeaderIsWhole(client.parser, client.input);
      PayloadGrows(client.parser, client.input, bytes);
      var payload, head := client.parser.payload + bytes, client.parser.head;
      if |payload| < head.len {
        client.parser := client.parser.(payload := payload);
        client.input := client.input.(received := client.input.received + bytes);
        return More;
      }
      return Complete(Frame(head.kind, head.stream, head.offset, payload));
    }

    /** `pump_client_v1`: takes what the connection has to offer, `incoming` cut
        into whatever pieces the kernel hands out, frame by frame until input is
        pending. `fs` are the frames accepted, in order. The client is given up
        only when its connection is lost, or has sent nonsense or a frame that is
        not acceptable. */
    method PumpClient(client: Client, incoming: seq<byte>, lost: bool) returns (rest: seq<byte>, ghost taken: seq<byte>, ghost fs: seq<Frame>)
      requires Valid() && Linked(client) && !closePending
      modifies this`stdinOpen, this`pending, this`pendingOff, this`closePending, this`stdin, client
      ensures Valid() && Linked(client) && !closePending
      ensures (client.fd == old(client.fd) || client.fd < 0) && client.line == old(client.line)
      ensures stdin.accepted == old(stdin).accepted + Delivered(fs, STDIN_STREAM) && old(stdin).written <= stdin.written
      ensures incoming == taken + rest && (old(client.fd) >= 0 && old(pending) == [] && incoming != [] ==> taken != [])
      ensures old(client.fd) >= 0 && client.fd < 0 ==>
                (lost && rest == []) || Offends(old(client.input).received + taken, old(client.input).handled + fs)
      ensures client.fd >= 0 ==> client.input == Input(old(client.input).received + taken, old(client.input).handled + fs)
      ensures old(client.fd) >= 0 && old(pending) == [] && incoming == [] && lost ==> client.fd < 0
      ensures old(client.fd) < 0 || old(pending) != [] ==>
                client.fd == old(client.fd) && stdin == old(stdin) && stdinOpen == old(stdinOpen) && pending == old(pending)
      ensures !old(stdinOpen) ==> !stdinOpen
      ensures old(client.fd) >= 0 && client.fd < 0 && old(client.stdinOwner) ==> !stdinOpen
      ensures client.fd >= 0 ==> client.stdinOwner == old(client.stdinOwner) && (old(stdinOpen) && !stdinOpen ==> InputEnded(stdin, fs))
      ensures old(client.fd) < 0 ==> client.fd == old(client.fd) && client.past == old(client.past) && client.line == old(client.line)
    {
      hide *;
      rest, taken, fs := incoming, [], [];
      NothingDelivered();
      if client.fd < 0 || pending != [] {
        return;
      }
      rest, taken, fs := PumpFrames(client, incoming, lost);
    }

    /** Its loop, over one receive after the other. */
    method PumpFrames(client: Client, incoming: seq<byte>, lost: bool) returns (rest: seq<byte>, ghost taken: seq<byte>, ghost fs: seq<Frame>)
      requires Valid() && Linked(client) && !closePending && client.fd >= 0 && pending == []
      modifies this`stdinOpen, this`pending, this`pendingOff, this`closePending, this`stdin, client
      ensures Valid() && Linked(client) && !closePending
      ensures (client.fd == old(client.fd) || client.fd < 0) && client.line == old(client.line)
      ensures stdin.accepted == old(stdin).accepted + Delivered(fs, STDIN_STREAM) && old(stdin).written <= stdin.written
      ensures incoming == taken + rest && (incoming != [] ==> taken != [])
      ensures client.fd < 0 ==>
                (lost && rest == []) || Offends(old(client.input).received + taken, old(client.input).handled + fs)
      ensures client.fd >= 0 ==> client.input == Input(old(client.input).received + taken, old(client.input).handled + fs)
      ensures incoming == [] && lost ==> client.fd < 0
      ensures (!old(stdinOpen) ==> !stdinOpen) && (client.fd < 0 && old(client.stdinOwner) ==> !stdinOpen)
      ensures client.fd >= 0 ==> client.stdinOwner == old(client.stdinOwner) && (old(stdinOpen) && !stdinOpen ==> InputEnded(stdin, fs))
    {
      hide OutputsValid, ControlValid, Delivered, Linked, Decode, Offends, InputEnded, Valid;
      rest, taken, fs := incoming, [], [];
      NothingDelivered();
      ghost var received, handled := client.input.received, client.input.handled;
      assert received + [] == received && handled + [] == handled;
      while true
        invariant Valid() && Linked(client) && !closePending && pending == [] && client.fd == old(client.fd) && client.line == old(client.line)
        invariant stdin.accepted == old(stdin).accepted + Delivered(fs, STDIN_STREAM) && old(stdin).written <= stdin.written
        invariant incoming == taken + rest && (rest == incoming || taken != [])
        invariant client.input == Input(received + taken, handled + fs)
        invariant client.stdinOwner == old(client.stdinOwner) && (!old(stdinOpen) ==> !stdinOpen) && (old(stdinOpen) && !stdinOpen ==> InputEnded(stdin, fs))
        decreases |rest|
      {
        if rest == [] {
          if lost {
            Lose(client);
          }
          return;
        }
        var room := Room(client);
        var most := Least(|rest|, room);
        var n :| 0 < n <= most;
        var bytes := rest[..n];
        TakesMore(received, taken, rest, n);
        var turn;
        ghost var got;
        turn, got := TakeBytes(client, bytes);
        EndedBefore(stdin, fs, got);
        OneMoreGot(handled, fs, got);
        rest, taken, fs := rest[n..], taken + bytes, fs + got;
        if !turn.Again? {
          return;
        }
      }
    }

    /** One `recv`, and what it completes: the next one follows, or not for now, or never. */
    method TakeBytes(client: Client, bytes: seq<byte>) returns (turn: Turn, ghost got: seq<Frame>)
      requires Valid() && Linked(client) && client.fd >= 0 && !closePending && pending == []
      requires 0 < |bytes| && (if |client.parser.header| < HEADER_LEN then |bytes| <= HEADER_LEN - |client.parser.header|
                               else |bytes| <= client.parser.head.len - |client.parser.payload|)
      modifies this`stdinOpen, this`pending, this`pendingOff, this`closePending, this`stdin, client
      ensures Valid() && Linked(client) && !closePending && client.line == old(client.line) && (turn.Again? ==> pending == [])
      ensures old(stdin).accepted <= stdin.accepted && old(stdin).written <= stdin.written
      ensures forall fs :: Delivered(fs + got, STDIN_STREAM) == Delivered(fs, STDIN_STREAM) + stdin.accepted[|old(stdin).accepted|..]
      ensures if turn.Gone? then
                client.fd < 0 && got == [] && Offends(old(client.input).received + bytes, old(client.input).handled)
              else
                client.fd == old(client.fd) && client.input == Input(old(client.input).received + bytes, old(client.input).handled + got)
      ensures !old(stdinOpen) ==> !stdinOpen && stdin == old(stdin)
      ensures if turn.Gone? then old(client.stdinOwner) ==> !stdinOpen
              else client.stdinOwner == old(client.stdinOwner) && (old(stdinOpen) && !stdinOpen ==> InputEnded(stdin, got))
    {
      hide Parsing, OutputsValid, ControlValid, ParseHeader, Delivered, Linked, Decode, Acceptable, Offends, InputEnded;
      got := [];
      var inHeader := |client.parser.header| < HEADER_LEN;
      ghost var received, handled, accepted := client.input.received + bytes, client.input.handled, stdin.accepted;
      var p;
      if inHeader {
        p := FeedHeader(client, bytes);
      } else {
        p := FeedPayload(client, bytes);
      }
      match p {
        case More =>
          turn := if inHeader && |client.parser.header| < HEADER_LEN then Enough else Again;
        case Nonsense =>
          BreaksOffends(received, handled);
          Lose(client);
          turn := Gone;
        case Complete(f) =>
          var ok := FinishFrame(client, f, received);
          if !ok {
            RefusedOffends(received, handled, f);
            turn := Gone;
          } else {
            got := [f];
            turn := if inHeader || pending != [] then Enough else Again;
          }
      }
      forall fs ensures Delivered(fs + got, STDIN_STREAM) == Delivered(fs, STDIN_STREAM) + stdin.accepted[|accepted|..] {
        if got == [] {
          assert fs + got == fs;
        } else {
          DeliveredOne(fs, got[0]);
        }
      }
    }

    /** What the next `recv` asks for. */
    method Room(client: Client) returns (n: nat)
      requires Linked(client) && client.fd >= 0
      ensures 0 < n
      ensures n == if |client.parser.header| < HEADER_LEN then HEADER_LEN - |client.parser.header| else client.parser.head.len - |client.parser.payload|
    {
      if |client.parser.header| < HEADER_LEN {
        return HEADER_LEN - |client.parser.header|;
      }
      HeaderIsWhole(client.parser, client.input);
      return client.parser.head.len - |client.parser.payload|;
    }

    /** `send_client_terminal_output`, at the offset the client has reached. */
    method SendTerminal(client: Client, buf: seq<byte>)
      requires Valid() && Linked(client) && client.fd >= 0
      modifies this`stdinOpen, this`pending, this`pendingOff, this`closePending, this`stdin, client
      ensures Valid() && Linked(client) && (closePending ==> old(closePending))
      ensures var fs := Chunks(TERMINAL_STREAM, old(client.terminalOffset), buf);
              if |fs| <= old(client.line) then
                && client.fd == old(client.fd) && client.terminalOffset == old(client.terminalOffset) + |buf|
                && client.conn == old(client.conn).(log := old(client.conn).log + fs)
              else client.fd < 0 && client.line == 0
      ensures client.fd >= 0 ==> Delivered(client.conn.log, TERMINAL_STREAM) == old(Delivered(client.conn.log, TERMINAL_STREAM)) + buf
      ensures stdin.accepted == old(stdin).accepted && stdin.written == old(stdin).written
      ensures client.fd >= 0 ==> Notices(client.conn.log) == old(Notices(client.conn.log))
    {
      hide UpToDate, Proper, AllProper, Remembers, Parsing, StdinInOrder, Fifo, AllTrack, Tracks, OutputsValid, ControlValid, Chunks, BatchesOf, Upto, EncodeAll, Concat, Notices, Delivered;
      ghost var before := client.conn;
      var ok;
      ghost var k, writes;
      ok, k, writes := client.SendData(TERMINAL_STREAM, client.terminalOffset, buf);
      ChunksOfOther(TERMINAL_STREAM, client.terminalOffset, buf, k, STDOUT_STREAM);
      ChunksOfOther(TERMINAL_STREAM, client.terminalOffset, buf, k, STDERR_STREAM);
      SentElsewhere(before, Chunks(TERMINAL_STREAM, client.terminalOffset, buf)[..k]);
      ChunksAreNoNotices(before.log, TERMINAL_STREAM, client.terminalOffset, buf, k);
      ChunksDeliver(before.log, TERMINAL_STREAM, client.terminalOffset, buf, k);
      Clients.AllCovered(TERMINAL_STREAM, client.terminalOffset, buf);
      assert ok ==> Chunks(TERMINAL_STREAM, client.terminalOffset, buf)[..k] == Chunks(TERMINAL_STREAM, client.terminalOffset, buf);
      if !ok {
        Lose(client);
        return;
      }
      client.terminalOffset := client.terminalOffset + |buf|;
    }

    /** `pump_session_terminal`. */
    method PumpTerminal(client: Client, pieces: seq<seq<byte>>, ended: bool)
      requires Valid() && Linked(client)
      modifies this`stdinOpen, this`pending, this`pendingOff, this`closePending, this`stdin, client, stdout`isOpen
      ensures Valid() && Linked(client) && Follows(old(StoryNow()), StoryNow()) && (closePending ==> old(closePending))
      ensures client.fd == old(client.fd) || (client.fd < 0 && client.line == 0)
      ensures stdout.isOpen == (old(stdout.isOpen) && !(tty && ended))
      ensures tty && old(stdout.isOpen) && client.fd >= 0 ==>
                client.terminalOffset == old(client.terminalOffset) + |Flat(pieces)| && Delivered(client.conn.log, TERMINAL_STREAM) == old(Delivered(client.conn.log, TERMINAL_STREAM)) + Flat(pieces)
      ensures old(client.fd) < 0 ==> client.fd == old(client.fd) && client.past == old(client.past) && client.line == old(client.line)
      ensures stdin.accepted == old(stdin).accepted && stdin.written == old(stdin).written
      ensures client.fd >= 0 ==> Notices(client.conn.log) == old(Notices(client.conn.log))
    {
      hide OutputsValid, ControlValid, Linked, Follows, Chunks, Notices, Delivered;
      FollowsItself(StoryNow());
      if !tty || !stdout.isOpen {
        return;
      }
      for i := 0 to |pieces|
        invariant stdout.isOpen && StoryNow() == old(StoryNow()) && (old(client.fd) < 0 ==> client.fd == old(client.fd) && client.past == old(client.past) && client.line == old(client.line))
        invariant Valid() && Linked(client) && (closePending ==> old(closePending)) && stdin.accepted == old(stdin).accepted && stdin.written == old(stdin).written
        invariant client.fd >= 0 ==> Notices(client.conn.log) == old(Notices(client.conn.log))
        invariant client.fd == old(client.fd) || (client.fd < 0 && client.line == 0)
        invariant client.fd >= 0 ==> client.terminalOffset == old(client.terminalOffset) + |Flat(pieces[..i])|
        invariant client.fd >= 0 ==> Delivered(client.conn.log, TERMINAL_STREAM) == old(Delivered(client.conn.log, TERMINAL_STREAM)) + Flat(pieces[..i])
      {
        assert pieces[..i + 1][..i] == pieces[..i];
        if client.fd >= 0 {
          SendTerminal(client, pieces[i]);
        }
      }
      assert pieces[..|pieces|] == pieces;
      if ended {
        Shut(client, stdout);
      }
    }

    /** `pump_session_output`. */
    method PumpOutput(client: Client, isStdout: bool, pieces: seq<seq<byte>>, ended: bool)
      requires Valid() && Linked(client)
      modifies this`stdinOpen, this`pending, this`pendingOff, this`closePending, this`stdin, client
      modifies stdout, stderr, stdout.replay, stderr.replay, stdout.replay.data, stderr.replay.data
      ensures Valid() && Linked(client) && Follows(old(StoryNow()), StoryNow()) && (closePending ==> old(closePending))
      ensures client.fd == old(client.fd) || (client.fd < 0 && client.line == 0)
      ensures ShapeNow() == Took(old(ShapeNow()), isStdout, pieces, ended)
      ensures tty && isStdout && old(stdout.isOpen) && client.fd >= 0 ==>
                Delivered(client.conn.log, TERMINAL_STREAM) == old(Delivered(client.conn.log, TERMINAL_STREAM)) + Flat(pieces)
      ensures old(client.fd) < 0 ==> client.fd == old(client.fd) && client.past == old(client.past) && client.line == old(client.line)
      ensures stdin.accepted == old(stdin).accepted && stdin.written == old(stdin).written
      ensures client.fd >= 0 ==> Notices(client.conn.log) == old(Notices(client.conn.log))
    {
      hide OutputsValid, ControlValid, Linked, Flat, Follows, StoryNow, Notices, Delivered;
      StreamsApart();
      if isStdout && tty {
        PumpTerminal(client, pieces, ended);
      } else {
        PumpStream(client, if isStdout then stdout else stderr, pieces, ended);
      }
    }

    lemma StreamsApart()
      requires OutputsValid()
      ensures stdout != stderr && stdout.replay != stderr.replay && stdout.replay.data != stderr.replay.data
    {
    }

    /** `poll_session_exit`: once the child is gone, what its pipes still hold is
        taken and they are closed. */
    method PollExit(client: Client, status: ChildStatus, outPieces: seq<seq<byte>>, errPieces: seq<seq<byte>>)
      requires Valid() && Linked(client) && Settled()
      modifies this`stdinOpen, this`pending, this`pendingOff, this`closePending, this`stdin, this`exited, this`exitCode, client
      modifies stdout, stderr, stdout.replay, stderr.replay, stdout.replay.data, stderr.replay.data
      ensures Valid() && Linked(client) && Settled() && Follows(old(StoryNow()), StoryNow()) && (closePending ==> old(closePending))
      ensures client.fd == old(client.fd) || (client.fd < 0 && client.line == 0)
      ensures ShapeNow() == Waited(old(ShapeNow()), status, outPieces, errPieces)
      ensures tty && started && !old(exited) && !status.Alive? && old(stdout.isOpen) && client.fd >= 0 ==>
                Delivered(client.conn.log, TERMINAL_STREAM) == old(Delivered(client.conn.log, TERMINAL_STREAM)) + Flat(outPieces)
      ensures old(client.fd) < 0 ==> client.fd == old(client.fd) && client.past == old(client.past) && client.line == old(client.line)
      ensures stdin.accepted == old(stdin).accepted && stdin.written == old(stdin).written
    {
      hide OutputsValid, ControlValid, Linked, Fifo, Flat, Follows, StoryNow, Delivered;
      ghost var start := StoryNow();
      FollowsItself(start);
      if !started || exited {
        return;
      }
      if status.Alive? {
        return;
      }
      StreamsApart();
      TerminalIsOne();
      MarkExited(client, status.code);
      ghost var marked := StoryNow();
      if tty {
        PumpTerminal(client, outPieces, false);
      } else {
        PumpStream(client, stdout, outPieces, false);
        ghost var halfway := StoryNow();
        FollowsOn(start, marked, halfway);
        PumpStream(client, stderr, errPieces, false);
        marked := halfway;
      }
      FollowsOn(start, marked, StoryNow());
      CloseOutputs(client, start);
    }

    lemma OpenIsNotEnded(fs: seq<Frame>)
      requires ControlValid()
      ensures stdinOpen ==> !InputEnded(stdin, fs)
    {
    }

    lemma TerminalIsOne()
      requires ControlValid()
      ensures tty ==> !stderr.isOpen
    {
    }

    /** Both output pipes are closed, whoever else may hold their other ends. */
    method CloseOutputs(client: Client, ghost start: Story)
      requires Valid() && Linked(client) && Follows(start, StoryNow())
      modifies stdout`isOpen, stderr`isOpen
      ensures Valid() && Linked(client) && Follows(start, StoryNow()) && !stdout.isOpen && !stderr.isOpen
    {
      hide OutputsValid, ControlValid, Linked, Follows, StoryNow;
      StreamsApart();
      ghost var before := StoryNow();
      if stdout.isOpen {
        Shut(client, stdout);
        FollowsOn(start, before, StoryNow());
      }
      before := StoryNow();
      if stderr.isOpen {
        Shut(client, stderr);
        FollowsOn(start, before, StoryNow());
      }
    }

    method MarkExited(client: Client, code: int)
      requires Valid() && Linked(client) && started && !exited
      modifies this`stdinOpen, this`pending, this`pendingOff, this`closePending, this`stdin, this`exited, this`exitCode
      ensures Valid() && Linked(client) && exited && exitCode == code && !closePending && !stdinOpen
      ensures Follows(old(StoryNow()), StoryNow())
      ensures stdin.accepted == old(stdin).accepted && stdin.written == old(stdin).written
    {
      hide OutputsValid, UpToDate, Proper, AllProper, Remembers, Parsing, StdinInOrder, Fifo, AllTrack;
      ghost var before := StoryNow();
      CloseStdin(Cut);
      exitCode, exited := code, true;
      TracksMore(client.past, serial, before, StoryNow());
    }

    method ResetStreams()
      requires OutputsValid()
      modifies stdout, stderr, stdout.replay, stderr.replay
      ensures OutputsValid() && stdout.stream == [] && stderr.stream == [] && !stdout.isOpen && !stderr.isOpen
    {
      hide Base;
      stdout.Reset();
      stderr.Reset();
    }

    /** `reset_session`, and the `memset` of `start_session`. */
    method Reset()
      requires Valid()
      modifies this, stdout, stderr, stdout.replay, stderr.replay
      ensures Valid() && Settled() && !started && !exited && !closePending && serial == old(serial)
      ensures stdout.stream == [] && stderr.stream == [] && stdin == Stdin([], [], Cut) && pending == [] && pendingOff == 0
      ensures !told
    {
      hide OutputsValid, ControlValid, Fifo;
      ResetStreams();
      ResetStdin();
      ResetControl();
    }

    method ResetControl()
      requires !stdout.isOpen && !stderr.isOpen && !stdinOpen && pending == [] && pendingOff == 0 && stdin == Stdin([], [], Cut)
      modifies this`started, this`exited, this`exitCode, this`sessionId, this`tty, this`told
      ensures ControlValid() && Settled() && !started && !exited && !told
    {
      started, exited, exitCode, sessionId, tty, told := false, false, 0, "", false, false;
    }

    method ResetStdin()
      modifies this`stdinOpen, this`stdinCapable, this`pending, this`pendingOff, this`closePending, this`stdin
      ensures !stdinOpen && !closePending && stdin == Stdin([], [], Cut) && pending == [] && pendingOff == 0
    {
      stdinOpen, stdinCapable, pending, pendingOff, closePending := false, false, [], 0, false;
      stdin := Stdin([], [], Cut);
    }

    /** `start_session`: the pipes and the child are there, or nothing is. */
    method Start(sessionId: string, stdinEnabled: bool, tty: bool, starts: bool, ghost serial: nat) returns (ok: bool)
      requires Valid()
      modifies this, stdout, stderr, stdout.replay, stderr.replay
      ensures Valid() && Settled() && !exited && !closePending && this.serial == serial
      ensures stdout.stream == [] && stderr.stream == [] && ok == started == starts
      ensures ok ==> this.sessionId == sessionId && this.tty == tty && stdout.isOpen && stderr.isOpen == !tty && !Finished()
      ensures ok ==> stdinOpen == stdinCapable == stdinEnabled && pending == []
      ensures !told
    {
      hide OutputsValid;
      Reset();
      this.serial := serial;
      ok := starts;
      if ok {
        Open(sessionId, stdinEnabled, tty);
      }
    }

    method Open(sessionId: string, stdinEnabled: bool, tty: bool)
      requires Valid() && Unused()
      modifies this, stdout`isOpen, stderr`isOpen
      ensures Valid() && started && !exited && serial == old(serial) && closePending == old(closePending)
      ensures this.sessionId == sessionId && this.tty == tty && stdout.isOpen && stderr.isOpen == !tty
      ensures stdinOpen == stdinCapable == stdinEnabled && stdin.accepted == [] && stdin.written == [] && pending == []
      ensures told == old(told)
    {
      hide OutputsValid;
      OpenStreams(tty);
      started, this.sessionId, this.tty := true, sessionId, tty;
      stdinOpen, stdinCapable := stdinEnabled, stdinEnabled;
      if stdinEnabled {
        stdin := Stdin([], [], Flowing);
      }
    }

    method OpenStreams(tty: bool)
      requires OutputsValid()
      modifies stdout`isOpen, stderr`isOpen
      ensures OutputsValid() && stdout.isOpen && stderr.isOpen == !tty
    {
      hide Base;
      stdout.isOpen, stderr.isOpen := true, !tty;
    }
  }

  lemma StandsInPlace(c: Conn, out: nat, err: nat, stdoutOffset: nat, stderrOffset: nat)
    requires AtOffsets(c, out, err, stdoutOffset, stderrOffset)
    ensures InPlace(c, out, err)
  {
  }

  lemma FreshConn(c: Conn)
    requires c.log == [] && c.fromOut == |c.out| && c.fromErr == |c.err|
    ensures UpToDate(c)
  {
  }

  lemma NoExitYet(c: Conn)
    requires UpToDate(c)
    ensures NoExit(c.log)
  {
  }

  lemma UnservedIsNotOf(c: Conn, keep: Keep)
    requires !c.served
    ensures NotOf(c, keep)
  {
  }

  /** The bytes hold nonsense, or a frame more than those accepted. */
  ghost predicate Offends(bytes: seq<byte>, accepted: seq<Frame>) {
    Decode(bytes).rest.Broken? || exists f :: Decode(bytes).frames == accepted + [f]
  }

  lemma TakesMore(received: seq<byte>, taken: seq<byte>, rest: seq<byte>, n: nat)
    requires n <= |rest|
    ensures received + taken + rest[..n] == received + (taken + rest[..n]) && taken + rest[..n] + rest[n..] == taken + rest
  {
  }

  lemma OneMoreGot(handled: seq<Frame>, fs: seq<Frame>, got: seq<Frame>)
    ensures handled + fs + got == handled + (fs + got) && fs + [] == fs
  {
  }

  lemma BreaksOffends(bytes: seq<byte>, accepted: seq<Frame>)
    requires Decode(bytes) == Reading(accepted, Broken)
    ensures Offends(bytes, accepted)
  {
  }

  lemma RefusedOffends(bytes: seq<byte>, accepted: seq<Frame>, f: Frame)
    requires Parsing(IDLE, Input(bytes, accepted + [f]))
    ensures Offends(bytes, accepted)
  {
  }

  lemma FollowsItself(s: Story)
    ensures Follows(s, s)
  {
  }

  lemma PrefixGrows(part: seq<byte>, stream: seq<byte>, offset: nat, piece: seq<byte>)
    requires offset + |piece| <= |stream| && piece == stream[offset..offset + |piece|]
    ensures |part| == offset && part <= stream ==> part + piece <= stream
  {
  }
}
